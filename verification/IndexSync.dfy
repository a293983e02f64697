/**
 * The index agrees with the chain (apps/registry/src/indexer.ts:6-57, 354-367).
 *
 * Over whole runs of ticks: while the chain only moves inside the re-scan window the stored rows
 * are exactly the chain's; on a fixed chain every run that reaches the head stores the same rows;
 * and how far one tick moves the cursor, forward or back.
 */
module IndexSync {
  import opened Chain
  import opened IndexRuns
  import opened Indexer
  import opened Sink
  import opened Sums
  import opened Wrappers

  function LastBlock(s: SinkState, o: Options): int {
    CursorOf(s, o).lastBlock
  }

  function WindowOf(s: SinkState, o: Options): nat {
    WindowFrom(LastBlock(s, o), o)
  }

  /** Nothing is stored below the start block, and the cursor is not below it either. */
  ghost predicate Started(s: SinkState, o: Options) {
    Coherent(s) && o.startBlock - 1 <= LastBlock(s, o) && forall n :: n in s.blocks ==> o.startBlock <= n
  }

  /** From the start block to the cursor, the block table is the one a full scan of c produces. */
  ghost predicate Synced(s: SinkState, c: Chain, o: Options) {
    Started(s, o) && Slice(s.blocks, o.startBlock, LastBlock(s, o)) == ChainBlocks(c, o.startBlock, LastBlock(s, o))
  }

  predicate HasRow(s: SinkState, row: EventLogRow) {
    KeyOf(row) in s.tables.logs && s.tables.logs[KeyOf(row)] == row
  }

  /** In a synced sink the stored rows up to the cursor are exactly the chain's indexed logs. */
  lemma SyncedRows(s: SinkState, c: Chain, o: Options, row: EventLogRow)
    requires Synced(s, c, o)
    ensures HasRow(s, row) && row.blockNumber <= LastBlock(s, o) <==>
              row in Rows(Decoded(LogsBetween(c, o.startBlock, LastBlock(s, o))))
    ensures HasRow(s, row) ==> s.tables.typed[KeyOf(row)] == row.event
  {
    EventRows(c, o.startBlock, LastBlock(s, o), row);
    var n := row.blockNumber;
    if HasRow(s, row) {
      assert Stored(s, KeyOf(row));
    }
    if o.startBlock <= n <= LastBlock(s, o) {
      assert n in s.blocks <==> n in Slice(s.blocks, o.startBlock, LastBlock(s, o));
      assert n in s.blocks <==> n in ChainBlocks(c, o.startBlock, LastBlock(s, o));
      if n < |c| && row.blockHash == HashAt(c, n) && Genuine(row) {
        assert BodyOf(HashAt(c, n)) == c[n];
        CountPositive(c[n].entries, Entry(row.logIndex, row.envelope, Some(row.event)));
        assert Listed(s, row);
        assert Stored(s, KeyOf(row));
        KeyDeterminesRow(row, s.tables.logs[KeyOf(row)]);
      }
    }
  }

  // -------------------------------------------------------------- the anchors

  lemma {:induction false} RecentFacts(blocks: map<nat, BlockRow>, before: nat, limit: nat)
    requires forall n :: n in blocks ==> blocks[n].blockNumber == n
    ensures
      var r := RecentBlocks(blocks, before, limit);
      && |r| <= limit
      && (forall i :: 0 <= i < |r| ==>
            r[i].blockNumber in blocks && r[i].blockNumber < before && blocks[r[i].blockNumber] == r[i])
      && (forall i, j :: 0 <= i < j < |r| ==> r[i].blockNumber > r[j].blockNumber)
    decreases before
  {
    if before != 0 && limit != 0 {
      RecentFacts(blocks, before - 1, if before - 1 in blocks then limit - 1 else limit);
    }
  }

  /** An anchor still matches exactly when the chain carries its block at its height. */
  lemma AnchorMatches(c: Chain, row: BlockRow, n: nat)
    requires IsBlockRow(row, n)
    ensures StillCanonical(c, row) <==> n < |c| && HashAt(c, n) == row.blockHash
  {
    var logs := LogsBetween(c, n, n);
    assert LogsBetween(c, n + 1, n) == [];
    if n < |c| {
      assert logs == BlockLogs(c, n);
      assert BodyOf(HashAt(c, n)) == c[n];
      if HashAt(c, n) == row.blockHash {
        assert logs[0].blockHash == row.blockHash;
      }
    }
  }

  /** The first anchor that matches, or how many there are. */
  function FirstMatch(c: Chain, anchors: seq<BlockRow>): nat {
    if anchors == [] || StillCanonical(c, anchors[0]) then 0 else 1 + FirstMatch(c, anchors[1..])
  }

  /** The walk returns the last anchor above the first match. */
  lemma {:induction false} WalkFacts(c: Chain, anchors: seq<BlockRow>)
    ensures FirstMatch(c, anchors) <= |anchors|
    ensures FirstMatch(c, anchors) < |anchors| ==> StillCanonical(c, anchors[FirstMatch(c, anchors)])
    ensures DivergentAt(c, anchors) ==
              if FirstMatch(c, anchors) == 0 then None else Some(anchors[FirstMatch(c, anchors) - 1].blockNumber)
  {
    if anchors != [] && !StillCanonical(c, anchors[0]) {
      WalkFacts(c, anchors[1..]);
    }
  }

  lemma {:induction false} FirstMatchIsFirst(c: Chain, anchors: seq<BlockRow>, j: nat)
    requires j < |anchors| && StillCanonical(c, anchors[j])
    ensures FirstMatch(c, anchors) <= j
  {
    if j > 0 && !StillCanonical(c, anchors[0]) {
      FirstMatchIsFirst(c, anchors[1..], j - 1);
    }
  }

  /** In a started sink the delete of a tick begins exactly at its range. */
  lemma RangeFacts(s: SinkState, c: Chain, o: Options)
    requires Started(s, o)
    ensures DeleteFrom(Deep(s, c, o), FromBlock(s, c, o)) == FromBlock(s, c, o)
    ensures o.startBlock <= FromBlock(s, c, o) <= WindowOf(s, o) <= LastBlock(s, o) + 1
    ensures Deep(s, c, o).None? ==> FromBlock(s, c, o) == WindowOf(s, o)
    ensures Deep(s, c, o).Some? ==> FromBlock(s, c, o) == Deep(s, c, o).value < WindowOf(s, o)
  {
    RecentFacts(s.blocks, WindowOf(s, o), MAX_ANCHOR_CHECKS);
    WalkFacts(c, Anchors(s, o));
  }

  lemma StartedStep(s: SinkState, c: Chain, o: Options, offer: Option<nat>)
    requires Started(s, o)
    ensures Started(TickState(s, c, o, offer), o)
  {
    TickStep(s, c, o, offer);
    RangeFacts(s, c, o);
  }

  // ----------------------------------------------------- shallow reorganisations

  /**
   * What the chain may do between two ticks: blocks below the next window stay, and if the
   * window holds anything already read, the head stays at or above its start.
   */
  ghost predicate ShallowChange(s: SinkState, c: Chain, c': Chain, o: Options) {
    UnchangedBelow(c, c', WindowOf(s, o)) && (WindowOf(s, o) <= LastBlock(s, o) ==> |c'| > WindowOf(s, o))
  }

  lemma SameTableBelow(c: Chain, c': Chain, w: nat, h: nat)
    requires UnchangedBelow(c, c', w) && h < w
    ensures h in ChainBlocks(c, h, h) <==> h in ChainBlocks(c', h, h)
    ensures h in ChainBlocks(c, h, h) ==> ChainBlocks(c, h, h)[h] == ChainBlocks(c', h, h)[h]
  {
    assert BlockAt(c, h) == BlockAt(c', h);
    if h < |c| {
      SameHashBelow(c, c', w, h);
    }
  }

  lemma SameTables(c: Chain, c': Chain, w: nat, lo: nat, hi: int)
    requires UnchangedBelow(c, c', w) && hi < w
    ensures ChainBlocks(c, lo, hi) == ChainBlocks(c', lo, hi)
  {
    forall h: nat | lo <= h <= hi
      ensures h in ChainBlocks(c, lo, hi) <==> h in ChainBlocks(c', lo, hi)
      ensures h in ChainBlocks(c, lo, hi) ==> ChainBlocks(c, lo, hi)[h] == ChainBlocks(c', lo, hi)[h]
    {
      SameTableBelow(c, c', w, h);
    }
  }

  /** Anchors of a synced sink below an unchanged window all still match. */
  lemma NoDivergence(s: SinkState, c: Chain, c': Chain, o: Options)
    requires Synced(s, c, o) && UnchangedBelow(c, c', WindowOf(s, o))
    ensures Deep(s, c', o).None?
  {
    RangeFacts(s, c', o);
    RecentFacts(s.blocks, WindowOf(s, o), MAX_ANCHOR_CHECKS);
    var anchors := Anchors(s, o);
    if anchors != [] {
      var n := anchors[0].blockNumber;
      assert n in Slice(s.blocks, o.startBlock, LastBlock(s, o));
      assert n in ChainBlocks(c, o.startBlock, LastBlock(s, o));
      assert anchors[0].blockHash == HashAt(c, n);
      SameHashBelow(c, c', WindowOf(s, o), n);
      AnchorMatches(c', anchors[0], n);
    }
  }

  /** A tick after such a change leaves the index synced with the new chain. */
  lemma TickSyncs(s: SinkState, c: Chain, c': Chain, o: Options, offer: Option<nat>)
    requires Synced(s, c, o) && ShallowChange(s, c, c', o)
    requires |c'| > 0 && offer.GetOr(o.logChunkBlocks) >= 1
    ensures Synced(TickState(s, c', o, offer), c', o)
  {
    NoDivergence(s, c, c', o);
    RangeFacts(s, c', o);
    StartedStep(s, c', o, offer);
    TickStep(s, c', o, offer);
    SyncsAfter(s, TickState(s, c', o, offer), c, c', o, ToBlock(s, c', o, offer));
  }

  lemma SyncsAfter(s: SinkState, s': SinkState, c: Chain, c': Chain, o: Options, to: int)
    requires Synced(s, c, o) && ShallowChange(s, c, c', o) && Started(s', o)
    requires o.startBlock <= WindowOf(s, o) <= LastBlock(s, o) + 1
    requires
      if to < WindowOf(s, o) then s' == s && |c'| - 1 < WindowOf(s, o)
      else LastBlock(s', o) == to && s'.blocks == Rewritten(s.blocks, c', WindowOf(s, o), WindowOf(s, o), to)
    ensures Synced(s', c', o)
  {
    TablesAfter(s.blocks, s'.blocks, c, c', o.startBlock, WindowOf(s, o), LastBlock(s, o), LastBlock(s', o), to);
  }

  lemma TablesAfter(
    blocks: map<nat, BlockRow>, blocks': map<nat, BlockRow>, c: Chain, c': Chain, start: nat, w: nat, last: int,
        last': int, to: int)
    requires start <= w <= last + 1 && UnchangedBelow(c, c', w)
    requires Slice(blocks, start, last) == ChainBlocks(c, start, last)
    requires
      if to < w then blocks' == blocks && last' == last < w
      else last' == to && blocks' == Rewritten(blocks, c', w, w, to)
    ensures Slice(blocks', start, last') == ChainBlocks(c', start, last')
  {
    if to < w {
      SameTables(c, c', w, start, last);
    } else {
      BelowRange(c, c', w, start);
      SpliceTables(blocks, c, c', start, w, last, to);
    }
  }

  lemma BelowRange(c: Chain, c': Chain, w: nat, start: nat)
    requires UnchangedBelow(c, c', w)
    ensures ChainBlocks(c, start, w - 1) == ChainBlocks(c', start, w - 1)
  {
    SameTables(c, c', w, start, w - 1);
  }

  /** Old rows below the range and new rows in it make up the new chain's table. */
  lemma SpliceTables(blocks: map<nat, BlockRow>, c: Chain, c': Chain, start: nat, from: nat, last: int, to: int)
    requires start <= from <= last + 1 && from <= to
    requires Slice(blocks, start, last) == ChainBlocks(c, start, last)
    requires ChainBlocks(c, start, from - 1) == ChainBlocks(c', start, from - 1)
    ensures Slice(Rewritten(blocks, c', from, from, to), start, to) == ChainBlocks(c', start, to)
  {
    var result := Slice(Rewritten(blocks, c', from, from, to), start, to);
    forall n: nat | start <= n <= to
      ensures n in result <==> n in ChainBlocks(c', start, to)
      ensures n in result ==> result[n] == ChainBlocks(c', start, to)[n]
    {
      if n < from {
        assert n in blocks <==> n in Slice(blocks, start, last);
        assert n in ChainBlocks(c, start, from - 1) <==> n in ChainBlocks(c, start, last);
        assert n in ChainBlocks(c', start, from - 1) <==> n in ChainBlocks(c', start, to);
      }
    }
  }

  // --------------------------------------------------------------------- runs

  /** One tick of a run: the view of the chain it has, and the chunk its source offers. */
  datatype Turn = Turn(chain: Chain, offer: Option<nat>)

  function RunState(turns: seq<Turn>, o: Options): SinkState {
    if turns == [] then EMPTY_SINK
    else
      var turn := turns[|turns| - 1];
      TickState(RunState(turns[..|turns| - 1], o), turn.chain, o, turn.offer)
  }

  ghost predicate Readable(turn: Turn, o: Options) {
    |turn.chain| > 0 && turn.offer.GetOr(o.logChunkBlocks) >= 1
  }

  /** Every change of the chain between two ticks stays inside the window of the next one. */
  ghost predicate ShallowRun(turns: seq<Turn>, o: Options) {
    forall i :: 0 <= i < |turns| ==>
      Readable(turns[i], o) && (0 < i ==> ShallowChange(RunState(turns[..i], o), turns[i - 1].chain, turns[i].chain, o))
  }

  lemma EmptyIsSynced(c: Chain, o: Options)
    ensures Synced(EMPTY_SINK, c, o)
  {
  }

  /** After every tick of such a run the index is the chain's own, up to the cursor. */
  lemma {:induction false} ShallowRunIsSynced(turns: seq<Turn>, o: Options)
    requires turns != [] && ShallowRun(turns, o)
    ensures Synced(RunState(turns, o), turns[|turns| - 1].chain, o)
  {
    var before, turn := turns[..|turns| - 1], turns[|turns| - 1];
    assert Readable(turn, o);
    if before == [] {
      EmptyIsSynced(turn.chain, o);
      TickSyncs(EMPTY_SINK, turn.chain, turn.chain, o, turn.offer);
    } else {
      forall i | 0 <= i < |before|
        ensures Readable(before[i], o)
        ensures 0 < i ==> ShallowChange(RunState(before[..i], o), before[i - 1].chain, before[i].chain, o)
      {
        assert before[..i] == turns[..i];
        assert Readable(turns[i], o);
      }
      ShallowRunIsSynced(before, o);
      TickSyncs(RunState(before, o), before[|before| - 1].chain, turn.chain, o, turn.offer);
    }
  }

  // --------------------------------------------------------------- a fixed chain

  ghost predicate OnFixedChain(turns: seq<Turn>, c: Chain, o: Options) {
    forall i :: 0 <= i < |turns| ==> turns[i].chain == c && Readable(turns[i], o)
  }

  /** On a fixed chain no precondition on the window is needed, and no row is above the head. */
  lemma {:induction false} FixedChainIsSynced(turns: seq<Turn>, c: Chain, o: Options)
    requires OnFixedChain(turns, c, o)
    ensures Synced(RunState(turns, o), c, o)
    ensures forall n :: n in RunState(turns, o).blocks ==> n < |c|
    ensures LastBlock(RunState(turns, o), o) <= Max(o.startBlock, |c|) - 1
  {
    if turns == [] {
      EmptyIsSynced(c, o);
    } else {
      var before, turn := turns[..|turns| - 1], turns[|turns| - 1];
      FixedChainIsSynced(before, c, o);
      FixedTick(RunState(before, o), c, o, turn.offer);
    }
  }

  lemma FixedTick(s: SinkState, c: Chain, o: Options, offer: Option<nat>)
    requires Synced(s, c, o) && LastBlock(s, o) <= Max(o.startBlock, |c|) - 1
    requires |c| > 0 && offer.GetOr(o.logChunkBlocks) >= 1 && forall n :: n in s.blocks ==> n < |c|
    ensures
      var s' := TickState(s, c, o, offer);
      && Synced(s', c, o) && LastBlock(s', o) <= Max(o.startBlock, |c|) - 1
      && (forall n :: n in s'.blocks ==> n < |c|)
  {
    RangeFacts(s, c, o);
    TickSyncs(s, c, c, o, offer);
    TickStep(s, c, o, offer);
  }

  /** Every stored block row, above the cursor too, is the chain's own. */
  ghost predicate AllOwn(s: SinkState, c: Chain) {
    forall n :: n in s.blocks ==> n in ChainBlocks(c, 0, |c| - 1) && s.blocks[n] == ChainBlocks(c, 0, |c| - 1)[n]
  }

  /** On a fixed chain no reorganisation is ever counted. */
  lemma {:induction false} FixedChainCountsNone(turns: seq<Turn>, c: Chain, o: Options)
    requires OnFixedChain(turns, c, o)
    ensures AllOwn(RunState(turns, o), c) && CursorOf(RunState(turns, o), o).reorgCount == 0
  {
    if turns != [] {
      var before, turn := turns[..|turns| - 1], turns[|turns| - 1];
      FixedChainCountsNone(before, c, o);
      FixedChainIsSynced(before, c, o);
      FixedTickCountsNone(RunState(before, o), c, o, turn.offer);
    }
  }

  lemma FixedTickCountsNone(s: SinkState, c: Chain, o: Options, offer: Option<nat>)
    requires Synced(s, c, o) && AllOwn(s, c)
    ensures AllOwn(TickState(s, c, o, offer), c)
    ensures CursorOf(TickState(s, c, o, offer), o).reorgCount == CursorOf(s, o).reorgCount
  {
    TickStep(s, c, o, offer);
    if !Idle(s, c, o, offer) {
      NoDivergence(s, c, c, o);
      CursorStep(s, c, o, offer);
      OwnIsUnchanged(s, c, FromBlock(s, c, o), ToBlock(s, c, o, offer));
      RewrittenIsOwn(s, TickState(s, c, o, offer), c, DeleteFrom(Deep(s, c, o), FromBlock(s, c, o)),
          FromBlock(s, c, o), ToBlock(s, c, o, offer));
    }
  }

  lemma RewrittenIsOwn(s: SinkState, s': SinkState, c: Chain, deleteFrom: nat, from: nat, last: int)
    requires AllOwn(s, c) && s'.blocks == Rewritten(s.blocks, c, deleteFrom, from, last)
    ensures AllOwn(s', c)
  {
  }

  lemma OwnIsUnchanged(s: SinkState, c: Chain, from: nat, last: int)
    requires AllOwn(s, c)
    ensures !ChangedInRange(s, c, from, last)
  {
    forall n: nat | n in s.blocks && from <= n <= last
      ensures n in ChainBlocks(c, from, last) && ChainBlocks(c, from, last)[n].blockHash == s.blocks[n].blockHash
    {
      assert n in ChainBlocks(c, 0, |c| - 1);
    }
  }

  /**
   * Confluence. Any two runs over the same chain that have reached its head hold the same rows,
   * whatever chunks they read in and however many ticks, repeated or resumed, it took them.
   */
  lemma Confluence(turns: seq<Turn>, turns': seq<Turn>, c: Chain, o: Options)
    requires OnFixedChain(turns, c, o) && OnFixedChain(turns', c, o)
    requires LastBlock(RunState(turns, o), o) == |c| - 1 == LastBlock(RunState(turns', o), o)
    ensures RunState(turns, o).blocks == RunState(turns', o).blocks == ChainBlocks(c, o.startBlock, |c| - 1)
    ensures RunState(turns, o).tables == RunState(turns', o).tables
  {
    FixedChainIsSynced(turns, c, o);
    FixedChainIsSynced(turns', c, o);
    AtHeadTable(RunState(turns, o), c, o);
    AtHeadTable(RunState(turns', o), c, o);
    BlocksDetermineRows(RunState(turns, o), RunState(turns', o));
  }

  lemma AtHeadTable(s: SinkState, c: Chain, o: Options)
    requires Synced(s, c, o) && LastBlock(s, o) == |c| - 1 && forall n :: n in s.blocks ==> n < |c|
    ensures s.blocks == ChainBlocks(c, o.startBlock, |c| - 1) && Coherent(s)
  {
  }

  // ----------------------------------------------------------------- progress

  /**
   * Below the head of an unchanged chain a tick sets the cursor one chunk past the window's start,
   * or at the head. So it moves forward exactly when the chunk is longer than the part of the range
   * it has already read, and back exactly when it is shorter. Configuration does not ensure either.
   */
  lemma ProgressIff(s: SinkState, c: Chain, o: Options, offer: Option<nat>)
    requires Synced(s, c, o) && LastBlock(s, o) < |c| - 1
    requires offer.GetOr(o.logChunkBlocks) >= 1
    ensures
      var before, after, chunk := LastBlock(s, o), LastBlock(TickState(s, c, o, offer), o),
          offer.GetOr(o.logChunkBlocks);
      && after == Min(|c| - 1, WindowOf(s, o) + chunk - 1)
      && (after > before <==> chunk > before + 1 - WindowOf(s, o))
      && (after < before <==> chunk < before + 1 - WindowOf(s, o))
      && before + 1 - WindowOf(s, o) == Min(o.reorgWindowBlocks, before + 1 - o.startBlock)
  {
    NextCursorAt(s, c, o, offer);
    RangeFacts(s, c, o);
  }

  lemma NextRange(s: SinkState, c: Chain, o: Options, offer: Option<nat>)
    requires Synced(s, c, o) && LastBlock(s, o) < |c| - 1 && offer.GetOr(o.logChunkBlocks) >= 1
    ensures !Idle(s, c, o, offer) && ToBlock(s, c, o, offer)
        == Min(|c| - 1, WindowOf(s, o) + offer.GetOr(o.logChunkBlocks) - 1)
  {
    NoDivergence(s, c, c, o);
    RangeFacts(s, c, o);
  }

  lemma NextCursorAt(s: SinkState, c: Chain, o: Options, offer: Option<nat>)
    requires Synced(s, c, o) && LastBlock(s, o) < |c| - 1 && offer.GetOr(o.logChunkBlocks) >= 1
    ensures LastBlock(TickState(s, c, o, offer), o) == Min(|c| - 1, WindowOf(s, o) + offer.GetOr(o.logChunkBlocks) - 1)
  {
    NextRange(s, c, o, offer);
    TickStep(s, c, o, offer);
  }

  /**
   * A chain of ten blocks, a window of four, a chunk of two. A first tick offered six blocks
   * leaves the cursor at 5; the next, offered none, takes it back to 3.
   */
  lemma CursorCanMoveBack(c: Chain, o: Options) returns (s: SinkState)
    requires |c| == 10 && o == Options(0, 2, 4)
    ensures s == TickState(EMPTY_SINK, c, o, Some(6)) && Synced(s, c, o)
    ensures LastBlock(s, o) == 5 && LastBlock(TickState(s, c, o, None), o) == 3
  {
    s := TickState(EMPTY_SINK, c, o, Some(6));
    SixOffered(c, o);
    MovesBack(s, c, o);
  }

  lemma SixOffered(c: Chain, o: Options)
    requires |c| == 10 && o == Options(0, 2, 4)
    ensures
      var s := TickState(EMPTY_SINK, c, o, Some(6));
      Synced(s, c, o) && LastBlock(s, o) == 5
  {
    EmptyIsSynced(c, o);
    NextCursorAt(EMPTY_SINK, c, o, Some(6));
    TickSyncs(EMPTY_SINK, c, c, o, Some(6));
  }

  lemma MovesBack(s: SinkState, c: Chain, o: Options)
    requires |c| == 10 && o == Options(0, 2, 4) && Synced(s, c, o) && LastBlock(s, o) == 5
    ensures LastBlock(TickState(s, c, o, None), o) == 3
  {
    NextCursorAt(s, c, o, None);
  }

  /**
   * With a chunk no longer than the window and nothing offered, the cursor never gets past the
   * first chunk, in any run and however the chain changes.
   */
  lemma {:induction false} ShortChunksStall(turns: seq<Turn>, o: Options)
    requires 1 <= o.logChunkBlocks <= o.reorgWindowBlocks && forall i :: 0 <= i < |turns| ==> turns[i].offer.None?
    ensures Started(RunState(turns, o), o)
    ensures LastBlock(RunState(turns, o), o) <= o.startBlock + o.logChunkBlocks - 1
  {
    if turns == [] {
      EmptyIsSynced([], o);
    } else {
      var turn := turns[|turns| - 1];
      ShortChunksStall(turns[..|turns| - 1], o);
      StalledTick(RunState(turns[..|turns| - 1], o), turn.chain, o);
    }
  }

  lemma StalledTick(s: SinkState, c: Chain, o: Options)
    requires Started(s, o) && LastBlock(s, o) <= o.startBlock + o.logChunkBlocks - 1
    requires 1 <= o.logChunkBlocks <= o.reorgWindowBlocks
    ensures Started(TickState(s, c, o, None), o)
    ensures LastBlock(TickState(s, c, o, None), o) <= o.startBlock + o.logChunkBlocks - 1
  {
    RangeFacts(s, c, o);
    TickStep(s, c, o, None);
    StartedStep(s, c, o, None);
  }

  /** The chunk each tick would be offered, by tick number. */
  type Offers = nat -> Option<nat>

  /**
   * Ticks up to a number of them, stopping at the head. On a fixed chain the index stays
   * in step with it. With every chunk longer than the re-scan window it gets there within one tick
   * per remaining block, and stops at the head.
   */
  method CatchUp(c: Chain, sink: MemorySink, o: Options, offers: Offers, maxTicks: nat)
      returns (reports: seq<TickReport>)
    requires |c| > 0 && Synced(sink.State(), c, o) && LastBlock(sink.State(), o) <= Max(o.startBlock, |c|) - 1
    requires forall n :: n in sink.blocks ==> n < |c|
    requires forall i :: offers(i).GetOr(o.logChunkBlocks) >= 1
    modifies sink
    ensures Synced(sink.State(), c, o) && |reports| <= maxTicks
    ensures forall i :: 0 <= i < |reports| - 1 ==> !reports[i].idle && !reports[i].caughtUp
    ensures |reports| == maxTicks || (|reports| > 0 && (reports[|reports| - 1].idle || reports[|reports| - 1].caughtUp))
    ensures (forall i :: offers(i).GetOr(o.logChunkBlocks) > o.reorgWindowBlocks) &&
            maxTicks >= Max(1, |c| - 1 - old(LastBlock(sink.State(), o))) ==>
              && LastBlock(sink.State(), o) == Max(o.startBlock, |c|) - 1
              && |reports| <= Max(1, |c| - 1 - old(LastBlock(sink.State(), o)))
  {
    reports := [];
    ghost var last0 := LastBlock(sink.State(), o);
    ghost var long := forall i :: offers(i).GetOr(o.logChunkBlocks) > o.reorgWindowBlocks;
    var tick := 0;
    while tick < maxTicks
      invariant 0 <= tick <= maxTicks && |reports| == tick
      invariant Synced(sink.State(), c, o) && LastBlock(sink.State(), o) <= Max(o.startBlock, |c|) - 1
      invariant forall n :: n in sink.blocks ==> n < |c|
      invariant forall i :: 0 <= i < tick ==> !reports[i].idle && !reports[i].caughtUp
      invariant tick == 0 ==> LastBlock(sink.State(), o) == last0
      invariant tick > 0 && long ==> LastBlock(sink.State(), o) < |c| - 1 && LastBlock(sink.State(), o) >= last0 + tick
    {
      var report := CatchUpTick(c, sink, o, offers(tick));
      reports := reports + [report];
      if report.idle || report.caughtUp {
        break;
      }
      tick := tick + 1;
    }
  }

  method CatchUpTick(c: Chain, sink: MemorySink, o: Options, offer: Option<nat>) returns (report: TickReport)
    requires |c| > 0 && Synced(sink.State(), c, o) && LastBlock(sink.State(), o) <= Max(o.startBlock, |c|) - 1
    requires (forall n :: n in sink.blocks ==> n < |c|) && offer.GetOr(o.logChunkBlocks) >= 1
    modifies sink
    ensures Synced(sink.State(), c, o) && LastBlock(sink.State(), o) <= Max(o.startBlock, |c|) - 1
    ensures forall n :: n in sink.blocks ==> n < |c|
    ensures offer.GetOr(o.logChunkBlocks) > o.reorgWindowBlocks ==>
              var before, after := old(LastBlock(sink.State(), o)), LastBlock(sink.State(), o);
              if report.idle || report.caughtUp then after == Max(o.startBlock, |c|) - 1 else before < after < |c| - 1
  {
    ghost var before := sink.State();
    FixedTick(before, c, o, offer);
    if offer.GetOr(o.logChunkBlocks) > o.reorgWindowBlocks {
      LongTick(before, c, o, offer);
    }
    report := RunTick(c, sink, o, offer);
  }

  /** One tick with a long chunk: it moves on, or there is nothing more to read. */
  lemma LongTick(s: SinkState, c: Chain, o: Options, offer: Option<nat>)
    requires Synced(s, c, o) && |c| > 0 && LastBlock(s, o) <= Max(o.startBlock, |c|) - 1
    requires offer.GetOr(o.logChunkBlocks) > o.reorgWindowBlocks
    ensures
      var after := LastBlock(TickState(s, c, o, offer), o);
      && (Idle(s, c, o, offer) || ToBlock(s, c, o, offer) >= |c| - 1 ==> after == Max(o.startBlock, |c|) - 1)
      && (!Idle(s, c, o, offer) && ToBlock(s, c, o, offer) < |c| - 1 ==> LastBlock(s, o) < after < |c| - 1)
  {
    TickStep(s, c, o, offer);
    RangeFacts(s, c, o);
    NoDivergence(s, c, c, o);
    if LastBlock(s, o) < |c| - 1 {
      ProgressIff(s, c, o, offer);
    }
  }
}
