/**
 * Reorganisations deeper than the re-scan window (apps/registry/src/indexer.ts:20-51, 151-167,
 * 193-267).
 *
 * A tick walks down at most eight anchors. When its work leaves no row of an abandoned block is
 * decided by those eight and the one below them; what later ticks then do is decided by whether
 * the new branch has left a row between where that tick began and the window.
 */
module DeepReorg {
  import opened Chain
  import opened IndexRuns
  import opened Indexer
  import opened IndexSync
  import opened Sink
  import opened Sums
  import opened Wrappers

  // -------------------------------------------------------- what can be stored

  /** The block table's row at height n is that of the chain's own block. */
  predicate Canonical(s: SinkState, c: Chain, n: nat)
    requires n in s.blocks
  {
    n < |c| && s.blocks[n].blockHash == HashAt(c, n)
  }

  /** Everything read so far came from one branch. */
  ghost predicate OnBranch(s: SinkState, b: Chain, last: int) {
    forall n :: n in s.blocks && n <= last ==> Canonical(s, b, n)
  }

  /** Up to the cursor, rows below f come from one branch and the others are the chain's own. */
  ghost predicate Split(s: SinkState, b: Chain, c: Chain, o: Options, f: nat) {
    && Started(s, o) && f <= LastBlock(s, o) + 1
    && forall n :: n in s.blocks && n <= LastBlock(s, o) ==> Canonical(s, if n < f then b else c, n)
  }

  /** No block row up to the cursor is of an abandoned block. */
  ghost predicate Clean(s: SinkState, c: Chain, o: Options) {
    forall n :: n in s.blocks && n <= LastBlock(s, o) ==> Canonical(s, c, n)
  }

  /** No log row up to the cursor is of an abandoned block. */
  ghost predicate RowsClean(s: SinkState, c: Chain, o: Options) {
    forall row :: HasRow(s, row) && row.blockNumber <= LastBlock(s, o) ==>
      row.blockNumber < |c| && row.blockHash == HashAt(c, row.blockNumber)
  }

  lemma {:induction false} SomeIndexed(entries: seq<Entry>)
    requires CountIndexed(entries) > 0
    ensures exists e :: e in entries && e.event.Some?
  {
    var rest, last := entries[..|entries| - 1], entries[|entries| - 1];
    assert last in entries;
    if last.event.None? {
      SomeIndexed(rest);
      var e :| e in rest && e.event.Some?;
      assert e in entries;
    }
  }

  lemma BlockHasRow(s: SinkState, n: nat) returns (row: EventLogRow)
    requires Coherent(s) && n in s.blocks
    ensures HasRow(s, row) && row.blockNumber == n && row.blockHash == s.blocks[n].blockHash
  {
    var hash := s.blocks[n].blockHash;
    assert IsBlockRow(s.blocks[n], n);
    SomeIndexed(BodyOf(hash).entries);
    var e :| e in BodyOf(hash).entries && e.event.Some?;
    row := EventLogRow(n, hash, e.index, e.envelope, e.event.value);
    assert Genuine(row) && Listed(s, row);
    assert Stored(s, KeyOf(row));
    KeyDeterminesRow(row, s.tables.logs[KeyOf(row)]);
  }

  /** Every block row has log rows, so the two say the same. */
  lemma CleanRows(s: SinkState, c: Chain, o: Options)
    requires Coherent(s)
    ensures RowsClean(s, c, o) <==> Clean(s, c, o)
  {
    forall n | n in s.blocks && n <= LastBlock(s, o) && RowsClean(s, c, o)
      ensures Canonical(s, c, n)
    {
      var row := BlockHasRow(s, n);
    }
    forall row | HasRow(s, row) && row.blockNumber <= LastBlock(s, o) && Clean(s, c, o)
      ensures row.blockNumber < |c| && row.blockHash == HashAt(c, row.blockNumber)
    {
      assert Stored(s, KeyOf(row));
    }
  }

  // ------------------------------------------------------------ the walk's reach

  /** The anchors, and one stored block more. */
  function Reach(s: SinkState, o: Options): seq<BlockRow> {
    RecentBlocks(s.blocks, WindowOf(s, o), 9)
  }

  /** At most eight blocks are stored below the window, or one of the nine most recent still stands. */
  ghost predicate WalkReaches(s: SinkState, c: Chain, o: Options) {
    |Reach(s, o)| <= 8 || exists i :: 0 <= i < |Reach(s, o)| && StillCanonical(c, Reach(s, o)[i])
  }

  /** Nothing is stored at heights [f, w). */
  ghost predicate NoneBetween(s: SinkState, f: nat, w: nat) {
    forall n :: n in s.blocks ==> !(f <= n < w)
  }

  /** A stored block below the window is among the most recent, or those all lie above it. */
  lemma {:induction false} RecentCovers(blocks: map<nat, BlockRow>, before: nat, limit: nat, n: nat) returns (i: nat)
    requires n in blocks && n < before && forall m :: m in blocks ==> blocks[m].blockNumber == m
    ensures
      var r := RecentBlocks(blocks, before, limit);
      if i < |r| then r[i] == blocks[n] else |r| == limit && forall j :: 0 <= j < |r| ==> r[j].blockNumber > n
    decreases before
  {
    if limit == 0 {
      i := 0;
    } else if before - 1 == n {
      i := 0;
    } else if before - 1 in blocks {
      i := RecentCovers(blocks, before - 1, limit - 1, n);
      i := i + 1;
    } else {
      i := RecentCovers(blocks, before - 1, limit, n);
    }
  }

  ghost predicate Falling(anchors: seq<BlockRow>) {
    forall i, j :: 0 <= i < j < |anchors| ==> anchors[i].blockNumber > anchors[j].blockNumber
  }

  lemma {:induction false} RecentIsPrefix(blocks: map<nat, BlockRow>, before: nat, limit: nat)
    ensures
      var short, long := RecentBlocks(blocks, before, limit), RecentBlocks(blocks, before, limit + 1);
      short == if |long| <= limit then long else long[..limit]
    decreases before
  {
    if before > 0 {
      if before - 1 in blocks {
        if limit > 0 {
          RecentIsPrefix(blocks, before - 1, limit - 1);
        }
      } else {
        RecentIsPrefix(blocks, before - 1, limit);
      }
    }
  }

  lemma {:induction false} FirstMatchOfPrefix(c: Chain, anchors: seq<BlockRow>, k: nat)
    requires k <= |anchors|
    ensures FirstMatch(c, anchors[..k]) == if FirstMatch(c, anchors) < k then FirstMatch(c, anchors) else k
  {
    if k > 0 {
      var short, rest := anchors[..k], anchors[1..];
      assert short[0] == anchors[0] && short[1..] == rest[..k - 1];
      if !StillCanonical(c, anchors[0]) {
        FirstMatchOfPrefix(c, rest, k - 1);
      }
    } else {
      assert anchors[..k] == [];
    }
  }

  lemma ReachFacts(s: SinkState, o: Options)
    requires Started(s, o)
    ensures
      var reach := Reach(s, o);
      && |reach| <= MAX_ANCHOR_CHECKS + 1 && Falling(reach)
      && Anchors(s, o) == reach[..Min(|reach|, MAX_ANCHOR_CHECKS)]
      && (forall i :: 0 <= i < |reach| ==>
            reach[i].blockNumber in s.blocks && s.blocks[reach[i].blockNumber] == reach[i])
      && (forall i :: 0 <= i < |reach| ==> reach[i].blockNumber < WindowOf(s, o))
  {
    RecentFacts(s.blocks, WindowOf(s, o), MAX_ANCHOR_CHECKS + 1);
    RecentIsPrefix(s.blocks, WindowOf(s, o), MAX_ANCHOR_CHECKS);
  }

  lemma WalkOfReach(c: Chain, reach: seq<BlockRow>)
    requires |reach| <= MAX_ANCHOR_CHECKS + 1
    ensures
      var m := FirstMatch(c, reach);
      && m <= |reach|
      && DivergentAt(c, reach[..Min(|reach|, MAX_ANCHOR_CHECKS)]) ==
           if m == 0 then None else Some(reach[Min(m, MAX_ANCHOR_CHECKS) - 1].blockNumber)
  {
    var k, m := Min(|reach|, MAX_ANCHOR_CHECKS), FirstMatch(c, reach);
    FirstMatchOfPrefix(c, reach, k);
    WalkFacts(c, reach);
    WalkFacts(c, reach[..k]);
    assert FirstMatch(c, reach[..k]) == Min(m, k) == Min(m, MAX_ANCHOR_CHECKS);
    if m > 0 {
      assert reach[..k][Min(m, k) - 1] == reach[Min(m, k) - 1];
    }
  }

  /** The walk against the nine most recent: where it stops, and where the range then begins. */
  lemma RangeOfReach(s: SinkState, c: Chain, o: Options)
    requires Started(s, o)
    ensures
      var reach := Reach(s, o);
      var m := FirstMatch(c, reach);
      && |reach| <= MAX_ANCHOR_CHECKS + 1 && Falling(reach)
      && (forall i :: 0 <= i < |reach| ==>
            reach[i].blockNumber in s.blocks && s.blocks[reach[i].blockNumber] == reach[i])
      && (forall i :: 0 <= i < |reach| ==> reach[i].blockNumber < WindowOf(s, o))
      && m <= |reach|
      && FromBlock(s, c, o) == (if m == 0 then WindowOf(s, o) else reach[Min(m, MAX_ANCHOR_CHECKS) - 1].blockNumber)
      && FromBlock(s, c, o) <= WindowOf(s, o)
  {
    ReachFacts(s, o);
    WalkOfReach(c, Reach(s, o));
    RangeFacts(s, c, o);
  }

  // -------------------------------------------------------------- what one tick leaves

  lemma CleanAfter(s: SinkState, s': SinkState, c: Chain, o: Options, from: nat, to: int)
    requires s'.blocks == Rewritten(s.blocks, c, from, from, to) && from <= to && LastBlock(s', o) == to
    ensures Clean(s', c, o) <==> forall n :: n in s.blocks && n < from ==> Canonical(s, c, n)
  {
    assert forall n :: n in s.blocks && n < from ==> n in s'.blocks && s'.blocks[n] == s.blocks[n];
  }

  /** A tick leaves exactly what is stored below its range and the chain's own rows in it. */
  lemma CleanIffBelow(s: SinkState, c: Chain, o: Options, offer: Option<nat>)
    requires Started(s, o) && !Idle(s, c, o, offer)
    ensures
      Clean(TickState(s, c, o, offer), c, o) <==>
      forall n :: n in s.blocks && n < FromBlock(s, c, o) ==> Canonical(s, c, n)
  {
    TickStep(s, c, o, offer);
    RangeFacts(s, c, o);
    CleanAfter(s, TickState(s, c, o, offer), c, o, FromBlock(s, c, o), ToBlock(s, c, o, offer));
  }

  /** A row of the chain's own just below the window ends the walk at once. */
  lemma NewRowStopsWalk(s: SinkState, b: Chain, c: Chain, o: Options, f: nat, n: nat)
    requires Split(s, b, c, o, f) && n in s.blocks && f <= n < WindowOf(s, o)
    ensures FromBlock(s, c, o) == WindowOf(s, o)
  {
    RangeOfReach(s, c, o);
    RangeFacts(s, c, o);
    var i := RecentCovers(s.blocks, WindowOf(s, o), MAX_ANCHOR_CHECKS + 1, n);
    var top := Reach(s, o)[0].blockNumber;
    assert n <= top;
    AnchorMatches(c, s.blocks[top], top);
  }

  lemma BelowMatch(reach: seq<BlockRow>, m: nat, i: nat, n: nat, from: nat)
    requires Falling(reach) && m <= |reach| <= MAX_ANCHOR_CHECKS + 1
    requires m > 0 ==> from == reach[Min(m, MAX_ANCHOR_CHECKS) - 1].blockNumber
    requires |reach| <= MAX_ANCHOR_CHECKS || m < |reach|
    requires if i < |reach| then reach[i].blockNumber == n
             else |reach| == MAX_ANCHOR_CHECKS + 1 && forall j :: 0 <= j < |reach| ==> reach[j].blockNumber > n
    requires n < from
    ensures m < |reach| && n <= reach[m].blockNumber
  {
    if i < |reach| && m > 0 {
      assert Min(m, MAX_ANCHOR_CHECKS) - 1 < i;
    }
  }

  lemma ReachesMatch(s: SinkState, c: Chain, o: Options)
    requires WalkReaches(s, c, o)
    ensures |Reach(s, o)| <= MAX_ANCHOR_CHECKS || FirstMatch(c, Reach(s, o)) < |Reach(s, o)|
  {
    if |Reach(s, o)| > MAX_ANCHOR_CHECKS {
      var j :| 0 <= j < |Reach(s, o)| && StillCanonical(c, Reach(s, o)[j]);
      FirstMatchIsFirst(c, Reach(s, o), j);
    }
  }

  /** Without one, a stored block left below the range lies at or below a block that still stands. */
  lemma LeftIsBelowMatch(s: SinkState, c: Chain, o: Options, n: nat)
    requires Started(s, o) && WalkReaches(s, c, o)
    requires n in s.blocks && n < FromBlock(s, c, o)
    ensures
      var reach := Reach(s, o);
      FirstMatch(c, reach) < |reach| && n <= reach[FirstMatch(c, reach)].blockNumber
  {
    var reach, from := Reach(s, o), FromBlock(s, c, o);
    var m := FirstMatch(c, reach);
    RangeOfReach(s, c, o);
    ReachesMatch(s, c, o);
    var i := Covered(s, o, n);
    assert m > 0 ==> from == reach[Min(m, MAX_ANCHOR_CHECKS) - 1].blockNumber;
    BelowMatch(reach, m, i, n, from);
  }

  lemma Covered(s: SinkState, o: Options, n: nat) returns (i: nat)
    requires Started(s, o) && n in s.blocks && n < WindowOf(s, o)
    ensures
      var reach := Reach(s, o);
      if i < |reach| then reach[i].blockNumber == n
      else |reach| == MAX_ANCHOR_CHECKS + 1 && forall j :: 0 <= j < |reach| ==> reach[j].blockNumber > n
  {
    i := RecentCovers(s.blocks, WindowOf(s, o), MAX_ANCHOR_CHECKS + 1, n);
  }

  lemma LeftIsCanonical(s: SinkState, b: Chain, c: Chain, o: Options, f: nat, n: nat)
    requires Split(s, b, c, o, f) && NoneBetween(s, f, WindowOf(s, o)) && WalkReaches(s, c, o)
    requires n in s.blocks && n < FromBlock(s, c, o)
    ensures Canonical(s, c, n)
  {
    LeftIsBelowMatch(s, c, o, n);
    RangeOfReach(s, c, o);
    RangeFacts(s, c, o);
    WalkFacts(c, Reach(s, o));
    var stands := Reach(s, o)[FirstMatch(c, Reach(s, o))];
    var a := stands.blockNumber;
    AnchorMatches(c, stands, a);
    assert Canonical(s, b, a) && Canonical(s, b, n);
    HashBindsBelow(b, c, a);
    SameHashBelow(b, c, a + 1, n);
  }

  /** Eight checks spent on divergent anchors, and a ninth stored block that does not stand either. */
  lemma NinthIsLeft(s: SinkState, c: Chain, o: Options)
    requires Started(s, o) && !WalkReaches(s, c, o)
    ensures
      var reach := Reach(s, o);
      && |reach| == MAX_ANCHOR_CHECKS + 1 && FirstMatch(c, reach) == |reach|
      && FromBlock(s, c, o) == reach[MAX_ANCHOR_CHECKS - 1].blockNumber
      && reach[MAX_ANCHOR_CHECKS].blockNumber in s.blocks && reach[MAX_ANCHOR_CHECKS].blockNumber < FromBlock(s, c, o)
      && (forall i :: 0 <= i < |reach| ==> reach[i].blockNumber in s.blocks && !Canonical(s, c, reach[i].blockNumber))
  {
    var reach := Reach(s, o);
    RangeOfReach(s, c, o);
    WalkFacts(c, reach);
    forall i | 0 <= i < |reach|
      ensures !Canonical(s, c, reach[i].blockNumber)
    {
      AnchorMatches(c, reach[i], reach[i].blockNumber);
    }
  }

  /**
   * The exact condition, for a first tick after the chain has changed and for every later one on
   * the new chain: the tick leaves no row of an abandoned block exactly when there was none below
   * the new branch's own rows, or those rows leave the walk's way free and it reaches.
   */
  lemma TickIsSoundIff(s: SinkState, b: Chain, c: Chain, o: Options, f: nat, offer: Option<nat>)
    requires Split(s, b, c, o, f) && !Idle(s, c, o, offer)
    ensures
      RowsClean(TickState(s, c, o, offer), c, o) <==>
      || (forall n :: n in s.blocks && n < f && n <= LastBlock(s, o) ==> Canonical(s, c, n))
      || (NoneBetween(s, f, WindowOf(s, o)) && WalkReaches(s, c, o))
  {
    TickStep(s, c, o, offer);
    CleanRows(TickState(s, c, o, offer), c, o);
    CleanIffBelow(s, c, o, offer);
    RangeFacts(s, c, o);
    if !NoneBetween(s, f, WindowOf(s, o)) {
      var n :| n in s.blocks && f <= n < WindowOf(s, o);
      NewRowStopsWalk(s, b, c, o, f, n);
    } else if WalkReaches(s, c, o) {
      forall n | n in s.blocks && n < FromBlock(s, c, o)
        ensures Canonical(s, c, n)
      {
        LeftIsCanonical(s, b, c, o, f, n);
      }
    } else {
      NinthIsLeft(s, c, o);
    }
  }

  /**
   * However deep the reorganisation, the tick leaves no row of an abandoned block at or below the
   * height it has read to exactly when the walk reaches: fewer than nine blocks are stored below
   * the window, or one of the nine most recent still stands.
   */
  lemma DeepReorgIsSound(s: SinkState, b: Chain, c: Chain, o: Options, offer: Option<nat>)
    requires Started(s, o) && OnBranch(s, b, LastBlock(s, o)) && !Idle(s, c, o, offer)
    ensures RowsClean(TickState(s, c, o, offer), c, o) <==> WalkReaches(s, c, o)
  {
    TickIsSoundIff(s, b, c, o, LastBlock(s, o) + 1, offer);
    RangeFacts(s, c, o);
    if !WalkReaches(s, c, o) {
      NinthIsLeft(s, c, o);
    }
  }

  /**
   * Nothing is missing either exactly when, besides, no block below the range gained its first
   * indexed log in the reorganisation: such a block has no anchor, so nothing makes the tick read it.
   */
  lemma DeepReorgIsCompleteIff(s: SinkState, b: Chain, c: Chain, o: Options, offer: Option<nat>)
    requires Synced(s, b, o) && !Idle(s, c, o, offer)
    ensures
      Synced(TickState(s, c, o, offer), c, o) <==>
      && WalkReaches(s, c, o)
      && forall h :: o.startBlock <= h < FromBlock(s, c, o) && h in ChainBlocks(c, h, h) ==> h in s.blocks
  {
    BranchOfSynced(s, b, o);
    DeepReorgIsSound(s, b, c, o, offer);
    var s' := TickState(s, c, o, offer);
    AfterTick(s, s', c, o, offer);
    CleanRows(s', c, o);
    if WalkReaches(s, c, o) {
      CleanIffBelow(s, c, o, offer);
      CanonicalSyncedIff(s, s', c, o, FromBlock(s, c, o), ToBlock(s, c, o, offer));
    } else {
      SyncedIsClean(s', c, o);
    }
  }

  lemma AfterTick(s: SinkState, s': SinkState, c: Chain, o: Options, offer: Option<nat>)
    requires Started(s, o) && !Idle(s, c, o, offer) && s' == TickState(s, c, o, offer)
    ensures Started(s', o) && LastBlock(s', o) == ToBlock(s, c, o, offer)
    ensures
      var from, to := FromBlock(s, c, o), ToBlock(s, c, o, offer);
      o.startBlock <= from <= to && s'.blocks == Rewritten(s.blocks, c, from, from, to)
  {
    TickStep(s, c, o, offer);
    RangeFacts(s, c, o);
    StartedStep(s, c, o, offer);
  }

  /** With only the chain's own rows left below the range, all that can be missing is a row there. */
  lemma CanonicalSyncedIff(s: SinkState, s': SinkState, c: Chain, o: Options, from: nat, to: int)
    requires Started(s, o) && Started(s', o) && LastBlock(s', o) == to && o.startBlock <= from <= to
    requires s'.blocks == Rewritten(s.blocks, c, from, from, to)
    requires forall n :: n in s.blocks && n < from ==> Canonical(s, c, n)
    ensures Synced(s', c, o) <==> forall h :: o.startBlock <= h < from && h in ChainBlocks(c, h, h) ==> h in s.blocks
  {
    forall h: nat | h in s.blocks && h < from
      ensures h < |c| && s.blocks[h] == BlockRow(h, HashAt(c, h), CountIndexed(c[h].entries))
          && CountIndexed(c[h].entries) > 0
    {
      assert Canonical(s, c, h);
      assert IsBlockRow(s.blocks[h], h) && BodyOf(HashAt(c, h)) == c[h];
    }
    SplicedIff(s.blocks, c, o.startBlock, from, to);
  }

  lemma SyncedIsClean(s: SinkState, c: Chain, o: Options)
    ensures Synced(s, c, o) ==> Clean(s, c, o)
  {
    if Synced(s, c, o) {
      BranchOfSynced(s, c, o);
    }
  }

  /** Canonical rows below the range: the table is complete exactly when none is missing there. */
  lemma SplicedIff(blocks: map<nat, BlockRow>, c: Chain, start: nat, from: nat, to: int)
    requires start <= from <= to
    requires forall h :: h in blocks && h < from ==>
               h < |c| && CountIndexed(c[h].entries) > 0 && blocks[h]
                   == BlockRow(h, HashAt(c, h), CountIndexed(c[h].entries))
    ensures
      Slice(Rewritten(blocks, c, from, from, to), start, to) == ChainBlocks(c, start, to) <==>
      forall h :: start <= h < from && h in ChainBlocks(c, h, h) ==> h in blocks
  {
    if forall h :: start <= h < from && h in ChainBlocks(c, h, h) ==> h in blocks {
      NoneMissing(blocks, c, start, from, to);
    } else {
      var h :| start <= h < from && h in ChainBlocks(c, h, h) && h !in blocks;
      assert h in ChainBlocks(c, start, to) && h !in Slice(Rewritten(blocks, c, from, from, to), start, to);
    }
  }

  lemma NoneMissing(blocks: map<nat, BlockRow>, c: Chain, start: nat, from: nat, to: int)
    requires start <= from <= to
    requires forall h :: h in blocks && h < from ==>
               h < |c| && CountIndexed(c[h].entries) > 0 && blocks[h]
                   == BlockRow(h, HashAt(c, h), CountIndexed(c[h].entries))
    requires forall h :: start <= h < from && h in ChainBlocks(c, h, h) ==> h in blocks
    ensures Slice(Rewritten(blocks, c, from, from, to), start, to) == ChainBlocks(c, start, to)
  {
    var result := Slice(Rewritten(blocks, c, from, from, to), start, to);
    forall h: nat | start <= h <= to
      ensures h in result <==> h in ChainBlocks(c, start, to)
      ensures h in result ==> result[h] == ChainBlocks(c, start, to)[h]
    {
      assert h in ChainBlocks(c, h, h) <==> h in ChainBlocks(c, start, to);
    }
  }

  lemma BranchOfSynced(s: SinkState, b: Chain, o: Options)
    requires Synced(s, b, o)
    ensures OnBranch(s, b, LastBlock(s, o))
  {
    forall n | n in s.blocks && n <= LastBlock(s, o)
      ensures n < |b| && s.blocks[n].blockHash == HashAt(b, n)
    {
      assert n in Slice(s.blocks, o.startBlock, LastBlock(s, o));
      assert n in ChainBlocks(b, o.startBlock, LastBlock(s, o));
    }
  }

  const QUIET: Body := RawBody(0, [])
  const LOGGED: Body := RawBody(0, [Entry(0, "", Some(""))])
  const RELOGGED: Body := RawBody(1, [Entry(0, "", Some(""))])

  /**
   * The condition can fail. Blocks 1 and 2 are re-mined; block 2 had a log and is an anchor,
   * block 1 gains its first one. The walk completes, and the log of block 1 is not stored.
   */
  lemma DeepReorgCanMiss() returns (s: SinkState, b: Chain, c: Chain, o: Options)
    ensures s == TickState(EMPTY_SINK, b, o, None) && Synced(s, b, o)
    ensures WalkReaches(s, c, o) && !Idle(s, c, o, None)
    ensures !Synced(TickState(s, c, o, None), c, o)
  {
    o, b, c := Options(0, 10, 0), [QUIET, QUIET, LOGGED], [QUIET, LOGGED, RELOGGED];
    s := TickState(EMPTY_SINK, b, o, None);
    FirstScan(b, o);
    MissesBlockOne(s, b, c, o);
  }

  /** The first tick of an empty sink reads a chain no longer than its chunk to the head. */
  lemma FirstScan(b: Chain, o: Options)
    requires o.startBlock == 0 && 0 < |b| <= o.logChunkBlocks
    ensures
      var s := TickState(EMPTY_SINK, b, o, None);
      Synced(s, b, o) && LastBlock(s, o) == |b| - 1 && s.blocks == ChainBlocks(b, 0, |b| - 1)
  {
    FirstTable(b, o);
    EmptyIsSynced(b, o);
    TickSyncs(EMPTY_SINK, b, b, o, None);
  }

  lemma FirstTable(b: Chain, o: Options)
    requires o.startBlock == 0 && 0 < |b| <= o.logChunkBlocks
    ensures
      var s := TickState(EMPTY_SINK, b, o, None);
      LastBlock(s, o) == |b| - 1 && s.blocks == ChainBlocks(b, 0, |b| - 1)
  {
    EmptyIsSynced(b, o);
    NoDivergence(EMPTY_SINK, b, b, o);
    RangeFacts(EMPTY_SINK, b, o);
    TickStep(EMPTY_SINK, b, o, None);
    assert DropBlocks(map[], 0, |b| - 1) == map[];
  }

  lemma MissesBlockOne(s: SinkState, b: Chain, c: Chain, o: Options)
    requires o == Options(0, 10, 0) && b == [QUIET, QUIET, LOGGED] && c == [QUIET, LOGGED, RELOGGED]
    requires Synced(s, b, o) && LastBlock(s, o) == 2 && s.blocks == ChainBlocks(b, 0, 2)
    ensures WalkReaches(s, c, o) && !Idle(s, c, o, None)
    ensures !Synced(TickState(s, c, o, None), c, o)
  {
    OneAnchor(s, b, c, o);
    BlockOneGains(s, b, c);
    GainedBelow(s, b, c, o, 1);
  }

  lemma BlockOneGains(s: SinkState, b: Chain, c: Chain)
    requires b == [QUIET, QUIET, LOGGED] && c == [QUIET, LOGGED, RELOGGED] && s.blocks == ChainBlocks(b, 0, 2)
    ensures 1 in ChainBlocks(c, 1, 1) && 1 !in s.blocks
  {
  }

  lemma GainedBelow(s: SinkState, b: Chain, c: Chain, o: Options, h: nat)
    requires Synced(s, b, o) && !Idle(s, c, o, None) && o.startBlock <= h < FromBlock(s, c, o)
    requires h in ChainBlocks(c, h, h) && h !in s.blocks
    ensures !Synced(TickState(s, c, o, None), c, o)
  {
    DeepReorgIsCompleteIff(s, b, c, o, None);
  }

  lemma OneAnchor(s: SinkState, b: Chain, c: Chain, o: Options)
    requires o == Options(0, 10, 0) && b == [QUIET, QUIET, LOGGED] && c == [QUIET, LOGGED, RELOGGED]
    requires Synced(s, b, o) && LastBlock(s, o) == 2 && s.blocks == ChainBlocks(b, 0, 2)
    ensures WalkReaches(s, c, o) && FromBlock(s, c, o) == 2 && !Idle(s, c, o, None)
  {
    assert 0 !in s.blocks && 1 !in s.blocks && 2 in s.blocks;
    assert RecentBlocks(s.blocks, 2, 7) == [] by {
      assert RecentBlocks(s.blocks, 1, 7) == [];
    }
    assert Anchors(s, o) == [s.blocks[2]];
    AnchorMatches(c, s.blocks[2], 2);
    assert c[..3] == c && b[..3] == b && c[1] != b[1];
    assert DivergentAt(c, []) == None;
  }

  // ----------------------------------------------------------- and what later ticks do

  /** Ticks from a state already reached. */
  function RunFrom(s: SinkState, turns: seq<Turn>, o: Options): SinkState {
    if turns == [] then s
    else
      var turn := turns[|turns| - 1];
      TickState(RunFrom(s, turns[..|turns| - 1], o), turn.chain, o, turn.offer)
  }

  /** Ticks on one chain, each with a chunk of at least the re-scan window, or of the whole chain. */
  ghost predicate Covering(turns: seq<Turn>, c: Chain, o: Options) {
    && OnFixedChain(turns, c, o)
    && forall i :: 0 <= i < |turns| ==> turns[i].offer.GetOr(o.logChunkBlocks) >= Min(o.reorgWindowBlocks, |c|)
  }

  /** A tick to the head, or a shorter one, leaves the rows of two branches split at a height. */
  lemma SplitTick(s: SinkState, b: Chain, c: Chain, o: Options, f: nat, offer: Option<nat>)
    requires Split(s, b, c, o, f) && !Idle(s, c, o, offer)
    ensures Split(TickState(s, c, o, offer), b, c, o, Min(f, FromBlock(s, c, o)))
  {
    var s' := TickState(s, c, o, offer);
    AfterTick(s, s', c, o, offer);
    SplitAfter(s, s', b, c, o, f, FromBlock(s, c, o), ToBlock(s, c, o, offer), Min(f, FromBlock(s, c, o)));
  }

  lemma SplitAfter(s: SinkState, s': SinkState, b: Chain, c: Chain, o: Options, f: nat, from: nat, to: int, g: nat)
    requires g == Min(f, from) && Split(s, b, c, o, f) && Started(s', o) && LastBlock(s', o) == to && from <= to
        && from <= LastBlock(s, o) + 1
    requires s'.blocks == Rewritten(s.blocks, c, from, from, to)
    ensures Split(s', b, c, o, g)
  {
    forall n | n in s'.blocks && n <= to
      ensures Canonical(s', if n < g then b else c, n)
    {
      if n < from {
        assert n in s.blocks && Canonical(s, if n < f then b else c, n);
      } else {
        assert n in ChainBlocks(c, from, to);
      }
    }
  }

  /** So the condition on one tick speaks of every tick of a run on the new chain. */
  lemma {:induction false} SplitRun(s: SinkState, b: Chain, c: Chain, o: Options, turns: seq<Turn>) returns (f: nat)
    requires Started(s, o) && OnBranch(s, b, LastBlock(s, o)) && OnFixedChain(turns, c, o)
    ensures Split(RunFrom(s, turns, o), b, c, o, f)
  {
    if turns == [] {
      f := LastBlock(s, o) + 1;
    } else {
      var before, turn := turns[..|turns| - 1], turns[|turns| - 1];
      f := SplitRun(s, b, c, o, before);
      var r := RunFrom(s, before, o);
      if !Idle(r, c, o, turn.offer) {
        SplitTick(r, b, c, o, f, turn.offer);
        f := Min(f, FromBlock(r, c, o));
      }
    }
  }

  /** The highest row stored below the window is the chain's own. */
  ghost predicate TopStands(s: SinkState, c: Chain, o: Options) {
    Started(s, o) && LastBlock(s, o) < |c|
    && exists n :: n in s.blocks && TopBelow(s.blocks, n, WindowOf(s, o)) && Canonical(s, c, n)
  }

  ghost predicate TopBelow(blocks: map<nat, BlockRow>, n: nat, w: nat) {
    n < w && forall m :: m in blocks && m < w ==> m <= n
  }

  lemma TopStopsWalk(s: SinkState, c: Chain, o: Options)
    requires TopStands(s, c, o)
    ensures FromBlock(s, c, o) == WindowOf(s, o)
  {
    var n :| n in s.blocks && TopBelow(s.blocks, n, WindowOf(s, o)) && Canonical(s, c, n);
    RangeOfReach(s, c, o);
    var i := Covered(s, o, n);
    assert Reach(s, o)[0].blockNumber == n;
    AnchorMatches(c, s.blocks[n], n);
  }

  /** Rows below the window, kept through a rewrite of [w, to]; and the top of what is then below w'. */
  lemma TopAfter(blocks: map<nat, BlockRow>, after: map<nat, BlockRow>, c: Chain, n: nat, w: nat, to: nat, w': nat)
    requires after == Rewritten(blocks, c, w, w, to) && n in blocks && TopBelow(blocks, n, w) && w <= w' <= to + 1
    requires n < |c| && blocks[n].blockHash == HashAt(c, n)
    ensures forall m :: m < w ==> (m in after <==> m in blocks) && (m in blocks ==> after[m] == blocks[m])
    ensures exists m :: m in after && TopBelow(after, m, w') && m < |c| && after[m].blockHash == HashAt(c, m)
  {
    var m := Top(after, n, w');
  }

  /** The highest key below w, given one. */
  lemma Top(blocks: map<nat, BlockRow>, n: nat, w: nat) returns (m: nat)
    requires n in blocks && n < w
    ensures m in blocks && TopBelow(blocks, m, w) && n <= m
    decreases w
  {
    if w - 1 in blocks {
      m := w - 1;
    } else {
      m := Top(blocks, n, w - 1);
    }
  }

  /** The tables agree at every height below w. */
  ghost predicate SameBelow(blocks: map<nat, BlockRow>, after: map<nat, BlockRow>, w: nat) {
    forall n :: n < w ==> (n in after <==> n in blocks) && (n in blocks ==> after[n] == blocks[n])
  }

  /** Stuck: the top still stands, and no row below the earlier window has moved. */
  ghost predicate Stuck(s: SinkState, s': SinkState, c: Chain, o: Options) {
    TopStands(s', c, o) && WindowOf(s, o) <= WindowOf(s', o) && SameBelow(s.blocks, s'.blocks, WindowOf(s, o))
  }

  lemma StuckAgain(s: SinkState, r: SinkState, t: SinkState, c: Chain, o: Options)
    requires Stuck(s, r, c, o) && Stuck(r, t, c, o)
    ensures Stuck(s, t, c, o)
  {
  }

  lemma StuckTick(s: SinkState, c: Chain, o: Options, offer: Option<nat>)
    requires TopStands(s, c, o) && offer.GetOr(o.logChunkBlocks) >= Max(1, Min(o.reorgWindowBlocks, |c|))
    ensures Stuck(s, TickState(s, c, o, offer), c, o)
  {
    TopStopsWalk(s, c, o);
    RangeFacts(s, c, o);
    TickStep(s, c, o, offer);
    StartedStep(s, c, o, offer);
    if !Idle(s, c, o, offer) {
      var n :| n in s.blocks && TopBelow(s.blocks, n, WindowOf(s, o)) && Canonical(s, c, n);
      var to := ToBlock(s, c, o, offer);
      StuckAfter(s, TickState(s, c, o, offer), c, o, n, to);
    }
  }

  lemma StuckAfter(s: SinkState, s': SinkState, c: Chain, o: Options, n: nat, to: nat)
    requires n in s.blocks && TopBelow(s.blocks, n, WindowOf(s, o)) && Canonical(s, c, n)
    requires Started(s', o) && LastBlock(s', o) == to && LastBlock(s, o) <= to < |c|
    requires s'.blocks == Rewritten(s.blocks, c, WindowOf(s, o), WindowOf(s, o), to)
    requires WindowOf(s, o) <= to
    ensures Stuck(s, s', c, o)
  {
    TopAfter(s.blocks, s'.blocks, c, n, WindowOf(s, o), to, Min(WindowOf(s', o), to + 1));
  }

  /**
   * The walk looks no further than its first match. Once the highest row below the window is the
   * new chain's own, no later tick on that chain ever touches a row below that window again:
   * what the first tick left behind stays.
   */
  lemma {:induction false} MatchStopsTheWalk(s: SinkState, turns: seq<Turn>, c: Chain, o: Options)
    requires TopStands(s, c, o) && Covering(turns, c, o)
    ensures Stuck(s, RunFrom(s, turns, o), c, o)
  {
    if turns != [] {
      var before, turn := turns[..|turns| - 1], turns[|turns| - 1];
      assert Readable(turn, o);
      MatchStopsTheWalk(s, before, c, o);
      var r := RunFrom(s, before, o);
      StuckTick(r, c, o, turn.offer);
      StuckAgain(s, r, TickState(r, c, o, turn.offer), c, o);
    }
  }

  // a chain on which nothing later helps

  lemma {:induction false} DenseRecent(blocks: map<nat, BlockRow>, before: nat, limit: nat)
    requires forall n: nat :: n < before ==> n in blocks
    ensures
      var r := RecentBlocks(blocks, before, limit);
      |r| == Min(limit, before) && forall i :: 0 <= i < |r| ==> r[i] == blocks[before - 1 - i]
    decreases before
  {
    if before > 0 && limit > 0 {
      DenseRecent(blocks, before - 1, limit - 1);
    }
  }

  /** Two chains that differ in their first block share no hash. */
  lemma NoSharedHash(b: Chain, c: Chain, n: nat)
    requires n < |b| && n < |c| && b[0] != c[0]
    ensures HashAt(b, n) != HashAt(c, n)
  {
    assert b[..n + 1][0] == b[0] && c[..n + 1][0] == c[0];
  }

  lemma RowDiverges(s: SinkState, b: Chain, c: Chain, o: Options, n: nat)
    requires Started(s, o) && s.blocks == ChainBlocks(b, 0, |b| - 1) && |b| == |c| && n in s.blocks && b[0] != c[0]
    ensures Canonical(s, b, n) && !StillCanonical(c, s.blocks[n])
  {
    assert IsBlockRow(s.blocks[n], n);
    AnchorMatches(c, s.blocks[n], n);
    NoSharedHash(b, c, n);
  }

  lemma {:induction false} NoMatch(c: Chain, anchors: seq<BlockRow>)
    requires forall i :: 0 <= i < |anchors| ==> !StillCanonical(c, anchors[i])
    ensures FirstMatch(c, anchors) == |anchors|
  {
    if anchors != [] {
      NoMatch(c, anchors[1..]);
    }
  }

  lemma DenseReach(s: SinkState, o: Options, count: nat)
    requires (forall n: nat :: n < count ==> n in s.blocks) && count == WindowOf(s, o) > MAX_ANCHOR_CHECKS
    ensures |Reach(s, o)| == MAX_ANCHOR_CHECKS + 1
    ensures forall i :: 0 <= i < |Reach(s, o)| ==> Reach(s, o)[i] == s.blocks[count - 1 - i]
  {
    DenseRecent(s.blocks, count, MAX_ANCHOR_CHECKS + 1);
  }

  lemma NoneStands(s: SinkState, c: Chain, o: Options, count: nat)
    requires Started(s, o) && (forall n: nat :: n < count ==>
          n in s.blocks) && count == WindowOf(s, o) > MAX_ANCHOR_CHECKS
    requires forall n: nat :: n < count ==> !StillCanonical(c, s.blocks[n])
    ensures !WalkReaches(s, c, o) && FromBlock(s, c, o) == count - MAX_ANCHOR_CHECKS
  {
    DenseReach(s, o, count);
    NoMatch(c, Reach(s, o));
    RangeOfReach(s, c, o);
    assert IsBlockRow(s.blocks[count - MAX_ANCHOR_CHECKS], count - MAX_ANCHOR_CHECKS);
  }

  /** Every one of the nine most recent rows is abandoned, and the range begins at the eighth. */
  lemma AllDiverge(s: SinkState, b: Chain, c: Chain, o: Options)
    requires Started(s, o) && s.blocks == ChainBlocks(b, 0, |b| - 1) && |b| == |c| > MAX_ANCHOR_CHECKS + 1
    requires b[0] != c[0] && (forall n: nat :: n < |b| ==> n in s.blocks)
    requires o.reorgWindowBlocks == 0 && o.startBlock == 0 && LastBlock(s, o) == |b| - 1
    ensures !WalkReaches(s, c, o) && FromBlock(s, c, o) == |b| - MAX_ANCHOR_CHECKS
  {
    forall n: nat | n < |b|
      ensures !StillCanonical(c, s.blocks[n])
    {
      RowDiverges(s, b, c, o, n);
    }
    NoneStands(s, c, o, |b|);
  }

  lemma NewTopStands(s: SinkState, s': SinkState, c: Chain, o: Options, from: nat)
    requires Started(s', o) && 0 < from < |c| && LastBlock(s', o) == |c| - 1 && WindowOf(s', o) == |c|
    requires s'.blocks == Rewritten(s.blocks, c, from, from, |c| - 1)
    requires 0 in s.blocks && CountIndexed(c[|c| - 1].entries) > 0
    ensures TopStands(s', c, o) && 0 in s'.blocks && s'.blocks[0] == s.blocks[0]
  {
    var n := |c| - 1;
    assert n in ChainBlocks(c, from, n);
    assert n in s'.blocks && s'.blocks[n] == ChainBlocks(c, from, n)[n];
    assert TopBelow(s'.blocks, n, |c|);
  }

  lemma LeftForGood(s: SinkState, c: Chain, o: Options, turns: seq<Turn>)
    requires TopStands(s, c, o) && WindowOf(s, o) == |c| && LastBlock(s, o) == |c| - 1
    requires Covering(turns, c, o)
    ensures Stale(RunFrom(s, turns, o), c, o) == Stale(s, c, o)
  {
    var s' := RunFrom(s, turns, o);
    MatchStopsTheWalk(s, turns, c, o);
    RangeFacts(s', c, o);
    assert LastBlock(s', o) == |c| - 1;
  }

  /** Every row is abandoned, and the range of a tick that begins at `from` is rewritten with the chain's own. */
  lemma LeftBelow(s: SinkState, s': SinkState, c: Chain, o: Options, from: nat)
    requires s'.blocks == Rewritten(s.blocks, c, from, from, |c| - 1) && LastBlock(s', o) == |c| - 1 && from <= |c|
    requires forall n: nat :: n < from ==> n in s.blocks && !Canonical(s, c, n)
    ensures forall n: nat :: n in Stale(s', c, o) <==> n < from
  {
  }

  lemma UpperEightRewritten(s: SinkState, s': SinkState, b: Chain, c: Chain, o: Options)
    requires Synced(s, b, o) && s.blocks == ChainBlocks(b, 0, |b| - 1) && |b| == |c| > MAX_ANCHOR_CHECKS + 1
    requires b[0] != c[0] && (forall n: nat :: n < |b| ==> n in s.blocks)
    requires o.reorgWindowBlocks == 0 && o.startBlock == 0 && LastBlock(s, o) == |b| - 1 && o.logChunkBlocks >= |c|
    requires CountIndexed(c[|c| - 1].entries) > 0 && s' == TickState(s, c, o, None)
    ensures !Idle(s, c, o, None)
    ensures TopStands(s', c, o) && LastBlock(s', o) == |c| - 1 && WindowOf(s', o) == |c|
    ensures forall n: nat :: n in Stale(s', c, o) <==> n < |c| - MAX_ANCHOR_CHECKS
  {
    AllDiverge(s, b, c, o);
    ToTheHead(s, c, o);
    AfterTick(s, s', c, o, None);
    RewrittenFrom(s, s', b, c, o, FromBlock(s, c, o));
  }

  lemma RewrittenFrom(s: SinkState, s': SinkState, b: Chain, c: Chain, o: Options, from: nat)
    requires Started(s, o) && s.blocks == ChainBlocks(b, 0, |b| - 1) && |b| == |c| && 0 < from < |c| && b[0] != c[0]
    requires (forall n: nat :: n < |b| ==> n in s.blocks) && CountIndexed(c[|c| - 1].entries) > 0
    requires Started(s', o) && LastBlock(s', o) == |c| - 1 && WindowOf(s', o) == |c|
    requires s'.blocks == Rewritten(s.blocks, c, from, from, |c| - 1)
    ensures TopStands(s', c, o) && forall n: nat :: n in Stale(s', c, o) <==> n < from
  {
    NewTopStands(s, s', c, o, from);
    NoneCanonical(s, b, c, o, from);
    LeftBelow(s, s', c, o, from);
  }

  lemma ToTheHead(s: SinkState, c: Chain, o: Options)
    requires Started(s, o) && FromBlock(s, c, o) < |c| <= o.logChunkBlocks
    ensures !Idle(s, c, o, None) && ToBlock(s, c, o, None) == |c| - 1
  {
  }

  lemma NoneCanonical(s: SinkState, b: Chain, c: Chain, o: Options, from: nat)
    requires Started(s, o) && s.blocks == ChainBlocks(b, 0, |b| - 1) && |b| == |c| && 0 < |c| && b[0] != c[0]
    requires from <= |b| && forall n: nat :: n < |b| ==> n in s.blocks
    ensures forall n: nat :: n < from ==> n in s.blocks && !Canonical(s, c, n)
  {
    forall n: nat | n < from
      ensures n in s.blocks && !Canonical(s, c, n)
    {
      RowDiverges(s, b, c, o, n);
      NoSharedHash(b, c, n);
    }
  }

  /**
   * More than eight anchors diverge and later ticks do not help. Ten blocks, each with a log, are
   * all re-mined, each with a log again. The tick rewrites the upper eight. The rows at heights 0
   * and 1 stay abandoned after it and after every later run on the new chain.
   */
  lemma DeepReorgCanLeave() returns (s: SinkState, b: Chain, c: Chain, o: Options)
    ensures s == TickState(EMPTY_SINK, b, o, None) && Synced(s, b, o)
    ensures !Idle(s, c, o, None) && LastBlock(TickState(s, c, o, None), o) == |c| - 1
    ensures forall turns :: Covering(turns, c, o) ==>
              var s' := RunFrom(TickState(s, c, o, None), turns, o);
              Stale(s', c, o) == {0, 1} && !RowsClean(s', c, o)
  {
    o, b, c := Options(0, 20, 0), seq(10, i => LOGGED), seq(10, i => RELOGGED);
    s := TickState(EMPTY_SINK, b, o, None);
    FirstScan(b, o);
    TenRemined(s, TickState(s, c, o, None), b, c, o);
    EveryRunLeavesTwo(TickState(s, c, o, None), c, o);
  }

  lemma TenRemined(s: SinkState, s': SinkState, b: Chain, c: Chain, o: Options)
    requires Synced(s, b, o) && s.blocks == ChainBlocks(b, 0, |b| - 1) && |b| == |c| == MAX_ANCHOR_CHECKS + 2
    requires b[0] != c[0] && forall n: nat :: n < |b| ==> CountIndexed(b[n].entries) > 0
    requires o.reorgWindowBlocks == 0 && o.startBlock == 0 && LastBlock(s, o) == |b| - 1 && o.logChunkBlocks >= |c|
    requires CountIndexed(c[|c| - 1].entries) > 0 && s' == TickState(s, c, o, None)
    ensures !Idle(s, c, o, None) && TopStands(s', c, o) && WindowOf(s', o) == |c| && LastBlock(s', o) == |c| - 1
    ensures Stale(s', c, o) == {0, 1}
  {
    UpperEightRewritten(s, s', b, c, o);
    TwoHeights(Stale(s', c, o));
  }

  lemma TwoHeights(heights: set<nat>)
    requires forall n: nat :: n in heights <==> n < 2
    ensures heights == {0, 1}
  {
  }

  lemma TwoStayStale(s: SinkState, c: Chain, o: Options, turns: seq<Turn>)
    requires TopStands(s, c, o) && WindowOf(s, o) == |c| && LastBlock(s, o) == |c| - 1
    requires Stale(s, c, o) == {0, 1} && Covering(turns, c, o)
    ensures Stale(RunFrom(s, turns, o), c, o) == {0, 1} && !RowsClean(RunFrom(s, turns, o), c, o)
  {
    LeftForGood(s, c, o, turns);
    RunIsCoherent(s, c, o, turns);
    StaleRows(RunFrom(s, turns, o), c, o);
  }

  lemma StaleRows(s: SinkState, c: Chain, o: Options)
    requires Coherent(s) && Stale(s, c, o) != {}
    ensures !RowsClean(s, c, o)
  {
    CleanRows(s, c, o);
    CleanIsEmpty(s, c, o);
  }

  lemma EveryRunLeavesTwo(s: SinkState, c: Chain, o: Options)
    requires TopStands(s, c, o) && WindowOf(s, o) == |c| && LastBlock(s, o) == |c| - 1 && Stale(s, c, o) == {0, 1}
    ensures forall turns :: Covering(turns, c, o) ==>
              Stale(RunFrom(s, turns, o), c, o) == {0, 1} && !RowsClean(RunFrom(s, turns, o), c, o)
  {
    forall turns | Covering(turns, c, o)
      ensures Stale(RunFrom(s, turns, o), c, o) == {0, 1} && !RowsClean(RunFrom(s, turns, o), c, o)
    {
      TwoStayStale(s, c, o, turns);
    }
  }

  // a chain on which they do

  /** The heights up to the cursor whose rows are of abandoned blocks. */
  ghost function Stale(s: SinkState, c: Chain, o: Options): set<nat> {
    set n | n in s.blocks && n <= LastBlock(s, o) && !Canonical(s, c, n)
  }

  /** The chain has no indexed log at heights [lo, hi). */
  ghost predicate Quiet(c: Chain, lo: nat, hi: nat) {
    forall h: nat :: lo <= h < hi && h < |c| ==> CountIndexed(c[h].entries) == 0
  }

  /** Where the window starts once the cursor is at the head. */
  function NewWindow(c: Chain, o: Options): nat {
    WindowFrom(|c| - 1, o)
  }

  /** Ticks on one chain, each reading to its head. */
  ghost predicate ToHead(turns: seq<Turn>, c: Chain, o: Options) {
    OnFixedChain(turns, c, o) && forall i :: 0 <= i < |turns| ==> turns[i].offer.GetOr(o.logChunkBlocks) >= |c|
  }

  /** Nothing is abandoned, or the way down to what is has been left free. */
  ghost predicate Correcting(s: SinkState, b: Chain, c: Chain, o: Options, lo: nat) {
    && Started(s, o) && LastBlock(s, o) < |c|
    && (Clean(s, c, o) || exists f :: FreeDownTo(s, b, c, o, lo, f))
  }

  ghost predicate FreeDownTo(s: SinkState, b: Chain, c: Chain, o: Options, lo: nat, f: nat) {
    Split(s, b, c, o, f) && NoneBetween(s, f, WindowOf(s, o)) && forall n :: n in Stale(s, c, o) ==> lo <= n
  }

  lemma CleanIsEmpty(s: SinkState, c: Chain, o: Options)
    ensures Clean(s, c, o) <==> Stale(s, c, o) == {}
  {
    if Stale(s, c, o) == {} {
      forall n | n in s.blocks && n <= LastBlock(s, o)
        ensures Canonical(s, c, n)
      {
        assert n !in Stale(s, c, o);
      }
    }
  }

  lemma {:induction false} CountFalling(anchors: seq<BlockRow>, numbers: set<nat>)
    requires Falling(anchors) && forall i :: 0 <= i < |anchors| ==> anchors[i].blockNumber in numbers
    ensures |anchors| <= |numbers|
  {
    if anchors != [] {
      CountFalling(anchors[1..], numbers - {anchors[0].blockNumber});
    }
  }

  /** The eight anchors of a walk cut short, all abandoned, none below where the range begins. */
  lemma EightAnchors(s: SinkState, c: Chain, o: Options) returns (eight: seq<BlockRow>)
    requires Started(s, o) && !WalkReaches(s, c, o)
    ensures |eight| == MAX_ANCHOR_CHECKS && Falling(eight)
    ensures forall i :: 0 <= i < |eight| ==>
          eight[i].blockNumber in Stale(s, c, o) && eight[i].blockNumber >= FromBlock(s, c, o)
    ensures FromBlock(s, c, o) in Stale(s, c, o)
  {
    NinthIsLeft(s, c, o);
    RangeOfReach(s, c, o);
    RangeFacts(s, c, o);
    var reach := Reach(s, o);
    eight := reach[..MAX_ANCHOR_CHECKS];
    forall i | 0 <= i < |eight|
      ensures eight[i].blockNumber in Stale(s, c, o) && eight[i].blockNumber >= FromBlock(s, c, o)
    {
      assert eight[i] == reach[i] && !Canonical(s, c, reach[i].blockNumber);
    }
  }

  lemma EightGone(eight: seq<BlockRow>, before: set<nat>, after: set<nat>, from: nat)
    requires |eight| == MAX_ANCHOR_CHECKS && Falling(eight)
    requires forall i :: 0 <= i < |eight| ==> eight[i].blockNumber in before && eight[i].blockNumber >= from
    requires after <= before && forall n :: n in after ==> n < from
    ensures |after| <= |before| - MAX_ANCHOR_CHECKS
  {
    CountFalling(eight, before - after);
    assert |before - after| == |before| - |after|;
  }

  /** A tick whose walk is cut short rewrites eight abandoned rows and leaves the way free again. */
  lemma EightFewer(s: SinkState, s': SinkState, b: Chain, c: Chain, o: Options, lo: nat, f: nat)
    requires FreeDownTo(s, b, c, o, lo, f) && LastBlock(s, o) < |c| && Quiet(c, lo, NewWindow(c, o))
        && !WalkReaches(s, c, o)
    requires Started(s', o) && LastBlock(s', o) == |c| - 1
    requires s'.blocks == Rewritten(s.blocks, c, FromBlock(s, c, o), FromBlock(s, c, o), |c| - 1)
    ensures |Stale(s', c, o)| <= |Stale(s, c, o)| - MAX_ANCHOR_CHECKS
    ensures Correcting(s', b, c, o, lo)
  {
    var from := FromBlock(s, c, o);
    var eight := EightAnchors(s, c, o);
    NinthIsOld(s, b, c, o, f);
    StaleBelow(s, s', c, o, from);
    EightGone(eight, Stale(s, c, o), Stale(s', c, o), from);
    QuietLeavesFree(s, s', b, c, o, lo, f, from);
  }

  lemma StaleBelow(s: SinkState, s': SinkState, c: Chain, o: Options, from: nat)
    requires s'.blocks == Rewritten(s.blocks, c, from, from, |c| - 1)
    requires LastBlock(s', o) == |c| - 1 && from <= LastBlock(s, o) + 1 <= |c|
    ensures Stale(s', c, o) <= Stale(s, c, o) && forall n :: n in Stale(s', c, o) ==> n < from
  {
  }

  lemma QuietLeavesNone(s: SinkState, s': SinkState, c: Chain, from: nat, w: nat)
    requires s'.blocks == Rewritten(s.blocks, c, from, from, |c| - 1) && w <= |c| && Quiet(c, from, w)
    ensures NoneBetween(s', from, w)
  {
    forall n | n in s'.blocks
      ensures !(from <= n < w)
    {
      assert from <= n < w ==> n in ChainBlocks(c, from, |c| - 1);
    }
  }

  lemma QuietLeavesFree(s: SinkState, s': SinkState, b: Chain, c: Chain, o: Options, lo: nat, f: nat, from: nat)
    requires FreeDownTo(s, b, c, o, lo, f) && Quiet(c, lo, NewWindow(c, o)) && lo <= from < f
        && from <= LastBlock(s, o) < |c|
    requires Started(s', o) && LastBlock(s', o) == |c| - 1
    requires s'.blocks == Rewritten(s.blocks, c, from, from, |c| - 1)
    ensures FreeDownTo(s', b, c, o, lo, from)
  {
    StaleBelow(s, s', c, o, from);
    LeftFree(s, s', b, c, o, f, from);
  }

  /** A cut-short tick to the head, with no log of the new branch up to the new window, leaves the way free. */
  lemma LeftFree(s: SinkState, s': SinkState, b: Chain, c: Chain, o: Options, f: nat, from: nat)
    requires Split(s, b, c, o, f) && from <= f && from < |c| && from <= LastBlock(s, o) + 1
    requires Quiet(c, from, NewWindow(c, o)) && Started(s', o) && LastBlock(s', o) == |c| - 1
    requires s'.blocks == Rewritten(s.blocks, c, from, from, |c| - 1)
    ensures Split(s', b, c, o, from) && NoneBetween(s', from, WindowOf(s', o))
  {
    SplitAfter(s, s', b, c, o, f, from, |c| - 1, from);
    WindowAtHead(s', c, o);
    QuietLeavesNone(s, s', c, from, WindowOf(s', o));
  }

  lemma WindowAtHead(s: SinkState, c: Chain, o: Options)
    requires Started(s, o) && LastBlock(s, o) == |c| - 1
    ensures WindowOf(s, o) == NewWindow(c, o) <= |c|
  {
  }

  lemma CorrectingTick(s: SinkState, b: Chain, c: Chain, o: Options, lo: nat, offer: Option<nat>)
    requires Correcting(s, b, c, o, lo) && Quiet(c, lo, NewWindow(c, o)) && |c| > 0
        && offer.GetOr(o.logChunkBlocks) >= |c|
    ensures
      var s' := TickState(s, c, o, offer);
      Correcting(s', b, c, o, lo) && |Stale(s', c, o)| <= Max(0, |Stale(s, c, o)| - MAX_ANCHOR_CHECKS)
  {
    var s' := TickState(s, c, o, offer);
    RangeFacts(s, c, o);
    TickStep(s, c, o, offer);
    StartedStep(s, c, o, offer);
    CleanIsEmpty(s, c, o);
    CleanIsEmpty(s', c, o);
    if Clean(s, c, o) {
      if !Idle(s, c, o, offer) {
        CleanIffBelow(s, c, o, offer);
      }
    } else {
      var f :| FreeDownTo(s, b, c, o, lo, f);
      if WalkReaches(s, c, o) {
        ReachingTick(s, b, c, o, f, offer);
      } else {
        NinthIsLeft(s, c, o);
        NinthIsOld(s, b, c, o, f);
        EightFewer(s, s', b, c, o, lo, f);
      }
    }
  }

  lemma NinthIsOld(s: SinkState, b: Chain, c: Chain, o: Options, f: nat)
    requires Split(s, b, c, o, f) && !WalkReaches(s, c, o)
    ensures FromBlock(s, c, o) < f && FromBlock(s, c, o) <= LastBlock(s, o)
  {
    NinthIsLeft(s, c, o);
    RangeOfReach(s, c, o);
    RangeFacts(s, c, o);
  }

  lemma ReachingTick(s: SinkState, b: Chain, c: Chain, o: Options, f: nat, offer: Option<nat>)
    requires Split(s, b, c, o, f) && NoneBetween(s, f, WindowOf(s, o)) && WalkReaches(s, c, o) && LastBlock(s, o) < |c|
    requires |c| > 0 && offer.GetOr(o.logChunkBlocks) >= |c|
    ensures Clean(TickState(s, c, o, offer), c, o)
  {
    forall n | n in s.blocks && n < FromBlock(s, c, o)
      ensures Canonical(s, c, n)
    {
      LeftIsCanonical(s, b, c, o, f, n);
    }
    if !Idle(s, c, o, offer) {
      CleanIffBelow(s, c, o, offer);
    }
  }

  lemma {:induction false} CorrectingRun(s: SinkState, b: Chain, c: Chain, o: Options, lo: nat, turns: seq<Turn>)
    requires Correcting(s, b, c, o, lo) && Quiet(c, lo, NewWindow(c, o)) && ToHead(turns, c, o)
    ensures
      var s' := RunFrom(s, turns, o);
      Correcting(s', b, c, o, lo) && |Stale(s', c, o)| <= Max(0, |Stale(s, c, o)| - MAX_ANCHOR_CHECKS * |turns|)
  {
    if turns != [] {
      var before, turn := turns[..|turns| - 1], turns[|turns| - 1];
      assert Readable(turn, o);
      CorrectingRun(s, b, c, o, lo, before);
      CorrectingTick(RunFrom(s, before, o), b, c, o, lo, turn.offer);
    }
  }

  /**
   * Where the new branch has no indexed log from the lowest abandoned row up to the new window,
   * the correction does go on over successive ticks, eight rows in each, to the last.
   */
  lemma QuietBranchIsCorrected(s: SinkState, b: Chain, c: Chain, o: Options, lo: nat, turns: seq<Turn>)
    requires Started(s, o) && OnBranch(s, b, LastBlock(s, o)) && LastBlock(s, o) < |c|
    requires Quiet(c, lo, NewWindow(c, o)) && (forall n :: n in Stale(s, c, o) ==> lo <= n) && ToHead(turns, c, o)
    ensures |Stale(RunFrom(s, turns, o), c, o)| <= Max(0, |Stale(s, c, o)| - 8 * |turns|)
    ensures |Stale(s, c, o)| <= 8 * |turns| ==> RowsClean(RunFrom(s, turns, o), c, o)
  {
    RangeFacts(s, c, o);
    assert FreeDownTo(s, b, c, o, lo, LastBlock(s, o) + 1);
    CorrectingRun(s, b, c, o, lo, turns);
    var s' := RunFrom(s, turns, o);
    CleanIsEmpty(s', c, o);
    CleanRows(s', c, o);
  }

  // ------------------------------------------------------- when a run corrects, exactly

  /** Every stored row below a height, from the top down. */
  function AllBelow(blocks: map<nat, BlockRow>, before: nat): seq<BlockRow> {
    if before == 0 then []
    else (if before - 1 in blocks then [blocks[before - 1]] else []) + AllBelow(blocks, before - 1)
  }

  function RowsBelow(s: SinkState, o: Options): seq<BlockRow> {
    AllBelow(s.blocks, WindowOf(s, o))
  }

  /** How many of the most recent rows below the window no longer stand. */
  function Divergent(s: SinkState, c: Chain, o: Options): nat {
    FirstMatch(c, RowsBelow(s, o))
  }

  /** How many ticks have their walk cut short before one reaches. */
  function CutShort(s: SinkState, c: Chain, o: Options): nat {
    if Divergent(s, c, o) == 0 then 0 else (Divergent(s, c, o) - 1) / 8
  }

  lemma {:induction false} RecentIsTop(blocks: map<nat, BlockRow>, before: nat, limit: nat)
    ensures
      var all := AllBelow(blocks, before);
      RecentBlocks(blocks, before, limit) == if |all| <= limit then all else all[..limit]
    decreases before
  {
    if before > 0 {
      if before - 1 in blocks {
        if limit > 0 {
          RecentIsTop(blocks, before - 1, limit - 1);
        }
      } else {
        RecentIsTop(blocks, before - 1, limit);
      }
    }
  }

  lemma {:induction false} AllBelowFacts(blocks: map<nat, BlockRow>, before: nat)
    requires forall n :: n in blocks ==> blocks[n].blockNumber == n
    ensures
      var all := AllBelow(blocks, before);
      && Falling(all)
      && (forall i :: 0 <= i < |all| ==> all[i].blockNumber in blocks && blocks[all[i].blockNumber] == all[i])
      && (forall i :: 0 <= i < |all| ==> all[i].blockNumber < before)
    decreases before
  {
    if before > 0 {
      AllBelowFacts(blocks, before - 1);
    }
  }

  /** Rows that are not there, and rows above, make no difference. */
  lemma {:induction false} AllBelowAgree(blocks: map<nat, BlockRow>, after: map<nat, BlockRow>, lo: nat, hi: nat)
    requires lo <= hi && SameBelow(blocks, after, lo) && forall n :: n in after ==> !(lo <= n < hi)
    ensures AllBelow(after, hi) == AllBelow(blocks, lo)
    decreases hi
  {
    if hi > lo {
      AllBelowAgree(blocks, after, lo, hi - 1);
    } else if hi > 0 {
      AllBelowAgree(blocks, after, lo - 1, hi - 1);
    }
  }

  /** The rows after the k-th are those below it. */
  lemma {:induction false} AllBelowRest(blocks: map<nat, BlockRow>, before: nat, k: nat)
    requires forall n :: n in blocks ==> blocks[n].blockNumber == n
    requires 0 < k <= |AllBelow(blocks, before)|
    ensures AllBelow(blocks, before)[k - 1].blockNumber <= before
    ensures AllBelow(blocks, AllBelow(blocks, before)[k - 1].blockNumber) == AllBelow(blocks, before)[k..]
    decreases before
  {
    if before - 1 in blocks {
      if k > 1 {
        AllBelowRest(blocks, before - 1, k - 1);
      }
    } else {
      AllBelowRest(blocks, before - 1, k);
    }
  }

  lemma {:induction false} FirstMatchOfRest(c: Chain, anchors: seq<BlockRow>, k: nat)
    requires k <= FirstMatch(c, anchors)
    ensures k <= |anchors| && FirstMatch(c, anchors[k..]) == FirstMatch(c, anchors) - k
  {
    WalkFacts(c, anchors);
    if k > 0 {
      var rest := anchors[1..];
      assert anchors[k..] == rest[k - 1..];
      FirstMatchOfRest(c, rest, k - 1);
    } else {
      assert anchors[k..] == anchors;
    }
  }

  /** The walk reaches exactly when at most eight of the most recent rows no longer stand. */
  lemma ReachesIff(s: SinkState, c: Chain, o: Options)
    ensures WalkReaches(s, c, o) <==> Divergent(s, c, o) <= MAX_ANCHOR_CHECKS
  {
    var rows := RowsBelow(s, o);
    RecentIsTop(s.blocks, WindowOf(s, o), MAX_ANCHOR_CHECKS + 1);
    WalkFacts(c, rows);
    if |rows| > MAX_ANCHOR_CHECKS {
      var nine := rows[..MAX_ANCHOR_CHECKS + 1];
      FirstMatchOfPrefix(c, rows, MAX_ANCHOR_CHECKS + 1);
      WalkFacts(c, nine);
      if i :| 0 <= i < |Reach(s, o)| && StillCanonical(c, Reach(s, o)[i]) {
        FirstMatchIsFirst(c, Reach(s, o), i);
      }
    }
  }

  /** Between two corrections: nothing of the new branch is stored below the window. */
  ghost predicate Free(s: SinkState, b: Chain, c: Chain, o: Options, f: nat) {
    Split(s, b, c, o, f) && NoneBetween(s, f, WindowOf(s, o)) && LastBlock(s, o) < |c|
  }

  /** Stuck, with an abandoned row left below the window. */
  ghost predicate StuckStale(s: SinkState, c: Chain, o: Options) {
    TopStands(s, c, o) && exists n :: n in s.blocks && n < WindowOf(s, o) && !Canonical(s, c, n)
  }

  lemma StuckStaleIsNotClean(s: SinkState, c: Chain, o: Options)
    requires StuckStale(s, c, o)
    ensures !Clean(s, c, o)
  {
    RangeFacts(s, c, o);
  }

  lemma StuckStaleTick(s: SinkState, c: Chain, o: Options, offer: Option<nat>)
    requires StuckStale(s, c, o) && offer.GetOr(o.logChunkBlocks) >= Max(1, Min(o.reorgWindowBlocks, |c|))
    ensures StuckStale(TickState(s, c, o, offer), c, o)
  {
    var n :| n in s.blocks && n < WindowOf(s, o) && !Canonical(s, c, n);
    var s' := TickState(s, c, o, offer);
    StuckTick(s, c, o, offer);
    assert n in s'.blocks && n < WindowOf(s', o) && !Canonical(s', c, n);
  }

  lemma {:induction false} StuckStaleRun(s: SinkState, c: Chain, o: Options, turns: seq<Turn>)
    requires StuckStale(s, c, o) && Covering(turns, c, o)
    ensures StuckStale(RunFrom(s, turns, o), c, o)
  {
    if turns != [] {
      var before, turn := turns[..|turns| - 1], turns[|turns| - 1];
      assert Readable(turn, o);
      StuckStaleRun(s, c, o, before);
      StuckStaleTick(RunFrom(s, before, o), c, o, turn.offer);
    }
  }

  /** Where a tick to the head begins, and what it leaves, when its walk is cut short. */
  lemma CutTick(s: SinkState, s': SinkState, c: Chain, o: Options, offer: Option<nat>)
    requires Started(s, o) && LastBlock(s, o) < |c| && !WalkReaches(s, c, o)
    requires offer.GetOr(o.logChunkBlocks) >= |c| && s' == TickState(s, c, o, offer)
    ensures
      var from := FromBlock(s, c, o);
      && !Idle(s, c, o, offer) && Started(s', o) && LastBlock(s', o) == |c| - 1
      && from < |c| && from < WindowOf(s, o) <= NewWindow(c, o) == WindowOf(s', o)
      && s'.blocks == Rewritten(s.blocks, c, from, from, |c| - 1)
  {
    NinthIsLeft(s, c, o);
    RangeOfReach(s, c, o);
    RangeFacts(s, c, o);
    AfterTick(s, s', c, o, offer);
  }

  /** A log of the new branch from there up to the new window, and the walk is stuck above what is left. */
  lemma LoggedIsStuck(s: SinkState, s': SinkState, c: Chain, o: Options, from: nat)
    requires Started(s, o) && !WalkReaches(s, c, o) && from == FromBlock(s, c, o) < NewWindow(c, o)
    requires Started(s', o) && LastBlock(s', o) == |c| - 1
    requires s'.blocks == Rewritten(s.blocks, c, from, from, |c| - 1)
    requires !Quiet(c, from, NewWindow(c, o))
    ensures StuckStale(s', c, o)
  {
    RangeFacts(s', c, o);
    var top := LoggedTop(s, s', c, from, NewWindow(c, o));
    assert Canonical(s', c, top);
    NinthIsLeft(s, c, o);
    var ninth := Reach(s, o)[MAX_ANCHOR_CHECKS].blockNumber;
    assert ninth in s'.blocks && !Canonical(s', c, ninth);
  }

  /** The highest row below the new window is then the new branch's own. */
  lemma LoggedTop(s: SinkState, s': SinkState, c: Chain, from: nat, w: nat) returns (top: nat)
    requires s'.blocks == Rewritten(s.blocks, c, from, from, |c| - 1) && w <= |c| && !Quiet(c, from, w)
    ensures top in s'.blocks && TopBelow(s'.blocks, top, w) && Canonical(s', c, top)
  {
    var h: nat :| from <= h < w && h < |c| && CountIndexed(c[h].entries) > 0;
    assert h in ChainBlocks(c, from, |c| - 1) && h in s'.blocks;
    top := Top(s'.blocks, h, w);
    assert top in ChainBlocks(c, from, |c| - 1);
  }

  /**
   * After a tick to the head whose walk was cut short, one indexed log of the new branch between
   * where it began and the new window is enough: no run that covers the window ever ends clean.
   */
  lemma CutShortIsStuck(s: SinkState, c: Chain, o: Options, offer: Option<nat>, turns: seq<Turn>)
    requires Started(s, o) && LastBlock(s, o) < |c| && !WalkReaches(s, c, o)
    requires offer.GetOr(o.logChunkBlocks) >= |c| && !Quiet(c, FromBlock(s, c, o), NewWindow(c, o))
    requires Covering(turns, c, o)
    ensures !RowsClean(RunFrom(TickState(s, c, o, offer), turns, o), c, o)
  {
    var s' := TickState(s, c, o, offer);
    CutTick(s, s', c, o, offer);
    LoggedIsStuck(s, s', c, o, FromBlock(s, c, o));
    StuckStaleRun(s', c, o, turns);
    StuckStaleIsNotClean(RunFrom(s', turns, o), c, o);
    CleanRows(RunFrom(s', turns, o), c, o);
  }

  /** Without one the way stays free, and the rows below the window are those below the eighth. */
  lemma QuietIsFree(s: SinkState, s': SinkState, b: Chain, c: Chain, o: Options, f: nat, from: nat)
    requires Free(s, b, c, o, f) && !WalkReaches(s, c, o) && from == FromBlock(s, c, o) < |c|
    requires WindowOf(s, o) <= NewWindow(c, o) == WindowOf(s', o)
    requires Started(s', o) && LastBlock(s', o) == |c| - 1
    requires s'.blocks == Rewritten(s.blocks, c, from, from, |c| - 1)
    requires Quiet(c, from, NewWindow(c, o))
    ensures Free(s', b, c, o, from) && MAX_ANCHOR_CHECKS <= |RowsBelow(s, o)|
    ensures RowsBelow(s', o) == RowsBelow(s, o)[MAX_ANCHOR_CHECKS..]
  {
    NinthIsOld(s, b, c, o, f);
    LeftFree(s, s', b, c, o, f, from);
    RowsAfterCut(s, s', c, o, from);
  }

  lemma RowsAfterCut(s: SinkState, s': SinkState, c: Chain, o: Options, from: nat)
    requires Started(s, o) && !WalkReaches(s, c, o) && from == FromBlock(s, c, o) <= NewWindow(c, o) == WindowOf(s', o)
    requires s'.blocks == Rewritten(s.blocks, c, from, from, |c| - 1) && NoneBetween(s', from, WindowOf(s', o))
    ensures MAX_ANCHOR_CHECKS <= |RowsBelow(s, o)| && RowsBelow(s', o) == RowsBelow(s, o)[MAX_ANCHOR_CHECKS..]
  {
    EighthRow(s, c, o);
    AllBelowRest(s.blocks, WindowOf(s, o), MAX_ANCHOR_CHECKS);
    SameUnderRange(s, s', c, from);
    AllBelowAgree(s.blocks, s'.blocks, from, WindowOf(s', o));
  }

  lemma SameUnderRange(s: SinkState, s': SinkState, c: Chain, from: nat)
    requires s'.blocks == Rewritten(s.blocks, c, from, from, |c| - 1)
    ensures SameBelow(s.blocks, s'.blocks, from)
  {
  }

  /** A walk cut short makes the range begin at the eighth row below the window. */
  lemma EighthRow(s: SinkState, c: Chain, o: Options)
    requires Started(s, o) && !WalkReaches(s, c, o)
    ensures |RowsBelow(s, o)| > MAX_ANCHOR_CHECKS && FromBlock(s, c, o)
        == RowsBelow(s, o)[MAX_ANCHOR_CHECKS - 1].blockNumber
  {
    NinthIsLeft(s, c, o);
    RecentIsTop(s.blocks, WindowOf(s, o), MAX_ANCHOR_CHECKS + 1);
  }

  /** The heights a run has rewritten down to, j ticks of it cut short. */
  function Edge(rows: seq<BlockRow>, j: nat, c: Chain, o: Options): nat
    requires 8 * j <= |rows|
  {
    if j == 0 then NewWindow(c, o) else rows[8 * j - 1].blockNumber
  }

  /** No log of the new branch from the 8j-th most recent row up to the new window; of any row, for j = 0. */
  ghost predicate WayFree(s: SinkState, c: Chain, o: Options, j: nat) {
    8 * j <= |RowsBelow(s, o)| && Quiet(c, Edge(RowsBelow(s, o), j, c, o), NewWindow(c, o))
  }

  /** The state after j ticks cut short, with the way free. */
  ghost predicate FreeAfter(s: SinkState, s': SinkState, b: Chain, c: Chain, o: Options, j: nat) {
    && (exists f :: Free(s', b, c, o, f))
    && MAX_ANCHOR_CHECKS * j <= Divergent(s, c, o) <= |RowsBelow(s, o)|
    && RowsBelow(s', o) == RowsBelow(s, o)[MAX_ANCHOR_CHECKS * j..]
  }

  /** Where a run stands: still correcting, stuck for good, or clean. */
  ghost predicate Stands(s: SinkState, s': SinkState, b: Chain, c: Chain, o: Options, ticks: nat) {
    var cut := Min(ticks, CutShort(s, c, o));
    if !WayFree(s, c, o, cut) then StuckStale(s', c, o)
    else if ticks <= CutShort(s, c, o) then FreeAfter(s, s', b, c, o, ticks)
    else Started(s', o) && LastBlock(s', o) < |c| && Clean(s', c, o)
  }

  lemma WayNarrows(s: SinkState, c: Chain, o: Options, i: nat, j: nat)
    requires Started(s, o) && i <= j && MAX_ANCHOR_CHECKS * j <= |RowsBelow(s, o)| && WayFree(s, c, o, j)
    requires WindowOf(s, o) <= NewWindow(c, o)
    ensures WayFree(s, c, o, i)
  {
    AllBelowFacts(s.blocks, WindowOf(s, o));
    assert Edge(RowsBelow(s, o), j, c, o) <= Edge(RowsBelow(s, o), i, c, o);
  }

  lemma CutShortFits(s: SinkState, c: Chain, o: Options, j: nat)
    requires j <= CutShort(s, c, o)
    ensures MAX_ANCHOR_CHECKS * j <= Divergent(s, c, o) <= |RowsBelow(s, o)|
    ensures j < CutShort(s, c, o) ==> Divergent(s, c, o) - MAX_ANCHOR_CHECKS * j > MAX_ANCHOR_CHECKS
    ensures j == CutShort(s, c, o) ==> Divergent(s, c, o) - MAX_ANCHOR_CHECKS * j <= MAX_ANCHOR_CHECKS
    ensures 0 < j ==> Divergent(s, c, o) > MAX_ANCHOR_CHECKS * j
  {
    WalkFacts(c, RowsBelow(s, o));
  }

  lemma DivergentAfter(s: SinkState, r: SinkState, b: Chain, c: Chain, o: Options, j: nat)
    requires j <= CutShort(s, c, o) && FreeAfter(s, r, b, c, o, j)
    ensures Divergent(r, c, o) == Divergent(s, c, o) - MAX_ANCHOR_CHECKS * j
    ensures WalkReaches(r, c, o) <==> j == CutShort(s, c, o)
  {
    CutShortFits(s, c, o, j);
    FirstMatchOfRest(c, RowsBelow(s, o), MAX_ANCHOR_CHECKS * j);
    ReachesIff(r, c, o);
  }

  lemma NextEdge(rows: seq<BlockRow>, j: nat, c: Chain, o: Options)
    requires MAX_ANCHOR_CHECKS * (j + 1) <= |rows|
    ensures rows[MAX_ANCHOR_CHECKS * j..][MAX_ANCHOR_CHECKS - 1].blockNumber == Edge(rows, j + 1, c, o)
    ensures rows[MAX_ANCHOR_CHECKS * j..][MAX_ANCHOR_CHECKS..] == rows[MAX_ANCHOR_CHECKS * (j + 1)..]
  {
  }

  /** One tick more of a run that is still correcting, its walk cut short. */
  lemma CorrectsOn(s: SinkState, r: SinkState, t: SinkState, b: Chain, c: Chain, o: Options, offer: Option<nat>, j: nat)
    requires Started(s, o) && j < CutShort(s, c, o) && FreeAfter(s, r, b, c, o, j)
    requires offer.GetOr(o.logChunkBlocks) >= |c| && t == TickState(r, c, o, offer)
    ensures if WayFree(s, c, o, j + 1) then FreeAfter(s, t, b, c, o, j + 1) else StuckStale(t, c, o)
  {
    var f :| Free(r, b, c, o, f);
    DivergentAfter(s, r, b, c, o, j);
    CutShortFits(s, c, o, j + 1);
    CutTick(r, t, c, o, offer);
    EighthRow(r, c, o);
    NextEdge(RowsBelow(s, o), j, c, o);
    CorrectsFrom(s, r, t, b, c, o, f, j, FromBlock(r, c, o));
  }

  lemma CorrectsFrom(s: SinkState, r: SinkState, t: SinkState, b: Chain, c: Chain, o: Options, f: nat, j: nat,
      from: nat)
    requires Free(r, b, c, o, f) && !WalkReaches(r, c, o) && from == FromBlock(r, c, o) < |c|
    requires MAX_ANCHOR_CHECKS * (j + 1) <= Divergent(s, c, o) <= |RowsBelow(s, o)|
    requires RowsBelow(r, o) == RowsBelow(s, o)[MAX_ANCHOR_CHECKS * j..] && from == Edge(RowsBelow(s, o), j + 1, c, o)
    requires from < WindowOf(r, o) <= NewWindow(c, o) == WindowOf(t, o)
    requires Started(t, o) && LastBlock(t, o) == |c| - 1
    requires t.blocks == Rewritten(r.blocks, c, from, from, |c| - 1)
    ensures if WayFree(s, c, o, j + 1) then FreeAfter(s, t, b, c, o, j + 1) else StuckStale(t, c, o)
  {
    if Quiet(c, from, NewWindow(c, o)) {
      QuietIsFree(r, t, b, c, o, f, from);
      NextEdge(RowsBelow(s, o), j, c, o);
    } else {
      LoggedIsStuck(r, t, c, o, from);
    }
  }

  /** The tick that reaches. */
  lemma CorrectsLast(s: SinkState, r: SinkState, t: SinkState, b: Chain, c: Chain, o: Options, offer: Option<nat>)
    requires Started(s, o) && FreeAfter(s, r, b, c, o, CutShort(s, c, o)) && |c| > 0
    requires offer.GetOr(o.logChunkBlocks) >= |c| && t == TickState(r, c, o, offer)
    ensures Started(t, o) && LastBlock(t, o) < |c| && Clean(t, c, o)
  {
    var f :| Free(r, b, c, o, f);
    DivergentAfter(s, r, b, c, o, CutShort(s, c, o));
    ReachingTick(r, b, c, o, f, offer);
    TickStep(r, c, o, offer);
    StartedStep(r, c, o, offer);
  }

  lemma StaysClean(r: SinkState, t: SinkState, c: Chain, o: Options, offer: Option<nat>)
    requires Started(r, o) && LastBlock(r, o) < |c| && Clean(r, c, o) && t == TickState(r, c, o, offer)
    ensures Started(t, o) && LastBlock(t, o) < |c| && Clean(t, c, o)
  {
    RangeFacts(r, c, o);
    TickStep(r, c, o, offer);
    StartedStep(r, c, o, offer);
    if !Idle(r, c, o, offer) {
      CleanIffBelow(r, c, o, offer);
    }
  }

  /** Once the way is barred it stays so. */
  lemma StaysBarred(s: SinkState, c: Chain, o: Options, i: nat, j: nat)
    requires Started(s, o) && LastBlock(s, o) < |c| && i <= j <= CutShort(s, c, o) && !WayFree(s, c, o, i)
    ensures !WayFree(s, c, o, j)
  {
    CutShortFits(s, c, o, j);
    if WayFree(s, c, o, j) {
      WayNarrows(s, c, o, i, j);
    }
  }

  lemma StandsNext(s: SinkState, r: SinkState, t: SinkState, b: Chain, c: Chain, o: Options, offer: Option<nat>,
      ticks: nat)
    requires Started(s, o) && LastBlock(s, o) < |c| && |c| > 0 && Stands(s, r, b, c, o, ticks)
    requires offer.GetOr(o.logChunkBlocks) >= |c| && t == TickState(r, c, o, offer)
    ensures Stands(s, t, b, c, o, ticks + 1)
  {
    var cut := CutShort(s, c, o);
    if !WayFree(s, c, o, Min(ticks, cut)) {
      BarredNext(s, r, t, c, o, offer, Min(ticks, cut), Min(ticks + 1, cut));
    } else if ticks < cut {
      assert Min(ticks + 1, cut) == ticks + 1;
      CorrectsOn(s, r, t, b, c, o, offer, ticks);
    } else if ticks == cut {
      assert Min(ticks, cut) == cut == Min(ticks + 1, cut);
      CorrectsLast(s, r, t, b, c, o, offer);
    } else {
      StaysClean(r, t, c, o, offer);
    }
  }

  lemma BarredNext(s: SinkState, r: SinkState, t: SinkState, c: Chain, o: Options, offer: Option<nat>, i: nat, j: nat)
    requires Started(s, o) && LastBlock(s, o) < |c| && i <= j <= CutShort(s, c, o) && !WayFree(s, c, o, i)
        && StuckStale(r, c, o)
    requires offer.GetOr(o.logChunkBlocks) >= |c| && t == TickState(r, c, o, offer)
    ensures !WayFree(s, c, o, j) && StuckStale(t, c, o)
  {
    StaysBarred(s, c, o, i, j);
    StuckStaleTick(r, c, o, offer);
  }

  lemma {:induction false} RunStands(s: SinkState, b: Chain, c: Chain, o: Options, turns: seq<Turn>)
    requires Started(s, o) && OnBranch(s, b, LastBlock(s, o)) && LastBlock(s, o) < |c| && ToHead(turns, c, o)
    ensures Stands(s, RunFrom(s, turns, o), b, c, o, |turns|)
  {
    if turns == [] {
      RangeFacts(s, c, o);
      CutShortFits(s, c, o, 0);
      assert Free(s, b, c, o, LastBlock(s, o) + 1);
    } else {
      var before, turn := turns[..|turns| - 1], turns[|turns| - 1];
      assert Readable(turn, o);
      RunStands(s, b, c, o, before);
      var r := RunFrom(s, before, o);
      StandsNext(s, r, TickState(r, c, o, turn.offer), b, c, o, turn.offer, |before|);
    }
  }

  /** While a correction is under way, the next row below the window is abandoned. */
  lemma FreeIsNotClean(s: SinkState, r: SinkState, b: Chain, c: Chain, o: Options, j: nat)
    requires Started(s, o) && 0 < j <= CutShort(s, c, o) && FreeAfter(s, r, b, c, o, j)
    ensures !Clean(r, c, o)
  {
    CutShortFits(s, c, o, j);
    FirstMatchOfRest(c, RowsBelow(s, o), MAX_ANCHOR_CHECKS * j);
    WalkFacts(c, RowsBelow(r, o));
    AllBelowFacts(r.blocks, WindowOf(r, o));
    RangeFacts(r, c, o);
    var next := RowsBelow(r, o)[0];
    AnchorMatches(c, next, next.blockNumber);
    assert !Canonical(r, c, next.blockNumber);
  }

  /**
   * When successive ticks correct a reorganisation, exactly, and decided before the first of them.
   * Of the most recent rows below the window let those that no longer stand be counted; all but
   * the last eight or fewer of them cost one tick for each eight. A run of ticks to the head leaves
   * no row of an abandoned block if and only if it has more ticks than that, and the new branch has
   * no indexed log from the last of the rows so rewritten up to the new window.
   */
  lemma RunEndsCleanIff(s: SinkState, b: Chain, c: Chain, o: Options, turns: seq<Turn>)
    requires Started(s, o) && OnBranch(s, b, LastBlock(s, o)) && LastBlock(s, o) < |c|
    requires turns != [] && ToHead(turns, c, o)
    ensures RowsClean(RunFrom(s, turns, o), c, o) <==>
          |turns| > CutShort(s, c, o) && WayFree(s, c, o, CutShort(s, c, o))
  {
    var s' := RunFrom(s, turns, o);
    RunStands(s, b, c, o, turns);
    StandsDecides(s, s', b, c, o, |turns|);
    RunIsCoherent(s, c, o, turns);
    CleanRows(s', c, o);
  }

  lemma StandsDecides(s: SinkState, s': SinkState, b: Chain, c: Chain, o: Options, ticks: nat)
    requires Started(s, o) && LastBlock(s, o) < |c| && ticks > 0 && Stands(s, s', b, c, o, ticks)
    ensures Clean(s', c, o) <==> ticks > CutShort(s, c, o) && WayFree(s, c, o, CutShort(s, c, o))
  {
    var cut := CutShort(s, c, o);
    if !WayFree(s, c, o, Min(ticks, cut)) {
      StuckStaleIsNotClean(s', c, o);
      StaysBarred(s, c, o, Min(ticks, cut), cut);
    } else if ticks <= cut {
      FreeIsNotClean(s, s', b, c, o, ticks);
    }
  }

  lemma {:induction false} RunIsCoherent(s: SinkState, c: Chain, o: Options, turns: seq<Turn>)
    requires Started(s, o) && OnFixedChain(turns, c, o)
    ensures Started(RunFrom(s, turns, o), o)
  {
    if turns != [] {
      var before, turn := turns[..|turns| - 1], turns[|turns| - 1];
      RunIsCoherent(s, c, o, before);
      StartedStep(RunFrom(s, before, o), c, o, turn.offer);
    }
  }
}
