/**
 * One tick of the index (apps/registry/src/indexer.ts:141-340).
 *
 * RunTick is the code over a MemorySink; TickState is what it leaves. A tick reads one view of
 * the chain. Block timestamps, which never decide anything, are not carried.
 */
module Indexer {
  import opened Chain
  import opened Sink
  import opened Sums
  import opened Wrappers

  const MAX_ANCHOR_CHECKS := 8

  datatype Options = Options(startBlock: nat, logChunkBlocks: nat, reorgWindowBlocks: nat)

  datatype TickReport = TickReport(
    head: int, fromBlock: nat, toBlock: int, caughtUp: bool, logsSeen: nat, rowsWritten: nat, logsSkipped: nat,
    blocksTouched: nat, reorgFrom: Option<nat>, cursor: CursorState, idle: bool)

  // -------------------------------------------------------------------- range

  function CursorOf(s: SinkState, o: Options): CursorState {
    s.cursor.GetOr(CursorState(o.startBlock - 1, None, 0))
  }

  /** Where the re-scan window starts: never below the configured start. */
  function WindowFrom(lastBlock: int, o: Options): nat {
    Max(o.startBlock, lastBlock + 1 - o.reorgWindowBlocks)
  }

  function HashesOf(logs: seq<RawLog>): set<Hash> {
    set i | 0 <= i < |logs| :: logs[i].blockHash
  }

  /** The chain still carries a log under the anchor's hash at the anchor's height. */
  predicate StillCanonical(c: Chain, anchor: BlockRow) {
    anchor.blockHash in HashesOf(LogsBetween(c, anchor.blockNumber, anchor.blockNumber))
  }

  /** The walk down the anchors: the lowest divergent one above the first that still matches. */
  function DivergentAt(c: Chain, anchors: seq<BlockRow>): Option<nat> {
    if anchors == [] || StillCanonical(c, anchors[0]) then None
    else Some(DivergentAt(c, anchors[1..]).GetOr(anchors[0].blockNumber))
  }

  function Anchors(s: SinkState, o: Options): seq<BlockRow> {
    RecentBlocks(s.blocks, WindowFrom(CursorOf(s, o).lastBlock, o), MAX_ANCHOR_CHECKS)
  }

  function Deep(s: SinkState, c: Chain, o: Options): Option<nat> {
    DivergentAt(c, Anchors(s, o))
  }

  function FromBlock(s: SinkState, c: Chain, o: Options): nat {
    var windowFrom := WindowFrom(CursorOf(s, o).lastBlock, o);
    match Deep(s, c, o)
    case None => windowFrom
    case Some(d) => Max(o.startBlock, Min(windowFrom, d))
  }

  function ToBlock(s: SinkState, c: Chain, o: Options, offer: Option<nat>): int {
    Min(|c| - 1, FromBlock(s, c, o) + offer.GetOr(o.logChunkBlocks) - 1)
  }

  /** The delete reaches the range, and the divergence where that lies lower. */
  function DeleteFrom(deep: Option<nat>, from: nat): nat {
    Min(from, deep.GetOr(from))
  }

  // ------------------------------------------------------------- what is read

  function Decoded(logs: seq<RawLog>): seq<RawLog> {
    if logs == [] then []
    else Decoded(logs[..|logs| - 1]) + (if logs[|logs| - 1].event.Some? then [logs[|logs| - 1]] else [])
  }

  /** The hash of each block among the decoded logs; a later log of a block overwrites an earlier one. */
  function HashTable(decoded: seq<RawLog>): map<nat, Hash> {
    if decoded == [] then map[]
    else
      var log := decoded[|decoded| - 1];
      HashTable(decoded[..|decoded| - 1])[log.blockNumber := log.blockHash]
  }

  function CountTable(decoded: seq<RawLog>): map<nat, nat> {
    if decoded == [] then map[]
    else
      var log, before := decoded[|decoded| - 1], CountTable(decoded[..|decoded| - 1]);
      before[log.blockNumber := Lookup(before, log.blockNumber) + 1]
  }

  function Lookup(m: map<nat, nat>, n: nat): nat {
    if n in m then m[n] else 0
  }

  function RowOf(log: RawLog): EventLogRow {
    EventLogRow(log.blockNumber, log.blockHash, log.index, log.envelope, log.event.GetOr(""))
  }

  function Rows(decoded: seq<RawLog>): (rows: seq<EventLogRow>)
    ensures |rows| == |decoded|
  {
    seq(|decoded|, i requires 0 <= i < |decoded| => RowOf(decoded[i]))
  }

  /** The block rows of a table, in block order. */
  function BlockRows(hashes: map<nat, Hash>, counts: map<nat, nat>, lo: nat, hi: int): seq<BlockRow>
    decreases hi - lo + 1
  {
    if lo > hi then []
    else
      var n: nat := hi;
      BlockRows(hashes, counts, lo, hi - 1) + (if n in hashes then [BlockRow(n, hashes[n], Lookup(counts, n))] else [])
  }

  /** A block already indexed in the range that now carries another hash, or no indexed log. */
  function Changed(known: map<nat, Hash>, found: map<nat, Hash>): set<nat> {
    set n | n in known && (n !in found || found[n] != known[n])
  }

  function KnownHashes(blocks: map<nat, BlockRow>, lo: nat, hi: int): map<nat, Hash> {
    map n | n in blocks && InRange(n, lo, hi) :: blocks[n].blockHash
  }

  ghost predicate IsReorgFrom(r: Option<nat>, changed: set<nat>, deep: Option<nat>) {
    var all := changed + (if deep.Some? then {deep.value} else {});
    && (r.None? <==> all == {})
    && (r.Some? ==> r.value in all && forall n :: n in all ==> r.value <= n)
  }

  // ------------------------------------------------------------ what is left

  function BatchOf(s: SinkState, c: Chain, o: Options, deep: Option<nat>, from: nat, to: int): WriteBatch {
    var decoded := Decoded(LogsBetween(c, from, to));
    var blocks := BlockRows(HashTable(decoded), CountTable(decoded), from, to);
    var reorg := deep.Some? || Changed(KnownHashes(s.blocks, from, to), HashTable(decoded)) != {};
    WriteBatch(DeleteFrom(deep, from), to, blocks, Rows(decoded), NextCursor(CursorOf(s, o), to, blocks, reorg))
  }

  /** The cursor's hash is that of the last block row of the batch, if it has any. */
  function NextCursor(cursor: CursorState, to: int, blocks: seq<BlockRow>, reorg: bool): CursorState {
    CursorState(to,
                if blocks == [] then cursor.lastBlockHash else Some(blocks[|blocks| - 1].blockHash),
                cursor.reorgCount + (if reorg then 1 else 0))
  }

  function TickBatch(s: SinkState, c: Chain, o: Options, offer: Option<nat>): WriteBatch {
    BatchOf(s, c, o, Deep(s, c, o), FromBlock(s, c, o), ToBlock(s, c, o, offer))
  }

  predicate Idle(s: SinkState, c: Chain, o: Options, offer: Option<nat>) {
    ToBlock(s, c, o, offer) < FromBlock(s, c, o)
  }

  function TickState(s: SinkState, c: Chain, o: Options, offer: Option<nat>): SinkState {
    if Idle(s, c, o, offer) then s else Applied(s, TickBatch(s, c, o, offer))
  }

  // --------------------------------------------------------------------- code

  method FindDeepDivergence(c: Chain, blocks: map<nat, BlockRow>, before: nat, limit: nat)
      returns (divergentAt: Option<nat>)
    ensures divergentAt == DivergentAt(c, RecentBlocks(blocks, before, limit))
  {
    if before <= 0 || limit <= 0 {
      return None;
    }
    var anchors := RecentBlocks(blocks, before, limit);
    divergentAt := None;
    for i := 0 to |anchors|
      invariant DivergentAt(c, anchors)
          == (if DivergentAt(c, anchors[i..]).Some? then DivergentAt(c, anchors[i..]) else divergentAt)
    {
      var logs := LogsBetween(c, anchors[i].blockNumber, anchors[i].blockNumber);
      var hashes := HashesOf(logs);
      assert anchors[i..][1..] == anchors[i + 1..];
      if anchors[i].blockHash in hashes {
        break;
      }
      divergentAt := Some(anchors[i].blockNumber);
    }
  }

  /** The decoded logs, and how many were skipped because nothing indexes them. */
  method DecodeAll(logs: seq<RawLog>) returns (decoded: seq<RawLog>, skipped: nat)
    ensures decoded == Decoded(logs) && |decoded| + skipped == |logs|
  {
    decoded, skipped := [], 0;
    for i := 0 to |logs|
      invariant decoded == Decoded(logs[..i]) && |decoded| + skipped == i
    {
      assert logs[..i + 1][..i] == logs[..i];
      if logs[i].event.None? {
        skipped := skipped + 1;
        continue;
      }
      decoded := decoded + [logs[i]];
    }
    assert logs[..|logs|] == logs;
  }

  method TabulateBlocks(decoded: seq<RawLog>) returns (hashes: map<nat, Hash>, counts: map<nat, nat>)
    ensures hashes == HashTable(decoded) && counts == CountTable(decoded)
  {
    hashes, counts := map[], map[];
    for i := 0 to |decoded|
      invariant hashes == HashTable(decoded[..i]) && counts == CountTable(decoded[..i])
    {
      assert decoded[..i + 1][..i] == decoded[..i];
      var number := decoded[i].blockNumber;
      hashes := hashes[number := decoded[i].blockHash];
      counts := counts[number := (if number in counts then counts[number] else 0) + 1];
    }
    assert decoded[..|decoded|] == decoded;
  }

  function Lower(reorgFrom: Option<nat>, n: nat): nat {
    if reorgFrom.None? then n else Min(reorgFrom.value, n)
  }

  lemma LowerKeeps(reorgFrom: Option<nat>, seen: set<nat>, deep: Option<nat>, n: nat)
    requires IsReorgFrom(reorgFrom, seen, deep)
    ensures IsReorgFrom(Some(Lower(reorgFrom, n)), seen + {n}, deep)
  {
  }

  /** The blocks found that are known under another hash. */
  ghost function Differing(known: map<nat, Hash>, found: map<nat, Hash>): set<nat> {
    set n | n in found && n in known && known[n] != found[n]
  }

  /** The first divergence loop: a block indexed under one hash and now carrying another. */
  method DifferingHashes(known: map<nat, Hash>, found: map<nat, Hash>, deep: Option<nat>)
      returns (reorgFrom: Option<nat>)
    ensures IsReorgFrom(reorgFrom, Differing(known, found), deep)
  {
    reorgFrom := deep;
    var todo := found.Keys;
    ghost var seen: set<nat> := {};
    while todo != {}
      invariant todo <= found.Keys
      invariant seen == set n | n in found && n !in todo && n in known && known[n] != found[n]
      invariant IsReorgFrom(reorgFrom, seen, deep)
      decreases todo
    {
      var n: nat :| n in todo;
      todo := todo - {n};
      if n in known && known[n] != found[n] {
        LowerKeeps(reorgFrom, seen, deep, n);
        reorgFrom := Some(Lower(reorgFrom, n));
        seen := seen + {n};
      }
    }
    assert seen == Differing(known, found);
  }

  /** The second: a stored block of the range that is absent from what was found. */
  method MissingBlocks(known: map<nat, Hash>, found: map<nat, Hash>, deep: Option<nat>, before: Option<nat>,
      ghost differing: set<nat>)
    returns (reorgFrom: Option<nat>)
    requires IsReorgFrom(before, differing, deep)
    ensures IsReorgFrom(reorgFrom, differing + (set n | n in known && n !in found), deep)
  {
    reorgFrom := before;
    var todo := known.Keys;
    ghost var missing: set<nat> := {};
    assert differing + missing == differing;
    while todo != {}
      invariant todo <= known.Keys
      invariant missing == set n | n in known && n !in todo && n !in found
      invariant IsReorgFrom(reorgFrom, differing + missing, deep)
      decreases todo
    {
      var n: nat :| n in todo;
      todo := todo - {n};
      if n !in found {
        LowerKeeps(reorgFrom, differing + missing, deep, n);
        reorgFrom := Some(Lower(reorgFrom, n));
        missing := missing + {n};
        assert differing + missing == differing + (missing - {n}) + {n};
      }
    }
    assert missing == set n | n in known && n !in found;
  }

  method FindReorg(known: map<nat, Hash>, found: map<nat, Hash>, deep: Option<nat>) returns (reorgFrom: Option<nat>)
    ensures IsReorgFrom(reorgFrom, Changed(known, found), deep)
  {
    reorgFrom := DifferingHashes(known, found, deep);
    reorgFrom := MissingBlocks(known, found, deep, reorgFrom, Differing(known, found));
    assert Changed(known, found) == Differing(known, found) + set n | n in known && n !in found;
  }

  lemma ReorgNotBelow(r: Option<nat>, known: map<nat, Hash>, found: map<nat, Hash>, deep: Option<nat>, from: nat)
    requires IsReorgFrom(r, Changed(known, found), deep) && forall n :: n in known ==> from <= n
    ensures r.Some? <==> deep.Some? || Changed(known, found) != {}
    ensures Min(from, r.GetOr(from)) == Min(from, deep.GetOr(from))
  {
  }

  /** The range of a tick: window, anchors, chunk. */
  method Plan(c: Chain, sink: MemorySink, o: Options, offer: Option<nat>)
      returns (deep: Option<nat>, fromBlock: nat, toBlock: int)
    ensures deep == Deep(sink.State(), c, o)
    ensures fromBlock == FromBlock(sink.State(), c, o)
    ensures toBlock == ToBlock(sink.State(), c, o, offer)
  {
    var head := |c| - 1;
    var cursor := sink.cursor.GetOr(CursorState(o.startBlock - 1, None, 0));
    var nextBlock := cursor.lastBlock + 1;
    var windowFrom: nat := Max(o.startBlock, nextBlock - o.reorgWindowBlocks);
    deep := FindDeepDivergence(c, sink.blocks, windowFrom, MAX_ANCHOR_CHECKS);
    fromBlock := if deep.None? then windowFrom else Max(o.startBlock, Min(windowFrom, deep.value));
    var chunk := offer.GetOr(o.logChunkBlocks);
    toBlock := Min(head, fromBlock + chunk - 1);
  }

  /** What reading the range found, next to the batch it makes. */
  datatype Reading = Reading(logsSeen: nat, logsSkipped: nat, reorgFrom: Option<nat>)

  lemma BatchIs(s: SinkState, c: Chain, o: Options, deep: Option<nat>, from: nat, last: int, decoded: seq<RawLog>,
      blocks: seq<BlockRow>, known: map<nat, Hash>, reorgFrom: Option<nat>, batch: WriteBatch)
    requires decoded == Decoded(LogsBetween(c, from, last)) && known == KnownHashes(s.blocks, from, last)
    requires blocks == BlockRows(HashTable(decoded), CountTable(decoded), from, last)
    requires reorgFrom.Some? <==> deep.Some? || Changed(known, HashTable(decoded)) != {}
    requires Min(from, reorgFrom.GetOr(from)) == Min(from, deep.GetOr(from))
    requires batch == WriteBatch(Min(from, reorgFrom.GetOr(from)), last, blocks, Rows(decoded),
                                 NextCursor(CursorOf(s, o), last, blocks, reorgFrom.Some?))
    ensures batch == BatchOf(s, c, o, deep, from, last)
  {
  }

  /** The batch of the range whose logs these are. */
  method ReadRange(ghost c: Chain, logs: seq<RawLog>, sink: MemorySink, o: Options, deep: Option<nat>,
      fromBlock: nat, toBlock: int)
    returns (batch: WriteBatch, reading: Reading)
    requires logs == LogsBetween(c, fromBlock, toBlock)
    ensures batch == BatchOf(sink.State(), c, o, deep, fromBlock, toBlock)
    ensures reading.logsSeen == |LogsBetween(c, fromBlock, toBlock)|
    ensures |batch.events| == |Decoded(LogsBetween(c, fromBlock, toBlock))|
    ensures |batch.events| + reading.logsSkipped == reading.logsSeen
    ensures IsReorgFrom(reading.reorgFrom,
                        Changed(KnownHashes(sink.blocks, fromBlock, toBlock),
                            HashTable(Decoded(LogsBetween(c, fromBlock, toBlock)))),
                        deep)
  {
    var decoded, logsSkipped := DecodeAll(logs);
    var blockHashes, blockCounts := TabulateBlocks(decoded);
    var known := sink.ReadBlockHashes(fromBlock, toBlock);
    assert known == KnownHashes(sink.blocks, fromBlock, toBlock);
    var reorgFrom := FindReorg(known, blockHashes, deep);
    ReorgNotBelow(reorgFrom, known, blockHashes, deep, fromBlock);
    var deleteFrom: nat := if reorgFrom.None? then fromBlock else Min(fromBlock, reorgFrom.value);
    var events := Rows(decoded);
    var blocks := BlockRows(blockHashes, blockCounts, fromBlock, toBlock);
    var cursor := sink.cursor.GetOr(CursorState(o.startBlock - 1, None, 0));
    batch := WriteBatch(deleteFrom, toBlock, blocks, events, NextCursor(cursor, toBlock, blocks, reorgFrom.Some?));
    BatchIs(sink.State(), c, o, deep, fromBlock, toBlock, decoded, blocks, known, reorgFrom, batch);
    reading := Reading(|logs|, logsSkipped, reorgFrom);
  }

  /** A report is true of a tick: its range, where the cursor then is, and what was read, written and rewritten. */
  ghost predicate TrueReport(report: TickReport, s: SinkState, s': SinkState, c: Chain, o: Options,
      offer: Option<nat>) {
    && report.idle == Idle(s, c, o, offer)
    && report.head == |c| - 1 && report.fromBlock == FromBlock(s, c, o)
    && report.cursor == CursorOf(s', o) && report.toBlock == report.cursor.lastBlock
    && report.caughtUp == (report.idle || report.toBlock >= report.head)
    && (report.idle ==>
          report.logsSeen == report.rowsWritten == report.logsSkipped == report.blocksTouched == 0
              && report.reorgFrom.None?)
    && (!report.idle ==>
          && report.logsSeen == |LogsBetween(c, report.fromBlock, report.toBlock)|
          && report.rowsWritten == |Decoded(LogsBetween(c, report.fromBlock, report.toBlock))|
          && report.rowsWritten + report.logsSkipped == report.logsSeen
          && report.blocksTouched == |TickBatch(s, c, o, offer).blocks|
          && IsReorgFrom(report.reorgFrom,
                         Changed(KnownHashes(s.blocks, report.fromBlock, report.toBlock),
                                 HashTable(Decoded(LogsBetween(c, report.fromBlock, report.toBlock)))),
                         Deep(s, c, o)))
  }

  /** A tick once its range is fixed and its logs are read: one batch, or none when there is no range. */
  method FinishTick(
    c: Chain, sink: MemorySink, o: Options, ghost offer: Option<nat>, deep: Option<nat>, fromBlock: nat,
        toBlock: int, logs: seq<RawLog>)
    returns (report: TickReport)
    requires |c| > 0
    requires deep == Deep(sink.State(), c, o) && fromBlock == FromBlock(sink.State(), c, o)
        && toBlock == ToBlock(sink.State(), c, o, offer)
    requires fromBlock <= toBlock ==> logs == LogsBetween(c, fromBlock, toBlock)
    modifies sink
    ensures sink.State() == TickState(old(sink.State()), c, o, offer)
    ensures sink.batches == old(sink.batches) + (if report.idle then 0 else 1)
    ensures TrueReport(report, old(sink.State()), sink.State(), c, o, offer)
  {
    var head := |c| - 1;
    if toBlock < fromBlock {
      var cursor := sink.cursor.GetOr(CursorState(o.startBlock - 1, None, 0));
      return TickReport(head, fromBlock, cursor.lastBlock, true, 0, 0, 0, 0, None, cursor, true);
    }
    var batch, reading := ReadRange(c, logs, sink, o, deep, fromBlock, toBlock);
    sink.ApplyBatch(batch);
    report := TickReport(head, fromBlock, toBlock, toBlock >= head, reading.logsSeen, |batch.events|,
        reading.logsSkipped,
                         |batch.blocks|, reading.reorgFrom, batch.cursor, false);
  }

  /** A whole tick, as one step of the sink's state. */
  method RunTick(c: Chain, sink: MemorySink, o: Options, offer: Option<nat>) returns (report: TickReport)
    requires |c| > 0
    modifies sink
    ensures sink.State() == TickState(old(sink.State()), c, o, offer)
    ensures sink.batches == old(sink.batches) + (if report.idle then 0 else 1)
    ensures TrueReport(report, old(sink.State()), sink.State(), c, o, offer)
  {
    var deep, fromBlock, toBlock := Plan(c, sink, o, offer);
    var logs := LogsBetween(c, fromBlock, toBlock);
    report := FinishTick(c, sink, o, offer, deep, fromBlock, toBlock, logs);
  }
}
