/**
 * A tick of the indexer over the composite source (apps/registry/src/indexer.ts:176-202,
 * apps/registry/src/hypersync.ts:333-366): the chunk the source offers is the one the tick reads.
 */
module CompositeTick {
  import opened Chain
  import opened Sink
  import opened Indexer
  import opened IndexSync
  import opened HyperSync
  import opened Sums
  import opened Wrappers

  /** What a tick on the composite may be offered, given where it starts reading. */
  ghost predicate FairOffer(offer: Option<nat>, fastChunk: Option<nat>, from: nat, head: int, liveWindow: nat,
      liveChunk: nat) {
    offer.Some? ==>
      && fastChunk.Some? && Min(fastChunk.value, liveChunk) <= offer.value <= fastChunk.value
      && from + offer.value - 1 <= head - liveWindow
  }

  /** A fair offer does not stall the cursor at the live window's edge: the tick moves on, below the head. */
  lemma FairOfferMovesOn(s: SinkState, c: Chain, o: Options, offer: Option<nat>, fastChunk: Option<nat>, from: nat,
      liveWindow: nat)
    requires FairOffer(offer, fastChunk, from, |c| - 1, liveWindow, o.logChunkBlocks)
    requires Synced(s, c, o) && LastBlock(s, o) < |c| - 1
    requires o.reorgWindowBlocks < o.logChunkBlocks && (fastChunk.Some? ==> o.reorgWindowBlocks < fastChunk.value)
    ensures LastBlock(s, o) < LastBlock(TickState(s, c, o, offer), o)
  {
    ProgressIff(s, c, o, offer);
  }

  /** What the archive is to each of a tick's reads, by the number of the read and where it ends. */
  type Archives = (nat, nat) -> Archive

  ghost predicate AllTruthful(archives: Archives, c: Chain) {
    forall k: nat, last: nat :: Truthful(archives(k, last), c, last)
  }

  /** When each of those done is made, and when it fails if it does. */
  datatype Moments = Moments(now: nat -> int, later: nat -> int)

  /** An archive that carries every read of a tick to its end, and is not resting when any is made. */
  ghost predicate Healthy(archives: Archives, times: Moments, restingUntil: int) {
    && (forall k: nat, from: nat, last: nat :: from <= last ==> Reaches(archives(k, last), 0, from, last))
    && forall k: nat :: restingUntil <= times.now(k)
  }

  /** What a healthy archive offers: its own chunk, or what is left below the live window, from one RPC chunk on. */
  function HealthyOffer(fastChunk: Option<nat>, from: nat, head: int, liveWindow: nat, liveChunk: nat): Option<nat>
    requires liveChunk > 0
  {
    var remaining := head - liveWindow - from + 1;
    if fastChunk.None? || remaining < liveChunk then None else Some(Min(fastChunk.value, remaining))
  }

  /** The anchors are checked through the composite, each by a read of one block. */
  method WalkOnComposite(source: CatchUpSource, archives: Archives, times: Moments, c: Chain, anchors: seq<BlockRow>)
    returns (divergentAt: Option<nat>, done: nat)
    requires source.liveChunkBlocks > 0 && AllTruthful(archives, c)
    modifies source
    ensures divergentAt == DivergentAt(c, anchors) && source.head == old(source.head) && done <= |anchors|
    ensures Healthy(archives, times, old(source.fastRestingUntil)) ==>
              source.fastRestingUntil == old(source.fastRestingUntil)
  {
    divergentAt, done := None, 0;
    for i := 0 to |anchors|
      invariant done == i && source.head == old(source.head)
      invariant Healthy(archives, times, old(source.fastRestingUntil)) ==>
          source.fastRestingUntil == old(source.fastRestingUntil)
      invariant DivergentAt(c, anchors)
          == (if DivergentAt(c, anchors[i..]).Some? then DivergentAt(c, anchors[i..]) else divergentAt)
    {
      var n := anchors[i].blockNumber;
      assert Truthful(archives(done, n), c, n);
      var logs := source.GetLogs(archives(done, n), c, n, n, times.now(done), times.later(done));
      done := done + 1;
      assert anchors[i..][1..] == anchors[i + 1..];
      if anchors[i].blockHash in HashesOf(logs) {
        break;
      }
      divergentAt := Some(n);
    }
  }

  /**
   * A tick on the composite, every read of it through the composite: its head, its anchors, its
   * chunk and its range. Whatever the archive does at each of them the sink takes the step of a
   * tick on the chain itself, with the chunk that was offered; the chunk never reaches into the
   * live window, and when both chunks are longer than the re-scan window the cursor moves on.
   */
  method RunOnComposite(source: CatchUpSource, archives: Archives, times: Moments, c: Chain, sink: MemorySink,
      o: Options, fastChunk: Option<nat>)
    returns (report: TickReport, offer: Option<nat>)
    requires |c| > 0 && source.liveChunkBlocks == o.logChunkBlocks > 0 && AllTruthful(archives, c)
    modifies source, sink
    ensures source.head == Some(|c| - 1)
    ensures FairOffer(offer, fastChunk, FromBlock(old(sink.State()), c, o), |c| - 1, source.liveWindow,
        o.logChunkBlocks)
    ensures Healthy(archives, times, old(source.fastRestingUntil)) ==>
              offer == HealthyOffer(fastChunk, FromBlock(old(sink.State()), c, o), |c| - 1, source.liveWindow,
                                    o.logChunkBlocks)
    ensures sink.State() == TickState(old(sink.State()), c, o, offer)
    ensures TrueReport(report, old(sink.State()), sink.State(), c, o, offer)
    ensures MovesOn(old(sink.State()), c, o, fastChunk, LastBlock(sink.State(), o))
  {
    ghost var before := sink.State();
    var deep, fromBlock, toBlock, next;
    deep, fromBlock, toBlock, offer, next := PlanOnComposite(source, archives, times, c, sink, o, fastChunk);
    MovesOnAfter(before, c, o, offer, fastChunk, fromBlock, source.liveWindow);
    var logs := ReadOnComposite(source, archives, times, c, fromBlock, toBlock, next);
    report := FinishTick(c, sink, o, offer, deep, fromBlock, toBlock, logs);
  }

  /** Where the range begins, by the anchors. */
  method StartOnComposite(source: CatchUpSource, archives: Archives, times: Moments, c: Chain, sink: MemorySink,
      o: Options)
    returns (deep: Option<nat>, fromBlock: nat, done: nat)
    requires source.liveChunkBlocks > 0 && AllTruthful(archives, c)
    modifies source
    ensures deep == Deep(sink.State(), c, o) && fromBlock == FromBlock(sink.State(), c, o)
    ensures source.head == old(source.head)
    ensures Healthy(archives, times, old(source.fastRestingUntil)) ==>
              source.fastRestingUntil == old(source.fastRestingUntil)
  {
    var cursor := sink.cursor.GetOr(CursorState(o.startBlock - 1, None, 0));
    var windowFrom: nat := Max(o.startBlock, cursor.lastBlock + 1 - o.reorgWindowBlocks);
    deep, done := WalkOnComposite(source, archives, times, c, RecentBlocks(sink.blocks, windowFrom, MAX_ANCHOR_CHECKS));
    fromBlock := if deep.None? then windowFrom else Max(o.startBlock, Min(windowFrom, deep.value));
  }

  /** The head, the anchors and the chunk: what fixes the range. */
  method PlanOnComposite(source: CatchUpSource, archives: Archives, times: Moments, c: Chain, sink: MemorySink,
      o: Options, fastChunk: Option<nat>)
    returns (deep: Option<nat>, fromBlock: nat, toBlock: int, offer: Option<nat>, next: nat)
    requires |c| > 0 && source.liveChunkBlocks == o.logChunkBlocks > 0 && AllTruthful(archives, c)
    modifies source
    ensures deep == Deep(sink.State(), c, o) && fromBlock == FromBlock(sink.State(), c, o)
    ensures toBlock == ToBlock(sink.State(), c, o, offer)
    ensures FairOffer(offer, fastChunk, fromBlock, |c| - 1, source.liveWindow, o.logChunkBlocks)
    ensures Healthy(archives, times, old(source.fastRestingUntil)) ==>
              offer == HealthyOffer(fastChunk, fromBlock, |c| - 1, source.liveWindow, o.logChunkBlocks)
    ensures source.head == Some(|c| - 1)
  {
    var head := source.HeadBlock(c);
    var done;
    deep, fromBlock, done := StartOnComposite(source, archives, times, c, sink, o);
    assert Truthful(archives(done, fromBlock), c, fromBlock);
    offer := source.ChunkBlocks(archives(done, fromBlock), c, fromBlock, head, fastChunk, times.now(done),
        times.later(done));
    toBlock := Min(head, fromBlock + offer.GetOr(o.logChunkBlocks) - 1);
    next := done + 1;
  }

  method ReadOnComposite(source: CatchUpSource, archives: Archives, times: Moments, c: Chain, fromBlock: nat,
      toBlock: int, read: nat)
    returns (logs: seq<RawLog>)
    requires source.liveChunkBlocks > 0 && AllTruthful(archives, c)
    modifies source
    ensures source.head == old(source.head) && (fromBlock <= toBlock ==> logs == LogsBetween(c, fromBlock, toBlock))
  {
    logs := [];
    if fromBlock <= toBlock {
      assert Truthful(archives(read, toBlock), c, toBlock);
      logs := source.GetLogs(archives(read, toBlock), c, fromBlock, toBlock, times.now(read), times.later(read));
    }
  }

  /** Below the head of a chain the sink agrees with, the cursor has moved on. */
  ghost predicate MovesOn(s: SinkState, c: Chain, o: Options, fastChunk: Option<nat>, after: int) {
    && Synced(s, c, o) && LastBlock(s, o) < |c| - 1
    && o.reorgWindowBlocks < o.logChunkBlocks && (fastChunk.Some? ==> o.reorgWindowBlocks < fastChunk.value)
    ==> LastBlock(s, o) < after
  }

  lemma MovesOnAfter(s: SinkState, c: Chain, o: Options, offer: Option<nat>, fastChunk: Option<nat>, from: nat,
      liveWindow: nat)
    requires FairOffer(offer, fastChunk, from, |c| - 1, liveWindow, o.logChunkBlocks)
    ensures MovesOn(s, c, o, fastChunk, LastBlock(TickState(s, c, o, offer), o))
  {
    if && Synced(s, c, o) && LastBlock(s, o) < |c| - 1
       && o.reorgWindowBlocks < o.logChunkBlocks && (fastChunk.Some? ==> o.reorgWindowBlocks < fastChunk.value)
    {
      FairOfferMovesOn(s, c, o, offer, fastChunk, from, liveWindow);
    }
  }
}
