/**
 * Two sources of one chain's logs, the archive and the RPC, and the composite of the two
 * (apps/registry/src/hypersync.ts).
 *
 * The archive answers page by page and may fail, lag or stop at any page. What it does return
 * is assumed true of the span a page confirms. The RPC answers truthfully; when it fails the
 * whole tick fails, and that is not modelled.
 */
module HyperSync {
  import opened Chain
  import opened Sums
  import opened Wrappers

  const MAX_PAGES_PER_RANGE := 1_000

  /** One answer to a page request. Failed stands for a thrown error, a hole in a log included. */
  datatype PageAnswer = Failed | Page(nextBlock: int, archiveHeight: Option<int>, logs: seq<RawLog>)

  /** What the archive answers to the i-th page of a range, asked from a block on. */
  type Archive = (nat, nat) -> PageAnswer

  datatype ArchiveError = RequestFailed | Behind(askedTo: int,
      archiveHeight: int) | NoProgress(cursor: nat) | TooManyPages

  /** A page holds, in any order, the logs of the span it confirms. */
  ghost predicate TruePage(answer: PageAnswer, c: Chain, cursor: nat, to: int) {
    answer.Page? ==> multiset(answer.logs) == multiset(LogsBetween(c, cursor, Min(answer.nextBlock - 1, to)))
  }

  ghost predicate Truthful(archive: Archive, c: Chain, to: int) {
    forall i: nat, cursor: nat :: TruePage(archive(i, cursor), c, cursor, to)
  }

  // ------------------------------------------------------------------ sorting

  predicate Before(a: RawLog, b: RawLog) {
    a.blockNumber < b.blockNumber || (a.blockNumber == b.blockNumber && a.index < b.index)
  }

  function InsertLog(log: RawLog, s: seq<RawLog>): seq<RawLog> {
    if s == [] || !Before(s[0], log) then [log] + s else [s[0]] + InsertLog(log, s[1..])
  }

  /** The sort by (block, index). */
  function SortLogs(s: seq<RawLog>): seq<RawLog> {
    if s == [] then [] else InsertLog(s[0], SortLogs(s[1..]))
  }

  ghost predicate Ordered(s: seq<RawLog>) {
    forall i, j :: 0 <= i < j < |s| ==> !Before(s[j], s[i])
  }

  ghost predicate StrictlyOrdered(s: seq<RawLog>) {
    forall i, j :: 0 <= i < j < |s| ==> Before(s[i], s[j])
  }

  lemma {:induction false} InsertLogOrders(log: RawLog, s: seq<RawLog>)
    requires Ordered(s)
    ensures Ordered(InsertLog(log, s))
    ensures forall x :: x in InsertLog(log, s) ==> x == log || x in s
  {
    if s != [] && Before(s[0], log) {
      InsertLogOrders(log, s[1..]);
      var t := InsertLog(log, s[1..]);
      forall i | 0 <= i < |t|
        ensures !Before(t[i], s[0])
      {
        assert t[i] == log || t[i] in s[1..];
      }
    }
  }

  lemma {:induction false} InsertLogPermutes(log: RawLog, s: seq<RawLog>)
    ensures multiset(InsertLog(log, s)) == multiset(s) + multiset{log}
  {
    if s != [] && Before(s[0], log) {
      InsertLogPermutes(log, s[1..]);
      assert s == [s[0]] + s[1..];
    }
  }

  lemma {:induction false} SortLogsPermutes(s: seq<RawLog>)
    ensures multiset(SortLogs(s)) == multiset(s)
  {
    if s != [] {
      SortLogsPermutes(s[1..]);
      InsertLogPermutes(s[0], SortLogs(s[1..]));
      assert s == [s[0]] + s[1..];
    }
  }

  lemma {:induction false} SortLogsFacts(s: seq<RawLog>)
    ensures Ordered(SortLogs(s)) && multiset(SortLogs(s)) == multiset(s)
  {
    SortLogsPermutes(s);
    if s != [] {
      SortLogsFacts(s[1..]);
      InsertLogOrders(s[0], SortLogs(s[1..]));
    }
  }

  lemma HeadsAgree(s: seq<RawLog>, t: seq<RawLog>, i: nat, j: nat)
    requires Ordered(s) && StrictlyOrdered(t)
    requires i < |s| && j < |t| && s[0] == t[j] && t[0] == s[i]
    ensures j == 0
  {
  }

  /** The first elements of two such permutations are the same, and so are the rests. */
  lemma SameHead(s: seq<RawLog>, t: seq<RawLog>)
    requires s != [] && Ordered(s) && StrictlyOrdered(t) && multiset(s) == multiset(t)
    ensures t != [] && s[0] == t[0] && multiset(s[1..]) == multiset(t[1..])
  {
    var j := MatchFirst(s, t);
    assert t[0] in multiset(t) && t[0] in multiset(s);
    var i :| 0 <= i < |s| && s[i] == t[0];
    HeadsAgree(s, t, i, j);
    assert t[..0] + t[1..] == t[1..];
  }

  /** A permutation of a strictly ordered list that is itself ordered is that list. */
  lemma {:induction false} OrderedIsUnique(s: seq<RawLog>, t: seq<RawLog>)
    requires Ordered(s) && StrictlyOrdered(t) && multiset(s) == multiset(t)
    ensures s == t
  {
    if s == [] {
      EmptyMatch(s, t);
    } else {
      SameHead(s, t);
      OrderedIsUnique(s[1..], t[1..]);
      assert s == [s[0]] + s[1..] && t == [t[0]] + t[1..];
    }
  }

  lemma {:induction false} LogsAreOrdered(c: Chain, lo: nat, hi: int)
    ensures StrictlyOrdered(LogsBetween(c, lo, hi))
    ensures forall i :: 0 <= i < |LogsBetween(c, lo, hi)| ==> LogsBetween(c, lo, hi)[i].blockNumber >= lo
    decreases hi - lo + 1
  {
    if lo <= hi {
      LogsAreOrdered(c, lo + 1, hi);
    }
  }

  // --------------------------------------------------------------- paged reads

  /** What has been read is, in some order, the logs below the cursor. */
  ghost predicate Collected(out: seq<RawLog>, c: Chain, from: nat, cursor: int) {
    from <= cursor && multiset(out) == multiset(LogsBetween(c, from, cursor - 1))
  }

  lemma AddPage(out: seq<RawLog>, answer: PageAnswer, c: Chain, from: nat, cursor: nat, to: nat)
    requires Collected(out, c, from, cursor) && cursor <= to
    requires answer.Page? && TruePage(answer, c, cursor, to) && cursor < answer.nextBlock
    ensures Collected(out + answer.logs, c, from, Min(answer.nextBlock, to + 1))
  {
    AddLogs(out, answer.logs, c, from, cursor, Min(answer.nextBlock - 1, to), Min(answer.nextBlock, to + 1));
  }

  lemma AddLogs(out: seq<RawLog>, logs: seq<RawLog>, c: Chain, from: nat, cursor: nat, upTo: int, next: int)
    requires Collected(out, c, from, cursor) && cursor <= upTo && next == upTo + 1
    requires multiset(logs) == multiset(LogsBetween(c, cursor, upTo))
    ensures Collected(out + logs, c, from, next)
  {
    JoinRanges(out, logs, c, from, cursor, upTo);
  }

  lemma JoinRanges(a: seq<RawLog>, b: seq<RawLog>, c: Chain, from: nat, cursor: nat, upTo: int)
    requires from <= cursor <= upTo
    requires multiset(a) == multiset(LogsBetween(c, from, cursor - 1))
        && multiset(b) == multiset(LogsBetween(c, cursor, upTo))
    ensures multiset(a + b) == multiset(LogsBetween(c, from, upTo))
  {
    var x, y := LogsBetween(c, from, cursor - 1), LogsBetween(c, cursor, upTo);
    assert LogsBetween(c, from, upTo) == x + y by {
      SplitLogs(c, from, cursor - 1, upTo);
    }
    JoinPermuted(a, b, x, y);
  }

  lemma JoinPermuted<T>(a: seq<T>, b: seq<T>, x: seq<T>, y: seq<T>)
    requires multiset(a) == multiset(x) && multiset(b) == multiset(y)
    ensures multiset(a + b) == multiset(x + y)
  {
  }

  lemma SortedRange(out: seq<RawLog>, c: Chain, from: nat, to: nat)
    requires Collected(out, c, from, to + 1)
    ensures SortLogs(out) == LogsBetween(c, from, to)
  {
    SortLogsFacts(out);
    LogsAreOrdered(c, from, to);
    OrderedIsUnique(SortLogs(out), LogsBetween(c, from, to));
  }

  /**
   * Whether the archive carries a read to its end: every page answers, confirms something new and
   * is not past the archive's own height, until one passes the end of the range, within the limit.
   */
  predicate Reaches(archive: Archive, page: nat, cursor: nat, to: nat)
    decreases MAX_PAGES_PER_RANGE - page
  {
    && page < MAX_PAGES_PER_RANGE
    && archive(page, cursor).Page?
    && var answer := archive(page, cursor);
      (|| answer.nextBlock > to
       || (&& cursor < answer.nextBlock
           && (answer.archiveHeight.None? || answer.nextBlock <= answer.archiveHeight.value)
           && Reaches(archive, page + 1, answer.nextBlock, to)))
  }

  /** A page that answers, moves on within the range and is not past the archive: the next is asked from there. */
  ghost predicate GoesOn(answer: PageAnswer, at: nat, next: nat, to: nat) {
    && answer.Page? && answer.nextBlock == next && at < next <= to
    && (answer.archiveHeight.Some? ==> next <= answer.archiveHeight.value)
  }

  /** The blocks the first pages of a read are asked from. */
  ghost predicate Asked(archive: Archive, path: seq<nat>, from: nat, to: nat) {
    && path != [] && path[0] == from
    && forall i: nat :: i < |path| - 1 ==> GoesOn(archive(i, path[i]), path[i], path[i + 1], to)
  }

  /** What the last page asked for is to a read: its end, or why it fails. */
  ghost predicate EndsRead(archive: Archive, path: seq<nat>, to: nat, error: Option<ArchiveError>)
    requires path != []
  {
    var at := path[|path| - 1];
    var answer := archive(|path| - 1, at);
    match error
    case Some(TooManyPages) => |path| == 1_001
    case Some(RequestFailed) => |path| <= 1_000 && answer.Failed?
    case Some(Behind(askedTo, height)) =>
      |path| <= 1_000 && answer.Page? && askedTo == to >= answer.nextBlock > height
      && answer.archiveHeight == Some(height)
    case Some(NoProgress(cursor)) =>
      |path| <= 1_000 && answer.Page? && cursor == at && answer.nextBlock <= cursor && answer.nextBlock <= to
      && (answer.archiveHeight.Some? ==> answer.nextBlock <= answer.archiveHeight.value)
    case None => |path| <= 1_000 && answer.Page? && answer.nextBlock > to
  }

  /** A read reaches its end exactly along such a row of at most a thousand pages. */
  lemma {:induction false} ReachesAlong(archive: Archive, path: seq<nat>, from: nat, to: nat)
    requires Asked(archive, path, from, to)
    ensures |path| <= 1_000 ==>
              Reaches(archive, 0, from, to) == Reaches(archive, |path| - 1, path[|path| - 1], to)
    ensures |path| == 1_001 ==> !Reaches(archive, 0, from, to)
    decreases |path|
  {
    if |path| > 1 {
      var before := path[..|path| - 1];
      var last: nat := |path| - 2;
      assert GoesOn(archive(last, path[last]), path[last], path[last + 1], to);
      assert Asked(archive, before, from, to);
      ReachesAlong(archive, before, from, to);
    }
  }

  lemma EndDecides(archive: Archive, path: seq<nat>, from: nat, to: nat, error: Option<ArchiveError>)
    requires Asked(archive, path, from, to) && EndsRead(archive, path, to, error)
    ensures Reaches(archive, 0, from, to) <==> error.None?
  {
    ReachesAlong(archive, path, from, to);
  }

  lemma AskedNext(archive: Archive, path: seq<nat>, from: nat, to: nat, next: nat)
    requires Asked(archive, path, from, to)
    requires GoesOn(archive(|path| - 1, path[|path| - 1]), path[|path| - 1], next, to)
    ensures Asked(archive, path + [next], from, to)
  {
  }

  /**
   * Every log of [fromBlock, toBlock] in (block, index) order exactly when the archive carries the
   * read to its end, and otherwise the error of the page that ended it: never a part.
   */
  method GetArchiveLogs(archive: Archive, ghost c: Chain, fromBlock: nat, toBlock: nat)
      returns (r: Result<seq<RawLog>, ArchiveError>)
    requires fromBlock <= toBlock && Truthful(archive, c, toBlock)
    ensures r.Ok? <==> Reaches(archive, 0, fromBlock, toBlock)
    ensures r.Ok? ==> r.value == LogsBetween(c, fromBlock, toBlock)
    ensures exists path: seq<nat> ::
          && Asked(archive, path, fromBlock, toBlock)
          && EndsRead(archive, path, toBlock, if r.Ok? then None else Some(r.error))
  {
    var out: seq<RawLog> := [];
    var cursor := fromBlock;
    ghost var path: seq<nat> := [cursor];
    for page := 0 to MAX_PAGES_PER_RANGE
      invariant cursor <= toBlock && Collected(out, c, fromBlock, cursor)
      invariant |path| == page + 1 && path[page] == cursor && Asked(archive, path, fromBlock, toBlock)
    {
      var response := archive(page, cursor);
      if response.Failed? {
        EndDecides(archive, path, fromBlock, toBlock, Some(RequestFailed));
        return Err(RequestFailed);
      }
      assert TruePage(response, c, cursor, toBlock);
      if response.nextBlock > cursor {
        AddPage(out, response, c, fromBlock, cursor, toBlock);
      }
      out := out + response.logs;
      if response.nextBlock > toBlock {
        SortedRange(out, c, fromBlock, toBlock);
        EndDecides(archive, path, fromBlock, toBlock, None);
        return Ok(SortLogs(out));
      }
      if response.archiveHeight.Some? && response.nextBlock > response.archiveHeight.value {
        EndDecides(archive, path, fromBlock, toBlock, Some(Behind(toBlock, response.archiveHeight.value)));
        return Err(Behind(toBlock, response.archiveHeight.value));
      }
      if response.nextBlock <= cursor {
        EndDecides(archive, path, fromBlock, toBlock, Some(NoProgress(cursor)));
        return Err(NoProgress(cursor));
      }
      cursor := response.nextBlock;
      AskedNext(archive, path, fromBlock, toBlock, cursor);
      path := path + [cursor];
    }
    EndDecides(archive, path, fromBlock, toBlock, Some(TooManyPages));
    return Err(TooManyPages);
  }

  // -------------------------------------------------------------- the composite

  class CatchUpSource {
    const liveWindow: nat
    const liveChunkBlocks: nat
    const restAfterFailure: nat
    var head: Option<int>
    var fastRestingUntil: int
    /** Set by an answer of the archive, cleared by a failure; no chunk is offered without it. */
    var fastVerified: bool

    constructor (liveWindow: nat, liveChunkBlocks: nat, restAfterFailure: nat)
      requires liveChunkBlocks > 0
      ensures this.liveWindow == liveWindow && this.liveChunkBlocks == liveChunkBlocks
      ensures this.restAfterFailure == restAfterFailure
      ensures head == None && fastRestingUntil == 0 && !fastVerified
    {
      this.liveWindow, this.liveChunkBlocks, this.restAfterFailure := liveWindow, liveChunkBlocks, restAfterFailure;
      head, fastRestingUntil, fastVerified := None, 0, false;
    }

    predicate FastCovers(toBlock: int, headNow: int, now: int)
      reads this
    {
      toBlock <= headNow - liveWindow && now >= fastRestingUntil
    }

    method HeadBlock(c: Chain) returns (h: int)
      modifies this
      ensures h == |c| - 1 && head == Some(h)
      ensures fastRestingUntil == old(fastRestingUntil) && fastVerified == old(fastVerified)
    {
      h := |c| - 1;
      head := Some(h);
    }

    method RestFast(now: int)
      modifies this
      ensures !fastVerified && fastRestingUntil == now + restAfterFailure && head == old(head)
    {
      fastVerified := false;
      fastRestingUntil := now + restAfterFailure;
    }

    lemma LiveJoins(c: Chain, fromBlock: nat, start: nat, end: int)
      requires fromBlock <= start <= end
      ensures LogsBetween(c, fromBlock, end) == LogsBetween(c, fromBlock, start - 1) + LogsBetween(c, start, end)
    {
      SplitLogs(c, fromBlock, start - 1, end);
    }

    /** A live read, split into requests the RPC tolerates. */
    method ReadLive(c: Chain, fromBlock: nat, toBlock: int) returns (out: seq<RawLog>)
      requires liveChunkBlocks > 0
      ensures out == LogsBetween(c, fromBlock, toBlock)
    {
      out := [];
      var start := fromBlock;
      while start <= toBlock
        invariant fromBlock <= start
        invariant out == LogsBetween(c, fromBlock, Min(toBlock, start - 1))
        decreases toBlock - start + 1
      {
        var end := Min(toBlock, start + liveChunkBlocks - 1);
        LiveJoins(c, fromBlock, start, end);
        out := out + LogsBetween(c, start, end);
        start := start + liveChunkBlocks;
      }
    }

    /**
     * The chunk this source would rather serve. What it offers never reaches into the live
     * window, and is never shorter than the smaller of the two chunks.
     */
    method ChunkBlocks(archive: Archive, ghost c: Chain, fromBlock: nat, headNow: int, fastChunk: Option<nat>,
        now: int, later: int)
      returns (offer: Option<nat>)
      requires Truthful(archive, c, fromBlock)
      modifies this
      ensures head == old(head)
      ensures offer.Some? ==>
                && fastChunk.Some? && Min(fastChunk.value, liveChunkBlocks) <= offer.value <= fastChunk.value
                && offer.value == Min(fastChunk.value, headNow - liveWindow - fromBlock + 1)
                && fromBlock + offer.value - 1 <= headNow - liveWindow
                && fastVerified && old(fastRestingUntil) <= now && fastRestingUntil == old(fastRestingUntil)
      ensures offer.Some? <==>
                && fastChunk.Some? && fromBlock <= headNow - liveWindow && old(fastRestingUntil) <= now
                && headNow - liveWindow - fromBlock + 1 >= liveChunkBlocks
                && (old(fastVerified) || Reaches(archive, 0, fromBlock, fromBlock))
      ensures
        || fastRestingUntil == old(fastRestingUntil)
        || (offer.None? && !old(fastVerified) && !fastVerified && fastRestingUntil == later + restAfterFailure)
      ensures old(fastVerified) ==> fastVerified
    {
      if fastChunk.None? || !FastCovers(fromBlock, headNow, now) {
        return None;
      }
      var remaining := headNow - liveWindow - fromBlock + 1;
      if remaining < liveChunkBlocks {
        return None;
      }
      if !fastVerified {
        var probe := GetArchiveLogs(archive, c, fromBlock, fromBlock);
        if probe.Err? {
          RestFast(later);
          return None;
        }
        fastVerified := true;
      }
      return Some(Min(fastChunk.value, remaining));
    }

    /**
     * The logs of a range. Whatever the archive does, and whether or not it is resting, the
     * answer is the one the RPC would give; a failure only rests the archive.
     */
    method GetLogs(archive: Archive, c: Chain, fromBlock: nat, toBlock: nat, now: int, later: int)
        returns (logs: seq<RawLog>)
      requires liveChunkBlocks > 0 && fromBlock <= toBlock && Truthful(archive, c, toBlock)
      modifies this
      ensures logs == LogsBetween(c, fromBlock, toBlock)
      ensures head == old(head)
      ensures toBlock <= old(head).GetOr(|c| - 1) - liveWindow && old(fastRestingUntil) <= now ==>
                if Reaches(archive, 0, fromBlock, toBlock) then fastVerified
                    && fastRestingUntil == old(fastRestingUntil)
                else !fastVerified && fastRestingUntil == later + restAfterFailure
      ensures toBlock > old(head).GetOr(|c| - 1) - liveWindow || now < old(fastRestingUntil) ==>
                fastRestingUntil == old(fastRestingUntil) && fastVerified == old(fastVerified)
    {
      var headNow := head.GetOr(|c| - 1);
      if !FastCovers(toBlock, headNow, now) {
        logs := ReadLive(c, fromBlock, toBlock);
        return;
      }
      var fast := GetArchiveLogs(archive, c, fromBlock, toBlock);
      if fast.Ok? {
        fastVerified := true;
        return fast.value;
      }
      RestFast(later);
      logs := ReadLive(c, fromBlock, toBlock);
    }
  }
}
