/**
 * The feedback writer call by call (apps/gateway/src/reputation.ts:452-714): which call decides
 * what, how far a read goes, and who is kept for the next pass.
 */
module FeedbackCalls {
  import opened Wrappers
  import opened Cursor
  import opened Reputation
  import opened Feedback

  lemma {:induction false} PassingKeepsClock(p: Proc, events: seq<Event>)
    ensures Passing(p, events).clock == p.clock && Passing(p, events).inFlight == p.inFlight
    decreases |events|
  {
    if events != [] {
      PassingKeepsClock(Step(p, Happened(events[0])), events[1..]);
    }
  }

  lemma OneCall(env: Env, p: Proc)
    ensures Awaited(env, p).clock == p.clock + 1 && Awaited(env, p).inFlight == p.inFlight
  {
    PassingKeepsClock(p.(clock := p.clock + 1), env.script(p.clock).events);
  }

  // ------------------------------------------------------------- one entry

  /**
   * The five calls of a write: the document, the simulation, the estimate, the send, the receipt.
   * Only the second refuses, the third may fail, and a dry run makes no more than three.
   */
  lemma OutcomeByCalls(env: Env, p: Proc, agentId: nat, s: Settlement)
    ensures
      var n, (q, outcome) := p.clock, WroteOne(env, p, agentId, s);
      if !env.script(n).answers then outcome == Failed(DocumentUnread) && q.clock == n + 1
      else if !env.script(n + 1).answers then outcome == Refused && q.clock == n + 2
      else if env.dryRun then outcome == Written && q.clock == n + 3
      else if !env.script(n + 3).answers then outcome == Failed(SubmissionFailed) && q.clock == n + 4
      else q.clock == n + 5 && (!env.script(n + 4).answers ==> outcome == Failed(Unconfirmed(agentId)))
  {
    FirstThree(env, p);
    if env.script(p.clock).answers && env.script(p.clock + 1).answers && !env.dryRun {
      SubmittedByCalls(env, Prepared(env, p).0, agentId, s);
    }
  }

  lemma FirstThree(env: Env, p: Proc)
    ensures
      var n, (q, outcome) := p.clock, Prepared(env, p);
      if !env.script(n).answers then outcome == Failed(DocumentUnread) && q.clock == n + 1
      else if !env.script(n + 1).answers then outcome == Refused && q.clock == n + 2
      else outcome == Written && q.clock == n + 3
  {
    OneCall(env, p);
    OneCall(env, Awaited(env, p));
    OneCall(env, Awaited(env, Awaited(env, p)));
  }

  lemma SubmittedByCalls(env: Env, p: Proc, agentId: nat, s: Settlement)
    ensures
      var n, (q, outcome) := p.clock, Submitted(env, p, agentId, s);
      if !env.script(n).answers then outcome == Failed(SubmissionFailed) && q.clock == n + 1
      else q.clock == n + 2 && (!env.script(n + 1).answers ==> outcome == Failed(Unconfirmed(agentId)))
  {
    OneCall(env, p);
    var sent := Dispatched(Awaited(env, p), agentId, s);
    OneCall(env, sent);
  }

  // ------------------------------------------------------------- one agentId

  /** An earlier write costs one call. It is forgotten when that call brings a receipt, and only then. */
  lemma SettledByCall(env: Env, p: Proc, agentId: nat)
    ensures agentId !in p.inFlight ==> SettledInFlight(env, p, agentId) == (p, true)
    ensures agentId in p.inFlight ==>
              var (q, clear) := SettledInFlight(env, p, agentId);
              && q.clock == p.clock + 1
              && (clear <==> env.script(p.clock).answers && StatusOf(q.world, p.inFlight[agentId]) != Pending)
              && q.inFlight == if clear then p.inFlight - {agentId} else p.inFlight
  {
    OneCall(env, p);
  }

  /** A count that cannot be read is a failure; one above the Settlements held is reported, and nothing is written. */
  lemma CountByCall(env: Env, p: Proc, agentId: nat, rows: seq<Settlement>)
    ensures
      var t, count := CountedAndWrote(env, p, agentId, rows), |EntriesOf(Awaited(env, p).world.entries, agentId)|;
      if !env.script(p.clock).answers then t.report == Report([], [], [CountUnread]) && t.p == Awaited(env, p)
      else count > |rows| ==> t.report == Report([], [CountAbove(agentId)], []) && t.p == Awaited(env, p)
  {
  }

  lemma ReportedAgain(agentId: nat, written: seq<Entry>, outcome: Outcome)
    ensures ReportOf(agentId, written, outcome).failures != [] <==> outcome.Failed?
    ensures NotMined(agentId) !in ReportOf(agentId, written, outcome).skipped
  {
  }

  lemma CountedAgain(env: Env, p: Proc, agentId: nat, rows: seq<Settlement>)
    ensures var t := CountedAndWrote(env, p, agentId, rows); t.again <==> t.report.failures != []
    ensures NotMined(agentId) !in CountedAndWrote(env, p, agentId, rows).report.skipped
  {
    var a := Awaited(env, p);
    var count := |EntriesOf(a.world.entries, agentId)|;
    if env.script(p.clock).answers && count <= |rows| {
      var w := WroteRest(env, a, agentId, rows, count, []);
      ReportedAgain(agentId, w.written, w.last);
    }
  }

  /** An agentId is kept for the next pass exactly when a call about it failed or an earlier write is unmined. */
  lemma AgainIff(env: Env, p: Proc, known: seq<Settlement>, addresses: seq<string>, agentId: nat)
    ensures
      var t := ServedAgent(env, p, known, addresses, agentId);
      t.again <==> t.report.failures != [] || NotMined(agentId) in t.report.skipped
  {
    CountedAgain(env, SettledInFlight(env, p, agentId).0, agentId, InChainOrder(From(known, addresses)));
  }

  /** Some turn of the agentId left it to be tried again. */
  ghost predicate LeftFor(env: Env, known: seq<Settlement>, identities: seq<Identity>, id: nat) {
    exists p: Proc :: ServedAgent(env, p, known, AddressesOf(identities, id), id).again
  }

  /** Whoever a pass adds to those kept is an address of such an agentId. */
  lemma {:induction false} KeptAreRetried(env: Env, p: Proc, known: seq<Settlement>, identities: seq<Identity>,
      ids: seq<nat>, report: Report, retry: seq<string>, agent: string)
    requires agent in ServedAll(env, p, known, identities, ids, report, retry).retry && agent !in retry
    ensures exists id: nat :: id in ids && agent in AddressesOf(identities, id) && LeftFor(env, known, identities, id)
    decreases |ids|
  {
    if ids != [] {
      var addresses := AddressesOf(identities, ids[0]);
      var t := ServedAgent(env, p, known, addresses, ids[0]);
      var more := if t.again then AddAll(retry, addresses) else retry;
      if agent in more {
        assert ids[0] in ids && LeftFor(env, known, identities, ids[0]);
      } else {
        KeptAreRetried(env, t.p, known, identities, ids[1..], Joined(report, t.report), more, agent);
        var id: nat :| id in ids[1..] && agent in AddressesOf(identities, id) && LeftFor(env, known, identities, id);
        assert id in ids;
      }
    }
  }

  // ------------------------------------------------------------- one identity

  lemma {:induction false} RecordedIs(identities: seq<Identity>, agent: string, id: Option<nat>, other: string)
    ensures IdOf(Record(identities, agent, id), other) == if other == agent then id else IdOf(identities, other)
  {
    if identities != [] && identities[0].agent != agent {
      RecordedIs(identities[1..], agent, id, other);
    }
  }

  /**
   * An identity read sets that address alone, and reports it where it has none. One that fails is a
   * failure: nothing is recorded and the address is kept.
   */
  lemma ResolvedByCall(env: Env, r: Resolution, agent: string, other: string)
    ensures
      var n, id := ResolvedOne(env, r, agent), env.setting.identity(agent);
      && n.p == Awaited(env, r.p) && n.report.written == r.report.written
      && (if env.script(r.p.clock).answers then
            && IdOf(n.identities, other) == (if other == agent then id else IdOf(r.identities, other))
            && n.report.failures == r.report.failures && n.retry == r.retry
            && n.report.skipped == r.report.skipped + (if id.None? then [NoIdentity(agent)] else [])
          else
            && n.identities == r.identities && agent in n.retry
            && n.report.failures == r.report.failures + [IdentityUnread]
            && n.report.skipped == r.report.skipped)
  {
    RecordedIs(r.identities, agent, env.setting.identity(agent), other);
    assert r.report.skipped + [] == r.report.skipped && r.report.failures + [] == r.report.failures;
    assert r.report.written + [] == r.report.written;
  }

  // ------------------------------------------------------------- how far a read goes

  /** A page is the newest 200 rows below its cursor, or all there are, downwards. */
  lemma PageIsNewest(ledger: seq<Settlement>, from: nat, k: nat)
    requires k < from <= |ledger|
    ensures |PageRows(ledger, from)| == if from < 200 then from else 200
    ensures k < 200 ==> PageRows(ledger, from)[k] == ledger[from - 1 - k]
  {
  }

  /** An own row at or below the newest position read ends the page there, unless a row before it is garbled. */
  lemma {:induction false} TakenPageStops(serviceId: string, rows: seq<Settlement>, malformedAt: Option<nat>, k: nat,
      book: Book, top: Option<LogPosition>, stop: nat)
    requires k <= stop < |rows| && rows[stop].serviceId == serviceId
    requires book.newest.Some? && !Below(book.newest.value, rows[stop].position)
    requires malformedAt.Some? ==> !(k <= malformedAt.value <= stop)
    ensures TakenPage(serviceId, rows, malformedAt, k, book, top).end == ReachedKnown
    decreases |rows| - k
  {
    if rows[k].serviceId != serviceId {
      TakenPageStops(serviceId, rows, malformedAt, k + 1, book, top, stop);
    } else if Below(book.newest.value, rows[k].position) {
      TakenPageStops(serviceId, rows, malformedAt, k + 1, WithRow(book, rows[k]), if top.Some? then top
          else Some(rows[k].position), stop);
    }
  }

  /** With such a row among the newest 200, a pass reads what is new in one call. */
  lemma OneCallReadsNew(env: Env, s: State, at: nat)
    requires env.script(s.p.clock).answers && env.script(s.p.clock).malformedAt.None?
    requires
      var ledger := Awaited(env, s.p).world.ledger;
      && at < |ledger| <= at + 200 && ledger[at].serviceId == env.setting.serviceId
      && s.book.newest.Some? && !Below(s.book.newest.value, ledger[at].position)
    ensures ReadNew(env, s).1 && ReadNew(env, s).0.p == Awaited(env, s.p)
  {
    var ledger := Awaited(env, s.p).world.ledger;
    PageIsNewest(ledger, |ledger|, |ledger| - 1 - at);
    TakenPageStops(env.setting.serviceId, PageRows(ledger, |ledger|), None, 0, s.book, None, |ledger| - 1 - at);
  }

  /** No row ends a page while no position counts as read. */
  lemma {:induction false} TakenPageGoesOn(serviceId: string, rows: seq<Settlement>, k: nat, book: Book,
      top: Option<LogPosition>)
    requires k <= |rows| && book.newest.None?
    ensures
      var t := TakenPage(serviceId, rows, None, k, book, top);
      t.end == PageDone && t.book.newest.None?
    decreases |rows| - k
  {
    if k < |rows| {
      if rows[k].serviceId != serviceId {
        TakenPageGoesOn(serviceId, rows, k + 1, book, top);
      } else {
        TakenPageGoesOn(serviceId, rows, k + 1, WithRow(book, rows[k]), if top.Some? then top
            else Some(rows[k].position));
      }
    }
  }

  ghost predicate AllAnswer(env: Env, from: nat) {
    forall n: nat :: from <= n ==> env.script(n).answers && env.script(n).malformedAt.None?
  }

  lemma WholePage(env: Env, cursor: Option<nat>, s: State, top: Option<LogPosition>)
    requires AllAnswer(env, s.p.clock) && s.book.newest.None?
    ensures
      var r, from := ReadPage(env, cursor, s, top), PageFrom(cursor, Awaited(env, s.p).world.ledger);
      && r.answered && r.s.book.newest.None? && r.s.p.clock == s.p.clock + 1
      && r.next == if from < 200 then 0 else from - 200
  {
    OneCall(env, s.p);
    var ledger := Awaited(env, s.p).world.ledger;
    TakenPageGoesOn(env.setting.serviceId, PageRows(ledger, PageFrom(cursor, ledger)), 0, s.book, top);
  }

  lemma {:induction false} ReadOnCalls(env: Env, r: Reading)
    requires AllAnswer(env, r.s.p.clock) && r.answered && r.s.book.newest.None?
    requires r.next <= |r.s.p.world.ledger|
    ensures ReadOn(env, r).answered && ReadOn(env, r).s.p.clock == r.s.p.clock + (r.next + 199) / 200
    decreases r.next
  {
    if r.next > 0 {
      var n := ReadPage(env, Some(r.next), r.s, r.top);
      LedgerStays(env, r.s.p);
      WholePage(env, Some(r.next), r.s, r.top);
      ReadOnCalls(env, n);
    }
  }

  lemma {:induction false} PassingKeepsLedger(p: Proc, events: seq<Event>)
    ensures p.world.ledger <= Passing(p, events).world.ledger
    decreases |events|
  {
    if events != [] {
      PassingKeepsLedger(Step(p, Happened(events[0])), events[1..]);
    }
  }

  lemma LedgerStays(env: Env, p: Proc)
    ensures p.world.ledger <= Awaited(env, p).world.ledger
  {
    PassingKeepsLedger(p.(clock := p.clock + 1), env.script(p.clock).events);
  }

  /** With nothing counted as read, a read takes a call for every 200 rows there are. */
  lemma WholeReadCalls(env: Env, s: State)
    requires AllAnswer(env, s.p.clock) && s.book.newest.None?
    ensures
      var n := |Awaited(env, s.p).world.ledger|;
      && ReadNew(env, s).1
      && ReadNew(env, s).0.p.clock == s.p.clock + if n == 0 then 1 else (n + 199) / 200
  {
    WholePage(env, None, s, None);
    ReadOnCalls(env, ReadPage(env, None, s, None));
  }

  lemma RecheckIs(env: Env, s: State)
    requires env.script(s.p.clock).answers && IsMultiple(s.book.ticks + 1, env.recheckEvery)
    ensures Ticked(env, s) == LookedAndServed(env, State(Awaited(env, s.p), s.book.(ticks := s.book.ticks + 1)), true)
  {
  }

  /** What follows a read takes no call back. */
  lemma LookedGoesOn(env: Env, s: State, r: (State, bool))
    requires r == ReadNew(env, State(s.p, s.book.(newest := None)))
    ensures r.0.p.clock <= LookedAndServed(env, s, true).0.p.clock
  {
  }

  /** A recheck reads the whole list again, whatever was read before. */
  lemma RecheckRereads(env: Env, s: State)
    requires AllAnswer(env, s.p.clock)
    requires env.recheckEvery > 0 && (s.book.ticks + 1) % env.recheckEvery == 0
    ensures
      var n := |Awaited(env, Awaited(env, s.p)).world.ledger|;
      Ticked(env, s).0.p.clock >= s.p.clock + 1 + (n + 199) / 200
  {
    IsMultipleIff(s.book.ticks + 1, env.recheckEvery);
    RecheckIs(env, s);
    OneCall(env, s.p);
    RereadCalls(env, State(Awaited(env, s.p), s.book.(ticks := s.book.ticks + 1)));
  }

  lemma RereadCalls(env: Env, s: State)
    requires AllAnswer(env, s.p.clock)
    ensures
      LookedAndServed(env, s, true).0.p.clock >= s.p.clock + (|Awaited(env, s.p).world.ledger| + 199) / 200
  {
    var from := State(s.p, s.book.(newest := None));
    WholeReadCalls(env, from);
    LookedGoesOn(env, s, ReadNew(env, from));
  }
}
