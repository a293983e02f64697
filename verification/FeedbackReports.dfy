/**
 * What a pass of the feedback writer reports is what it sent (apps/gateway/src/reputation.ts:489-586,
 * 588-730), with nothing assumed: whatever fails, whatever is lost and whatever happens in between.
 */
module FeedbackReports {
  import opened Wrappers
  import opened Cursor
  import opened Reputation
  import opened Feedback

  // ------------------------------------------------------------- transactions

  /** The same transaction; once mined it stays as it is. */
  ghost predicate SameTx(w: World, v: World, h: nat)
    requires h < |w.txs| && h < |v.txs|
  {
    && v.txs[h].agentId == w.txs[h].agentId && v.txs[h].settlement == w.txs[h].settlement
    && (w.txs[h].status != Pending ==> v.txs[h].status == w.txs[h].status)
  }

  ghost predicate TxsGrow(w: World, v: World) {
    |w.txs| <= |v.txs| && forall h: nat :: h < |w.txs| ==> SameTx(w, v, h)
  }

  lemma TxsGrowAgain(u: World, v: World, w: World)
    requires TxsGrow(u, v) && TxsGrow(v, w)
    ensures TxsGrow(u, w)
  {
    forall h: nat | h < |u.txs|
      ensures SameTx(u, w, h)
    {
      assert SameTx(u, v, h) && SameTx(v, w, h);
    }
  }

  /** A transaction with this entry was sent between the two worlds and has succeeded. */
  ghost predicate SentAndMined(w: World, v: World, e: Entry) {
    exists h: nat :: |w.txs| <= h < |v.txs| && v.txs[h] == Tx(e.agentId, e.settlement, Succeeded)
  }

  // ------------------------------------------------------------- what a report accounts for

  predicate AfterSending(failure: Failure) {
    failure.Unconfirmed? || failure.WriteReverted?
  }

  /** How many of the failures came after a send that returned. */
  function SentInVain(failures: seq<Failure>): nat {
    if failures == [] then 0 else (if AfterSending(failures[0]) then 1 else 0) + SentInVain(failures[1..])
  }

  function NotKnownSent(failures: seq<Failure>): nat {
    if failures == [] then 0 else (if failures[0].SubmissionFailed? then 1 else 0) + NotKnownSent(failures[1..])
  }

  /** A transaction sent is reported as written or as not confirmed, or some write as reverted or failed to send. */
  ghost predicate Reported(report: Report, tx: Tx) {
    || Entry(tx.agentId, tx.settlement) in report.written
    || Unconfirmed(tx.agentId) in report.failures || WriteReverted in report.failures
    || SubmissionFailed in report.failures
  }

  /** A write held in flight is reported so, or was held before and its agent given no entry since. */
  ghost predicate HeldFor(p: Proc, q: Proc, report: Report, id: nat)
    requires id in q.inFlight
  {
    || Unconfirmed(id) in report.failures
    || (id in p.inFlight && q.inFlight[id] == p.inFlight[id] && forall e :: e in report.written ==> e.agentId != id)
  }

  /** As many transactions were sent as entries are reported written and writes reported lost on the way. */
  ghost predicate Counts(env: Env, p: Proc, q: Proc, report: Report) {
    var sent := |q.world.txs| - |p.world.txs|;
    if env.dryRun then sent == 0
    else
      var known := |report.written| + SentInVain(report.failures);
      known <= sent <= known + NotKnownSent(report.failures)
  }

  /** From one state of the process to a later one, the report says what was sent and what came of it. */
  ghost predicate Accounts(env: Env, p: Proc, q: Proc, report: Report) {
    && TxsGrow(p.world, q.world) && Counts(env, p, q, report)
    && (!env.dryRun ==> forall e :: e in report.written ==> SentAndMined(p.world, q.world, e))
    && (forall h: nat :: |p.world.txs| <= h < |q.world.txs| ==> Reported(report, q.world.txs[h]))
    && (!env.dryRun ==> forall id :: id in q.inFlight ==> HeldFor(p, q, report, id))
  }

  lemma {:induction false} CountsOfBoth(a: seq<Failure>, b: seq<Failure>)
    ensures SentInVain(a + b) == SentInVain(a) + SentInVain(b)
    ensures NotKnownSent(a + b) == NotKnownSent(a) + NotKnownSent(b)
    ensures |a| == 1 ==> SentInVain(a) == (if a[0].Unconfirmed? || a[0].WriteReverted? then 1 else 0)
    ensures |a| == 1 ==> NotKnownSent(a) == (if a[0].SubmissionFailed? then 1 else 0)
  {
    if a == [] {
      assert a + b == b;
    } else {
      CountsOfBoth(a[1..], b);
      assert (a + b)[1..] == a[1..] + b;
    }
  }

  lemma MinedStays(u: World, v: World, w: World, e: Entry)
    requires TxsGrow(v, w) && SentAndMined(u, v, e)
    ensures SentAndMined(u, w, e)
  {
    var h: nat :| |u.txs| <= h < |v.txs| && v.txs[h] == Tx(e.agentId, e.settlement, Succeeded);
    assert SameTx(v, w, h);
  }

  lemma SentForBoth(env: Env, p: Proc, q: Proc, r: Proc, a: Report, b: Report, e: Entry)
    requires !env.dryRun && Accounts(env, p, q, a) && Accounts(env, q, r, b) && e in Joined(a, b).written
    ensures SentAndMined(p.world, r.world, e)
  {
    if e in a.written {
      MinedStays(p.world, q.world, r.world, e);
    } else {
      assert e in b.written;
      assert SentAndMined(q.world, r.world, e);
    }
  }

  lemma ReportedInBoth(env: Env, p: Proc, q: Proc, r: Proc, a: Report, b: Report, h: nat)
    requires Accounts(env, p, q, a) && Accounts(env, q, r, b) && |p.world.txs| <= h < |r.world.txs|
    ensures Reported(Joined(a, b), r.world.txs[h])
  {
    if h < |q.world.txs| {
      assert Reported(a, q.world.txs[h]) && SameTx(q.world, r.world, h);
    } else {
      assert Reported(b, r.world.txs[h]);
    }
  }

  lemma HeldForBoth(env: Env, p: Proc, q: Proc, r: Proc, a: Report, b: Report, id: nat)
    requires !env.dryRun && Accounts(env, p, q, a) && Accounts(env, q, r, b) && id in r.inFlight
    ensures HeldFor(p, r, Joined(a, b), id)
  {
    assert HeldFor(q, r, b, id);
    if Unconfirmed(id) !in b.failures {
      assert HeldFor(p, q, a, id);
    }
  }

  /** Two stretches one after the other, and their reports joined. */
  lemma AccountsAgain(env: Env, p: Proc, q: Proc, r: Proc, a: Report, b: Report)
    requires Accounts(env, p, q, a) && Accounts(env, q, r, b)
    ensures Accounts(env, p, r, Joined(a, b))
  {
    TxsGrowAgain(p.world, q.world, r.world);
    CountsOfBoth(a.failures, b.failures);
    forall e | e in Joined(a, b).written && !env.dryRun
      ensures SentAndMined(p.world, r.world, e)
    {
      SentForBoth(env, p, q, r, a, b, e);
    }
    forall h: nat | |p.world.txs| <= h < |r.world.txs|
      ensures Reported(Joined(a, b), r.world.txs[h])
    {
      ReportedInBoth(env, p, q, r, a, b, h);
    }
    forall id | id in r.inFlight && !env.dryRun
      ensures HeldFor(p, r, Joined(a, b), id)
    {
      HeldForBoth(env, p, q, r, a, b, id);
    }
  }

  // ------------------------------------------------------------- one call

  /** A stretch that sends nothing, and holds no more than before. */
  ghost predicate Waits(p: Proc, q: Proc) {
    && TxsGrow(p.world, q.world) && |q.world.txs| == |p.world.txs|
    && forall id :: id in q.inFlight ==> id in p.inFlight && q.inFlight[id] == p.inFlight[id]
  }

  /** Whatever it reports, if it is nothing written and no write lost after it was sent. */
  ghost predicate NothingSent(report: Report) {
    report.written == [] && SentInVain(report.failures) == 0
  }

  lemma WaitsAccounts(env: Env, p: Proc, q: Proc, report: Report)
    requires Waits(p, q) && NothingSent(report)
    ensures Accounts(env, p, q, report)
  {
  }

  lemma WaitsAgain(p: Proc, q: Proc, r: Proc)
    requires Waits(p, q) && Waits(q, r)
    ensures Waits(p, r)
  {
    TxsGrowAgain(p.world, q.world, r.world);
  }

  lemma HappenKeepsTxs(w: World, e: Event)
    ensures TxsGrow(w, Happen(w, e)) && |Happen(w, e).txs| == |w.txs|
  {
  }

  lemma {:induction false} PassingWaits(p: Proc, events: seq<Event>)
    ensures Waits(p, Passing(p, events)) && Passing(p, events).inFlight == p.inFlight
    decreases |events|
  {
    if events != [] {
      var next := Step(p, Happened(events[0]));
      HappenKeepsTxs(p.world, events[0]);
      PassingWaits(next, events[1..]);
      WaitsAgain(p, next, Passing(p, events));
    }
  }

  lemma AwaitedWaits(env: Env, p: Proc)
    ensures Waits(p, Awaited(env, p)) && Awaited(env, p).inFlight == p.inFlight
  {
    PassingWaits(p.(clock := p.clock + 1), env.script(p.clock).events);
  }

  // ------------------------------------------------------------- one entry

  lemma PreparedWaits(env: Env, p: Proc)
    ensures Waits(p, Prepared(env, p).0) && Prepared(env, p).0.inFlight == p.inFlight
    ensures Prepared(env, p).1.Failed? ==> Prepared(env, p).1.failure == DocumentUnread
  {
    var a := Awaited(env, p);
    var b := Awaited(env, a);
    AwaitedWaits(env, p);
    AwaitedWaits(env, a);
    AwaitedWaits(env, b);
    WaitsAgain(p, a, b);
    WaitsAgain(p, b, Awaited(env, b));
  }

  /** What one write is reported as. */
  function ReportOfOne(agentId: nat, s: Settlement, outcome: Outcome): Report {
    ReportOf(agentId, if outcome.Written? then [Entry(agentId, s)] else [], outcome)
  }

  /** One transaction sent, and what became of it reported. */
  lemma OneSent(env: Env, p: Proc, q: Proc, agentId: nat, s: Settlement, outcome: Outcome)
    requires !env.dryRun && TxsGrow(p.world, q.world) && |q.world.txs| == |p.world.txs| + 1
    requires q.world.txs[|p.world.txs|].agentId == agentId && q.world.txs[|p.world.txs|].settlement == s
    requires outcome.Written? ==> q.world.txs[|p.world.txs|].status == Succeeded
    requires outcome.Written? || outcome == Failed(WriteReverted) || outcome == Failed(Unconfirmed(agentId))
    requires q.inFlight - {agentId} == p.inFlight - {agentId}
    requires agentId in q.inFlight ==> outcome == Failed(Unconfirmed(agentId))
    ensures Accounts(env, p, q, ReportOfOne(agentId, s, outcome))
  {
    forall id | id in q.inFlight
      ensures HeldFor(p, q, ReportOfOne(agentId, s, outcome), id)
    {
      assert id != agentId ==> id in q.inFlight - {agentId};
    }
    if outcome.Written? {
      assert q.world.txs[|p.world.txs|] == Tx(agentId, s, Succeeded);
    }
  }

  /** The transaction sent is the one asked after; its status decides the outcome. */
  lemma ConfirmedAccounts(env: Env, p: Proc, agentId: nat, s: Settlement)
    requires !env.dryRun
    ensures
      var hash := |p.world.txs|;
      var (q, outcome) := Confirmed(env, Dispatched(p, agentId, s), agentId, hash);
      Accounts(env, p, q, ReportOfOne(agentId, s, outcome))
  {
    var hash, d := |p.world.txs|, Dispatched(p, agentId, s);
    var (q, outcome) := Confirmed(env, d, agentId, hash);
    AwaitedWaits(env, d);
    assert SameTx(d.world, Awaited(env, d).world, hash);
    TxsGrowAgain(p.world, d.world, Awaited(env, d).world);
    OneSent(env, p, q, agentId, s, outcome);
  }

  lemma SubmittedAccounts(env: Env, p: Proc, agentId: nat, s: Settlement)
    requires !env.dryRun
    ensures
      var (q, outcome) := Submitted(env, p, agentId, s);
      Accounts(env, p, q, ReportOfOne(agentId, s, outcome))
  {
    var a := Awaited(env, p);
    AwaitedWaits(env, p);
    var (q, outcome) := Submitted(env, p, agentId, s);
    WaitsAccounts(env, p, a, NOTHING);
    if env.script(p.clock).answers {
      ConfirmedAccounts(env, a, agentId, s);
      AccountsAgain(env, p, a, q, NOTHING, ReportOfOne(agentId, s, outcome));
      NothingFirst(ReportOfOne(agentId, s, outcome));
    } else if env.script(p.clock).taken {
      LostAccounts(env, a, agentId, s);
      AccountsAgain(env, p, a, q, NOTHING, ReportOfOne(agentId, s, outcome));
      NothingFirst(ReportOfOne(agentId, s, outcome));
    } else {
      WaitsAccounts(env, p, a, ReportOfOne(agentId, s, outcome));
    }
  }

  lemma NothingFirst(report: Report)
    ensures Joined(NOTHING, report) == report
  {
  }

  lemma LostAccounts(env: Env, p: Proc, agentId: nat, s: Settlement)
    requires !env.dryRun
    ensures Accounts(env, p, Step(p, Sent(agentId, s)), Report([], [], [SubmissionFailed]))
  {
  }

  lemma WroteOneAccounts(env: Env, p: Proc, agentId: nat, s: Settlement)
    ensures
      var (q, outcome) := WroteOne(env, p, agentId, s);
      Accounts(env, p, q, ReportOfOne(agentId, s, outcome))
  {
    var (a, ready) := Prepared(env, p);
    var (q, outcome) := WroteOne(env, p, agentId, s);
    PreparedWaits(env, p);
    if !ready.Written? || env.dryRun {
      if ready.Written? {
        DryAccounts(env, p, a, ReportOfOne(agentId, s, outcome));
      } else {
        WaitsAccounts(env, p, a, ReportOfOne(agentId, s, outcome));
      }
    } else {
      WaitsAccounts(env, p, a, NOTHING);
      SubmittedAccounts(env, a, agentId, s);
      AccountsAgain(env, p, a, q, NOTHING, ReportOfOne(agentId, s, outcome));
      NothingFirst(ReportOfOne(agentId, s, outcome));
    }
  }

  lemma DryAccounts(env: Env, p: Proc, q: Proc, report: Report)
    requires env.dryRun && Waits(p, q)
    ensures Accounts(env, p, q, report)
  {
  }

  // ------------------------------------------------------------- one agentId

  lemma {:induction false} WroteRestAccounts(env: Env, begin: Proc, p: Proc, agentId: nat, rows: seq<Settlement>,
      i: nat, written: seq<Entry>)
    requires i <= |rows| && Accounts(env, begin, p, Report(written, [], []))
    ensures
      var r := WroteRest(env, p, agentId, rows, i, written);
      Accounts(env, begin, r.p, ReportOf(agentId, r.written, r.last))
    decreases |rows| - i
  {
    if i < |rows| {
      var (a, outcome) := WroteOne(env, p, agentId, rows[i]);
      var one, before := ReportOfOne(agentId, rows[i], outcome), Report(written, [], []);
      WroteOneAccounts(env, p, agentId, rows[i]);
      AccountsAgain(env, begin, p, a, before, one);
      if outcome.Written? {
        assert Joined(before, one) == Report(written + [Entry(agentId, rows[i])], [], []);
        WroteRestAccounts(env, begin, a, agentId, rows, i + 1, written + [Entry(agentId, rows[i])]);
      } else {
        assert Joined(before, one) == ReportOf(agentId, written, outcome);
      }
    }
  }

  lemma CountedAccounts(env: Env, p: Proc, agentId: nat, rows: seq<Settlement>)
    ensures var t := CountedAndWrote(env, p, agentId, rows); Accounts(env, p, t.p, t.report)
  {
    var a := Awaited(env, p);
    var count := |EntriesOf(a.world.entries, agentId)|;
    AwaitedWaits(env, p);
    if env.script(p.clock).answers && count <= |rows| {
      WaitsAccounts(env, p, a, Report([], [], []));
      WroteRestAccounts(env, p, a, agentId, rows, count, []);
    } else {
      WaitsAccounts(env, p, a, CountedAndWrote(env, p, agentId, rows).report);
    }
  }

  lemma SettledWaits(env: Env, p: Proc, agentId: nat)
    ensures Waits(p, SettledInFlight(env, p, agentId).0)
    ensures SettledInFlight(env, p, agentId).1 ==> agentId !in SettledInFlight(env, p, agentId).0.inFlight
  {
    AwaitedWaits(env, p);
  }

  /** And afterwards its agentId is held in flight only if reported so. */
  lemma ServedAgentAccounts(env: Env, p: Proc, known: seq<Settlement>, addresses: seq<string>, agentId: nat)
    ensures var t := ServedAgent(env, p, known, addresses, agentId); Accounts(env, p, t.p, t.report)
    ensures
      var t := ServedAgent(env, p, known, addresses, agentId);
      !env.dryRun && agentId in t.p.inFlight ==>
        Unconfirmed(agentId) in t.report.failures || NotMined(agentId) in t.report.skipped
  {
    var (a, clear) := SettledInFlight(env, p, agentId);
    var t := ServedAgent(env, p, known, addresses, agentId);
    SettledWaits(env, p, agentId);
    if clear {
      CountedAccounts(env, a, agentId, InChainOrder(From(known, addresses)));
      WaitsAccounts(env, p, a, NOTHING);
      AccountsAgain(env, p, a, t.p, NOTHING, t.report);
      NothingFirst(t.report);
      assert !env.dryRun && agentId in t.p.inFlight ==> HeldFor(a, t.p, t.report, agentId);
    } else {
      WaitsAccounts(env, p, a, t.report);
    }
  }

  // ------------------------------------------------------------- one pass

  lemma {:induction false} ServedAllAccounts(env: Env, begin: Proc, p: Proc, known: seq<Settlement>,
      identities: seq<Identity>, ids: seq<nat>, report: Report, retry: seq<string>)
    requires Accounts(env, begin, p, report)
    ensures
      var r := ServedAll(env, p, known, identities, ids, report, retry);
      Accounts(env, begin, r.p, r.report)
    decreases |ids|
  {
    if ids != [] {
      var addresses := AddressesOf(identities, ids[0]);
      var t := ServedAgent(env, p, known, addresses, ids[0]);
      ServedAgentAccounts(env, p, known, addresses, ids[0]);
      AccountsAgain(env, begin, p, t.p, report, t.report);
      ServedAllAccounts(env, begin, t.p, known, identities, ids[1..], Joined(report, t.report),
          if t.again then AddAll(retry, addresses) else retry);
    }
  }

  lemma ResolvedOneWaits(env: Env, begin: Proc, r: Resolution, agent: string)
    requires Waits(begin, r.p) && NothingSent(r.report)
    ensures Waits(begin, ResolvedOne(env, r, agent).p) && NothingSent(ResolvedOne(env, r, agent).report)
  {
    AwaitedWaits(env, r.p);
    WaitsAgain(begin, r.p, Awaited(env, r.p));
    CountsOfBoth(r.report.failures, [IdentityUnread]);
    CountsOfBoth([IdentityUnread], []);
    assert r.report.failures + [] == r.report.failures;
  }

  lemma {:induction false} ResolvedAllWaits(env: Env, begin: Proc, r: Resolution, agents: seq<string>)
    requires Waits(begin, r.p) && NothingSent(r.report)
    ensures Waits(begin, ResolvedAll(env, r, agents).p) && NothingSent(ResolvedAll(env, r, agents).report)
    decreases |agents|
  {
    if agents != [] {
      ResolvedOneWaits(env, begin, r, agents[0]);
      ResolvedAllWaits(env, begin, ResolvedOne(env, r, agents[0]), agents[1..]);
    }
  }

  lemma ItselfWaits(p: Proc)
    ensures Waits(p, p)
  {
  }

  lemma ServedAccounts(env: Env, s: State)
    ensures var (t, report) := Served(env, s); Accounts(env, s.p, t.p, report)
  {
    var agents := WithUnresolved(s.book.dirty, s.book.known, s.book.identities);
    var first := Resolution(s.p, s.book.identities, NOTHING, []);
    var resolved := ResolvedAll(env, first, agents);
    ItselfWaits(s.p);
    ResolvedAllWaits(env, s.p, first, agents);
    WaitsAccounts(env, s.p, resolved.p, resolved.report);
    ServedAllAccounts(env, s.p, resolved.p, s.book.known, resolved.identities,
        IdsOf(resolved.identities, s.book.dirty, []), resolved.report, resolved.retry);
  }

  lemma ReadPageWaits(env: Env, cursor: Option<nat>, s: State, top: Option<LogPosition>)
    ensures Waits(s.p, ReadPage(env, cursor, s, top).s.p)
  {
    AwaitedWaits(env, s.p);
  }

  lemma {:induction false} ReadOnWaits(env: Env, begin: Proc, r: Reading)
    requires Waits(begin, r.s.p)
    ensures Waits(begin, ReadOn(env, r).s.p)
    decreases r.next
  {
    if r.answered && r.next > 0 {
      var next := ReadPage(env, Some(r.next), r.s, r.top);
      ReadPageWaits(env, Some(r.next), r.s, r.top);
      WaitsAgain(begin, r.s.p, next.s.p);
      ReadOnWaits(env, begin, next);
    }
  }

  lemma LookedAccounts(env: Env, s: State, recheck: bool)
    ensures var (t, report) := LookedAndServed(env, s, recheck); Accounts(env, s.p, t.p, report)
  {
    var from := State(s.p, if recheck then s.book.(newest := None) else s.book);
    ReadPageWaits(env, None, from, None);
    ReadOnWaits(env, s.p, ReadPage(env, None, from, None));
    var (r, ok) := ReadNew(env, from);
    if !ok {
      WaitsAccounts(env, s.p, r.p, Report([], [], [RegistryUnread]));
    } else {
      WaitsAccounts(env, s.p, r.p, NOTHING);
      var marked := State(r.p, MarkAll(recheck, r.book));
      if marked.book.dirty != [] {
        var (t, report) := Served(env, marked);
        ServedAccounts(env, marked);
        AccountsAgain(env, s.p, r.p, t.p, NOTHING, report);
        NothingFirst(report);
      }
    }
  }

  /**
   * One pass. An entry is reported written only if its transaction was sent in the pass and has
   * succeeded; every transaction sent is in the report; there are as many of them as entries written
   * and writes lost after the send, more only where a send threw; a write held in flight is one that
   * was reported unconfirmed. A dry run sends nothing.
   */
  lemma TickedAccounts(env: Env, s: State)
    ensures var (t, report) := Ticked(env, s); Accounts(env, s.p, t.p, report)
  {
    var a := Awaited(env, s.p);
    AwaitedWaits(env, s.p);
    var (t, report) := Ticked(env, s);
    if env.script(s.p.clock).answers {
      var begin := State(a, s.book.(ticks := s.book.ticks + 1));
      LookedAccounts(env, begin, IsMultiple(begin.book.ticks, env.recheckEvery));
      WaitsAccounts(env, s.p, a, NOTHING);
      AccountsAgain(env, s.p, a, t.p, NOTHING, report);
      NothingFirst(report);
    } else {
      WaitsAccounts(env, s.p, a, report);
    }
  }
}
