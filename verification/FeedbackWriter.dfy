/**
 * The feedback writer as it runs (apps/gateway/src/reputation.ts:415-730): an object whose fields
 * are the source's own, moved a call at a time. Each method's new state is the one Feedback gives
 * it, whatever the script and the state it starts in, `moments` and all.
 */
module FeedbackWriter {
  import opened Wrappers
  import opened Cursor
  import opened Reputation
  import opened Feedback
  import opened FeedbackRuns
  import opened FeedbackReports
  import LostSends

  class Writer {
    const env: Env

    var clock: nat
    var world: World
    ghost var moments: seq<World>
    var inFlight: map<nat, nat>

    var known: seq<Settlement>
    var newest: Option<LogPosition>
    var dirty: seq<string>
    var identities: seq<Identity>
    var ticks: nat

    ghost function P(): Proc
      reads this`clock, this`world, this`moments, this`inFlight
    {
      Proc(clock, world, moments, inFlight)
    }

    ghost function B(): Book
      reads this`known, this`newest, this`dirty, this`identities, this`ticks
    {
      Book(known, newest, dirty, identities, ticks)
    }

    ghost function Now(): State
      reads this
    {
      State(P(), B())
    }

    constructor (env: Env, world: World)
      ensures this.env == env && Now() == Fresh(world)
    {
      this.env := env;
      this.clock, this.world, this.moments, this.inFlight := 0, world, [world], map[];
      this.known, this.newest, this.dirty, this.identities, this.ticks := [], None, [], [], 0;
    }

    // ----------------------------------------------------------- one call

    method Await() returns (turn: Turn)
      modifies this`clock, this`world, this`moments
      ensures turn == env.script(old(clock)) && P() == Awaited(env, old(P()))
    {
      turn := env.script(clock);
      clock := clock + 1;
      ghost var start := P();
      for i := 0 to |turn.events|
        invariant clock == start.clock && inFlight == start.inFlight
        invariant Passing(P(), turn.events[i..]) == Passing(start, turn.events)
      {
        assert turn.events[i..][1..] == turn.events[i + 1..];
        world := Happen(world, turn.events[i]);
        moments := moments + [world];
      }
    }

    /** The node takes a transaction. */
    method Broadcast(agentId: nat, s: Settlement)
      modifies this`world, this`moments
      ensures P() == Step(old(P()), Sent(agentId, s))
    {
      world := Send(world, agentId, s);
      moments := moments + [world];
    }

    // ----------------------------------------------------------- one entry

    method WriteOne(agentId: nat, s: Settlement) returns (outcome: Outcome)
      modifies this`clock, this`world, this`moments, this`inFlight
      ensures (P(), outcome) == WroteOne(env, old(P()), agentId, s)
    {
      outcome := Prepare();
      if outcome.Written? && !env.dryRun {
        outcome := Submit(agentId, s);
      }
    }

    /** The document, the simulation, and the estimate, which may fail without harm. */
    method Prepare() returns (outcome: Outcome)
      modifies this`clock, this`world, this`moments
      ensures (P(), outcome) == Prepared(env, old(P()))
    {
      var document := Await();
      if !document.answers {
        return Failed(DocumentUnread);
      }
      var simulation := Await();
      if !simulation.answers {
        return Refused;
      }
      var _ := Await();
      return Written;
    }

    /** Sent and waited for. A send that throws leaves no hash, whether or not the node took it. */
    method Submit(agentId: nat, s: Settlement) returns (outcome: Outcome)
      modifies this`clock, this`world, this`moments, this`inFlight
      ensures (P(), outcome) == Submitted(env, old(P()), agentId, s)
    {
      var turn := Await();
      if !turn.answers {
        if turn.taken {
          Broadcast(agentId, s);
        }
        return Failed(SubmissionFailed);
      }
      var hash := |world.txs|;
      Broadcast(agentId, s);
      inFlight := inFlight[agentId := hash];
      outcome := Confirm(agentId, hash);
    }

    method Confirm(agentId: nat, hash: nat) returns (outcome: Outcome)
      modifies this`clock, this`world, this`moments, this`inFlight
      ensures (P(), outcome) == Confirmed(env, old(P()), agentId, hash)
    {
      var turn := Await();
      if !turn.answers || StatusOf(world, hash) == Pending {
        return Failed(Unconfirmed(agentId));
      }
      inFlight := inFlight - {agentId};
      return if StatusOf(world, hash) == Succeeded then Written else Failed(WriteReverted);
    }

    // ----------------------------------------------------------- one agentId

    method SettleInFlight(agentId: nat) returns (clear: bool)
      modifies this`clock, this`world, this`moments, this`inFlight
      ensures (P(), clear) == SettledInFlight(env, old(P()), agentId)
    {
      if agentId !in inFlight {
        return true;
      }
      var hash := inFlight[agentId];
      var turn := Await();
      if !turn.answers || StatusOf(world, hash) == Pending {
        return false;
      }
      inFlight := inFlight - {agentId};
      return true;
    }

    /** Its entries are counted on chain, and the Settlements past the count written until one is not. */
    method CountAndWrite(agentId: nat, rows: seq<Settlement>) returns (report: Report, again: bool)
      modifies this`clock, this`world, this`moments, this`inFlight
      ensures Turnout(P(), report, again) == CountedAndWrote(env, old(P()), agentId, rows)
    {
      var turn := Await();
      if !turn.answers {
        return Report([], [], [CountUnread]), true;
      }
      var count := |EntriesOf(world.entries, agentId)|;
      if count > |rows| {
        return Report([], [CountAbove(agentId)], []), false;
      }
      var written, last := WriteRest(agentId, rows, count);
      return ReportOf(agentId, written, last), last.Failed?;
    }

    method WriteRest(agentId: nat, rows: seq<Settlement>, count: nat) returns (written: seq<Entry>, last: Outcome)
      requires count <= |rows|
      modifies this`clock, this`world, this`moments, this`inFlight
      ensures Wrote(P(), written, last) == WroteRest(env, old(P()), agentId, rows, count, [])
    {
      written, last := [], Written;
      for i := count to |rows|
        invariant WroteRest(env, P(), agentId, rows, i, written) == WroteRest(env, old(P()), agentId, rows, count, [])
      {
        last := WriteOne(agentId, rows[i]);
        if !last.Written? {
          return;
        }
        written := written + [Entry(agentId, rows[i])];
      }
      last := Written;
    }

    method ServeAgent(agentId: nat, addresses: seq<string>) returns (report: Report, again: bool)
      modifies this`clock, this`world, this`moments, this`inFlight
      ensures Turnout(P(), report, again) == ServedAgent(env, old(P()), known, addresses, agentId)
    {
      var clear := SettleInFlight(agentId);
      if !clear {
        return Report([], [NotMined(agentId)], []), true;
      }
      report, again := CountAndWrite(agentId, InChainOrder(From(known, addresses)));
    }

    // ----------------------------------------------------------- the marked Agents

    method ServeAll(ids: seq<nat>, before: Report, kept: seq<string>) returns (report: Report, retry: seq<string>)
      modifies this`clock, this`world, this`moments, this`inFlight
      ensures Service(P(), report, retry) == ServedAll(env, old(P()), known, identities, ids, before, kept)
    {
      report, retry := before, kept;
      for i := 0 to |ids|
        invariant ServedAll(env, P(), known, identities, ids[i..], report, retry)
            == ServedAll(env, old(P()), known, identities, ids, before, kept)
      {
        assert ids[i..][1..] == ids[i + 1..];
        var addresses := AddressesOf(identities, ids[i]);
        var next, again := ServeAgent(ids[i], addresses);
        report, retry := Joined(report, next), if again then AddAll(retry, addresses) else retry;
      }
    }

    method Resolve(agents: seq<string>) returns (report: Report, retry: seq<string>)
      modifies this`clock, this`world, this`moments, this`identities
      ensures Resolution(P(), identities, report, retry)
          == ResolvedAll(env, Resolution(old(P()), old(identities), NOTHING, []), agents)
    {
      report, retry := NOTHING, [];
      for i := 0 to |agents|
        invariant ResolvedAll(env, Resolution(P(), identities, report, retry), agents[i..])
                  == ResolvedAll(env, Resolution(old(P()), old(identities), NOTHING, []), agents)
      {
        assert agents[i..][1..] == agents[i + 1..];
        report, retry := ResolveOne(agents[i], report, retry);
      }
    }

    method ResolveOne(agent: string, before: Report, kept: seq<string>) returns (report: Report, retry: seq<string>)
      modifies this`clock, this`world, this`moments, this`identities
      ensures Resolution(P(), identities, report, retry)
          == ResolvedOne(env, Resolution(old(P()), old(identities), before, kept), agent)
    {
      var turn := Await();
      if !turn.answers {
        return Joined(before, Report([], [], [IdentityUnread])), AddOnce(kept, agent);
      }
      var id := env.setting.identity(agent);
      identities := Record(identities, agent, id);
      return if id.None? then Joined(before, Report([], [NoIdentity(agent)], [])) else before, kept;
    }

    method Serve() returns (report: Report)
      modifies this`clock, this`world, this`moments, this`inFlight, this`identities, this`dirty
      ensures (Now(), report) == Served(env, old(Now()))
    {
      var retry;
      report, retry := Resolve(WithUnresolved(dirty, known, identities));
      ghost var resolved := Resolution(P(), identities, report, retry);
      report, retry := ServeAll(IdsOf(identities, dirty, []), report, retry);
      ghost var served := Service(P(), report, retry);
      assert served == ServedAll(env, resolved.p, known, resolved.identities, IdsOf(resolved.identities, dirty, []),
          resolved.report, resolved.retry);
      dirty := retry;
    }

    // ----------------------------------------------------------- reading

    method TakePage(rows: seq<Settlement>, malformedAt: Option<nat>, before: Option<LogPosition>)
        returns (end: PageEnd, top: Option<LogPosition>)
      modifies this`known, this`dirty
      ensures Taken(end, B(), top) == TakenPage(env.setting.serviceId, rows, malformedAt, 0, old(B()), before)
    {
      top := before;
      for k := 0 to |rows|
        invariant newest == old(newest)
        invariant TakenPage(env.setting.serviceId, rows, malformedAt, k, B(), top)
                  == TakenPage(env.setting.serviceId, rows, malformedAt, 0, old(B()), before)
      {
        if malformedAt == Some(k) {
          return Garbled, top;
        }
        var row := rows[k];
        if row.serviceId != env.setting.serviceId {
          continue;
        }
        if newest.Some? && !Below(newest.value, row.position) {
          return ReachedKnown, top;
        }
        if top.None? {
          top := Some(row.position);
        }
        if !HasId(known, row.id) {
          known := known + [row];
          dirty := AddOnce(dirty, row.agent);
        }
      }
      end := PageDone;
    }

    /** One request, and the rows it brings. `next` is the cursor it leaves, 0 at the end. */
    method RequestPage(cursor: Option<nat>, before: Option<LogPosition>)
        returns (answered: bool, top: Option<LogPosition>, next: nat)
      modifies this`clock, this`world, this`moments, this`known, this`dirty
      ensures Reading(Now(), top, answered, next) == ReadPage(env, cursor, old(Now()), before)
    {
      var turn := Await();
      if !turn.answers {
        return false, before, 0;
      }
      var from := PageFrom(cursor, world.ledger);
      var rows := PageRows(world.ledger, from);
      var end;
      end, top := TakePage(rows, turn.malformedAt, before);
      answered, next := !end.Garbled?, if end.PageDone? then from - |rows| else 0;
    }

    /** Newest first until what is already held. A read that fails leaves `newest` where it was. */
    method ReadNewSettlements() returns (ok: bool)
      modifies this`clock, this`world, this`moments, this`known, this`newest, this`dirty
      ensures (Now(), ok) == ReadNew(env, old(Now()))
    {
      var answered, top, next := RequestPage(None, None);
      while answered && next > 0
        invariant inFlight == old(inFlight) && identities == old(identities) && ticks == old(ticks)
        invariant ReadOn(env, Reading(Now(), top, answered, next)) == ReadOn(env, ReadPage(env, None, old(Now()), None))
        decreases next
      {
        answered, top, next := RequestPage(Some(next), top);
      }
      if answered && top.Some? {
        newest := top;
      }
      return answered;
    }

    // ----------------------------------------------------------- a pass

    /** One pass. Its report accounts for what it sent; when no send is lost, it leaves what TickEnds says. */
    method Tick() returns (report: Report)
      modifies this
      ensures (Now(), report) == Ticked(env, old(Now()))
      ensures Promised(env, old(Now()), Now(), report)
      ensures Accounts(env, old(P()), P(), report)
    {
      ghost var before := Now();
      report := Pass();
      TickedPromised(env, before, Now(), report);
      TickedAccounts(env, before);
    }

    method Pass() returns (report: Report)
      modifies this
      ensures (Now(), report) == Ticked(env, old(Now()))
    {
      ticks := ticks + 1;
      var turn := Await();
      if !turn.answers {
        return Report([], [], [OperatorUnread]);
      }
      report := LookAndServe(IsMultiple(ticks, env.recheckEvery));
    }

    /** On a recheck the whole list is read again and every Agent marked. */
    method LookAndServe(recheck: bool) returns (report: Report)
      modifies this
      ensures (Now(), report) == LookedAndServed(env, old(Now()), recheck)
    {
      if recheck {
        newest := None;
      }
      var ok := ReadNewSettlements();
      if !ok {
        return Report([], [], [RegistryUnread]);
      }
      if recheck {
        dirty := AddAll(dirty, Agents(known));
      }
      if dirty == [] {
        return NOTHING;
      }
      report := Serve();
    }

    /**
     * Any number of passes. Whatever the script, the moments stay a record of every step; and
     * while no send is lost, each of them has every Agent's entries a prefix of its Settlements.
     */
    method Run(passes: nat)
      modifies this
      ensures Now() == RunOf(env, old(Now()), passes)
      ensures old(moments) <= moments && (Traced(old(P())) ==> Traced(P()))
      ensures Assumed(env) && Good(env, old(Now())) ==>
                forall i :: 0 <= i < |moments| ==> Prefixed(moments[i], env.setting) && OneEntryEach(moments[i])
    {
      ghost var before := Now();
      for pass := 0 to passes
        invariant Now() == RunOf(env, before, pass)
      {
        var _ := Tick();
      }
      if Assumed(env) && Good(env, before) {
        RunIsSound(env, before, passes, Now());
      }
    }
  }

  /** The losing script, run: the only Settlement ends with two entries. */
  method LosingRun() returns (w: Writer)
    ensures w.env == LostSends.LOSING && LostSends.DOUBLED in w.moments
    ensures !Prefixed(LostSends.DOUBLED, w.env.setting)
  {
    w := new Writer(LostSends.LOSING, LostSends.EMPTY);
    LostSends.LostSendBreaksARun();
    w.Run(2);
  }
}
