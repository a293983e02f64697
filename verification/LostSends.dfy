/**
 * What a lost send costs the feedback writer (apps/gateway/src/reputation.ts:54-55, 574-580). The
 * source names a restart while a write is unmined as its one gap. There is a second: a send that
 * throws although the node took the transaction leaves an unmined write whose hash nobody holds.
 * Here is exactly when the next send for that Agent is still sound, and a run on which it is not.
 */
module LostSends {
  import opened Wrappers
  import opened Cursor
  import opened Reputation
  import opened Feedback
  import opened FeedbackFacts
  import opened FeedbackRuns

  // ------------------------------------------------------------- the step

  /** An unmined write of the agent. */
  ghost predicate Unmined(w: World, agentId: nat, h: nat) {
    IsPending(w, h) && w.txs[h].agentId == agentId
  }

  lemma OnlyOneUnmined(w: World, v: World, setting: Setting, agentId: nat, h: nat)
    requires Sound(w, setting) && Unmined(w, agentId, h) && Follows(w, v) && !IsPending(v, h)
    ensures NonePending(v, agentId)
  {
  }

  /** While the write is unmined, the next Settlement by the count is the one it writes. */
  lemma NextIsTheUnmined(w: World, setting: Setting, agentId: nat, agent: string, h: nat, rows: seq<Settlement>)
    requires OneAddressEach(setting) && setting.identity(agent) == Some(agentId)
    requires Sound(w, setting) && Unmined(w, agentId, h)
    requires rows <= Owed(w.ledger, setting.serviceId, agent) && |EntriesOf(w.entries, agentId)| < |rows|
    ensures rows[|EntriesOf(w.entries, agentId)|] == w.txs[h].settlement && w.txs[h].settlement.agent == agent
  {
    var s := w.txs[h].settlement;
    assert IsNext(w, setting, agentId, s);
    assert (EntriesOf(w.entries, agentId) + [s])[|EntriesOf(w.entries, agentId)|] == s;
  }

  /** The entries of the agent are counted at `w`; the Settlement past them is sent at `v`. */
  ghost predicate CountedThenSent(setting: Setting, agentId: nat, agent: string, h: nat, p: World, w: World,
      v: World, rows: seq<Settlement>) {
    && OneAddressEach(setting) && setting.identity(agent) == Some(agentId)
    && Sound(p, setting) && Sound(w, setting) && Sound(v, setting)
    && Unmined(p, agentId, h) && Follows(p, w) && Follows(w, v)
    && rows <= Owed(w.ledger, setting.serviceId, agent) && |EntriesOf(w.entries, agentId)| < |rows|
  }

  /**
   * With an unmined write of the agent that nobody holds, the pass's send for it is sound exactly
   * when that write was mined before the entries were counted, or was reverted before the send.
   */
  lemma SoundIff(setting: Setting, agentId: nat, agent: string, h: nat, p: World, w: World, v: World,
      rows: seq<Settlement>)
    requires CountedThenSent(setting, agentId, agent, h, p, w, v, rows)
    ensures
      var s := rows[|EntriesOf(w.entries, agentId)|];
      Sound(Send(v, agentId, s), setting) <==> !IsPending(w, h) || v.txs[h].status == Reverted
  {
    var s := rows[|EntriesOf(w.entries, agentId)|];
    SendIsSound(v, agentId, s, setting);
    OwedGrows(w.ledger, v.ledger, setting.serviceId, agent);
    if !IsPending(w, h) {
      OnlyOneUnmined(p, w, setting, agentId, h);
      NextOne(w, setting, rows, agent, agentId);
      NextAgain(w, v, setting, agentId, s);
    } else {
      StillUnmined(setting, agentId, agent, h, p, w, v, rows);
    }
  }

  lemma StillUnmined(setting: Setting, agentId: nat, agent: string, h: nat, p: World, w: World, v: World,
      rows: seq<Settlement>)
    requires CountedThenSent(setting, agentId, agent, h, p, w, v, rows) && IsPending(w, h)
    ensures
      var s := rows[|EntriesOf(w.entries, agentId)|];
      s == w.txs[h].settlement && (IsNext(v, setting, agentId, s) && NonePending(v, agentId) <==>
          v.txs[h].status == Reverted)
  {
    NextIsTheUnmined(w, setting, agentId, agent, h, rows);
    match v.txs[h].status
    case Pending =>
      assert IsPending(v, h);
    case Reverted =>
      NextAfterRevert(w, v, setting, agentId, h);
    case Succeeded =>
      NotNextAfterSuccess(w, v, setting, agentId, h);
  }

  lemma NextAfterRevert(w: World, v: World, setting: Setting, agentId: nat, h: nat)
    requires Sound(w, setting) && Unmined(w, agentId, h) && Follows(w, v) && v.txs[h].status == Reverted
    ensures IsNext(v, setting, agentId, w.txs[h].settlement) && NonePending(v, agentId)
  {
    OnlyOneUnmined(w, v, setting, agentId, h);
    OwedGrows(w.ledger, v.ledger, setting.serviceId, w.txs[h].settlement.agent);
    assert IsNext(w, setting, agentId, w.txs[h].settlement);
  }

  lemma NotNextAfterSuccess(w: World, v: World, setting: Setting, agentId: nat, h: nat)
    requires Sound(v, setting) && Unmined(w, agentId, h) && Follows(w, v) && v.txs[h].status == Succeeded
    ensures !IsNext(v, setting, agentId, w.txs[h].settlement)
  {
    var s := w.txs[h].settlement;
    OwedFacts(v.ledger, setting.serviceId, s.agent);
    TwiceIsNoPrefix(EntriesOf(w.entries, agentId), s, Owed(v.ledger, setting.serviceId, s.agent));
  }

  /** The send is unsound exactly when the two writes, both mined, leave a duplicate. */
  lemma DuplicatesIff(setting: Setting, agentId: nat, agent: string, h: nat, p: World, w: World, v: World,
      rows: seq<Settlement>)
    requires CountedThenSent(setting, agentId, agent, h, p, w, v, rows)
    ensures
      var s := rows[|EntriesOf(w.entries, agentId)|];
      var once := Happen(Send(v, agentId, s), Mined(h, true));
      Prefixed(Happen(once, Mined(|v.txs|, true)), setting) <==> !IsPending(w, h) || v.txs[h].status == Reverted
  {
    var s := rows[|EntriesOf(w.entries, agentId)|];
    var sent := Send(v, agentId, s);
    var once := Happen(sent, Mined(h, true));
    SoundIff(setting, agentId, agent, h, p, w, v, rows);
    if Sound(sent, setting) {
      EventIsSound(sent, Mined(h, true), setting);
      EventIsSound(once, Mined(|v.txs|, true), setting);
    } else {
      BothMined(setting, agentId, agent, h, p, w, v, rows);
    }
  }

  lemma BothMined(setting: Setting, agentId: nat, agent: string, h: nat, p: World, w: World, v: World,
      rows: seq<Settlement>)
    requires CountedThenSent(setting, agentId, agent, h, p, w, v, rows) && IsPending(w, h)
        && v.txs[h].status != Reverted
    ensures
      var s := rows[|EntriesOf(w.entries, agentId)|];
      var once := Happen(Send(v, agentId, s), Mined(h, true));
      !Prefixed(Happen(once, Mined(|v.txs|, true)), setting)
  {
    var s, before := rows[|EntriesOf(w.entries, agentId)|], EntriesOf(w.entries, agentId);
    var sent := Send(v, agentId, s);
    NextIsTheUnmined(w, setting, agentId, agent, h, rows);
    EntriesOnceMined(v, sent, agentId, h, s, before);
    var once := Happen(sent, Mined(h, true));
    EntryAdded(once.entries, Entry(agentId, s), agentId);
    OwedFacts(v.ledger, setting.serviceId, agent);
    TwiceIsNoPrefix(before, s, Owed(v.ledger, setting.serviceId, agent));
  }

  /** The first of the two writes is mined by now, whenever that was, and has left its entry. */
  lemma EntriesOnceMined(v: World, sent: World, agentId: nat, h: nat, s: Settlement, before: seq<Settlement>)
    requires sent == Send(v, agentId, s) && h < |v.txs| && v.txs[h] == Tx(agentId, s, v.txs[h].status)
        && v.txs[h].status != Reverted
    requires EntriesOf(v.entries, agentId) == before + Settled(v, h)
    ensures
      var once := Happen(sent, Mined(h, true));
      && EntriesOf(once.entries, agentId) == before + [s] && once.ledger == v.ledger
      && |once.txs| == |v.txs| + 1 && once.txs[|v.txs|] == Tx(agentId, s, Pending)
  {
    EntryAdded(sent.entries, Entry(agentId, s), agentId);
  }

  // ------------------------------------------------------------- the step, inside a pass

  /** The world at the count, and the world at the send, of the first write a pass makes for an agent. */
  function AtCount(env: Env, p: Proc): Proc {
    Awaited(env, p)
  }

  function AtSend(env: Env, p: Proc): Proc {
    Awaited(env, Prepared(env, AtCount(env, p)).0)
  }

  /** The pass over the agent gets as far as a send. */
  ghost predicate Sends(env: Env, p: Proc, agentId: nat, rows: seq<Settlement>) {
    var a := AtCount(env, p);
    && !env.dryRun && agentId !in p.inFlight
    && env.script(p.clock).answers && |EntriesOf(a.world.entries, agentId)| < |rows|
    && Prepared(env, a).1.Written?
    && (env.script(Prepared(env, a).0.clock).answers || env.script(Prepared(env, a).0.clock).taken)
  }

  /** The send is a step of the pass, and among its moments. */
  lemma SendIsAMoment(env: Env, p: Proc, known: seq<Settlement>, addresses: seq<string>, agentId: nat)
    requires Sends(env, p, agentId, InChainOrder(From(known, addresses)))
    ensures
      var s := InChainOrder(From(known, addresses))[|EntriesOf(AtCount(env, p).world.entries, agentId)|];
      Send(AtSend(env, p).world, agentId, s) in ServedAgent(env, p, known, addresses, agentId).p.moments
  {
    var rows := InChainOrder(From(known, addresses));
    var a := AtCount(env, p);
    var count := |EntriesOf(a.world.entries, agentId)|;
    var b := Prepared(env, a).0;
    var sent := Step(AtSend(env, p), Sent(agentId, rows[count]));
    SubmittedLeads(env, b, agentId, rows[count]);
    var (w, outcome) := WroteOne(env, a, agentId, rows[count]);
    assert Leads(sent, w);
    var rest := WroteRest(env, a, agentId, rows, count, []);
    assert Leads(w, rest.p);
    assert ServedAgent(env, p, known, addresses, agentId).p == rest.p;
    assert sent.world in sent.moments;
  }

  lemma SubmittedLeads(env: Env, b: Proc, agentId: nat, s: Settlement)
    requires env.script(b.clock).answers || env.script(b.clock).taken
    ensures Leads(Step(Awaited(env, b), Sent(agentId, s)), Submitted(env, b, agentId, s).0)
  {
  }

  lemma CallsFollow(env: Env, p: Proc)
    requires OneAddressEach(env.setting) && Sound(p.world, env.setting) && Prepared(env, AtCount(env, p)).1.Written?
    ensures Sound(AtCount(env, p).world, env.setting) && Sound(AtSend(env, p).world, env.setting)
    ensures Follows(p.world, AtCount(env, p).world) && Follows(AtCount(env, p).world, AtSend(env, p).world)
  {
    var a := AtCount(env, p);
    var b := Awaited(env, a);
    var c := Awaited(env, b);
    var d := Awaited(env, c);
    CallFollows(env, p, a);
    CallFollows(env, a, b);
    CallFollows(env, b, c);
    CallFollows(env, c, d);
    FollowsAgain(a.world, b.world, c.world, env.setting);
    FollowsAgain(a.world, c.world, d.world, env.setting);
    CallFollows(env, d, Awaited(env, d));
    FollowsAgain(a.world, d.world, Awaited(env, d).world, env.setting);
  }

  lemma CallFollows(env: Env, p: Proc, q: Proc)
    requires OneAddressEach(env.setting) && Sound(p.world, env.setting) && q == Awaited(env, p)
    ensures Sound(q.world, env.setting) && Follows(p.world, q.world)
  {
    PassingKeeps(env, p.(clock := p.clock + 1), env.script(p.clock).events, q);
  }

  /**
   * The pass's next send for an agent with an unmined write that is not held. It is a step of the
   * pass, and it is sound exactly when that write was mined before the entries were counted or was
   * reverted before the send; otherwise the two writes, once mined, are a duplicate.
   */
  lemma NextSendIsSoundIff(env: Env, p: Proc, known: seq<Settlement>, addresses: seq<string>, agentId: nat,
      agent: string, h: nat)
    requires OneAddressEach(env.setting) && env.setting.identity(agent) == Some(agentId)
    requires Sound(p.world, env.setting) && Ready(p.world, env.setting, known) && Unmined(p.world, agentId, h)
    requires (forall a :: a in addresses <==> a == agent) && Sends(env, p, agentId, HeldOf(known, agent))
    ensures
      var w, v := AtCount(env, p).world, AtSend(env, p).world;
      var sent := Send(v, agentId, HeldOf(known, agent)[|EntriesOf(w.entries, agentId)|]);
      var safe := !IsPending(w, h) || StatusOf(v, h) == Reverted;
      && sent in ServedAgent(env, p, known, addresses, agentId).p.moments
      && (Sound(sent, env.setting) <==> safe)
      && (Prefixed(Happen(Happen(sent, Mined(h, true)), Mined(|v.txs|, true)), env.setting) <==> safe)
  {
    var w, v := AtCount(env, p).world, AtSend(env, p).world;
    FromSame(known, addresses, [agent]);
    SendIsAMoment(env, p, known, addresses, agentId);
    CallsFollow(env, p);
    ReadyFollows(p.world, w, env.setting, known);
    SoundIff(env.setting, agentId, agent, h, p.world, w, v, HeldOf(known, agent));
    DuplicatesIff(env.setting, agentId, agent, h, p.world, w, v, HeldOf(known, agent));
  }

  /** How such a write comes about: a lost send leaves it, is itself sound, and is reported as not accepted. */
  lemma LostLeavesUnmined(env: Env, p: Proc, q: Proc, outcome: Outcome, known: seq<Settlement>, agentId: nat,
      s: Settlement)
    requires OneAddressEach(env.setting) && !env.dryRun && CanGo(env, p, known, agentId, s) && Lost(env.script(p.clock))
    requires (q, outcome) == Submitted(env, p, agentId, s)
    ensures outcome == Failed(SubmissionFailed) && q.inFlight == p.inFlight
    ensures Sound(q.world, env.setting) && AllSound(q.moments, env.setting) && Ready(q.world, env.setting, known)
    ensures Unmined(q.world, agentId, |p.world.txs|)
  {
    var a := Awaited(env, p);
    AwaitedWaits(env, p, a, known, agentId, s);
    SendIsSound(a.world, agentId, s, env.setting);
    ReadySend(a.world, env.setting, known, agentId, s);
  }

  // ------------------------------------------------------------- a run that breaks

  const ONLY := Settlement("1", "a", "s", LogPosition(1, 0))

  function OnlyIdentity(agent: string): Option<nat> {
    if agent == "a" then Some(0) else None
  }

  /** One Settlement lands; the eighth call, the send, is lost; both writes are mined after the second send. */
  function LosingScript(n: nat): Turn {
    Turn(if n == 0 then [Landed(ONLY)] else if n == 16 then [Mined(0, true), Mined(1, true)]
        else [], n != 7, n == 7, None)
  }

  const LOSING := Env(Setting("s", OnlyIdentity), LosingScript, 30, false)
  const EMPTY := World([], [], [])
  const LANDED := World([ONLY], [], [])

  lemma OneHeld()
    ensures InChainOrder(From([ONLY], ["a"])) == [ONLY]
    ensures AddressesOf([Identity("a", Some(0))], 0) == ["a"]
    ensures IdsOf([Identity("a", Some(0))], ["a"], []) == [0]
  {
    var one := [ONLY];
    assert one[1..] == [];
    assert From(one, ["a"]) == [ONLY] + From(one[1..], ["a"]);
    assert InChainOrder(one) == Insert(ONLY, InChainOrder(one[1..]));
    var ids := [Identity("a", Some(0))];
    assert ids[1..] == [];
    assert AddressesOf(ids, 0) == ["a"] + AddressesOf(ids[1..], 0);
    var agents := ["a"];
    assert agents[1..] == [];
    assert IdsOf(ids, agents, []) == IdsOf(ids, agents[1..], [0]);
  }

  predicate Quiet(n: nat) {
    n != 0 && n != 7 && n != 16
  }

  lemma QuietAnswers(p: Proc, q: Proc)
    requires Quiet(p.clock) && q == Awaited(LOSING, p)
    ensures q == p.(clock := p.clock + 1) && LOSING.script(p.clock).answers
        && LOSING.script(p.clock).malformedAt == None
  {
  }

  /** Four calls that change nothing, and then the send. */
  lemma CountedToSend(p: Proc)
    requires Quiet(p.clock) && Quiet(p.clock + 1) && Quiet(p.clock + 2) && Quiet(p.clock + 3) && p.world.entries == []
    ensures
      var (q, outcome) := Submitted(LOSING, p.(clock := p.clock + 4), 0, ONLY);
      CountedAndWrote(LOSING, p, 0, [ONLY])
          == Turnout(q, ReportOf(0, if outcome.Written? then [Entry(0, ONLY)] else [], outcome), outcome.Failed?)
  {
    var a, b, c, d := p.(clock := p.clock + 1), p.(clock := p.clock + 2), p.(clock := p.clock + 3),
        p.(clock := p.clock + 4);
    QuietAnswers(p, Awaited(LOSING, p));
    QuietAnswers(a, Awaited(LOSING, a));
    QuietAnswers(b, Awaited(LOSING, b));
    QuietAnswers(c, Awaited(LOSING, c));
    assert Prepared(LOSING, a) == (d, Written);
    var (q, outcome) := Submitted(LOSING, d, 0, ONLY);
    assert WroteOne(LOSING, a, 0, ONLY) == (q, outcome);
    WroteOnly(LOSING, a, 0, ONLY, q, outcome);
  }

  lemma WroteOnly(env: Env, a: Proc, agentId: nat, s: Settlement, q: Proc, outcome: Outcome)
    requires WroteOne(env, a, agentId, s) == (q, outcome)
    ensures WroteRest(env, a, agentId, [s], 0, [])
        == Wrote(q, if outcome.Written? then [Entry(agentId, s)] else [], outcome)
  {
    if outcome.Written? {
      assert WroteRest(env, q, agentId, [s], 1, [Entry(agentId, s)]) == Wrote(q, [Entry(agentId, s)], Written);
    }
  }

  lemma OnlyResolved(p: Proc, identities: seq<Identity>)
    requires Quiet(p.clock) && (identities == [] || identities == [Identity("a", Some(0))])
    ensures WithUnresolved(["a"], [ONLY], identities) == ["a"]
    ensures ResolvedAll(LOSING, Resolution(p, identities, NOTHING, []), ["a"])
            == Resolution(p.(clock := p.clock + 1), [Identity("a", Some(0))], NOTHING, [])
  {
    QuietAnswers(p, Awaited(LOSING, p));
    var agents, known := ["a"], [ONLY];
    assert agents[1..] == [] && known[1..] == [];
    assert Record(identities, "a", Some(0)) == [Identity("a", Some(0))];
    var first := Resolution(p, identities, NOTHING, []);
    assert ResolvedAll(LOSING, first, agents) == ResolvedAll(LOSING, ResolvedOne(LOSING, first, "a"), agents[1..]);
  }

  lemma ServedFirst(env: Env, p: Proc, known: seq<Settlement>, identities: seq<Identity>, ids: seq<nat>,
      addresses: seq<string>, t: Turnout)
    requires ids != [] && addresses == AddressesOf(identities, ids[0])
        && t == ServedAgent(env, p, known, addresses, ids[0])
    ensures ServedAll(env, p, known, identities, ids, NOTHING, [])
            == ServedAll(env, t.p, known, identities, ids[1..], Joined(NOTHING, t.report),
                if t.again then AddAll([], addresses) else [])
  {
  }

  lemma ServedOne(env: Env, p: Proc, known: seq<Settlement>, identities: seq<Identity>, ids: seq<nat>, id: nat,
      addresses: seq<string>, t: Turnout)
    requires ids == [id] && addresses == AddressesOf(identities, id) && t == ServedAgent(env, p, known, addresses, id)
    ensures ServedAll(env, p, known, identities, ids, NOTHING, [])
            == Service(t.p, t.report, if t.again then AddAll([], addresses) else [])
  {
    ServedFirst(env, p, known, identities, ids, addresses, t);
    assert ids[1..] == [] && Joined(NOTHING, t.report) == t.report;
  }

  lemma OnlyServed(a: Proc, t: Turnout)
    requires a.inFlight == map[] && t == CountedAndWrote(LOSING, a, 0, [ONLY])
    ensures ServedAll(LOSING, a, [ONLY], [Identity("a", Some(0))], [0], NOTHING, [])
        == Service(t.p, t.report, if t.again then ["a"] else [])
  {
    OneHeld();
    ServedClear(LOSING, a, [ONLY], ["a"], 0, t);
    ServedOne(LOSING, a, [ONLY], [Identity("a", Some(0))], [0], 0, ["a"], t);
    AddedOne("a");
  }

  lemma AddedOne(a: string)
    ensures AddAll([], [a]) == [a]
  {
    assert [a][1..] == [];
  }

  lemma ServedClear(env: Env, p: Proc, known: seq<Settlement>, addresses: seq<string>, id: nat, t: Turnout)
    requires p.inFlight == map[] && t == CountedAndWrote(env, p, id, InChainOrder(From(known, addresses)))
    ensures ServedAgent(env, p, known, addresses, id) == t
  {
  }

  /** The one address resolved, and its agentId served. */
  lemma ServedOnly(p: Proc, book: Book, t: Turnout)
    requires Quiet(p.clock) && p.inFlight == map[] && t == CountedAndWrote(LOSING, p.(clock := p.clock + 1), 0, [ONLY])
    requires book.known == [ONLY] && book.dirty == ["a"]
        && (book.identities == [] || book.identities == [Identity("a", Some(0))])
    ensures
      var next := book.(identities := [Identity("a", Some(0))], dirty := if t.again then ["a"] else []);
      Served(LOSING, State(p, book)) == (State(t.p, next), t.report)
  {
    OneHeld();
    OnlyResolved(p, book.identities);
    OnlyServed(p.(clock := p.clock + 1), t);
  }

  /** A page with the one Settlement, new or held already. */
  lemma PageOnly(book: Book)
    requires (book.known == [] && book.newest == None && book.dirty == [])
             || (book.known == [ONLY] && book.newest == Some(ONLY.position) && book.dirty == ["a"])
    ensures
      var found := book.(known := [ONLY], dirty := ["a"]);
      TakenPage("s", [ONLY], None, 0, book, None)
      == if book.known == [] then Taken(PageDone, found, Some(ONLY.position)) else Taken(ReachedKnown, found, None)
  {
    var found := book.(known := [ONLY], dirty := ["a"]);
    if book.known == [] {
      assert WithRow(book, ONLY) == found;
      assert TakenPage("s", [ONLY], None, 1, found, Some(ONLY.position)) == Taken(PageDone, found, Some(ONLY.position));
    }
  }

  /** A read that finds the one Settlement, or finds it held already. */
  lemma ReadOnly(p: Proc, book: Book)
    requires Quiet(p.clock) && p.world.ledger == [ONLY]
    requires (book.known == [] && book.newest == None && book.dirty == [])
             || (book.known == [ONLY] && book.newest == Some(ONLY.position) && book.dirty == ["a"])
    ensures ReadNew(LOSING, State(p, book))
            == (State(p.(clock := p.clock + 1),
                book.(known := [ONLY], newest := Some(ONLY.position), dirty := ["a"])), true)
  {
    var a := p.(clock := p.clock + 1);
    QuietAnswers(p, Awaited(LOSING, p));
    PageOnly(book);
    assert PageRows(p.world.ledger, 1) == [ONLY];
    var found := book.(known := [ONLY], dirty := ["a"]);
    var r := Reading(State(a, found), if book.known == [] then Some(ONLY.position) else None, true, 0);
    assert ReadPage(LOSING, None, State(p, book), None) == r;
    assert ReadOn(LOSING, r) == r;
  }

  const LOST := World([ONLY], [Tx(0, ONLY, Pending)], [])

  /** A pass up to its identities, once the operator is read. */
  lemma PassOnly(p: Proc, book: Book, read: State)
    requires Quiet(p.clock) && p.world.ledger == [ONLY]
    requires book == Book([], None, [], [], book.ticks)
        || book == Book([ONLY], Some(ONLY.position), ["a"], [Identity("a", Some(0))], book.ticks)
    requires read == State(p.(clock := p.clock + 1),
        Book([ONLY], Some(ONLY.position), ["a"], book.identities, book.ticks))
    ensures LookedAndServed(LOSING, State(p, book), false) == Served(LOSING, read)
  {
    ReadOnly(p, book);
    MarkedAndServed(LOSING, State(p, book), read);
  }

  lemma ReadServed(p: Proc, book: Book, t: Turnout)
    requires Quiet(p.clock) && p.inFlight == map[] && t == CountedAndWrote(LOSING, p.(clock := p.clock + 1), 0, [ONLY])
    requires book == Book([ONLY], Some(ONLY.position), ["a"], book.identities, book.ticks)
    requires book.identities == [] || book.identities == [Identity("a", Some(0))]
    ensures Served(LOSING, State(p, book))
            == (State(t.p, Book([ONLY], Some(ONLY.position), if t.again then ["a"]
                else [], [Identity("a", Some(0))], book.ticks)), t.report)
  {
    ServedOnly(p, book, t);
  }

  lemma MarkedAndServed(env: Env, s: State, read: State)
    requires ReadNew(env, s) == (read, true) && read.book.dirty != []
    ensures LookedAndServed(env, s, false) == Served(env, read)
  {
  }

  /** The first pass sends, is told that it did not, and keeps the Agent for the next. */
  lemma FirstPass()
    ensures Ticked(LOSING, Fresh(EMPTY)).0
            == State(Proc(8, LOST, [EMPTY, LANDED, LOST], map[]),
                Book([ONLY], Some(ONLY.position), ["a"], [Identity("a", Some(0))], 1))
  {
    var a := Proc(1, LANDED, [EMPTY, LANDED], map[]);
    FirstCall();
    var t := Turnout(Proc(8, LOST, [EMPTY, LANDED, LOST], map[]), Report([], [], [SubmissionFailed]), true);
    FirstCount(t);
    var read := State(Proc(2, LANDED, [EMPTY, LANDED], map[]), Book([ONLY], Some(ONLY.position), ["a"], [], 1));
    PassOnly(a, Book([], None, [], [], 1), read);
    ReadServed(read.p, read.book, t);
  }

  lemma FirstCount(t: Turnout)
    requires t == Turnout(Proc(8, LOST, [EMPTY, LANDED, LOST], map[]), Report([], [], [SubmissionFailed]), true)
    ensures CountedAndWrote(LOSING, Proc(3, LANDED, [EMPTY, LANDED], map[]), 0, [ONLY]) == t
  {
    CountedToSend(Proc(3, LANDED, [EMPTY, LANDED], map[]));
    SendLost(Proc(7, LANDED, [EMPTY, LANDED], map[]));
  }

  lemma FirstCall()
    ensures Awaited(LOSING, Fresh(EMPTY).p) == Proc(1, LANDED, [EMPTY, LANDED], map[])
  {
    var p, one := Fresh(EMPTY).p.(clock := 1), [Landed(ONLY)];
    assert LOSING.script(0).events == one;
    assert [] + [ONLY] == [ONLY] && CanLand([], ONLY);
    var landed := Proc(1, LANDED, [EMPTY, LANDED], map[]);
    assert Moved(EMPTY, Happened(Landed(ONLY))) == LANDED;
    assert [EMPTY] + [LANDED] == [EMPTY, LANDED];
    assert Step(p, Happened(Landed(ONLY))) == landed;
    assert one[1..] == [];
    assert Passing(p, one) == Passing(landed, []);
  }

  lemma SendLost(p: Proc)
    requires p.clock == 7 && p.world == LANDED
    ensures Submitted(LOSING, p, 0, ONLY)
        == (p.(clock := 8, world := LOST, moments := p.moments + [LOST]), Failed(SubmissionFailed))
  {
    var a := p.(clock := 8);
    assert LosingScript(7) == Turn([], false, true, None);
    assert Awaited(LOSING, p) == a;
    assert Send(LANDED, 0, ONLY) == LOST;
    assert Moved(a.world, Sent(0, ONLY)) == LOST;
    assert Step(a, Sent(0, ONLY)) == a.(world := LOST, moments := p.moments + [LOST]);
  }

  const DOUBLED := World([ONLY], [Tx(0, ONLY, Succeeded), Tx(0, ONLY, Succeeded)], [Entry(0, ONLY), Entry(0, ONLY)])

  /** The second send is taken and its hash held; then both writes are mined. */
  lemma SendAgain(p: Proc) returns (q: Proc)
    requires p.clock == 15 && p.world == LOST && p.inFlight == map[]
    ensures Submitted(LOSING, p, 0, ONLY) == (q, Written) && q.world == DOUBLED
  {
    var a := p.(clock := 16);
    QuietAnswers(p, Awaited(LOSING, p));
    var sent := Dispatched(a, 0, ONLY);
    var twice := World([ONLY], [Tx(0, ONLY, Pending), Tx(0, ONLY, Pending)], []);
    assert sent.world == twice;
    q := Awaited(LOSING, sent);
    BothMinedAt(sent, q);
    q := q.(inFlight := q.inFlight - {0});
  }

  lemma BothMinedAt(sent: Proc, q: Proc)
    requires sent.clock == 16 && sent.world == World([ONLY], [Tx(0, ONLY, Pending), Tx(0, ONLY, Pending)], [])
    requires q == Awaited(LOSING, sent)
    ensures q.world == DOUBLED
  {
    var events := LosingScript(16).events;
    var p := sent.(clock := 17);
    var one := Step(p, Happened(events[0]));
    var both := Step(one, Happened(events[1]));
    assert one.world == World([ONLY], [Tx(0, ONLY, Succeeded), Tx(0, ONLY, Pending)], [Entry(0, ONLY)]);
    assert both.world == DOUBLED;
    assert events[1..] == [Mined(1, true)] && events[1..][1..] == [];
    assert Passing(both, []) == both;
    assert Passing(one, events[1..]) == Passing(both, events[1..][1..]);
    assert Passing(p, events) == Passing(one, events[1..]);
  }

  lemma SecondPass(s: State)
    requires s == State(Proc(8, LOST, [EMPTY, LANDED, LOST], map[]),
        Book([ONLY], Some(ONLY.position), ["a"], [Identity("a", Some(0))], 1))
    ensures Ticked(LOSING, s).0.p.world == DOUBLED
  {
    var p := s.p.(clock := 9);
    QuietAnswers(s.p, Awaited(LOSING, s.p));
    CountedToSend(s.p.(clock := 11));
    var q := SendAgain(s.p.(clock := 15));
    var read := State(s.p.(clock := 10), s.book.(ticks := 2));
    PassOnly(p, s.book.(ticks := 2), read);
    ReadServed(read.p, read.book, CountedAndWrote(LOSING, s.p.(clock := 11), 0, [ONLY]));
    assert !IsMultiple(2, 30);
  }

  /**
   * Two passes of a fresh process, every call answered but the one send that was lost: the only
   * Settlement ends with two entries.
   */
  lemma LostSendBreaksARun()
    ensures OneAddressEach(LOSING.setting) && Sound(EMPTY, LOSING.setting)
    ensures forall n: nat :: Lost(LOSING.script(n)) <==> n == 7
    ensures forall n: nat :: !LOSING.script(n).answers <==> n == 7
    ensures DOUBLED in RunOf(LOSING, Fresh(EMPTY), 2).p.moments
    ensures !Prefixed(DOUBLED, LOSING.setting) && !OneEntryEach(DOUBLED)
  {
    EmptyIsSound();
    DoubledIsNoPrefix();
    TwoPasses();
  }

  lemma TwoPasses()
    ensures DOUBLED in RunOf(LOSING, Fresh(EMPTY), 2).p.moments
  {
    var s := State(Proc(8, LOST, [EMPTY, LANDED, LOST], map[]),
        Book([ONLY], Some(ONLY.position), ["a"], [Identity("a", Some(0))], 1));
    FirstPass();
    SecondPass(s);
    RunTwice(LOSING, Fresh(EMPTY), s);
  }

  lemma RunTwice(env: Env, start: State, s: State)
    requires s == Ticked(env, start).0 && Traced(start.p)
    ensures Ticked(env, s).0.p.world in RunOf(env, start, 2).p.moments
  {
    assert RunOf(env, start, 1) == Ticked(env, RunOf(env, start, 0)).0;
    var t := RunOf(env, start, 2);
    assert t == Ticked(env, s).0;
    assert Leads(start.p, t.p);
  }

  lemma EmptyIsSound()
    ensures Sound(EMPTY, LOSING.setting)
  {
  }

  lemma DoubledIsNoPrefix()
    ensures !Prefixed(DOUBLED, LOSING.setting) && !OneEntryEach(DOUBLED)
  {
    var e := Entry(0, ONLY);
    EntryAdded([], e, 0);
    EntryAdded([e], e, 0);
    assert [] + [e] == [e] && [e] + [e] == [e, e];
    assert [ONLY][..0] == [];
    assert Owed([ONLY], "s", "a") == [ONLY];
    assert LOSING.setting.identity("a") == Some(0);
    assert DOUBLED.entries[0].settlement.id == DOUBLED.entries[1].settlement.id;
  }
}
