/**
 * What the feedback writer keeps, over every run (apps/gateway/src/reputation.ts:41-58): provided
 * no send is lost, each Agent's entries stay a prefix of its Settlements at every step, whatever
 * fails and whatever happens between the calls; and a pass does what its report says it did.
 */
module FeedbackRuns {
  import opened Wrappers
  import opened Cursor
  import opened Reputation
  import opened Feedback
  import opened FeedbackFacts

  /** The send threw, yet the node had taken the transaction: nobody holds its hash. */
  predicate Lost(turn: Turn) {
    !turn.answers && turn.taken
  }

  /** One address per agentId, and no send is lost. */
  ghost predicate Assumed(env: Env) {
    OneAddressEach(env.setting) && forall n: nat :: !Lost(env.script(n))
  }

  ghost predicate AllSound(moments: seq<World>, setting: Setting) {
    forall i :: 0 <= i < |moments| ==> Sound(moments[i], setting)
  }

  /** Every step so far was sound, and every unmined write is held. */
  ghost predicate Fine(env: Env, p: Proc) {
    Sound(p.world, env.setting) && AllSound(p.moments, env.setting) && Tracks(p.inFlight, p.world)
  }

  /** Fine, and between a complete read and the end of its pass. */
  ghost predicate Serving(env: Env, p: Proc, known: seq<Settlement>) {
    Fine(env, p) && Ready(p.world, env.setting, known)
  }

  // ------------------------------------------------------------- one call

  lemma {:induction false} PassingKeeps(env: Env, p: Proc, events: seq<Event>, q: Proc)
    requires OneAddressEach(env.setting) && Sound(p.world, env.setting) && q == Passing(p, events)
    ensures Sound(q.world, env.setting) && (AllSound(p.moments, env.setting) ==> AllSound(q.moments, env.setting))
    ensures Follows(p.world, q.world) && q.inFlight == p.inFlight && q.clock == p.clock
    decreases |events|
  {
    if events == [] {
      FollowsItself(p.world);
    } else {
      var next := Step(p, Happened(events[0]));
      EventIsSound(p.world, events[0], env.setting);
      PassingKeeps(env, next, events[1..], q);
      FollowsAgain(p.world, next.world, q.world, env.setting);
    }
  }

  lemma AwaitedKeeps(env: Env, p: Proc, q: Proc)
    requires OneAddressEach(env.setting) && Fine(env, p) && q == Awaited(env, p)
    ensures Fine(env, q) && Follows(p.world, q.world) && Grows(p.world, q.world)
    ensures q.inFlight == p.inFlight && q.clock == p.clock + 1
  {
    PassingKeeps(env, p.(clock := p.clock + 1), env.script(p.clock).events, q);
    FollowsGrows(p.world, q.world);
    TracksAgain(p.inFlight, p.world, q.world);
  }

  /** A call in the middle of a pass takes back nothing the pass relies on. */
  lemma AwaitedServing(env: Env, p: Proc, q: Proc, known: seq<Settlement>)
    requires OneAddressEach(env.setting) && Serving(env, p, known) && q == Awaited(env, p)
    ensures Serving(env, q, known) && Follows(p.world, q.world) && Grows(p.world, q.world)
        && |q.world.txs| == |p.world.txs|
    ensures q.inFlight == p.inFlight && q.clock == p.clock + 1
  {
    AwaitedKeeps(env, p, q);
    ReadyFollows(p.world, q.world, env.setting, known);
  }

  // ------------------------------------------------------------- one entry

  /** The Settlement is the agent's next, nothing is unmined, and it is one of those held. */
  ghost predicate CanWrite(w: World, setting: Setting, known: seq<Settlement>, agentId: nat, s: Settlement) {
    && IsNext(w, setting, agentId, s)
    && NonePending(w, agentId)
    && |EntriesOf(w.entries, agentId)| < |HeldOf(known, s.agent)|
  }

  /** A state in which an entry may be written; a dry run writes none, so it asks for less. */
  ghost predicate CanGo(env: Env, p: Proc, known: seq<Settlement>, agentId: nat, s: Settlement) {
    Serving(env, p, known) && (!env.dryRun ==> CanWrite(p.world, env.setting, known, agentId, s))
  }

  /** Calls that only wait: nothing sent, the entry still the next, as many entries as before. */
  ghost predicate Waited(env: Env, p: Proc, q: Proc, known: seq<Settlement>, agentId: nat, s: Settlement) {
    && CanGo(env, q, known, agentId, s)
    && Grows(p.world, q.world) && |q.world.txs| == |p.world.txs| && q.inFlight == p.inFlight && p.clock <= q.clock
    && (!env.dryRun ==> EntriesOf(q.world.entries, agentId) == EntriesOf(p.world.entries, agentId))
  }

  lemma WaitedAgain(env: Env, p: Proc, q: Proc, r: Proc, known: seq<Settlement>, agentId: nat, s: Settlement)
    requires Waited(env, p, q, known, agentId, s) && Waited(env, q, r, known, agentId, s)
    ensures Waited(env, p, r, known, agentId, s)
  {
    GrowsAgain(p.world, q.world, r.world);
  }

  lemma AwaitedWaits(env: Env, p: Proc, q: Proc, known: seq<Settlement>, agentId: nat, s: Settlement)
    requires OneAddressEach(env.setting) && CanGo(env, p, known, agentId, s) && q == Awaited(env, p)
    ensures Waited(env, p, q, known, agentId, s) && q.clock == p.clock + 1
  {
    AwaitedServing(env, p, q, known);
    if !env.dryRun {
      NextAgain(p.world, q.world, env.setting, agentId, s);
    }
  }

  lemma PreparedWaits(env: Env, p: Proc, q: Proc, outcome: Outcome, known: seq<Settlement>, agentId: nat, s: Settlement)
    requires OneAddressEach(env.setting) && CanGo(env, p, known, agentId, s) && (q, outcome) == Prepared(env, p)
    ensures Waited(env, p, q, known, agentId, s)
    ensures !outcome.Written? ==> Troubled(env.script, p.clock, q.clock)
    ensures outcome.Failed? ==> outcome.failure == DocumentUnread
  {
    var a := Awaited(env, p);
    AwaitedWaits(env, p, a, known, agentId, s);
    assert Fails(env.script(p.clock)) || env.script(p.clock).answers;
    if env.script(p.clock).answers {
      SimulatedWaits(env, p, a, q, outcome, known, agentId, s);
    }
  }

  lemma SimulatedWaits(env: Env, p: Proc, a: Proc, q: Proc, outcome: Outcome, known: seq<Settlement>, agentId: nat,
      s: Settlement)
    requires OneAddressEach(env.setting) && Waited(env, p, a, known, agentId, s)
    requires (q, outcome) == if env.script(a.clock).answers then (Awaited(env, Awaited(env, a)), Written)
        else (Awaited(env, a), Refused)
    ensures Waited(env, p, q, known, agentId, s)
    ensures !outcome.Written? ==> Troubled(env.script, p.clock, q.clock)
  {
    var b := Awaited(env, a);
    AwaitedWaits(env, a, b, known, agentId, s);
    WaitedAgain(env, p, a, b, known, agentId, s);
    assert Fails(env.script(a.clock)) || env.script(a.clock).answers;
    if outcome.Written? {
      AwaitedWaits(env, b, q, known, agentId, s);
      WaitedAgain(env, p, b, q, known, agentId, s);
    }
  }

  /** What one write leaves. `Written` means one more entry on chain, and nothing unmined. */
  ghost predicate WriteEnds(env: Env, p: Proc, q: Proc, known: seq<Settlement>, agentId: nat, s: Settlement,
      outcome: Outcome) {
    && Serving(env, q, known)
    && Kept(p.world, q.world, env.dryRun) && p.clock <= q.clock
    && OnlyOf(agentId, p.inFlight, q.inFlight)
    && TrueOutcome(outcome, agentId, Since(env, p.clock, p.world, q))
    && (!env.dryRun && outcome.Written? ==>
          && NonePending(q.world, agentId)
          && EntriesOf(q.world.entries, agentId) == EntriesOf(p.world.entries, agentId) + [s])
  }

  /** The node takes the transaction, and its hash is held before anything else can happen. */
  lemma DispatchedServing(env: Env, p: Proc, q: Proc, known: seq<Settlement>, agentId: nat, s: Settlement)
    requires OneAddressEach(env.setting) && Serving(env, p, known) && CanWrite(p.world, env.setting, known, agentId, s)
    requires q == Dispatched(p, agentId, s)
    ensures Serving(env, q, known) && q.world == Send(p.world, agentId, s) && Sound(q.world, env.setting)
    ensures q.inFlight == p.inFlight[agentId := |p.world.txs|] && q.clock == p.clock
  {
    SendIsSound(p.world, agentId, s, env.setting);
    SendTracks(p.inFlight, p.world, agentId, s);
    ReadySend(p.world, env.setting, known, agentId, s);
  }

  lemma UnconfirmedEnds(env: Env, p: Proc, q: Proc, known: seq<Settlement>, agentId: nat, s: Settlement)
    requires !env.dryRun && Serving(env, q, known) && Grows(p.world, q.world) && p.clock <= q.clock
    requires OnlyOf(agentId, p.inFlight, q.inFlight) && agentId in q.inFlight
    ensures WriteEnds(env, p, q, known, agentId, s, Failed(Unconfirmed(agentId)))
  {
  }

  lemma MinedEnds(env: Env, p: Proc, a: Proc, q: Proc, known: seq<Settlement>, agentId: nat, s: Settlement)
    requires !env.dryRun && Serving(env, a, known) && Grows(p.world, a.world) && p.clock <= a.clock
    requires Sound(Send(p.world, agentId, s), env.setting) && Follows(Send(p.world, agentId, s), a.world)
    requires OnlyOf(agentId, p.inFlight, a.inFlight) && q == a.(inFlight := a.inFlight - {agentId})
    requires StatusOf(a.world, |p.world.txs|) != Pending
    ensures WriteEnds(env, p, q, known, agentId, s, if StatusOf(a.world, |p.world.txs|) == Succeeded then Written
        else Failed(WriteReverted))
  {
    AnsweredWrite(p.world, a.world, env.setting, agentId, s);
    TracksWithout(a.inFlight, a.world, agentId);
  }

  lemma ConfirmedEnds(env: Env, p: Proc, sent: Proc, q: Proc, outcome: Outcome, known: seq<Settlement>, agentId: nat,
      s: Settlement)
    requires OneAddressEach(env.setting) && !env.dryRun && Serving(env, sent, known)
    requires sent.world == Send(p.world, agentId, s) && sent.clock == p.clock
    requires sent.inFlight == p.inFlight[agentId := |p.world.txs|]
    requires (q, outcome) == Confirmed(env, sent, agentId, |p.world.txs|)
    ensures WriteEnds(env, p, q, known, agentId, s, outcome)
  {
    var a := Awaited(env, sent);
    AwaitedServing(env, sent, a, known);
    SendGrows(p.world, agentId, s);
    GrowsAgain(p.world, sent.world, a.world);
    if !env.script(sent.clock).answers || StatusOf(a.world, |p.world.txs|) == Pending {
      UnconfirmedEnds(env, p, a, known, agentId, s);
    } else {
      MinedEnds(env, p, a, q, known, agentId, s);
    }
  }

  /** What an earlier stretch that only waited adds to a later one. */
  lemma WriteEndsEarlier(env: Env, p: Proc, middle: Proc, q: Proc, known: seq<Settlement>, agentId: nat,
      s: Settlement, outcome: Outcome)
    requires Waited(env, p, middle, known, agentId, s) && WriteEnds(env, middle, q, known, agentId, s, outcome)
    ensures WriteEnds(env, p, q, known, agentId, s, outcome)
  {
    GrowsAgain(p.world, middle.world, q.world);
  }

  lemma WaitedEnds(env: Env, p: Proc, q: Proc, known: seq<Settlement>, agentId: nat, s: Settlement, outcome: Outcome)
    requires Waited(env, p, q, known, agentId, s)
    requires TrueOutcome(outcome, agentId, Since(env, p.clock, p.world, q)) && (env.dryRun || !outcome.Written?)
    ensures WriteEnds(env, p, q, known, agentId, s, outcome)
  {
  }

  lemma SubmittedEnds(env: Env, p: Proc, q: Proc, outcome: Outcome, known: seq<Settlement>, agentId: nat, s: Settlement)
    requires Assumed(env) && !env.dryRun && CanGo(env, p, known, agentId, s)
    requires (q, outcome) == Submitted(env, p, agentId, s)
    ensures WriteEnds(env, p, q, known, agentId, s, outcome)
  {
    var a := Awaited(env, p);
    AwaitedWaits(env, p, a, known, agentId, s);
    if env.script(p.clock).answers {
      var sent := Dispatched(a, agentId, s);
      DispatchedServing(env, a, sent, known, agentId, s);
      ConfirmedEnds(env, a, sent, q, outcome, known, agentId, s);
      WriteEndsEarlier(env, p, a, q, known, agentId, s, outcome);
    } else {
      assert !Lost(env.script(p.clock)) && Fails(env.script(p.clock));
      WaitedEnds(env, p, q, known, agentId, s, outcome);
    }
  }

  lemma WroteOneEnds(env: Env, p: Proc, q: Proc, outcome: Outcome, known: seq<Settlement>, agentId: nat, s: Settlement)
    requires Assumed(env) && CanGo(env, p, known, agentId, s)
    requires (q, outcome) == WroteOne(env, p, agentId, s)
    ensures WriteEnds(env, p, q, known, agentId, s, outcome)
  {
    var (a, ready) := Prepared(env, p);
    PreparedWaits(env, p, a, ready, known, agentId, s);
    if !ready.Written? || env.dryRun {
      WaitedEnds(env, p, q, known, agentId, s, outcome);
    } else {
      SubmittedEnds(env, a, q, outcome, known, agentId, s);
      WriteEndsEarlier(env, p, a, q, known, agentId, s, outcome);
    }
  }

  // ------------------------------------------------------------- one agentId

  /** One entry for each Settlement at places [count, i), in order. */
  ghost predicate AreEntries(written: seq<Entry>, agentId: nat, rows: seq<Settlement>, count: nat, i: nat) {
    && count + |written| == i <= |rows|
    && forall k :: 0 <= k < |written| ==> written[k] == Entry(agentId, rows[count + k])
  }

  ghost predicate OnChain(written: seq<Entry>, w: World) {
    forall k :: 0 <= k < |written| ==> written[k].settlement in EntriesOf(w.entries, written[k].agentId)
  }

  lemma OnChainAgain(written: seq<Entry>, w: World, v: World)
    requires OnChain(written, w) && Grows(w, v)
    ensures OnChain(written, v)
  {
  }

  /** The agent has `i` entries, the first `i` of its Settlements, and nothing is unmined. */
  ghost predicate AtPlace(env: Env, w: World, agentId: nat, agent: string, rows: seq<Settlement>, i: nat) {
    && i <= |rows| && rows <= Owed(w.ledger, env.setting.serviceId, agent)
    && (!env.dryRun ==> |EntriesOf(w.entries, agentId)| == i && NonePending(w, agentId))
  }

  /** What an unfinished pass leaves: entries for at least the first `i` Settlements. */
  ghost predicate Reached(env: Env, w: World, agentId: nat, agent: string, rows: seq<Settlement>, i: nat) {
    && rows <= Owed(w.ledger, env.setting.serviceId, agent)
    && (!env.dryRun ==> i <= |EntriesOf(w.entries, agentId)|)
  }

  lemma ReachedAgain(env: Env, w: World, v: World, agentId: nat, agent: string, rows: seq<Settlement>, i: nat)
    requires AtPlace(env, w, agentId, agent, rows, i) && Grows(w, v)
    ensures Reached(env, v, agentId, agent, rows, i)
  {
    OwedGrows(w.ledger, v.ledger, env.setting.serviceId, agent);
  }

  /** Entries and Settlements are prefixes of one list, so counting entries tells which they are. */
  lemma WrittenOnChain(env: Env, w: World, agentId: nat, agent: string, rows: seq<Settlement>, count: nat, i: nat,
      written: seq<Entry>)
    requires Sound(w, env.setting) && env.setting.identity(agent) == Some(agentId) && !env.dryRun
    requires Reached(env, w, agentId, agent, rows, i) && AreEntries(written, agentId, rows, count, i)
    ensures OnChain(written, w)
    ensures i == |rows| ==> rows <= EntriesOf(w.entries, agentId)
  {
    var entries := EntriesOf(w.entries, agentId);
    assert entries <= Owed(w.ledger, env.setting.serviceId, agent);
    assert forall k :: 0 <= k < i ==> entries[k] == rows[k];
  }

  lemma NextOfPrefix(entries: seq<Settlement>, rows: seq<Settlement>, owed: seq<Settlement>)
    requires entries <= owed && rows <= owed && |entries| < |rows|
    ensures entries + [rows[|entries|]] <= owed && rows[|entries|] in owed
  {
    assert owed[|entries|] in owed;
  }

  /** The entry that follows a full prefix of what is owed. */
  lemma NextOne(w: World, setting: Setting, rows: seq<Settlement>, agent: string, agentId: nat)
    requires Sound(w, setting) && setting.identity(agent) == Some(agentId)
    requires rows <= Owed(w.ledger, setting.serviceId, agent) && |EntriesOf(w.entries, agentId)| < |rows|
    ensures IsNext(w, setting, agentId, rows[|EntriesOf(w.entries, agentId)|])
    ensures rows[|EntriesOf(w.entries, agentId)|].agent == agent
  {
    var entries := EntriesOf(w.entries, agentId);
    var owed := Owed(w.ledger, setting.serviceId, agent);
    OwedFacts(w.ledger, setting.serviceId, agent);
    NextOfPrefix(entries, rows, owed);
  }

  /** A write about to be made at place i, after those from place `count` on. */
  ghost predicate InPlace(env: Env, begin: Proc, p: Proc, known: seq<Settlement>, agentId: nat, agent: string,
      count: nat, i: nat, written: seq<Entry>) {
    && Serving(env, p, known)
    && Kept(begin.world, p.world, env.dryRun) && begin.clock <= p.clock && OnlyOf(agentId, begin.inFlight, p.inFlight)
    && AreEntries(written, agentId, HeldOf(known, agent), count, i)
    && AtPlace(env, p.world, agentId, agent, HeldOf(known, agent), i)
  }

  ghost predicate RestEnds(env: Env, begin: Proc, r: Wrote, known: seq<Settlement>, agentId: nat, agent: string,
      count: nat, at: nat) {
    && Serving(env, r.p, known)
    && Kept(begin.world, r.p.world, env.dryRun) && begin.clock <= r.p.clock
       && OnlyOf(agentId, begin.inFlight, r.p.inFlight)
    && TrueOutcome(r.last, agentId, Since(env, begin.clock, begin.world, r.p))
    && AreEntries(r.written, agentId, HeldOf(known, agent), count, at)
    && Reached(env, r.p.world, agentId, agent, HeldOf(known, agent), at)
    && (r.last.Written? ==> at == |HeldOf(known, agent)|)
  }

  lemma OutcomeEarlier(outcome: Outcome, agentId: nat, env: Env, begin: Proc, middle: Proc, q: Proc)
    requires begin.clock <= middle.clock && Grows(begin.world, middle.world)
    requires TrueOutcome(outcome, agentId, Since(env, middle.clock, middle.world, q))
    ensures TrueOutcome(outcome, agentId, Since(env, begin.clock, begin.world, q))
  {
  }

  /** In place, the next write can go. */
  lemma InPlaceCanGo(env: Env, begin: Proc, p: Proc, known: seq<Settlement>, agentId: nat, agent: string, count: nat,
      i: nat, written: seq<Entry>)
    requires env.setting.identity(agent) == Some(agentId) && i < |HeldOf(known, agent)|
    requires InPlace(env, begin, p, known, agentId, agent, count, i, written)
    ensures CanGo(env, p, known, agentId, HeldOf(known, agent)[i])
  {
    if !env.dryRun {
      NextOne(p.world, env.setting, HeldOf(known, agent), agent, agentId);
    }
  }

  /** A write that was made moves on by one place. */
  lemma PlaceAfter(env: Env, begin: Proc, p: Proc, q: Proc, known: seq<Settlement>, agentId: nat, agent: string,
      count: nat, i: nat, written: seq<Entry>)
    requires i < |HeldOf(known, agent)| && InPlace(env, begin, p, known, agentId, agent, count, i, written)
    requires WriteEnds(env, p, q, known, agentId, HeldOf(known, agent)[i], Written)
    ensures InPlace(env, begin, q, known, agentId, agent, count, i + 1,
        written + [Entry(agentId, HeldOf(known, agent)[i])])
  {
    KeptAgain(begin.world, p.world, q.world, env.dryRun);
    ReachedAgain(env, p.world, q.world, agentId, agent, HeldOf(known, agent), i);
  }

  lemma StoppedAt(env: Env, begin: Proc, p: Proc, q: Proc, known: seq<Settlement>, agentId: nat, agent: string,
      count: nat, i: nat, written: seq<Entry>, last: Outcome)
    requires i < |HeldOf(known, agent)| && InPlace(env, begin, p, known, agentId, agent, count, i, written)
    requires WriteEnds(env, p, q, known, agentId, HeldOf(known, agent)[i], last) && !last.Written?
    ensures RestEnds(env, begin, Wrote(q, written, last), known, agentId, agent, count, i)
  {
    KeptAgain(begin.world, p.world, q.world, env.dryRun);
    ReachedAgain(env, p.world, q.world, agentId, agent, HeldOf(known, agent), i);
    OutcomeEarlier(last, agentId, env, begin, p, q);
  }

  lemma WriteNext(env: Env, begin: Proc, p: Proc, q: Proc, outcome: Outcome, known: seq<Settlement>, agentId: nat,
      agent: string, count: nat, i: nat, written: seq<Entry>)
    requires Assumed(env) && env.setting.identity(agent) == Some(agentId) && i < |HeldOf(known, agent)|
    requires InPlace(env, begin, p, known, agentId, agent, count, i, written)
    requires (q, outcome) == WroteOne(env, p, agentId, HeldOf(known, agent)[i])
    ensures if outcome.Written? then InPlace(env, begin, q, known, agentId, agent, count, i + 1,
        written + [Entry(agentId, HeldOf(known, agent)[i])])
            else RestEnds(env, begin, Wrote(q, written, outcome), known, agentId, agent, count, i)
  {
    InPlaceCanGo(env, begin, p, known, agentId, agent, count, i, written);
    WroteOneEnds(env, p, q, outcome, known, agentId, HeldOf(known, agent)[i]);
    if outcome.Written? {
      PlaceAfter(env, begin, p, q, known, agentId, agent, count, i, written);
    } else {
      StoppedAt(env, begin, p, q, known, agentId, agent, count, i, written, outcome);
    }
  }

  /** The Settlements past the count are written in chain order up to the first that is not. */
  lemma {:induction false} WroteRestEnds(env: Env, begin: Proc, p: Proc, r: Wrote, known: seq<Settlement>,
      agentId: nat, agent: string, count: nat, i: nat, written: seq<Entry>)
    returns (at: nat)
    requires Assumed(env) && env.setting.identity(agent) == Some(agentId) && i <= |HeldOf(known, agent)|
    requires InPlace(env, begin, p, known, agentId, agent, count, i, written)
    requires r == WroteRest(env, p, agentId, HeldOf(known, agent), i, written)
    ensures RestEnds(env, begin, r, known, agentId, agent, count, at)
    decreases |HeldOf(known, agent)| - i
  {
    at := i;
    if i < |HeldOf(known, agent)| {
      var s := HeldOf(known, agent)[i];
      var (a, outcome) := WroteOne(env, p, agentId, s);
      WriteNext(env, begin, p, a, outcome, known, agentId, agent, count, i, written);
      if outcome.Written? {
        at := WroteRestEnds(env, begin, a, r, known, agentId, agent, count, i + 1, written + [Entry(agentId, s)]);
      }
    } else {
      AllWritten(env, begin, p, known, agentId, agent, count, i, written);
    }
  }

  lemma AllWritten(env: Env, begin: Proc, p: Proc, known: seq<Settlement>, agentId: nat, agent: string, count: nat,
      i: nat, written: seq<Entry>)
    requires i == |HeldOf(known, agent)| && InPlace(env, begin, p, known, agentId, agent, count, i, written)
    ensures RestEnds(env, begin, Wrote(p, written, Written), known, agentId, agent, count, i)
  {
  }

  /** What serving one agentId leaves. */
  ghost predicate AgentEnds(env: Env, p: Proc, t: Turnout, known: seq<Settlement>, agentId: nat, agent: string) {
    && Serving(env, t.p, known)
    && Kept(p.world, t.p.world, env.dryRun) && p.clock <= t.p.clock && OnlyOf(agentId, p.inFlight, t.p.inFlight)
    && TrueReport(t.report, env.setting, Since(env, p.clock, p.world, t.p)) && About(t.report, {agentId})
    && (t.again ==> Delayed(t.report))
    && (!env.dryRun ==> OnChain(t.report.written, t.p.world))
    && (!env.dryRun && !t.again && !GaveUp(t.report.skipped, agentId) ==>
          HeldOf(known, agent) <= EntriesOf(t.p.world.entries, agentId))
  }

  lemma OutcomeReported(report: Report, agentId: nat, written: seq<Entry>, outcome: Outcome, setting: Setting,
      e: Evidence)
    requires report == ReportOf(agentId, written, outcome) && TrueOutcome(outcome, agentId, e)
    ensures TrueReport(report, setting, e) && About(report, {agentId}) && report.written == written
    ensures outcome.Refused? ==> GaveUp(report.skipped, agentId)
    ensures outcome.Failed? ==> report.failures != []
  {
  }

  lemma RestReported(env: Env, p: Proc, r: Wrote, known: seq<Settlement>, agentId: nat, agent: string, count: nat,
      at: nat)
    requires env.setting.identity(agent) == Some(agentId) && RestEnds(env, p, r, known, agentId, agent, count, at)
    ensures AgentEnds(env, p, Turnout(r.p, ReportOf(agentId, r.written, r.last), r.last.Failed?), known, agentId, agent)
  {
    OutcomeReported(ReportOf(agentId, r.written, r.last), agentId, r.written, r.last, env.setting,
        Since(env, p.clock, p.world, r.p));
    if !env.dryRun {
      WrittenOnChain(env, r.p.world, agentId, agent, HeldOf(known, agent), count, at, r.written);
    }
  }

  lemma AgentEndsEarlier(env: Env, begin: Proc, p: Proc, t: Turnout, known: seq<Settlement>, agentId: nat,
      agent: string)
    requires Kept(begin.world, p.world, env.dryRun) && begin.clock <= p.clock
        && OnlyOf(agentId, begin.inFlight, p.inFlight)
    requires AgentEnds(env, p, t, known, agentId, agent)
    ensures AgentEnds(env, begin, t, known, agentId, agent)
  {
    KeptAgain(begin.world, p.world, t.p.world, env.dryRun);
    var e, f := Since(env, p.clock, p.world, t.p), Since(env, begin.clock, begin.world, t.p);
    assert e.troubled ==> f.troubled;
    TrueAgain(t.report, env.setting, e, f, {agentId});
  }

  lemma FailedAgent(env: Env, p: Proc, q: Proc, known: seq<Settlement>, agentId: nat, agent: string, report: Report)
    requires Serving(env, q, known) && Kept(p.world, q.world, env.dryRun) && p.clock <= q.clock
        && OnlyOf(agentId, p.inFlight, q.inFlight)
    requires (report == Report([], [], [CountUnread]) && Troubled(env.script, p.clock, q.clock))
             || (report == Report([], [NotMined(agentId)], []) && agentId in q.inFlight)
    ensures AgentEnds(env, p, Turnout(q, report, true), known, agentId, agent)
  {
    assert report.skipped != [] ==> report.skipped[0].NotMined?;
  }

  /**
   * The agent's entries are counted, and there are no more of them than Settlements held: with
   * nothing of the agent unmined, the count is the place of its next entry.
   */
  lemma CountedEnds(env: Env, p: Proc, t: Turnout, known: seq<Settlement>, agentId: nat, agent: string)
    requires Assumed(env) && env.setting.identity(agent) == Some(agentId)
    requires Serving(env, p, known) && NonePending(p.world, agentId)
    requires t == CountedAndWrote(env, p, agentId, HeldOf(known, agent))
    ensures AgentEnds(env, p, t, known, agentId, agent)
  {
    var a := Awaited(env, p);
    AwaitedServing(env, p, a, known);
    var count := |EntriesOf(a.world.entries, agentId)|;
    assert RoomAt(a.world, agentId, |HeldOf(known, agent)|);
    if env.script(p.clock).answers {
      var r := WroteRest(env, a, agentId, HeldOf(known, agent), count, []);
      StartsInPlace(env, a, known, agentId, agent, count);
      var at := WroteRestEnds(env, a, a, r, known, agentId, agent, count, count, []);
      RestReported(env, a, r, known, agentId, agent, count, at);
      AgentEndsEarlier(env, p, a, t, known, agentId, agent);
    } else {
      assert Fails(env.script(p.clock));
      FailedAgent(env, p, a, known, agentId, agent, t.report);
    }
  }

  lemma StartsInPlace(env: Env, p: Proc, known: seq<Settlement>, agentId: nat, agent: string, count: nat)
    requires Serving(env, p, known) && NonePending(p.world, agentId) && env.setting.identity(agent) == Some(agentId)
    requires count == |EntriesOf(p.world.entries, agentId)| <= |HeldOf(known, agent)|
    ensures InPlace(env, p, p, known, agentId, agent, count, count, [])
  {
  }

  /** An earlier write is waited out: nothing is written while it is unmined. */
  lemma SettledKeeps(env: Env, p: Proc, q: Proc, clear: bool, known: seq<Settlement>, agentId: nat)
    requires OneAddressEach(env.setting) && Serving(env, p, known) && (q, clear) == SettledInFlight(env, p, agentId)
    ensures Serving(env, q, known) && Kept(p.world, q.world, env.dryRun) && p.clock <= q.clock
        && OnlyOf(agentId, p.inFlight, q.inFlight)
    ensures if clear then NonePending(q.world, agentId) else agentId in q.inFlight
  {
    if agentId in p.inFlight {
      var a := Awaited(env, p);
      AwaitedServing(env, p, a, known);
      if clear {
        TrackedIsMined(a.inFlight, a.world, agentId);
        TracksWithout(a.inFlight, a.world, agentId);
      }
    } else {
      FollowsItself(p.world);
      FollowsGrows(p.world, p.world);
    }
  }

  lemma ServedAgentEnds(env: Env, p: Proc, t: Turnout, known: seq<Settlement>, addresses: seq<string>, agentId: nat,
      agent: string)
    requires Assumed(env) && env.setting.identity(agent) == Some(agentId) && Serving(env, p, known)
    requires (forall a :: a in addresses <==> a == agent) && t == ServedAgent(env, p, known, addresses, agentId)
    ensures AgentEnds(env, p, t, known, agentId, agent)
  {
    FromSame(known, addresses, [agent]);
    var (a, clear) := SettledInFlight(env, p, agentId);
    SettledKeeps(env, p, a, clear, known, agentId);
    if clear {
      CountedEnds(env, a, t, known, agentId, agent);
      AgentEndsEarlier(env, p, a, t, known, agentId, agent);
    } else {
      FailedAgent(env, p, a, known, agentId, agent, t.report);
    }
  }

  lemma {:induction false} FromSame(known: seq<Settlement>, a: seq<string>, b: seq<string>)
    requires forall x :: x in a <==> x in b
    ensures From(known, a) == From(known, b)
  {
    if known != [] {
      FromSame(known[1..], a, b);
    }
  }

  // ------------------------------------------------------------- the marked Agents

  /** An address has an entry for each of these Settlements, or is kept for a retry, or is reported. */
  ghost predicate Done(w: World, setting: Setting, agent: string, rows: seq<Settlement>, skipped: seq<Skip>,
      retry: seq<string>) {
    setting.identity(agent).Some? ==>
      || rows <= EntriesOf(w.entries, setting.identity(agent).value)
      || agent in retry
      || GaveUp(skipped, setting.identity(agent).value)
  }

  lemma DoneAgain(w: World, v: World, setting: Setting, agent: string, rows: seq<Settlement>, a: Report, b: Report,
      retry: seq<string>, more: seq<string>)
    requires Done(w, setting, agent, rows, a.skipped, retry) && Grows(w, v) && forall x :: x in retry ==> x in more
    ensures Done(v, setting, agent, rows, Joined(a, b).skipped, more)
  {
  }

  /** The marked addresses whose agentId is in `ids` are done, for every Settlement held. */
  ghost predicate DoneFor(w: World, setting: Setting, known: seq<Settlement>, dirty: seq<string>, ids: set<nat>,
      skipped: seq<Skip>, retry: seq<string>) {
    forall agent :: agent in dirty && setting.identity(agent).Some? && setting.identity(agent).value in ids ==>
      Done(w, setting, agent, HeldOf(known, agent), skipped, retry)
  }

  /** What a pass over the agentIds `done` has kept and reached. */
  ghost predicate Passed(env: Env, begin: Proc, p: Proc, known: seq<Settlement>, dirty: seq<string>, done: set<nat>,
      report: Report, retry: seq<string>) {
    && Serving(env, p, known)
    && Kept(begin.world, p.world, env.dryRun) && begin.clock <= p.clock
    && TrueReport(report, env.setting, Since(env, begin.clock, begin.world, p)) && About(report, done)
    && (retry != [] ==> Delayed(report))
    && (!env.dryRun ==>
          OnChain(report.written, p.world) && DoneFor(p.world, env.setting, known, dirty, done, report.skipped, retry))
  }

  lemma MoreOnChain(a: Report, b: Report, w: World, v: World)
    requires OnChain(a.written, w) && OnChain(b.written, v) && Grows(w, v)
    ensures OnChain(Joined(a, b).written, v)
  {
    OnChainAgain(a.written, w, v);
  }

  lemma MoreDone(env: Env, p: Proc, t: Turnout, known: seq<Settlement>, dirty: seq<string>, done: set<nat>,
      report: Report, retry: seq<string>,
                 agentId: nat, agent: string, more: seq<string>)
    requires OneAddressEach(env.setting) && env.setting.identity(agent) == Some(agentId)
    requires DoneFor(p.world, env.setting, known, dirty, done, report.skipped, retry)
    requires AgentEnds(env, p, t, known, agentId, agent) && !env.dryRun
    requires (forall a :: a in retry ==> a in more) && (t.again ==> agent in more)
    ensures DoneFor(t.p.world, env.setting, known, dirty, done + {agentId}, Joined(report, t.report).skipped, more)
  {
    forall a | a in dirty && env.setting.identity(a).Some? && env.setting.identity(a).value in done + {agentId}
      ensures Done(t.p.world, env.setting, a, HeldOf(known, a), Joined(report, t.report).skipped, more)
    {
      if a != agent {
        DoneAgain(p.world, t.p.world, env.setting, a, HeldOf(known, a), report, t.report, retry, more);
      }
    }
  }

  lemma MoreTrue(env: Env, begin: Proc, p: Proc, t: Turnout, done: set<nat>, report: Report, agentId: nat)
    requires TrueReport(report, env.setting, Since(env, begin.clock, begin.world, p)) && About(report, done)
        && agentId !in done
    requires begin.clock <= p.clock <= t.p.clock && Grows(begin.world, p.world) && Grows(p.world, t.p.world)
        && OnlyOf(agentId, p.inFlight, t.p.inFlight)
    requires TrueReport(t.report, env.setting, Since(env, p.clock, p.world, t.p)) && About(t.report, {agentId})
    ensures TrueReport(Joined(report, t.report), env.setting, Since(env, begin.clock, begin.world, t.p))
    ensures About(Joined(report, t.report), done + {agentId})
  {
    var e, f, g := Since(env, begin.clock, begin.world, p), Since(env, begin.clock, begin.world, t.p),
        Since(env, p.clock, p.world, t.p);
    assert Mounts(e, f, done);
    assert Mounts(g, f, {agentId});
    TrueAgain(report, env.setting, e, f, done);
    TrueAgain(t.report, env.setting, g, f, {agentId});
    TrueBoth(report, t.report, env.setting, f, done, {agentId});
  }

  lemma PassedAgain(env: Env, begin: Proc, p: Proc, t: Turnout, known: seq<Settlement>, dirty: seq<string>,
      done: set<nat>, report: Report, retry: seq<string>,
                    agentId: nat, agent: string, more: seq<string>)
    requires OneAddressEach(env.setting) && env.setting.identity(agent) == Some(agentId) && agentId !in done
    requires Passed(env, begin, p, known, dirty, done, report, retry) && AgentEnds(env, p, t, known, agentId, agent)
    requires (forall a :: a in retry ==> a in more) && (t.again ==> agent in more) && (!t.again ==> more == retry)
    ensures Passed(env, begin, t.p, known, dirty, done + {agentId}, Joined(report, t.report), more)
  {
    KeptAgain(begin.world, p.world, t.p.world, env.dryRun);
    MoreTrue(env, begin, p, t, done, report, agentId);
    if more != [] {
      DelayedBoth(report, t.report);
    }
    if !env.dryRun {
      MoreOnChain(report, t.report, p.world, t.p.world);
      MoreDone(env, p, t, known, dirty, done, report, retry, agentId, agent, more);
    }
  }

  ghost predicate Identified(identities: seq<Identity>, setting: Setting) {
    forall i :: 0 <= i < |identities| ==> identities[i].id == setting.identity(identities[i].agent)
  }

  /** Some address resolved to this agentId. */
  ghost predicate Resolves(identities: seq<Identity>, id: nat) {
    exists agent :: IdOf(identities, agent) == Some(id)
  }

  ghost predicate ToServe(identities: seq<Identity>, ids: seq<nat>, done: set<nat>) {
    && (forall i, j :: 0 <= i < j < |ids| ==> ids[i] != ids[j])
    && (forall i :: 0 <= i < |ids| ==> ids[i] !in done && Resolves(identities, ids[i]))
  }

  lemma {:induction false} IdentifiedAddress(identities: seq<Identity>, setting: Setting, agent: string)
    requires Identified(identities, setting)
    ensures IdOf(identities, agent) == if Has(identities, agent) then setting.identity(agent) else None
  {
    if identities != [] && identities[0].agent != agent {
      IdentifiedAddress(identities[1..], setting, agent);
    }
  }

  lemma {:induction false} AddressesFacts(identities: seq<Identity>, setting: Setting, id: nat)
    requires Identified(identities, setting)
    ensures forall a :: a in AddressesOf(identities, id) <==> Has(identities, a) && setting.identity(a) == Some(id)
  {
    if identities != [] {
      AddressesFacts(identities[1..], setting, id);
      forall a
        ensures Has(identities, a) <==> a == identities[0].agent || Has(identities[1..], a)
      {
        HasTail(identities, a);
      }
    }
  }

  lemma HasTail(identities: seq<Identity>, a: string)
    requires identities != []
    ensures Has(identities, a) <==> a == identities[0].agent || Has(identities[1..], a)
  {
    if Has(identities, a) {
      var i :| 0 <= i < |identities| && identities[i].agent == a;
      assert i > 0 ==> identities[1..][i - 1].agent == a;
    }
  }

  /** With one address per agentId, the addresses of an agentId are one. */
  lemma OneAddress(identities: seq<Identity>, setting: Setting, id: nat) returns (agent: string)
    requires OneAddressEach(setting) && Identified(identities, setting) && Resolves(identities, id)
    ensures setting.identity(agent) == Some(id) && forall a :: a in AddressesOf(identities, id) <==> a == agent
  {
    agent :| IdOf(identities, agent) == Some(id);
    IdentifiedAddress(identities, setting, agent);
    AddressesFacts(identities, setting, id);
  }

  lemma ToServeRest(identities: seq<Identity>, ids: seq<nat>, done: set<nat>)
    requires ids != [] && ToServe(identities, ids, done)
    ensures ids[0] !in done && Resolves(identities, ids[0])
    ensures ToServe(identities, ids[1..], done + {ids[0]})
    ensures (done + {ids[0]}) + (set id | id in ids[1..]) == done + (set id | id in ids)
  {
    assert ids == [ids[0]] + ids[1..];
  }

  lemma {:induction false} ServedAllPasses(env: Env, begin: Proc, p: Proc, r: Service, known: seq<Settlement>,
      identities: seq<Identity>, dirty: seq<string>,
                                          ids: seq<nat>, done: set<nat>, report: Report, retry: seq<string>)
    requires Assumed(env) && Identified(identities, env.setting) && ToServe(identities, ids, done)
    requires Passed(env, begin, p, known, dirty, done, report, retry)
    requires r == ServedAll(env, p, known, identities, ids, report, retry)
    ensures Passed(env, begin, r.p, known, dirty, done + (set id | id in ids), r.report, r.retry)
    decreases |ids|
  {
    if ids == [] {
      assert done + (set id | id in ids) == done;
    } else {
      var addresses := AddressesOf(identities, ids[0]);
      var t := ServedAgent(env, p, known, addresses, ids[0]);
      var more := if t.again then AddAll(retry, addresses) else retry;
      ServedNext(env, begin, p, t, known, identities, dirty, ids[0], done, report, retry, more);
      ToServeRest(identities, ids, done);
      ServedAllPasses(env, begin, t.p, r, known, identities, dirty, ids[1..], done + {ids[0]},
          Joined(report, t.report), more);
    }
  }

  lemma ServedNext(env: Env, begin: Proc, p: Proc, t: Turnout, known: seq<Settlement>, identities: seq<Identity>,
      dirty: seq<string>,
                   id: nat, done: set<nat>, report: Report, retry: seq<string>, more: seq<string>)
    requires Assumed(env) && Identified(identities, env.setting) && Resolves(identities, id) && id !in done
    requires Passed(env, begin, p, known, dirty, done, report, retry)
    requires t == ServedAgent(env, p, known, AddressesOf(identities, id), id)
    requires more == if t.again then AddAll(retry, AddressesOf(identities, id)) else retry
    ensures Passed(env, begin, t.p, known, dirty, done + {id}, Joined(report, t.report), more)
  {
    var agent := OneAddress(identities, env.setting, id);
    ServedAgentEnds(env, p, t, known, AddressesOf(identities, id), id, agent);
    PassedAgain(env, begin, p, t, known, dirty, done, report, retry, id, agent, more);
  }

  lemma {:induction false} IdsOfFacts(identities: seq<Identity>, agents: seq<string>, ids: seq<nat>)
    requires ToServe(identities, ids, {})
    ensures ToServe(identities, IdsOf(identities, agents, ids), {})
    ensures forall id :: id in ids ==> id in IdsOf(identities, agents, ids)
    ensures forall a :: a in agents && IdOf(identities, a).Some? ==>
          IdOf(identities, a).value in IdsOf(identities, agents, ids)
    decreases |agents|
  {
    if agents != [] {
      var id := IdOf(identities, agents[0]);
      var next := if id.Some? then AddOnce(ids, id.value) else ids;
      assert id.Some? ==> Resolves(identities, id.value);
      IdsOfFacts(identities, agents[1..], next);
      assert agents == [agents[0]] + agents[1..];
    }
  }

  // ------------------------------------------------------------- identities

  /** Addresses without an identity, and reads of identities that failed. */
  ghost predicate ResolveReport(report: Report, setting: Setting) {
    && report.written == []
    && (forall i :: 0 <= i < |report.skipped| ==>
          report.skipped[i].NoIdentity? && setting.identity(report.skipped[i].agent).None?)
    && (forall i :: 0 <= i < |report.failures| ==> report.failures[i] == IdentityUnread)
  }

  /** Where the reading of identities stands. */
  ghost predicate Resolving(env: Env, begin: Proc, r: Resolution, known: seq<Settlement>) {
    && Serving(env, r.p, known) && Identified(r.identities, env.setting)
    && Kept(begin.world, r.p.world, env.dryRun) && begin.clock <= r.p.clock
    && ResolveReport(r.report, env.setting)
    && (r.report.failures == [] ==> r.retry == [])
    && (r.report.failures != [] ==> Troubled(env.script, begin.clock, r.p.clock))
  }

  lemma {:induction false} RecordFacts(identities: seq<Identity>, agent: string, setting: Setting)
    requires Identified(identities, setting)
    ensures Identified(Record(identities, agent, setting.identity(agent)), setting)
    ensures Has(Record(identities, agent, setting.identity(agent)), agent)
    ensures forall a :: Has(identities, a) ==> Has(Record(identities, agent, setting.identity(agent)), a)
  {
    var recorded := Record(identities, agent, setting.identity(agent));
    if identities == [] || identities[0].agent == agent {
      assert recorded[0].agent == agent;
    } else {
      RecordFacts(identities[1..], agent, setting);
      HasTail(recorded, agent);
    }
    forall a | identities != [] && Has(identities, a)
      ensures Has(recorded, a)
    {
      HasTail(identities, a);
      HasTail(recorded, a);
    }
  }

  /** The address was resolved, or is kept for a retry. */
  ghost predicate Accounted(r: Resolution, a: string) {
    Has(r.identities, a) || a in r.retry
  }

  ghost predicate Carries(r: Resolution, n: Resolution) {
    forall a :: Accounted(r, a) ==> Accounted(n, a)
  }

  lemma ResolvedOneCarries(env: Env, r: Resolution, n: Resolution, agent: string)
    requires Identified(r.identities, env.setting) && n == ResolvedOne(env, r, agent)
    ensures Identified(n.identities, env.setting) && Accounted(n, agent) && Carries(r, n)
  {
    RecordFacts(r.identities, agent, env.setting);
  }

  lemma ResolvedOneReports(env: Env, r: Resolution, n: Resolution, agent: string)
    requires ResolveReport(r.report, env.setting) && n == ResolvedOne(env, r, agent)
    requires r.report.failures == [] ==> r.retry == []
    ensures ResolveReport(n.report, env.setting)
    ensures n.report.failures == [] ==> n.retry == []
    ensures n.report.failures != [] ==> r.report.failures != [] || Fails(env.script(r.p.clock))
  {
  }

  lemma ResolvedOneKeeps(env: Env, begin: Proc, r: Resolution, n: Resolution, agent: string, known: seq<Settlement>)
    requires Assumed(env) && Resolving(env, begin, r, known) && n == ResolvedOne(env, r, agent)
    ensures Resolving(env, begin, n, known)
  {
    AwaitedServing(env, r.p, n.p, known);
    GrowsAgain(begin.world, r.p.world, n.p.world);
    ResolvedOneCarries(env, r, n, agent);
    ResolvedOneReports(env, r, n, agent);
  }

  lemma CarriesAgain(r: Resolution, m: Resolution, n: Resolution, agent: string)
    requires Carries(r, m) && Carries(m, n) && Accounted(m, agent)
    ensures Carries(r, n) && Accounted(n, agent)
  {
  }

  lemma {:induction false} ResolvedAllCarries(env: Env, r: Resolution, n: Resolution, agents: seq<string>)
    requires Identified(r.identities, env.setting) && n == ResolvedAll(env, r, agents)
    ensures Carries(r, n) && forall a :: a in agents ==> Accounted(n, a)
    decreases |agents|
  {
    if agents != [] {
      var next := ResolvedOne(env, r, agents[0]);
      ResolvedOneCarries(env, r, next, agents[0]);
      ResolvedAllCarries(env, next, n, agents[1..]);
      CarriesAgain(r, next, n, agents[0]);
      assert agents == [agents[0]] + agents[1..];
    }
  }

  lemma {:induction false} ResolvedAllKeeps(env: Env, begin: Proc, r: Resolution, n: Resolution, agents: seq<string>,
      known: seq<Settlement>)
    requires Assumed(env) && Resolving(env, begin, r, known) && n == ResolvedAll(env, r, agents)
    ensures Resolving(env, begin, n, known)
    decreases |agents|
  {
    if agents != [] {
      var next := ResolvedOne(env, r, agents[0]);
      ResolvedOneKeeps(env, begin, r, next, agents[0], known);
      ResolvedAllKeeps(env, begin, next, n, agents[1..], known);
    }
  }

  /** With every marked address resolved, the pass over the agentIds starts with nothing done. */
  lemma ResolvedPasses(env: Env, begin: Proc, r: Resolution, known: seq<Settlement>, dirty: seq<string>)
    requires Resolving(env, begin, r, known)
    ensures Passed(env, begin, r.p, known, dirty, {}, r.report, r.retry)
  {
  }

  ghost predicate AllDone(w: World, setting: Setting, known: seq<Settlement>, dirty: seq<string>, skipped: seq<Skip>,
      retry: seq<string>) {
    forall agent :: agent in dirty ==> Done(w, setting, agent, HeldOf(known, agent), skipped, retry)
  }

  /** What a pass leaves of the Agents that were marked. */
  ghost predicate PassEnds(env: Env, begin: Proc, known: seq<Settlement>, dirty: seq<string>, p: Proc,
      report: Report, retry: seq<string>) {
    && Fine(env, p) && Kept(begin.world, p.world, env.dryRun) && begin.clock <= p.clock
    && TrueReport(report, env.setting, Since(env, begin.clock, begin.world, p))
    && (retry != [] ==> Delayed(report))
    && (!env.dryRun ==>
          OnChain(report.written, p.world) && AllDone(p.world, env.setting, known, dirty, report.skipped, retry))
  }

  /** A retry is never dropped on the way. */
  lemma {:induction false} RetriesStay(env: Env, p: Proc, r: Service, known: seq<Settlement>,
      identities: seq<Identity>, ids: seq<nat>, report: Report, retry: seq<string>)
    requires r == ServedAll(env, p, known, identities, ids, report, retry)
    ensures forall a :: a in retry ==> a in r.retry
    decreases |ids|
  {
    if ids != [] {
      var addresses := AddressesOf(identities, ids[0]);
      var t := ServedAgent(env, p, known, addresses, ids[0]);
      RetriesStay(env, t.p, r, known, identities, ids[1..], Joined(report, t.report),
          if t.again then AddAll(retry, addresses) else retry);
    }
  }

  /** Done over the agentIds that resolved, and the rest kept for a retry: every marked address is done. */
  lemma AllAreDone(env: Env, begin: Proc, p: Proc, known: seq<Settlement>, r: Resolution, dirty: seq<string>,
      ids: seq<nat>, report: Report, retry: seq<string>)
    requires Passed(env, begin, p, known, dirty, {} + (set id | id in ids), report, retry)
    requires Identified(r.identities, env.setting)
    requires (forall a :: a in dirty ==> Accounted(r, a)) && (forall a :: a in r.retry ==> a in retry)
    requires forall a :: a in dirty && IdOf(r.identities, a).Some? ==> IdOf(r.identities, a).value in ids
    ensures PassEnds(env, begin, known, dirty, p, report, retry)
  {
    forall agent | agent in dirty && !env.dryRun
      ensures Done(p.world, env.setting, agent, HeldOf(known, agent), report.skipped, retry)
    {
      IdentifiedAddress(r.identities, env.setting, agent);
    }
  }

  lemma ServedEnds(env: Env, s: State, t: State, report: Report)
    requires Assumed(env) && Serving(env, s.p, s.book.known) && Identified(s.book.identities, env.setting)
    requires (t, report) == Served(env, s)
    ensures PassEnds(env, s.p, s.book.known, s.book.dirty, t.p, report, t.book.dirty)
    ensures Identified(t.book.identities, env.setting)
    ensures t.book == s.book.(dirty := t.book.dirty, identities := t.book.identities)
  {
    var known, dirty := s.book.known, s.book.dirty;
    var first := Resolution(s.p, s.book.identities, NOTHING, []);
    var agents := WithUnresolved(dirty, known, s.book.identities);
    var r := ResolvedAll(env, first, agents);
    FollowsItself(s.p.world);
    FollowsGrows(s.p.world, s.p.world);
    ResolvedAllKeeps(env, s.p, first, r, agents, known);
    ResolvedAllCarries(env, first, r, agents);
    var ids := IdsOf(r.identities, dirty, []);
    ResolvedServedEnds(env, s.p, r, known, dirty, ids,
        ServedAll(env, r.p, known, r.identities, ids, r.report, r.retry));
  }

  lemma ResolvedServedEnds(env: Env, begin: Proc, r: Resolution, known: seq<Settlement>, dirty: seq<string>,
      ids: seq<nat>, n: Service)
    requires Assumed(env) && Resolving(env, begin, r, known)
    requires forall a :: a in dirty ==> Accounted(r, a)
    requires ids == IdsOf(r.identities, dirty, [])
        && n == ServedAll(env, r.p, known, r.identities, ids, r.report, r.retry)
    ensures PassEnds(env, begin, known, dirty, n.p, n.report, n.retry)
  {
    IdsOfFacts(r.identities, dirty, []);
    ResolvedPasses(env, begin, r, known, dirty);
    ServedAllPasses(env, begin, r.p, n, known, r.identities, dirty, ids, {}, r.report, r.retry);
    RetriesStay(env, r.p, n, known, r.identities, ids, r.report, r.retry);
    AllAreDone(env, begin, n.p, known, r, dirty, ids, n.report, n.retry);
  }

  // ------------------------------------------------------------- reading the Settlements

  /** The rows a page holds are those below a place of the ledger, downwards. */
  ghost predicate AreBelow(rows: seq<Settlement>, ledger: seq<Settlement>, from: nat) {
    |rows| <= from <= |ledger| && forall j :: 0 <= j < |rows| ==> rows[j] == ledger[from - 1 - j]
  }

  /** What a page leaves behind: nothing skipped down to where it stopped, and all it gained marked. */
  ghost predicate PageLeaves(serviceId: string, malformedAt: Option<nat>, book: Book, t: Taken,
      ledger: seq<Settlement>, bottom: int, seen: nat) {
    && Held(t.book.known, t.book.newest, ledger, serviceId) && t.book
       == book.(known := t.book.known, dirty := t.book.dirty)
    && Gained(book.known, book.dirty, t.book.known, t.book.dirty)
    && (t.end.Garbled? ==> malformedAt.Some?)
    && (!t.end.Garbled? ==>
          bottom >= 0 && Midway(t.book, t.top, ledger, if t.end.PageDone? then bottom else 0, seen, serviceId))
  }

  lemma PageLeavesAfter(serviceId: string, malformedAt: Option<nat>, book: Book, next: Book, t: Taken,
      ledger: seq<Settlement>, bottom: int, seen: nat)
    requires Gained(book.known, book.dirty, next.known, next.dirty) && next
        == book.(known := next.known, dirty := next.dirty)
    requires PageLeaves(serviceId, malformedAt, next, t, ledger, bottom, seen)
    ensures PageLeaves(serviceId, malformedAt, book, t, ledger, bottom, seen)
  {
    GainedAgain(book, next, t.book);
  }

  lemma PassedOver(book: Book, top: Option<LogPosition>, ledger: seq<Settlement>, at: nat, seen: nat, serviceId: string)
    requires at < seen && Midway(book, top, ledger, at + 1, seen, serviceId) && ledger[at].serviceId != serviceId
    ensures Midway(book, top, ledger, at, seen, serviceId)
  {
  }

  /** A page read down to its k-th row; the rest of the page leaves no gap. */
  lemma {:induction false} TakenPageReads(serviceId: string, rows: seq<Settlement>, malformedAt: Option<nat>, k: nat,
      book: Book, top: Option<LogPosition>,
                                         t: Taken, ledger: seq<Settlement>, from: nat, seen: nat)
    requires Rising(ledger) && DistinctIds(ledger) && k <= |rows| && AreBelow(rows, ledger, from)
    requires Midway(book, top, ledger, from - k, seen, serviceId)
    requires t == TakenPage(serviceId, rows, malformedAt, k, book, top)
    ensures PageLeaves(serviceId, malformedAt, book, t, ledger, from - |rows|, seen)
    decreases |rows| - k
  {
    if k < |rows| && malformedAt != Some(k) {
      var at, row := from - 1 - k, rows[k];
      if row.serviceId != serviceId {
        PassedOver(book, top, ledger, at, seen, serviceId);
        TakenPageReads(serviceId, rows, malformedAt, k + 1, book, top, t, ledger, from, seen);
      } else if book.newest.Some? && !Below(book.newest.value, row.position) {
        RestIsHeld(book.known, book.newest, ledger, serviceId, at, seen);
      } else {
        RowTaken(book, top, ledger, at, seen, serviceId);
        var next := WithRow(book, row);
        TakenPageReads(serviceId, rows, malformedAt, k + 1, next, if top.Some? then top
            else Some(row.position), t, ledger, from, seen);
        PageLeavesAfter(serviceId, malformedAt, book, next, t, ledger, from - |rows|, seen);
      }
    }
  }

  /** A pass at work: every step sound, what is held real, what is resolved right. */
  ghost predicate Good(env: Env, s: State) {
    && Fine(env, s.p)
    && Held(s.book.known, s.book.newest, s.p.world.ledger, env.setting.serviceId)
    && Identified(s.book.identities, env.setting)
  }

  lemma AwaitedGood(env: Env, s: State, p: Proc)
    requires OneAddressEach(env.setting) && Good(env, s) && p == Awaited(env, s.p)
    ensures Good(env, State(p, s.book)) && Follows(s.p.world, p.world) && Grows(s.p.world, p.world)
        && |p.world.txs| == |s.p.world.txs|
    ensures p.inFlight == s.p.inFlight && p.clock == s.p.clock + 1
  {
    AwaitedKeeps(env, s.p, p);
    HeldGrows(s.book.known, s.book.newest, s.p.world.ledger, p.world.ledger, env.setting.serviceId);
  }

  /** A pass that so far has only read: what it holds has grown, and nothing else has moved. */
  ghost predicate Underway(env: Env, begin: State, s: State) {
    && Good(env, s) && Follows(begin.p.world, s.p.world) && begin.p.clock <= s.p.clock
    && Gained(begin.book.known, begin.book.dirty, s.book.known, s.book.dirty)
    && s.book == begin.book.(known := s.book.known, dirty := s.book.dirty)
    && s.p.inFlight == begin.p.inFlight
  }

  /** Where a read stands between two pages. A read that stopped on an error failed on its last call. */
  ghost predicate Reads(env: Env, begin: State, r: Reading, seen: nat) {
    && Underway(env, begin, r.s) && begin.p.clock < r.s.p.clock
    && (r.answered ==>
          |begin.p.world.ledger| <= seen
              && Midway(r.s.book, r.top, r.s.p.world.ledger, r.next, seen, env.setting.serviceId))
    && (!r.answered ==> Troubled(env.script, begin.p.clock, r.s.p.clock))
  }

  lemma AwaitedUnderway(env: Env, begin: State, s: State, a: Proc)
    requires OneAddressEach(env.setting) && Good(env, begin) && Underway(env, begin, s) && a == Awaited(env, s.p)
    ensures Underway(env, begin, State(a, s.book)) && Follows(s.p.world, a.world) && a.clock == s.p.clock + 1
  {
    AwaitedGood(env, s, a);
    FollowsAgain(begin.p.world, s.p.world, a.world, env.setting);
  }

  lemma PageTaken(env: Env, begin: State, s: State, malformedAt: Option<nat>, top: Option<LogPosition>, bottom: int,
      seen: nat, t: Taken)
    requires Underway(env, begin, s)
        && PageLeaves(env.setting.serviceId, malformedAt, s.book, t, s.p.world.ledger, bottom, seen)
    ensures Underway(env, begin, State(s.p, t.book))
  {
    GainedAgain(begin.book, s.book, t.book);
  }

  /** A request of a read under way. The first begins at the top of what has landed. */
  lemma ReadPageReads(env: Env, begin: State, cursor: Option<nat>, s: State, top: Option<LogPosition>, seen: nat,
      r: Reading) returns (nowSeen: nat)
    requires OneAddressEach(env.setting) && Good(env, begin) && Underway(env, begin, s)
    requires cursor.None? ==> top.None?
    requires cursor.Some? ==>
          |begin.p.world.ledger| <= seen
              && Midway(s.book, top, s.p.world.ledger, cursor.value, seen, env.setting.serviceId)
    requires r == ReadPage(env, cursor, s, top)
    ensures Reads(env, begin, r, nowSeen)
  {
    var a := Awaited(env, s.p);
    AwaitedUnderway(env, begin, s, a);
    nowSeen := if cursor.None? then |a.world.ledger| else seen;
    if env.script(s.p.clock).answers {
      StartsMidway(s.book, top, cursor, s.p.world.ledger, a.world.ledger, nowSeen, env.setting.serviceId);
      AnsweredPageReads(env, begin, State(a, s.book), PageFrom(cursor, a.world.ledger), top, nowSeen, r);
    } else {
      assert Fails(env.script(s.p.clock));
    }
  }

  lemma AnsweredPageReads(env: Env, begin: State, s: State, from: nat, top: Option<LogPosition>, seen: nat, r: Reading)
    requires Underway(env, begin, s) && begin.p.clock < s.p.clock && |begin.p.world.ledger| <= seen
    requires from <= |s.p.world.ledger| && Midway(s.book, top, s.p.world.ledger, from, seen, env.setting.serviceId)
    requires
      var rows, malformedAt := PageRows(s.p.world.ledger, from), env.script(s.p.clock - 1).malformedAt;
      var t := TakenPage(env.setting.serviceId, rows, malformedAt, 0, s.book, top);
      r == Reading(State(s.p, t.book), t.top, !t.end.Garbled?, if t.end.PageDone? then from - |rows| else 0)
    ensures Reads(env, begin, r, seen)
  {
    var rows, malformedAt := PageRows(s.p.world.ledger, from), env.script(s.p.clock - 1).malformedAt;
    var t := TakenPage(env.setting.serviceId, rows, malformedAt, 0, s.book, top);
    TakenPageReads(env.setting.serviceId, rows, malformedAt, 0, s.book, top, t, s.p.world.ledger, from, seen);
    PageTaken(env, begin, s, malformedAt, top, from - |rows|, seen, t);
    assert malformedAt.Some? ==> Fails(env.script(s.p.clock - 1));
  }

  lemma StartsMidway(book: Book, top: Option<LogPosition>, cursor: Option<nat>, ledger: seq<Settlement>,
      longer: seq<Settlement>, seen: nat, serviceId: string)
    requires Held(book.known, book.newest, longer, serviceId) && ledger <= longer && Rising(longer)
    requires cursor.None? ==> top.None? && seen == |longer|
    requires cursor.Some? ==> Midway(book, top, ledger, cursor.value, seen, serviceId)
    ensures Midway(book, top, longer, PageFrom(cursor, longer), seen, serviceId)
  {
    if cursor.Some? {
      MidwayGrows(book, top, ledger, longer, cursor.value, seen, serviceId);
    } else {
      assert longer[..seen] == longer;
    }
  }

  lemma {:induction false} ReadOnReads(env: Env, begin: State, r: Reading, seen: nat, n: Reading) returns (last: nat)
    requires OneAddressEach(env.setting) && Good(env, begin) && Reads(env, begin, r, seen) && n == ReadOn(env, r)
    ensures Reads(env, begin, n, last) && (n.answered ==> n.next == 0)
    decreases r.next
  {
    last := seen;
    if r.answered && r.next > 0 {
      var next := ReadPage(env, Some(r.next), r.s, r.top);
      var more := ReadPageReads(env, begin, Some(r.next), r.s, r.top, seen, next);
      last := ReadOnReads(env, begin, next, more, n);
    }
  }

  /**
   * A read that gets to its end holds every Settlement landed before it began, and only such a read
   * moves `newest`: a failed one leaves nothing that a later read would step over.
   */
  lemma ReadNewReads(env: Env, s: State, t: State, ok: bool) returns (seen: nat)
    requires OneAddressEach(env.setting) && Good(env, s) && (t, ok) == ReadNew(env, s)
    ensures Good(env, t) && Follows(s.p.world, t.p.world) && s.p.clock < t.p.clock && t.p.inFlight == s.p.inFlight
    ensures Gained(s.book.known, s.book.dirty, t.book.known, t.book.dirty)
    ensures t.book == s.book.(known := t.book.known, dirty := t.book.dirty, newest := t.book.newest)
    ensures ok ==> |s.p.world.ledger| <= seen && Complete(t.book.known, t.p.world.ledger, seen, env.setting.serviceId)
    ensures !ok ==> t.book.newest == s.book.newest && Troubled(env.script, s.p.clock, t.p.clock)
  {
    FollowsItself(s.p.world);
    var r := ReadPage(env, None, s, None);
    seen := ReadPageReads(env, s, None, s, None, 0, r);
    var n := ReadOn(env, r);
    seen := ReadOnReads(env, s, r, seen, n);
    if n.answered {
      ReadIsComplete(n.s.book, n.top, n.s.p.world.ledger, seen, env.setting.serviceId);
    }
  }

  // ------------------------------------------------------------- a pass, and any number of them

  /** Every Agent that was due is done, for each Settlement it had made by the start. */
  ghost predicate DueDone(begin: State, recheck: bool, w: World, setting: Setting, skipped: seq<Skip>,
      retry: seq<string>) {
    forall agent :: Due(agent, begin.p.world.ledger, begin.book, recheck, setting.serviceId) ==>
      Done(w, setting, agent, Owed(begin.p.world.ledger, setting.serviceId, agent), skipped, retry)
  }

  /** What a read that got to its end knows: everything landed before it, with each gain marked. */
  ghost predicate Looked(env: Env, begin: State, recheck: bool, s: State, seen: nat) {
    && Sound(begin.p.world, env.setting) && Good(env, s) && Follows(begin.p.world, s.p.world)
    && begin.p.clock <= s.p.clock && s.p.inFlight == begin.p.inFlight && |begin.p.world.ledger| <= seen
    && Complete(s.book.known, s.p.world.ledger, seen, env.setting.serviceId)
    && Gained(begin.book.known, begin.book.dirty, s.book.known, s.book.dirty)
    && (recheck ==> forall k :: 0 <= k < |s.book.known| ==> s.book.known[k].agent in s.book.dirty)
  }

  /** A complete read and a pass over every marked address reach every Agent that was due. */
  lemma DueAreDone(env: Env, begin: State, recheck: bool, s: State, seen: nat, w: World, skipped: seq<Skip>,
      retry: seq<string>)
    requires Looked(env, begin, recheck, s, seen) && AllDone(w, env.setting, s.book.known, s.book.dirty, skipped, retry)
    ensures DueDone(begin, recheck, w, env.setting, skipped, retry)
  {
    var ledger, serviceId := begin.p.world.ledger, env.setting.serviceId;
    forall agent | Due(agent, ledger, begin.book, recheck, serviceId)
      ensures Done(w, env.setting, agent, Owed(ledger, serviceId, agent), skipped, retry)
    {
      if Owed(ledger, serviceId, agent) != [] {
        DueIsDirty(agent, ledger, begin.book, recheck, serviceId, s.p.world.ledger, s.book, seen);
        SettlementsAreOwed(s.book.known, s.p.world.ledger, seen, serviceId, agent);
        OwedGrows(ledger, s.p.world.ledger[..seen], serviceId, agent);
        assert Done(w, env.setting, agent, HeldOf(s.book.known, agent), skipped, retry);
      }
    }
  }

  /** What one pass leaves. */
  ghost predicate TickEnds(env: Env, begin: State, recheck: bool, t: State, report: Report) {
    && Good(env, t) && Kept(begin.p.world, t.p.world, env.dryRun) && begin.p.clock <= t.p.clock
    && TrueReport(report, env.setting, Since(env, begin.p.clock, begin.p.world, t.p))
    && (!env.dryRun ==> OnChain(report.written, t.p.world))
    && (|| (Cut(report) && Gained(begin.book.known, begin.book.dirty, t.book.known, t.book.dirty))
        || ((!env.dryRun ==> DueDone(begin, recheck, t.p.world, env.setting, report.skipped, t.book.dirty))
            && (t.book.dirty != [] ==> Delayed(report))))
  }

  lemma CutEnds(env: Env, begin: State, recheck: bool, t: State, failure: Failure)
    requires Good(env, t) && Follows(begin.p.world, t.p.world) && begin.p.clock <= t.p.clock
    requires failure.OperatorUnread? || failure.RegistryUnread?
    requires Troubled(env.script, begin.p.clock, t.p.clock)
    requires Gained(begin.book.known, begin.book.dirty, t.book.known, t.book.dirty)
    ensures TickEnds(env, begin, recheck, t, Report([], [], [failure]))
  {
    FollowsGrows(begin.p.world, t.p.world);
    OneFailure(failure, env.setting, Since(env, begin.p.clock, begin.p.world, t.p));
  }

  lemma ReportEarlier(env: Env, begin: Proc, p: Proc, q: Proc, report: Report)
    requires begin.clock <= p.clock && Grows(begin.world, p.world)
    requires TrueReport(report, env.setting, Since(env, p.clock, p.world, q))
    ensures TrueReport(report, env.setting, Since(env, begin.clock, begin.world, q))
  {
  }

  lemma LookedEnds(env: Env, begin: State, recheck: bool, s: State, seen: nat, t: State, report: Report)
    requires Looked(env, begin, recheck, s, seen)
        && PassEnds(env, s.p, s.book.known, s.book.dirty, t.p, report, t.book.dirty)
    requires t.book == s.book.(dirty := t.book.dirty, identities := t.book.identities)
        && Identified(t.book.identities, env.setting)
    ensures TickEnds(env, begin, recheck, t, report)
  {
    FollowsGrows(begin.p.world, s.p.world);
    GrowsAgain(begin.p.world, s.p.world, t.p.world);
    ReportEarlier(env, begin.p, s.p, t.p, report);
    HeldGrows(s.book.known, s.book.newest, s.p.world.ledger, t.p.world.ledger, env.setting.serviceId);
    if !env.dryRun {
      DueAreDone(env, begin, recheck, s, seen, t.p.world, report.skipped, t.book.dirty);
    }
  }

  lemma NothingMarked(env: Env, s: State)
    requires Fine(env, s.p) && s.book.dirty == []
    ensures PassEnds(env, s.p, s.book.known, s.book.dirty, s.p, NOTHING, s.book.dirty)
  {
  }

  /** After a read that got to its end: on a recheck everyone is marked, and the marked are served. */
  lemma MarkedEnds(env: Env, begin: State, recheck: bool, r: State, seen: nat, t: State, report: Report)
    requires Assumed(env) && Looked(env, begin, false, r, seen)
    requires var marked := State(r.p, MarkAll(recheck, r.book)); (t, report) == if marked.book.dirty == []
        then (marked, NOTHING) else Served(env, marked)
    ensures TickEnds(env, begin, recheck, t, report)
  {
    var marked := State(r.p, MarkAll(recheck, r.book));
    AllMarked(recheck, r.book);
    CompleteIsReady(begin.p.world, r.p.world, env.setting, r.book.known, seen);
    if marked.book.dirty == [] {
      NothingMarked(env, marked);
    } else {
      ServedEnds(env, marked, t, report);
    }
    LookedEnds(env, begin, recheck, marked, seen, t, report);
  }

  lemma AllMarked(recheck: bool, book: Book)
    ensures
      var marked := MarkAll(recheck, book);
      && marked == book.(dirty := marked.dirty)
      && (forall a :: a in book.dirty ==> a in marked.dirty)
      && (recheck ==> forall k :: 0 <= k < |book.known| ==> book.known[k].agent in marked.dirty)
  {
    assert forall k :: 0 <= k < |book.known| ==> Agents(book.known)[k] == book.known[k].agent;
  }

  lemma LookedAndServedEnds(env: Env, begin: State, s: State, recheck: bool, t: State, report: Report)
    requires Assumed(env) && Good(env, begin) && Underway(env, begin, State(s.p, begin.book))
        && s.book == begin.book.(ticks := s.book.ticks)
    requires (t, report) == LookedAndServed(env, s, recheck)
    ensures TickEnds(env, begin, recheck, t, report)
  {
    var from := State(s.p, if recheck then s.book.(newest := None) else s.book);
    var (r, ok) := ReadNew(env, from);
    var seen := ReadNewReads(env, from, r, ok);
    FollowsAgain(begin.p.world, s.p.world, r.p.world, env.setting);
    if ok {
      MarkedEnds(env, begin, recheck, r, seen, t, report);
    } else {
      TroubledOver(env.script, begin.p.clock, s.p.clock, r.p.clock);
      CutEnds(env, begin, recheck, t, RegistryUnread);
    }
  }

  /**
   * One pass. Whatever fails on the way, every step of it is sound, and whatever the report says
   * went wrong did. A pass that could not read keeps all it had marked. Any other pass leaves each
   * Agent that was due with an entry for every Settlement landed before it began, unless that
   * Agent holds no identity, is kept for the next pass, or is reported as refused.
   */
  lemma TickedEnds(env: Env, s: State, t: State, report: Report)
    requires Assumed(env) && Good(env, s) && (t, report) == Ticked(env, s)
    ensures TickEnds(env, s, env.recheckEvery > 0 && (s.book.ticks + 1) % env.recheckEvery == 0, t, report)
  {
    TickedEndsAt(env, s, t, report);
    IsMultipleIff(s.book.ticks + 1, env.recheckEvery);
  }

  lemma TickedEndsAt(env: Env, s: State, t: State, report: Report)
    requires Assumed(env) && Good(env, s) && (t, report) == Ticked(env, s)
    ensures TickEnds(env, s, IsMultiple(s.book.ticks + 1, env.recheckEvery), t, report)
  {
    var p := Awaited(env, s.p);
    AwaitedGood(env, s, p);
    if env.script(s.p.clock).answers {
      OperatorRead(env, s, p);
      LookedAndServedEnds(env, s, State(p, s.book.(ticks := s.book.ticks + 1)),
          IsMultiple(s.book.ticks + 1, env.recheckEvery), t, report);
    } else {
      assert Fails(env.script(s.p.clock));
      CutEnds(env, s, IsMultiple(s.book.ticks + 1, env.recheckEvery), t, OperatorUnread);
    }
  }

  lemma OperatorRead(env: Env, s: State, p: Proc)
    requires Good(env, State(p, s.book)) && Follows(s.p.world, p.world) && s.p.clock <= p.clock
        && p.inFlight == s.p.inFlight
    ensures Underway(env, s, State(p, s.book))
  {
  }

  ghost predicate Promised(env: Env, s: State, t: State, report: Report) {
    Assumed(env) && Good(env, s) ==>
      TickEnds(env, s, env.recheckEvery > 0 && (s.book.ticks + 1) % env.recheckEvery == 0, t, report)
  }

  lemma TickedPromised(env: Env, s: State, t: State, report: Report)
    requires (t, report) == Ticked(env, s)
    ensures Promised(env, s, t, report)
  {
    if Assumed(env) && Good(env, s) {
      TickedEnds(env, s, t, report);
    }
  }

  /**
   * A pass in which no call failed, after which no write is unconfirmed and none was reverted,
   * has written everything that was due, and leaves nothing for the next.
   */
  lemma QuietPassWritesAll(env: Env, s: State, t: State, report: Report)
    requires Assumed(env) && Good(env, s) && !env.dryRun && (t, report) == Ticked(env, s)
    requires forall n: nat :: s.p.clock <= n < t.p.clock ==> !Fails(env.script(n))
    requires t.p.inFlight == map[] && !RevertedSince(s.p.world, t.p.world)
    ensures report.failures == [] && t.book.dirty == [] && OnChain(report.written, t.p.world)
    ensures
      var recheck := env.recheckEvery > 0 && (s.book.ticks + 1) % env.recheckEvery == 0;
      forall agent ::
        env.setting.identity(agent).Some? && Due(agent, s.p.world.ledger, s.book, recheck, env.setting.serviceId) ==>
          Owed(s.p.world.ledger, env.setting.serviceId, agent)
          <= EntriesOf(t.p.world.entries, env.setting.identity(agent).value)
  {
    TickedEnds(env, s, t, report);
    QuietEnds(env, s, env.recheckEvery > 0 && (s.book.ticks + 1) % env.recheckEvery == 0, t, report);
  }

  lemma QuietEnds(env: Env, s: State, recheck: bool, t: State, report: Report)
    requires TickEnds(env, s, recheck, t, report) && !env.dryRun
    requires !Troubled(env.script, s.p.clock, t.p.clock) && t.p.inFlight == map[]
        && !RevertedSince(s.p.world, t.p.world)
    ensures report.failures == [] && t.book.dirty == [] && OnChain(report.written, t.p.world)
    ensures forall agent ::
          env.setting.identity(agent).Some? && Due(agent, s.p.world.ledger, s.book, recheck, env.setting.serviceId) ==>
              Owed(s.p.world.ledger, env.setting.serviceId, agent) <= EntriesOf(t.p.world.entries,
                  env.setting.identity(agent).value)
  {
    NothingToReport(report, env.setting, Since(env, s.p.clock, s.p.world, t.p));
    forall agent | env.setting.identity(agent).Some?
        && Due(agent, s.p.world.ledger, s.book, recheck, env.setting.serviceId)
      ensures Owed(s.p.world.ledger, env.setting.serviceId, agent) <= EntriesOf(t.p.world.entries,
          env.setting.identity(agent).value)
    {
      assert Done(t.p.world, env.setting, agent, Owed(s.p.world.ledger, env.setting.serviceId, agent),
          report.skipped, t.book.dirty);
      assert !GaveUp(report.skipped, env.setting.identity(agent).value);
    }
  }

  /** A fresh process is good over whatever earlier runs left on chain, so long as nothing is unmined. */
  lemma FreshIsGood(env: Env, world: World)
    requires Sound(world, env.setting)
    ensures Good(env, Fresh(world)) <==> forall h: nat :: !IsPending(world, h)
    ensures Traced(Fresh(world).p)
  {
    if Good(env, Fresh(world)) {
      forall h: nat
        ensures !IsPending(world, h)
      {
        assert Tracks(map[], world);
      }
    }
  }

  lemma TickedIsGood(env: Env, s: State, t: State)
    requires Assumed(env) && Good(env, s) && t == Ticked(env, s).0
    ensures Good(env, t)
  {
    TickedEnds(env, s, t, Ticked(env, s).1);
  }

  lemma {:induction false} RunIsGood(env: Env, s: State, passes: nat, t: State)
    requires Assumed(env) && Good(env, s) && t == RunOf(env, s, passes)
    ensures Good(env, t)
    decreases passes
  {
    if passes > 0 {
      var r := RunOf(env, s, passes - 1);
      RunIsGood(env, s, passes - 1, r);
      TickedIsGood(env, r, t);
    }
  }

  /**
   * Every recheckEvery-th pass of a process looks at every Agent again, marked or not. If it gets
   * to read, then afterwards each Agent with an identity has an entry for every Settlement landed
   * before the pass, or is kept for the next, or is reported as refused; nobody stays given up on.
   */
  lemma RecheckReachesEveryone(env: Env, world: World, passes: nat, s: State, t: State, report: Report)
    requires Assumed(env) && !env.dryRun && Sound(world, env.setting) && forall h: nat :: !IsPending(world, h)
    requires env.recheckEvery > 0 && (passes + 1) % env.recheckEvery == 0
    requires s == RunOf(env, Fresh(world), passes) && (t, report) == Ticked(env, s)
    ensures EveryoneDone(env, s, t, report)
  {
    RunStartsGood(env, world, passes, s);
    RecheckPass(env, s, t, report);
  }

  lemma RunStartsGood(env: Env, world: World, passes: nat, s: State)
    requires Assumed(env) && Sound(world, env.setting) && forall h: nat :: !IsPending(world, h)
    requires s == RunOf(env, Fresh(world), passes)
    ensures Good(env, s) && s.book.ticks == passes
  {
    FreshIsGood(env, world);
    RunIsGood(env, Fresh(world), passes, s);
  }

  lemma RecheckPass(env: Env, s: State, t: State, report: Report)
    requires Assumed(env) && Good(env, s) && !env.dryRun && (t, report) == Ticked(env, s)
    requires env.recheckEvery > 0 && (s.book.ticks + 1) % env.recheckEvery == 0
    ensures EveryoneDone(env, s, t, report)
  {
    TickedEnds(env, s, t, report);
    RecheckEnds(env, s, t, report);
  }

  /** The pass was cut before it looked, or has every Agent done for what had landed before it. */
  ghost predicate EveryoneDone(env: Env, s: State, t: State, report: Report) {
    || Cut(report)
    || forall agent ::
        Done(t.p.world, env.setting, agent, Owed(s.p.world.ledger, env.setting.serviceId, agent), report.skipped,
            t.book.dirty)
  }

  lemma RecheckEnds(env: Env, s: State, t: State, report: Report)
    requires TickEnds(env, s, true, t, report) && !env.dryRun
    ensures EveryoneDone(env, s, t, report)
  {
    if !Cut(report) {
      forall agent
        ensures Done(t.p.world, env.setting, agent, Owed(s.p.world.ledger, env.setting.serviceId, agent),
            report.skipped, t.book.dirty)
      {
        assert Due(agent, s.p.world.ledger, s.book, true, env.setting.serviceId);
      }
    }
  }

  /** Of every step of a run from a good state. */
  lemma RunIsSound(env: Env, s: State, passes: nat, t: State)
    requires Assumed(env) && Good(env, s) && t == RunOf(env, s, passes)
    ensures forall i :: 0 <= i < |t.p.moments| ==> Prefixed(t.p.moments[i], env.setting) && OneEntryEach(t.p.moments[i])
  {
    RunIsGood(env, s, passes, t);
    forall i | 0 <= i < |t.p.moments|
      ensures Prefixed(t.p.moments[i], env.setting) && OneEntryEach(t.p.moments[i])
    {
      AtMostOneEntryEach(t.p.moments[i], env.setting);
    }
  }

  /**
   * Any number of passes, whatever fails and whatever happens in between, so long as no send is
   * lost: at every step each Agent's entries are a prefix of its Settlements in chain order, and
   * no Settlement has two. The steps are all there: they begin with the world the process began
   * in, end in the present one, and neighbours differ by one event or one send.
   */
  lemma RunIsSafe(env: Env, world: World, passes: nat)
    requires Assumed(env) && Sound(world, env.setting) && forall h: nat :: !IsPending(world, h)
    ensures
      var p := RunOf(env, Fresh(world), passes).p;
      && p.moments != [] && p.moments[0] == world && Traced(p)
      && forall i :: 0 <= i < |p.moments| ==> Prefixed(p.moments[i], env.setting) && OneEntryEach(p.moments[i])
  {
    FreshIsGood(env, world);
    RunIsSound(env, Fresh(world), passes, RunOf(env, Fresh(world), passes));
    assert [world] <= RunOf(env, Fresh(world), passes).p.moments;
  }
}
