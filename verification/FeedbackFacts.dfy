/**
 * What the feedback writer's pass turns on, one fact at a time (apps/gateway/src/reputation.ts):
 * what a report may say, what a read holds, how entries and Settlements of an Agent compare, and
 * which writes are in flight.
 */
module FeedbackFacts {
  import opened Wrappers
  import opened Cursor
  import opened Reputation
  import opened Feedback

  // ------------------------------------------------------------- why a report says what it says

  predicate Fails(turn: Turn) {
    !turn.answers || turn.malformedAt.Some?
  }

  /** Some call of a stretch failed. */
  ghost predicate Troubled(script: nat -> Turn, from: nat, to: nat) {
    exists n: nat :: from <= n < to && Fails(script(n))
  }

  /** Some transaction sent since was reverted. */
  ghost predicate RevertedSince(start: World, w: World) {
    exists h: nat :: |start.txs| <= h < |w.txs| && w.txs[h].status == Reverted
  }

  /** What went wrong: a call failed, writes are held unconfirmed, a write was reverted. */
  datatype Evidence = Evidence(troubled: bool, unconfirmed: set<nat>, reverted: bool)

  /** What has gone wrong since a call and a world. */
  ghost function Since(env: Env, from: nat, start: World, p: Proc): Evidence {
    Evidence(Troubled(env.script, from, p.clock), p.inFlight.Keys, RevertedSince(start, p.world))
  }

  predicate TrueSkip(skip: Skip, setting: Setting, e: Evidence) {
    match skip
    case NoIdentity(agent) => setting.identity(agent).None?
    case NotMined(id) => e.troubled || id in e.unconfirmed
    case CountAbove(_) => false
    case RegistryRefuses(_) => e.troubled
  }

  predicate TrueFailure(failure: Failure, e: Evidence) {
    match failure
    case Unconfirmed(id) => e.troubled || id in e.unconfirmed
    case WriteReverted => e.reverted
    case _ => e.troubled
  }

  ghost predicate TrueReport(report: Report, setting: Setting, e: Evidence) {
    && (forall i :: 0 <= i < |report.skipped| ==> TrueSkip(report.skipped[i], setting, e))
    && (forall i :: 0 <= i < |report.failures| ==> TrueFailure(report.failures[i], e))
  }

  /** The unconfirmed writes a report names are of these agentIds. */
  ghost predicate About(report: Report, ids: set<nat>) {
    && (forall i :: 0 <= i < |report.skipped| ==> report.skipped[i].NotMined? ==> report.skipped[i].agentId in ids)
    && (forall i :: 0 <= i < |report.failures| ==> report.failures[i].Unconfirmed? ==>
          report.failures[i].agentId in ids)
  }

  predicate TrueOutcome(outcome: Outcome, agentId: nat, e: Evidence) {
    match outcome
    case Written => true
    case Refused => e.troubled
    case Failed(f) => TrueFailure(f, e) && (f.Unconfirmed? ==> f.agentId == agentId)
  }

  /** Evidence only mounts, but for writes of other agentIds. */
  predicate Mounts(e: Evidence, f: Evidence, ids: set<nat>) {
    && (e.troubled ==> f.troubled)
    && e.unconfirmed * ids <= f.unconfirmed
    && (e.reverted ==> f.reverted)
  }

  lemma TrueAgain(report: Report, setting: Setting, e: Evidence, f: Evidence, ids: set<nat>)
    requires TrueReport(report, setting, e) && About(report, ids) && Mounts(e, f, ids)
    ensures TrueReport(report, setting, f)
  {
  }

  lemma TrueBoth(a: Report, b: Report, setting: Setting, e: Evidence, ids: set<nat>, more: set<nat>)
    requires TrueReport(a, setting, e) && TrueReport(b, setting, e) && About(a, ids) && About(b, more)
    ensures TrueReport(Joined(a, b), setting, e) && About(Joined(a, b), ids + more)
  {
  }

  lemma OneFailure(failure: Failure, setting: Setting, e: Evidence)
    requires TrueFailure(failure, e)
    ensures TrueReport(Report([], [], [failure]), setting, e)
  {
  }

  /** The agentId is left alone, as the registry refuses it. */
  predicate GaveUp(skipped: seq<Skip>, agentId: nat) {
    RegistryRefuses(agentId) in skipped
  }

  /** Something that a later tick tries again. */
  predicate Delayed(report: Report) {
    report.failures != [] || exists i :: 0 <= i < |report.skipped| && report.skipped[i].NotMined?
  }

  /** The pass ended before it looked at any Agent. */
  predicate Cut(report: Report) {
    report == Report([], [], [OperatorUnread]) || report == Report([], [], [RegistryUnread])
  }

  lemma DelayedBoth(a: Report, b: Report)
    requires Delayed(a) || Delayed(b)
    ensures Delayed(Joined(a, b))
  {
    var both := a.skipped + b.skipped;
    if i :| 0 <= i < |a.skipped| && a.skipped[i].NotMined? {
      assert both[i].NotMined?;
    } else if j :| 0 <= j < |b.skipped| && b.skipped[j].NotMined? {
      assert both[|a.skipped| + j].NotMined?;
    }
  }

  lemma NoTrueFailure(failure: Failure, e: Evidence)
    requires !e.troubled && e.unconfirmed == {} && !e.reverted
    ensures !TrueFailure(failure, e)
  {
  }

  /** With nothing in evidence, nothing failed and only Agents without an identity were skipped. */
  lemma NothingToReport(report: Report, setting: Setting, e: Evidence)
    requires TrueReport(report, setting, e) && !e.troubled && e.unconfirmed == {} && !e.reverted
    ensures report.failures == []
    ensures forall i :: 0 <= i < |report.skipped| ==> report.skipped[i].NoIdentity?
    ensures !Delayed(report)
  {
    if report.failures != [] {
      NoTrueFailure(report.failures[0], e);
    }
    forall i | 0 <= i < |report.skipped|
      ensures report.skipped[i].NoIdentity?
    {
      assert TrueSkip(report.skipped[i], setting, e);
    }
  }

  lemma TroubledOver(script: nat -> Turn, from: nat, middle: nat, to: nat)
    requires from <= middle && Troubled(script, middle, to)
    ensures Troubled(script, from, to)
  {
  }

  // ------------------------------------------------------------- the rows held

  /** Own Settlements at places [from, to) of the ledger are held. */
  ghost predicate Swept(known: seq<Settlement>, ledger: seq<Settlement>, from: nat, to: nat, serviceId: string) {
    to <= |ledger| && forall i :: from <= i < to && ledger[i].serviceId == serviceId ==> ledger[i] in known
  }

  /** `position` is that of one of the first `n` Settlements. */
  ghost predicate Marks(position: Option<LogPosition>, n: nat, ledger: seq<Settlement>) {
    position.Some? ==> n <= |ledger| && exists i :: 0 <= i < n && ledger[i].position == position.value
  }

  /** Held rows are real, once each, and nothing at or below `newest` is missing. */
  ghost predicate Held(known: seq<Settlement>, newest: Option<LogPosition>, ledger: seq<Settlement>,
      serviceId: string) {
    && DistinctIds(known)
    && (forall r :: r in known ==> r in ledger && r.serviceId == serviceId)
    && Marks(newest, |ledger|, ledger)
    && (newest.Some? ==>
          forall i :: 0 <= i < |ledger| && ledger[i].serviceId == serviceId ==>
            !Below(newest.value, ledger[i].position) ==> ledger[i] in known)
  }

  /** Exactly the own Settlements among the first `seen`. */
  ghost predicate Complete(known: seq<Settlement>, ledger: seq<Settlement>, seen: nat, serviceId: string) {
    && seen <= |ledger|
    && forall r :: r in known <==> r in ledger[..seen] && r.serviceId == serviceId
  }

  lemma HeldGrows(known: seq<Settlement>, newest: Option<LogPosition>, ledger: seq<Settlement>,
      longer: seq<Settlement>, serviceId: string)
    requires Held(known, newest, ledger, serviceId) && ledger <= longer && Rising(longer)
    ensures Held(known, newest, longer, serviceId)
  {
    if newest.Some? {
      var at :| 0 <= at < |ledger| && ledger[at].position == newest.value;
      assert longer[at].position == newest.value;
      assert forall i :: |ledger| <= i < |longer| ==> Below(longer[at].position, longer[i].position);
    }
  }

  /** Every row gained marks its address. */
  ghost predicate Gained(known: seq<Settlement>, dirty: seq<string>, more: seq<Settlement>, dirtier: seq<string>) {
    && known <= more
    && (forall a :: a in dirty ==> a in dirtier)
    && forall k :: |known| <= k < |more| ==> more[k].agent in dirtier
  }

  lemma GainedAgain(a: Book, b: Book, c: Book)
    requires Gained(a.known, a.dirty, b.known, b.dirty) && Gained(b.known, b.dirty, c.known, c.dirty)
    ensures Gained(a.known, a.dirty, c.known, c.dirty)
  {
  }

  /** Nothing above `seen` is held, and nothing between `from` and it is missing. */
  ghost predicate ReadTo(known: seq<Settlement>, ledger: seq<Settlement>, from: nat, seen: nat, serviceId: string) {
    && from <= seen
    && Swept(known, ledger, from, seen, serviceId)
    && forall r :: r in known ==> r in ledger[..seen]
  }

  /** How far a read has come: down to `from`, from a point past all that had landed at its start. */
  ghost predicate Midway(book: Book, top: Option<LogPosition>, ledger: seq<Settlement>, from: nat, seen: nat,
      serviceId: string) {
    && Held(book.known, book.newest, ledger, serviceId)
    && ReadTo(book.known, ledger, from, seen, serviceId)
    && Marks(top, seen, ledger)
  }

  lemma MidwayGrows(book: Book, top: Option<LogPosition>, ledger: seq<Settlement>, longer: seq<Settlement>,
      from: nat, seen: nat, serviceId: string)
    requires Midway(book, top, ledger, from, seen, serviceId) && ledger <= longer && Rising(longer)
    ensures Midway(book, top, longer, from, seen, serviceId)
  {
    HeldGrows(book.known, book.newest, ledger, longer, serviceId);
    if top.Some? {
      var i :| 0 <= i < seen && ledger[i].position == top.value;
      assert longer[i].position == top.value;
    }
    assert ledger[..seen] == longer[..seen];
  }

  /** An own row is held after it is taken, and its position may head the read. */
  lemma RowTaken(book: Book, top: Option<LogPosition>, ledger: seq<Settlement>, at: nat, seen: nat, serviceId: string)
    requires DistinctIds(ledger) && at < seen && Midway(book, top, ledger, at + 1, seen, serviceId)
    requires ledger[at].serviceId == serviceId
    ensures Midway(WithRow(book, ledger[at]), if top.Some? then top else Some(ledger[at].position), ledger, at, seen,
        serviceId)
    ensures Gained(book.known, book.dirty, WithRow(book, ledger[at]).known, WithRow(book, ledger[at]).dirty)
  {
    RowHeld(book, ledger, at, serviceId);
    assert ledger[..seen][at] == ledger[at];
  }

  lemma RowHeld(book: Book, ledger: seq<Settlement>, at: nat, serviceId: string)
    requires DistinctIds(ledger) && Held(book.known, book.newest, ledger, serviceId)
    requires at < |ledger| && ledger[at].serviceId == serviceId
    ensures Held(WithRow(book, ledger[at]).known, book.newest, ledger, serviceId)
    ensures ledger[at] in WithRow(book, ledger[at]).known
  {
  }

  /** Rows at or below `newest` are all held, so the read may stop at the first of them. */
  lemma RestIsHeld(known: seq<Settlement>, newest: Option<LogPosition>, ledger: seq<Settlement>, serviceId: string,
      at: nat, seen: nat)
    requires Rising(ledger) && Held(known, newest, ledger, serviceId)
    requires at < seen && Swept(known, ledger, at + 1, seen, serviceId)
    requires newest.Some? && !Below(newest.value, ledger[at].position)
    ensures Swept(known, ledger, 0, seen, serviceId)
  {
    forall i | 0 <= i <= at && ledger[i].serviceId == serviceId
      ensures ledger[i] in known
    {
      assert i < at ==> Below(ledger[i].position, ledger[at].position);
    }
  }

  /** A read down to the first row holds everything, and may move `newest` to its top. */
  lemma ReadIsComplete(book: Book, top: Option<LogPosition>, ledger: seq<Settlement>, seen: nat, serviceId: string)
    requires Rising(ledger) && Midway(book, top, ledger, 0, seen, serviceId)
    ensures Complete(book.known, ledger, seen, serviceId)
    ensures top.Some? ==> Held(book.known, top, ledger, serviceId)
  {
    if top.Some? {
      var at :| 0 <= at < seen && ledger[at].position == top.value;
      assert forall i :: at < i < |ledger| ==> Below(ledger[at].position, ledger[i].position);
    }
    forall r | r in ledger[..seen] && r.serviceId == serviceId
      ensures r in book.known
    {
      var i :| 0 <= i < seen && ledger[i] == r;
    }
  }

  // ------------------------------------------------------------- one agent's Settlements

  ghost predicate DistinctPositions(rows: seq<Settlement>) {
    forall i, j :: 0 <= i < j < |rows| ==> rows[i].position != rows[j].position
  }

  lemma {:induction false} FromFacts(known: seq<Settlement>, addresses: seq<string>)
    requires DistinctPositions(known)
    ensures DistinctPositions(From(known, addresses))
    ensures forall r :: r in From(known, addresses) <==> r in known && r.agent in addresses
  {
    if known != [] {
      var rest := From(known[1..], addresses);
      FromFacts(known[1..], addresses);
      assert forall r :: r in known <==> r == known[0] || r in known[1..];
      forall i | 0 <= i < |rest|
        ensures rest[i].position != known[0].position
      {
        assert rest[i] in known[1..];
        var j :| 0 <= j < |known[1..]| && known[1..][j] == rest[i];
        assert known[j + 1] == rest[i];
      }
    }
  }

  lemma {:induction false} InsertFacts(r: Settlement, rows: seq<Settlement>)
    requires Rising(rows)
    requires forall q :: q in rows ==> q.position != r.position
    ensures Rising(Insert(r, rows))
    ensures forall q :: q in Insert(r, rows) <==> q == r || q in rows
  {
    if rows != [] && !Below(r.position, rows[0].position) {
      var rest := Insert(r, rows[1..]);
      InsertFacts(r, rows[1..]);
      assert forall q :: q in rows <==> q == rows[0] || q in rows[1..];
      assert rows[0] in rows;
      forall i | 0 <= i < |rest|
        ensures Below(rows[0].position, rest[i].position)
      {
        assert rest[i] in rest;
      }
    }
  }

  lemma {:induction false} SortFacts(rows: seq<Settlement>)
    requires DistinctPositions(rows)
    ensures Rising(InChainOrder(rows))
    ensures forall r :: r in InChainOrder(rows) <==> r in rows
  {
    if rows != [] {
      SortFacts(rows[1..]);
      forall q | q in InChainOrder(rows[1..])
        ensures q.position != rows[0].position
      {
        var j :| 0 <= j < |rows[1..]| && rows[1..][j] == q;
        assert rows[j + 1] == q;
      }
      InsertFacts(rows[0], InChainOrder(rows[1..]));
      assert forall r :: r in rows <==> r == rows[0] || r in rows[1..];
    }
  }

  lemma HeldPositionsDiffer(known: seq<Settlement>, ledger: seq<Settlement>)
    requires Rising(ledger) && DistinctIds(known)
    requires forall r :: r in known ==> r in ledger
    ensures DistinctPositions(known)
  {
    forall i, j | 0 <= i < j < |known|
      ensures known[i].position != known[j].position
    {
      assert known[i] in ledger && known[j] in ledger;
      var a :| 0 <= a < |ledger| && ledger[a] == known[i];
      var b :| 0 <= b < |ledger| && ledger[b] == known[j];
      assert a != b;
    }
  }

  /** What the writer sorts for an address. */
  function HeldOf(known: seq<Settlement>, agent: string): seq<Settlement> {
    InChainOrder(From(known, [agent]))
  }

  /** After a complete read, what the writer sorts for an address is what the ledger owes it. */
  lemma SettlementsAreOwed(known: seq<Settlement>, ledger: seq<Settlement>, seen: nat, serviceId: string, agent: string)
    requires Rising(ledger) && DistinctIds(known) && Complete(known, ledger, seen, serviceId)
    ensures HeldOf(known, agent) == Owed(ledger[..seen], serviceId, agent)
  {
    HeldPositionsDiffer(known, ledger);
    FromFacts(known, [agent]);
    SortFacts(From(known, [agent]));
    OwedFacts(ledger[..seen], serviceId, agent);
    RisingIsUnique(HeldOf(known, agent), Owed(ledger[..seen], serviceId, agent));
  }

  /** For every address, what the writer sorts is a prefix of what the ledger owes it. */
  ghost predicate InStep(known: seq<Settlement>, ledger: seq<Settlement>, serviceId: string) {
    forall agent :: HeldOf(known, agent) <= Owed(ledger, serviceId, agent)
  }

  lemma CompleteInStep(known: seq<Settlement>, ledger: seq<Settlement>, seen: nat, serviceId: string)
    requires Rising(ledger) && DistinctIds(known) && Complete(known, ledger, seen, serviceId)
    ensures InStep(known, ledger, serviceId)
  {
    forall agent
      ensures HeldOf(known, agent) <= Owed(ledger, serviceId, agent)
    {
      SettlementsAreOwed(known, ledger, seen, serviceId, agent);
      OwedGrows(ledger[..seen], ledger, serviceId, agent);
    }
  }

  lemma InStepGrows(known: seq<Settlement>, ledger: seq<Settlement>, longer: seq<Settlement>, serviceId: string)
    requires InStep(known, ledger, serviceId) && ledger <= longer
    ensures InStep(known, longer, serviceId)
  {
    forall agent
      ensures HeldOf(known, agent) <= Owed(longer, serviceId, agent)
    {
      OwedGrows(ledger, longer, serviceId, agent);
    }
  }

  /** The Agents a pass has to look at: those already marked, those with a Settlement not yet held, or everyone. */
  ghost predicate Due(agent: string, ledger: seq<Settlement>, book: Book, recheck: bool, serviceId: string) {
    recheck || agent in book.dirty || exists r :: r in Owed(ledger, serviceId, agent) && r !in book.known
  }

  /** A complete read marks every Agent that is due and owed anything. */
  lemma DueIsDirty(agent: string, ledger: seq<Settlement>, before: Book, recheck: bool, serviceId: string,
      longer: seq<Settlement>, after: Book, seen: nat)
    requires Rising(ledger) && Due(agent, ledger, before, recheck, serviceId)
    requires ledger <= longer && |ledger| <= seen && Complete(after.known, longer, seen, serviceId)
    requires Gained(before.known, before.dirty, after.known, after.dirty)
    requires recheck ==> forall k :: 0 <= k < |after.known| ==> after.known[k].agent in after.dirty
    requires Owed(ledger, serviceId, agent) != []
    ensures agent in after.dirty
  {
    OwedFacts(ledger, serviceId, agent);
    var r := Owed(ledger, serviceId, agent)[0];
    if agent !in before.dirty && !recheck {
      r :| r in Owed(ledger, serviceId, agent) && r !in before.known;
    }
    assert r in Owed(ledger, serviceId, agent) && r in ledger;
    var i :| 0 <= i < |ledger| && ledger[i] == r;
    assert longer[..seen][i] == r;
    var k :| 0 <= k < |after.known| && after.known[k] == r;
  }

  // ------------------------------------------------------------- no more entries than Settlements

  /** An agentId has at most n entries, the one being mined included. */
  ghost predicate RoomAt(w: World, agentId: nat, n: nat) {
    && |EntriesOf(w.entries, agentId)| <= n
    && (|EntriesOf(w.entries, agentId)| == n ==> NonePending(w, agentId))
  }

  /** Every Agent has room for its entries among these Settlements. */
  ghost predicate RoomIn(w: World, setting: Setting, ledger: seq<Settlement>) {
    forall agent :: setting.identity(agent).Some? ==>
        RoomAt(w, setting.identity(agent).value, |Owed(ledger, setting.serviceId, agent)|)
  }

  /** Every Agent's held Settlements are its first ones, and it has no entry past them. */
  ghost predicate Ready(w: World, setting: Setting, known: seq<Settlement>) {
    && InStep(known, w.ledger, setting.serviceId)
    && forall agent :: setting.identity(agent).Some? ==>
          RoomAt(w, setting.identity(agent).value, |HeldOf(known, agent)|)
  }

  lemma SoundHasRoom(w: World, setting: Setting)
    requires Sound(w, setting) && OneAddressEach(setting)
    ensures RoomIn(w, setting, w.ledger)
  {
  }

  lemma RoomFollows(w: World, v: World, setting: Setting, agentId: nat, n: nat)
    requires PendingAreNext(w, setting) && Follows(w, v) && RoomAt(w, agentId, n)
    ensures RoomAt(v, agentId, n)
  {
  }

  lemma ReadyFollows(w: World, v: World, setting: Setting, known: seq<Settlement>)
    requires PendingAreNext(w, setting) && Follows(w, v) && Ready(w, setting, known)
    ensures Ready(v, setting, known)
  {
    InStepGrows(known, w.ledger, v.ledger, setting.serviceId);
    forall agent | setting.identity(agent).Some?
      ensures RoomAt(v, setting.identity(agent).value, |HeldOf(known, agent)|)
    {
      RoomFollows(w, v, setting, setting.identity(agent).value, |HeldOf(known, agent)|);
    }
  }

  lemma ReadySend(w: World, setting: Setting, known: seq<Settlement>, agentId: nat, s: Settlement)
    requires OneAddressEach(setting) && Ready(w, setting, known) && setting.identity(s.agent) == Some(agentId)
    requires |EntriesOf(w.entries, agentId)| < |HeldOf(known, s.agent)|
    ensures Ready(Send(w, agentId, s), setting, known)
  {
  }

  /** Entries made before a complete read began are entries for Settlements it holds. */
  lemma CompleteIsReady(start: World, w: World, setting: Setting, known: seq<Settlement>, seen: nat)
    requires Sound(start, setting) && OneAddressEach(setting) && Follows(start, w) && Rising(w.ledger)
    requires DistinctIds(known) && Complete(known, w.ledger, seen, setting.serviceId) && |start.ledger| <= seen
    ensures Ready(w, setting, known)
  {
    CompleteInStep(known, w.ledger, seen, setting.serviceId);
    SoundHasRoom(start, setting);
    forall agent | setting.identity(agent).Some?
      ensures RoomAt(w, setting.identity(agent).value, |HeldOf(known, agent)|)
    {
      var id := setting.identity(agent).value;
      RoomFollows(start, w, setting, id, |Owed(start.ledger, setting.serviceId, agent)|);
      SettlementsAreOwed(known, w.ledger, seen, setting.serviceId, agent);
      OwedGrows(start.ledger, w.ledger[..seen], setting.serviceId, agent);
    }
  }

  // ------------------------------------------------------------- the writes in flight

  /** Every unmined transaction is held in memory under its agentId. */
  ghost predicate Tracks(inFlight: map<nat, nat>, w: World) {
    && (forall id :: id in inFlight ==> inFlight[id] < |w.txs|)
    && (forall h: nat :: IsPending(w, h) ==> w.txs[h].agentId in inFlight && inFlight[w.txs[h].agentId] == h)
  }

  lemma TracksAgain(inFlight: map<nat, nat>, w: World, v: World)
    requires Tracks(inFlight, w) && Follows(w, v)
    ensures Tracks(inFlight, v)
  {
  }

  /** Entries and Settlements are never taken back. */
  ghost predicate Grows(w: World, v: World) {
    && w.ledger <= v.ledger
    && (forall id: nat :: EntriesOf(w.entries, id) <= EntriesOf(v.entries, id))
    && |w.txs| <= |v.txs|
    && (forall h: nat :: h < |w.txs| && w.txs[h].status != Pending ==> v.txs[h] == w.txs[h])
  }

  lemma FollowsGrows(w: World, v: World)
    requires Follows(w, v)
    ensures Grows(w, v)
  {
  }

  lemma GrowsAgain(u: World, v: World, w: World)
    requires Grows(u, v) && Grows(v, w)
    ensures Grows(u, w)
  {
  }

  /** Only one agentId's write was touched. */
  ghost predicate OnlyOf(agentId: nat, before: map<nat, nat>, after: map<nat, nat>) {
    forall id :: id != agentId ==> (id in before <==> id in after)
  }

  /** Nothing taken back; and in a dry run, nothing sent. */
  ghost predicate Kept(start: World, w: World, dryRun: bool) {
    Grows(start, w) && (dryRun ==> |w.txs| == |start.txs|)
  }

  lemma KeptAgain(u: World, v: World, w: World, dryRun: bool)
    requires Kept(u, v, dryRun) && Kept(v, w, dryRun)
    ensures Kept(u, w, dryRun)
  {
    GrowsAgain(u, v, w);
  }

  lemma FollowsItself(w: World)
    ensures Follows(w, w)
  {
  }

  lemma SendGrows(w: World, agentId: nat, s: Settlement)
    ensures Grows(w, Send(w, agentId, s))
  {
  }

  /** With nothing unmined for an agent, no event moves its next entry. */
  lemma NextAgain(w: World, v: World, setting: Setting, agentId: nat, s: Settlement)
    requires IsNext(w, setting, agentId, s) && NonePending(w, agentId) && Follows(w, v)
    ensures IsNext(v, setting, agentId, s) && NonePending(v, agentId)
  {
    OwedGrows(w.ledger, v.ledger, setting.serviceId, s.agent);
  }

  lemma SendTracks(inFlight: map<nat, nat>, w: World, agentId: nat, s: Settlement)
    requires Tracks(inFlight, w) && NonePending(w, agentId)
    ensures Tracks(inFlight[agentId := |w.txs|], Send(w, agentId, s))
  {
  }

  lemma TracksWithout(inFlight: map<nat, nat>, w: World, agentId: nat)
    requires Tracks(inFlight, w) && NonePending(w, agentId)
    ensures Tracks(inFlight - {agentId}, w)
  {
  }

  /** A held write that has a receipt was the only one its agentId could have had unmined. */
  lemma TrackedIsMined(inFlight: map<nat, nat>, w: World, agentId: nat)
    requires Tracks(inFlight, w) && (agentId in inFlight ==> StatusOf(w, inFlight[agentId]) != Pending)
    ensures NonePending(w, agentId)
  {
  }

  /** A write that was answered: mined, alone, and counted if it succeeded. */
  lemma AnsweredWrite(w: World, v: World, setting: Setting, agentId: nat, s: Settlement)
    requires Sound(Send(w, agentId, s), setting) && Follows(Send(w, agentId, s), v) && !IsPending(v, |w.txs|)
    ensures |w.txs| < |v.txs| && NonePending(v, agentId)
    ensures v.txs[|w.txs|].status == Succeeded ==> EntriesOf(v.entries, agentId) == EntriesOf(w.entries, agentId) + [s]
  {
  }
}
