/**
 * The feedback writer as functions (apps/gateway/src/reputation.ts:415-730). Every call it makes
 * is a turn of a script: first events happen in the world, then the call answers truthfully or
 * fails. Nothing is assumed of the script or of the state here. Each world a run passes through
 * is kept in `moments`, and `Leads` says that no step of it is left out.
 */
module Feedback {
  import opened Wrappers
  import opened Cursor
  import opened Reputation
  import opened Sums

  const PAGE_SIZE: nat := 200

  /**
   * One call: what happens before it returns, whether it answers, a row it may garble, and for a
   * send that does not answer, whether the node had taken the transaction all the same.
   */
  datatype Turn = Turn(events: seq<Event>, answers: bool, taken: bool, malformedAt: Option<nat>)

  datatype Env = Env(setting: Setting, script: nat -> Turn, recheckEvery: nat, dryRun: bool)

  datatype Skip =
    | NoIdentity(agent: string) | NotMined(agentId: nat) | CountAbove(agentId: nat) | RegistryRefuses(agentId: nat)
  datatype Failure =
    | OperatorUnread | RegistryUnread | IdentityUnread | CountUnread | DocumentUnread | SubmissionFailed
    | Unconfirmed(agentId: nat) | WriteReverted
  datatype Outcome = Written | Refused | Failed(failure: Failure)

  datatype Report = Report(written: seq<Entry>, skipped: seq<Skip>, failures: seq<Failure>)

  const NOTHING := Report([], [], [])

  function Joined(a: Report, b: Report): Report {
    Report(a.written + b.written, a.skipped + b.skipped, a.failures + b.failures)
  }

  /** What every call may move: the script's clock, the world, and the writes held unconfirmed. */
  datatype Proc = Proc(clock: nat, world: World, moments: seq<World>, inFlight: map<nat, nat>)

  datatype Identity = Identity(agent: string, id: Option<nat>)

  /** What the writer keeps between passes. Sets and maps are lists in the order of insertion. */
  datatype Book = Book(known: seq<Settlement>, newest: Option<LogPosition>, dirty: seq<string>,
      identities: seq<Identity>, ticks: nat)

  datatype State = State(p: Proc, book: Book)

  /** A fresh process. */
  function Fresh(world: World): State {
    State(Proc(0, world, [world], map[]), Book([], None, [], [], 0))
  }

  // ------------------------------------------------------------- steps of the world

  datatype Move = Happened(event: Event) | Sent(agentId: nat, settlement: Settlement)

  function Moved(w: World, m: Move): World {
    match m
    case Happened(e) => Happen(w, e)
    case Sent(agentId, s) => Send(w, agentId, s)
  }

  ghost predicate OneStep(w: World, v: World) {
    exists m :: v == Moved(w, m)
  }

  /** The moments end in the present, and neighbours differ by one event or one send. */
  ghost predicate Traced(p: Proc) {
    && p.moments != [] && p.moments[|p.moments| - 1] == p.world
    && forall i :: 0 <= i < |p.moments| - 1 ==> OneStep(p.moments[i], p.moments[i + 1])
  }

  /** From one state of the process to a later one, every moment between them kept. */
  ghost predicate Leads(p: Proc, q: Proc) {
    p.clock <= q.clock && p.moments <= q.moments && (Traced(p) ==> Traced(q))
  }

  function Step(p: Proc, m: Move): (q: Proc)
    ensures Leads(p, q)
  {
    var q := p.(world := Moved(p.world, m), moments := p.moments + [Moved(p.world, m)]);
    assert Traced(p) ==> OneStep(p.world, q.world);
    q
  }

  function Passing(p: Proc, events: seq<Event>): (q: Proc)
    ensures Leads(p, q)
    decreases |events|
  {
    if events == [] then p else Passing(Step(p, Happened(events[0])), events[1..])
  }

  /** One call: the world moves on, event by event, before it returns. */
  function Awaited(env: Env, p: Proc): (q: Proc)
    ensures Leads(p, q)
  {
    Passing(p.(clock := p.clock + 1), env.script(p.clock).events)
  }

  // ------------------------------------------------------------- one entry

  /** The document, the simulation and the estimate. */
  function Prepared(env: Env, p: Proc): (r: (Proc, Outcome))
    ensures Leads(p, r.0)
  {
    var a := Awaited(env, p);
    if !env.script(p.clock).answers then (a, Failed(DocumentUnread))
    else
      var b := Awaited(env, a);
      if !env.script(a.clock).answers then (b, Refused) else (Awaited(env, b), Written)
  }

  /** What a node says of a hash: one it does not know has no receipt either. */
  function StatusOf(w: World, hash: nat): Status {
    if hash < |w.txs| then w.txs[hash].status else Pending
  }

  function Confirmed(env: Env, p: Proc, agentId: nat, hash: nat): (r: (Proc, Outcome))
    ensures Leads(p, r.0)
  {
    var a := Awaited(env, p);
    if !env.script(p.clock).answers || StatusOf(a.world, hash) == Pending then (a, Failed(Unconfirmed(agentId)))
    else (a.(inFlight := a.inFlight - {agentId}), if StatusOf(a.world, hash) == Succeeded then Written
        else Failed(WriteReverted))
  }

  /** The node has the transaction; its hash is held only when the send returned it. */
  function Dispatched(p: Proc, agentId: nat, s: Settlement): (q: Proc)
    ensures Leads(p, q)
  {
    var q := Step(p, Sent(agentId, s));
    q.(inFlight := p.inFlight[agentId := |p.world.txs|])
  }

  function Submitted(env: Env, p: Proc, agentId: nat, s: Settlement): (r: (Proc, Outcome))
    ensures Leads(p, r.0)
  {
    var a := Awaited(env, p);
    if env.script(p.clock).answers then Confirmed(env, Dispatched(a, agentId, s), agentId, |a.world.txs|)
    else if env.script(p.clock).taken then (Step(a, Sent(agentId, s)), Failed(SubmissionFailed))
    else (a, Failed(SubmissionFailed))
  }

  /** `Written` means on chain, or in a dry run that it would be. */
  function WroteOne(env: Env, p: Proc, agentId: nat, s: Settlement): (r: (Proc, Outcome))
    ensures Leads(p, r.0)
  {
    var (a, outcome) := Prepared(env, p);
    if !outcome.Written? || env.dryRun then (a, outcome) else Submitted(env, a, agentId, s)
  }

  // ------------------------------------------------------------- one agentId

  datatype Wrote = Wrote(p: Proc, written: seq<Entry>, last: Outcome)

  /** The Settlements from place i on, in order, up to the first that is not written. */
  function WroteRest(env: Env, p: Proc, agentId: nat, rows: seq<Settlement>, i: nat, written: seq<Entry>): (r: Wrote)
    requires i <= |rows|
    ensures Leads(p, r.p)
    decreases |rows| - i
  {
    if i == |rows| then Wrote(p, written, Written)
    else
      var (a, outcome) := WroteOne(env, p, agentId, rows[i]);
      if !outcome.Written? then Wrote(a, written, outcome)
      else WroteRest(env, a, agentId, rows, i + 1, written + [Entry(agentId, rows[i])])
  }

  function ReportOf(agentId: nat, written: seq<Entry>, outcome: Outcome): Report {
    match outcome
    case Written => Report(written, [], [])
    case Refused => Report(written, [RegistryRefuses(agentId)], [])
    case Failed(failure) => Report(written, [], [failure])
  }

  /** What serving an agentId leaves: its report, and whether it is kept for a retry. */
  datatype Turnout = Turnout(p: Proc, report: Report, again: bool)

  function CountedAndWrote(env: Env, p: Proc, agentId: nat, rows: seq<Settlement>): (r: Turnout)
    ensures Leads(p, r.p)
  {
    var a := Awaited(env, p);
    var count := |EntriesOf(a.world.entries, agentId)|;
    if !env.script(p.clock).answers then Turnout(a, Report([], [], [CountUnread]), true)
    else if count > |rows| then Turnout(a, Report([], [CountAbove(agentId)], []), false)
    else
      var w := WroteRest(env, a, agentId, rows, count, []);
      Turnout(w.p, ReportOf(agentId, w.written, w.last), w.last.Failed?)
  }

  /** An earlier write is asked for its receipt, and forgotten once it has one. */
  function SettledInFlight(env: Env, p: Proc, agentId: nat): (r: (Proc, bool))
    ensures Leads(p, r.0)
  {
    if agentId !in p.inFlight then (p, true)
    else
      var a := Awaited(env, p);
      if !env.script(p.clock).answers || StatusOf(a.world, p.inFlight[agentId]) == Pending then (a, false)
      else (a.(inFlight := a.inFlight - {agentId}), true)
  }

  /** The held Settlements of some addresses. */
  function From(known: seq<Settlement>, addresses: seq<string>): seq<Settlement> {
    if known == [] then []
    else (if known[0].agent in addresses then [known[0]] else []) + From(known[1..], addresses)
  }

  function Insert(r: Settlement, rows: seq<Settlement>): seq<Settlement> {
    if rows == [] || Below(r.position, rows[0].position) then [r] + rows
    else [rows[0]] + Insert(r, rows[1..])
  }

  function InChainOrder(rows: seq<Settlement>): seq<Settlement> {
    if rows == [] then [] else Insert(rows[0], InChainOrder(rows[1..]))
  }

  function AddressesOf(identities: seq<Identity>, agentId: nat): seq<string> {
    if identities == [] then []
    else
      (if identities[0].id == Some(agentId) then [identities[0].agent] else []) + AddressesOf(identities[1..], agentId)
  }

  function ServedAgent(env: Env, p: Proc, known: seq<Settlement>, addresses: seq<string>, agentId: nat): (r: Turnout)
    ensures Leads(p, r.p)
  {
    var (a, clear) := SettledInFlight(env, p, agentId);
    if !clear then Turnout(a, Report([], [NotMined(agentId)], []), true)
    else CountedAndWrote(env, a, agentId, InChainOrder(From(known, addresses)))
  }

  // ------------------------------------------------------------- one pass over the marked Agents

  function AddOnce<T(==, !new)>(s: seq<T>, x: T): (r: seq<T>)
    ensures forall y :: y in r <==> y in s || y == x
  {
    if x in s then s else s + [x]
  }

  function AddAll<T(==, !new)>(s: seq<T>, more: seq<T>): (r: seq<T>)
    ensures forall y :: y in r <==> y in s || y in more
    decreases |more|
  {
    if more == [] then s else AddAll(AddOnce(s, more[0]), more[1..])
  }

  datatype Service = Service(p: Proc, report: Report, retry: seq<string>)

  function ServedAll(env: Env, p: Proc, known: seq<Settlement>, identities: seq<Identity>, ids: seq<nat>,
      report: Report, retry: seq<string>): (r: Service)
    ensures Leads(p, r.p)
    decreases |ids|
  {
    if ids == [] then Service(p, report, retry)
    else
      var addresses := AddressesOf(identities, ids[0]);
      var t := ServedAgent(env, p, known, addresses, ids[0]);
      ServedAll(env, t.p, known, identities, ids[1..], Joined(report, t.report),
          if t.again then AddAll(retry, addresses) else retry)
  }

  predicate Has(identities: seq<Identity>, agent: string) {
    exists i :: 0 <= i < |identities| && identities[i].agent == agent
  }

  function Record(identities: seq<Identity>, agent: string, id: Option<nat>): seq<Identity> {
    if identities == [] then [Identity(agent, id)]
    else if identities[0].agent == agent then [Identity(agent, id)] + identities[1..]
    else [identities[0]] + Record(identities[1..], agent, id)
  }

  datatype Resolution = Resolution(p: Proc, identities: seq<Identity>, report: Report, retry: seq<string>)

  /** Each address resolved afresh; one that cannot be read is kept for the next pass. */
  function ResolvedAll(env: Env, r: Resolution, agents: seq<string>): (n: Resolution)
    ensures Leads(r.p, n.p)
    decreases |agents|
  {
    if agents == [] then r else ResolvedAll(env, ResolvedOne(env, r, agents[0]), agents[1..])
  }

  function ResolvedOne(env: Env, r: Resolution, agent: string): (n: Resolution)
    ensures Leads(r.p, n.p)
  {
    var a := Awaited(env, r.p);
    var id := env.setting.identity(agent);
    if !env.script(r.p.clock).answers then
      Resolution(a, r.identities, Joined(r.report, Report([], [], [IdentityUnread])), AddOnce(r.retry, agent))
    else
      Resolution(a, Record(r.identities, agent, id),
          if id.None? then Joined(r.report, Report([], [NoIdentity(agent)], [])) else r.report, r.retry)
  }

  /** The addresses of held Settlements that were never resolved, after those already listed. */
  function WithUnresolved(agents: seq<string>, known: seq<Settlement>, identities: seq<Identity>): (r: seq<string>)
    ensures forall a :: a in r <==> a in agents || (a in Agents(known) && !Has(identities, a))
    decreases |known|
  {
    if known == [] then agents
    else
      assert Agents(known) == [known[0].agent] + Agents(known[1..]);
      WithUnresolved(if Has(identities, known[0].agent) then agents else AddOnce(agents, known[0].agent), known[1..],
          identities)
  }

  function Agents(known: seq<Settlement>): seq<string> {
    seq(|known|, i requires 0 <= i < |known| => known[i].agent)
  }

  function IdOf(identities: seq<Identity>, agent: string): Option<nat> {
    if identities == [] then None
    else if identities[0].agent == agent then identities[0].id
    else IdOf(identities[1..], agent)
  }

  /** The agentIds of some addresses, each once. */
  function IdsOf(identities: seq<Identity>, agents: seq<string>, ids: seq<nat>): seq<nat>
    decreases |agents|
  {
    if agents == [] then ids
    else
      var id := IdOf(identities, agents[0]);
      IdsOf(identities, agents[1..], if id.Some? then AddOnce(ids, id.value) else ids)
  }

  /** Identities resolved, then every agentId of a marked address served. */
  function Served(env: Env, s: State): (r: (State, Report))
    ensures Leads(s.p, r.0.p) && r.0.book.ticks == s.book.ticks
  {
    var agents := WithUnresolved(s.book.dirty, s.book.known, s.book.identities);
    var resolved := ResolvedAll(env, Resolution(s.p, s.book.identities, NOTHING, []), agents);
    var ids := IdsOf(resolved.identities, s.book.dirty, []);
    var served := ServedAll(env, resolved.p, s.book.known, resolved.identities, ids, resolved.report, resolved.retry);
    (State(served.p, s.book.(dirty := served.retry, identities := resolved.identities)), served.report)
  }

  // ------------------------------------------------------------- reading the Settlements

  predicate HasId(known: seq<Settlement>, id: string) {
    exists i :: 0 <= i < |known| && known[i].id == id
  }

  datatype PageEnd = Garbled | ReachedKnown | PageDone
  datatype Taken = Taken(end: PageEnd, book: Book, top: Option<LogPosition>)

  /** One own row: kept, and its address marked, unless its id is already held. */
  function WithRow(book: Book, row: Settlement): Book {
    if HasId(book.known, row.id) then book
    else book.(known := book.known + [row], dirty := AddOnce(book.dirty, row.agent))
  }

  /** The rows of one page from the k-th on, until one is garbled or already known. */
  function TakenPage(serviceId: string, rows: seq<Settlement>, malformedAt: Option<nat>, k: nat, book: Book,
      top: Option<LogPosition>): (t: Taken)
    requires k <= |rows|
    ensures t.book.ticks == book.ticks
    decreases |rows| - k
  {
    if k == |rows| then Taken(PageDone, book, top)
    else if malformedAt == Some(k) then Taken(Garbled, book, top)
    else if rows[k].serviceId != serviceId then TakenPage(serviceId, rows, malformedAt, k + 1, book, top)
    else if book.newest.Some? && !Below(book.newest.value, rows[k].position) then Taken(ReachedKnown, book, top)
    else TakenPage(serviceId, rows, malformedAt, k + 1, WithRow(book, rows[k]), if top.Some? then top
        else Some(rows[k].position))
  }

  /** A page, newest first, of the rows below a cursor. */
  function PageRows(ledger: seq<Settlement>, from: nat): seq<Settlement>
    requires from <= |ledger|
  {
    seq(if from < PAGE_SIZE then from else PAGE_SIZE, k requires 0 <= k < from => ledger[from - 1 - k])
  }

  /** A read between two requests. `next` is the cursor the last page left, 0 at the end. */
  datatype Reading = Reading(s: State, top: Option<LogPosition>, answered: bool, next: nat)

  function PageFrom(cursor: Option<nat>, ledger: seq<Settlement>): nat {
    if cursor.None? || |ledger| < cursor.value then |ledger| else cursor.value
  }

  function ReadPage(env: Env, cursor: Option<nat>, s: State, top: Option<LogPosition>): (r: Reading)
    ensures Leads(s.p, r.s.p) && r.s.book.ticks == s.book.ticks
    ensures cursor.Some? && cursor.value > 0 ==> r.next < cursor.value
  {
    var a := Awaited(env, s.p);
    if !env.script(s.p.clock).answers then Reading(State(a, s.book), top, false, 0)
    else
      var from := PageFrom(cursor, a.world.ledger);
      var rows := PageRows(a.world.ledger, from);
      var t := TakenPage(env.setting.serviceId, rows, env.script(s.p.clock).malformedAt, 0, s.book, top);
      Reading(State(a, t.book), t.top, !t.end.Garbled?, if t.end.PageDone? then from - |rows| else 0)
  }

  function ReadOn(env: Env, r: Reading): (n: Reading)
    ensures Leads(r.s.p, n.s.p) && n.s.book.ticks == r.s.book.ticks
    decreases r.next
  {
    if r.answered && r.next > 0 then ReadOn(env, ReadPage(env, Some(r.next), r.s, r.top)) else r
  }

  /** Newest first, a page at a time, to what is already held. Only a finished read moves `newest`. */
  function ReadNew(env: Env, s: State): (r: (State, bool))
    ensures Leads(s.p, r.0.p) && r.0.book.ticks == s.book.ticks
  {
    var n := ReadOn(env, ReadPage(env, None, s, None));
    (State(n.s.p, if n.answered && n.top.Some? then n.s.book.(newest := n.top) else n.s.book), n.answered)
  }

  // ------------------------------------------------------------- one pass, and any number

  /** n % d === 0, which is never so for d = 0, counted down a step at a time. */
  predicate IsMultiple(n: nat, d: nat) {
    d > 0 && (n == 0 || (d <= n && IsMultiple(n - d, d)))
  }

  lemma {:induction false} IsMultipleIff(n: nat, d: nat)
    ensures IsMultiple(n, d) <==> d > 0 && n % d == 0
  {
    if 0 < d <= n {
      IsMultipleIff(n - d, d);
      SameRemainder(n, d);
    }
  }

  lemma SameRemainder(n: nat, d: nat)
    requires 0 < d <= n
    ensures (n - d) % d == n % d
  {
    var q, p := n / d, (n - d) / d;
    assert n == d * q + n % d && n - d == d * p + (n - d) % d;
    if p < q - 1 {
      MulMonotone(d, p + 2, q);
    } else if q - 1 < p {
      MulMonotone(d, q, p);
    }
  }

  function MarkAll(recheck: bool, book: Book): Book {
    if recheck then book.(dirty := AddAll(book.dirty, Agents(book.known))) else book
  }

  function LookedAndServed(env: Env, s: State, recheck: bool): (r: (State, Report))
    ensures Leads(s.p, r.0.p) && r.0.book.ticks == s.book.ticks
  {
    var (t, ok) := ReadNew(env, State(s.p, if recheck then s.book.(newest := None) else s.book));
    if !ok then (t, Report([], [], [RegistryUnread]))
    else
      var marked := State(t.p, MarkAll(recheck, t.book));
      if marked.book.dirty == [] then (marked, NOTHING) else Served(env, marked)
  }

  function Ticked(env: Env, s: State): (r: (State, Report))
    ensures Leads(s.p, r.0.p) && r.0.book.ticks == s.book.ticks + 1
  {
    var a := State(Awaited(env, s.p), s.book.(ticks := s.book.ticks + 1));
    if !env.script(s.p.clock).answers then (a, Report([], [], [OperatorUnread]))
    else LookedAndServed(env, a, IsMultiple(a.book.ticks, env.recheckEvery))
  }

  function RunOf(env: Env, s: State, passes: nat): (t: State)
    ensures Leads(s.p, t.p) && t.book.ticks == s.book.ticks + passes
    decreases passes
  {
    if passes == 0 then s else Ticked(env, RunOf(env, s, passes - 1)).0
  }
}
