/**
 * The feedback writer's world (apps/gateway/src/reputation.ts:41-58): a list of Settlements that
 * only grows at its end, the operator's transactions, and the feedback entries they leave on
 * chain. Between any two steps of the writer, Settlements land and transactions are mined in any
 * order; what no order of events may break is `Prefixed`.
 */
module Reputation {
  import opened Wrappers
  import opened Cursor

  datatype Settlement = Settlement(id: string, agent: string, serviceId: string, position: LogPosition)

  datatype Status = Pending | Succeeded | Reverted
  /** A giveFeedback transaction. Its hash is its place in `World.txs`. */
  datatype Tx = Tx(agentId: nat, settlement: Settlement, status: Status)
  datatype Entry = Entry(agentId: nat, settlement: Settlement)
  datatype World = World(ledger: seq<Settlement>, txs: seq<Tx>, entries: seq<Entry>)

  /** The Service whose Settlements are rated, and the agentId each address resolves to. */
  datatype Setting = Setting(serviceId: string, identity: string -> Option<nat>)

  /** One address per agentId. */
  ghost predicate OneAddressEach(setting: Setting) {
    forall a, b :: setting.identity(a).Some? && setting.identity(a) == setting.identity(b) ==> a == b
  }

  // ------------------------------------------------------------- the ledger

  /** Strictly rising in chain order. */
  predicate Rising(rows: seq<Settlement>) {
    forall i, j :: 0 <= i < j < |rows| ==> Below(rows[i].position, rows[j].position)
  }

  predicate DistinctIds(rows: seq<Settlement>) {
    forall i, j :: 0 <= i < j < |rows| ==> rows[i].id != rows[j].id
  }

  /** The Settlements an address made to the Service, in chain order: what it is owed entries for. */
  function Owed(ledger: seq<Settlement>, serviceId: string, agent: string): seq<Settlement> {
    if ledger == [] then []
    else
      var last := ledger[|ledger| - 1];
      Owed(ledger[..|ledger| - 1], serviceId, agent) + if last.serviceId == serviceId
          && last.agent == agent then [last] else []
  }

  lemma {:induction false} OwedFacts(ledger: seq<Settlement>, serviceId: string, agent: string)
    requires Rising(ledger)
    ensures Rising(Owed(ledger, serviceId, agent))
    ensures forall r :: r in Owed(ledger, serviceId, agent) <==>
          r in ledger && r.serviceId == serviceId && r.agent == agent
  {
    if ledger != [] {
      var rest, last := ledger[..|ledger| - 1], ledger[|ledger| - 1];
      OwedFacts(rest, serviceId, agent);
      assert ledger == rest + [last];
      var owed := Owed(rest, serviceId, agent);
      forall i | 0 <= i < |owed|
        ensures Below(owed[i].position, last.position)
      {
        assert owed[i] in rest;
      }
    }
  }

  lemma {:induction false} OwedGrows(ledger: seq<Settlement>, longer: seq<Settlement>, serviceId: string, agent: string)
    requires ledger <= longer
    ensures Owed(ledger, serviceId, agent) <= Owed(longer, serviceId, agent)
    decreases |longer|
  {
    if ledger != longer {
      OwedGrows(ledger, longer[..|longer| - 1], serviceId, agent);
    }
  }

  lemma SameFirst(a: seq<Settlement>, b: seq<Settlement>)
    requires Rising(a) && Rising(b) && a != [] && b != []
    requires a[0] in b && b[0] in a
    ensures a[0] == b[0]
  {
  }

  lemma HasFirst(a: seq<Settlement>)
    ensures a != [] ==> exists r :: r in a
  {
    if a != [] {
      assert a[0] in a;
    }
  }

  /** Chain order leaves nothing open: the same Settlements in order are the same list. */
  lemma {:induction false} RisingIsUnique(a: seq<Settlement>, b: seq<Settlement>)
    requires Rising(a) && Rising(b)
    requires forall r :: r in a <==> r in b
    ensures a == b
  {
    HasFirst(a);
    HasFirst(b);
    if a != [] && b != [] {
      SameFirst(a, b);
      forall r
        ensures r in a[1..] <==> r in b[1..]
      {
        assert r in a <==> r == a[0] || r in a[1..];
        assert r in b <==> r == b[0] || r in b[1..];
      }
      RisingIsUnique(a[1..], b[1..]);
    }
  }

  // ------------------------------------------------------------- the world's own steps

  function EntriesOf(entries: seq<Entry>, agentId: nat): seq<Settlement> {
    if entries == [] then []
    else
      var last := entries[|entries| - 1];
      EntriesOf(entries[..|entries| - 1], agentId) + if last.agentId == agentId then [last.settlement] else []
  }

  /** Each entry of the agentId, in order, and no other. */
  lemma EntriesAppend(entries: seq<Entry>, e: Entry, agentId: nat)
    ensures EntriesOf([], agentId) == []
    ensures EntriesOf(entries + [e], agentId)
         == EntriesOf(entries, agentId) + if e.agentId == agentId then [e.settlement] else []
  {
    assert (entries + [e])[..|entries|] == entries;
  }

  datatype Event = Landed(settlement: Settlement) | Mined(hash: nat, succeeds: bool)

  /** A Settlement lands above every earlier one and under an id of its own. */
  predicate CanLand(ledger: seq<Settlement>, s: Settlement) {
    Rising(ledger + [s]) && DistinctIds(ledger + [s])
  }

  function Happen(w: World, e: Event): World {
    match e
    case Landed(s) => if CanLand(w.ledger, s) then w.(ledger := w.ledger + [s]) else w
    case Mined(hash, succeeds) =>
      if hash < |w.txs| && w.txs[hash].status == Pending then
        var tx := w.txs[hash];
        w.(txs := w.txs[hash := tx.(status := if succeeds then Succeeded else Reverted)],
           entries := if succeeds then w.entries + [Entry(tx.agentId, tx.settlement)] else w.entries)
      else w
  }

  function Send(w: World, agentId: nat, s: Settlement): World {
    w.(txs := w.txs + [Tx(agentId, s, Pending)])
  }

  // ------------------------------------------------------------- what must hold at every step

  /** The safety property: each Agent's entries are a prefix of its Settlements in chain order. */
  ghost predicate Prefixed(w: World, setting: Setting) {
    && (forall agent :: setting.identity(agent).Some? ==>
          EntriesOf(w.entries, setting.identity(agent).value) <= Owed(w.ledger, setting.serviceId, agent))
    && (forall i :: 0 <= i < |w.entries| ==>
          setting.identity(w.entries[i].settlement.agent) == Some(w.entries[i].agentId))
  }

  ghost predicate IsPending(w: World, hash: nat) {
    hash < |w.txs| && w.txs[hash].status == Pending
  }

  ghost predicate NonePending(w: World, agentId: nat) {
    forall h: nat :: IsPending(w, h) ==> w.txs[h].agentId != agentId
  }

  /** The Settlement that comes after the agent's entries. */
  ghost predicate IsNext(w: World, setting: Setting, agentId: nat, s: Settlement) {
    && setting.identity(s.agent) == Some(agentId)
    && EntriesOf(w.entries, agentId) + [s] <= Owed(w.ledger, setting.serviceId, s.agent)
  }

  /** Every unmined transaction writes its agent's next entry, and no agent has two. */
  ghost predicate PendingAreNext(w: World, setting: Setting) {
    && (forall h: nat :: IsPending(w, h) ==> IsNext(w, setting, w.txs[h].agentId, w.txs[h].settlement))
    && (forall g: nat, h: nat :: IsPending(w, g) && IsPending(w, h) && w.txs[g].agentId == w.txs[h].agentId ==> g == h)
  }

  ghost predicate SucceededAreEntries(w: World) {
    forall h: nat :: h < |w.txs| && w.txs[h].status == Succeeded ==>
        w.txs[h].settlement in EntriesOf(w.entries, w.txs[h].agentId)
  }

  ghost predicate Sound(w: World, setting: Setting) {
    && Rising(w.ledger)
    && DistinctIds(w.ledger)
    && Prefixed(w, setting)
    && PendingAreNext(w, setting)
    && SucceededAreEntries(w)
  }

  /** What the writer can rely on across events it does not see. */
  ghost predicate Follows(w: World, v: World) {
    && w.ledger <= v.ledger
    && |w.txs| == |v.txs|
    && (forall h: nat :: h < |w.txs| ==> v.txs[h] == w.txs[h].(status := v.txs[h].status))
    && (forall h: nat :: h < |w.txs| && w.txs[h].status != Pending ==> v.txs[h] == w.txs[h])
    && (forall h: nat :: IsPending(w, h) ==>
          EntriesOf(v.entries, w.txs[h].agentId) == EntriesOf(w.entries, w.txs[h].agentId) + Settled(v, h))
    && (forall id: nat :: NonePending(w, id) ==>
          NonePending(v, id) && EntriesOf(v.entries, id) == EntriesOf(w.entries, id))
  }

  /** What a transaction has added to its agent's entries. */
  function Settled(w: World, hash: nat): seq<Settlement>
    requires hash < |w.txs|
  {
    if w.txs[hash].status == Succeeded then [w.txs[hash].settlement] else []
  }

  lemma FollowsAgain(u: World, v: World, w: World, setting: Setting)
    requires PendingAreNext(u, setting)
    requires Follows(u, v) && Follows(v, w)
    ensures Follows(u, w)
  {
  }

  lemma LandingIsSound(w: World, s: Settlement, setting: Setting)
    requires Sound(w, setting) && CanLand(w.ledger, s)
    ensures Sound(w.(ledger := w.ledger + [s]), setting)
    ensures Follows(w, w.(ledger := w.ledger + [s]))
  {
  }

  /** Mining a transaction of an agent settles its next entry, or leaves everything as it was. */
  lemma EntryAdded(entries: seq<Entry>, e: Entry, agentId: nat)
    ensures EntriesOf(entries + [e], agentId) == EntriesOf(entries, agentId) + if e.agentId == agentId
        then [e.settlement] else []
  {
  }

  lemma MiningFollows(w: World, hash: nat, succeeds: bool, setting: Setting)
    requires PendingAreNext(w, setting) && IsPending(w, hash)
    ensures Follows(w, Happen(w, Mined(hash, succeeds)))
  {
  }

  lemma MiningIsPrefixed(w: World, hash: nat, succeeds: bool, setting: Setting)
    requires Sound(w, setting) && OneAddressEach(setting) && IsPending(w, hash)
    ensures Prefixed(Happen(w, Mined(hash, succeeds)), setting)
  {
    var v, tx := Happen(w, Mined(hash, succeeds)), w.txs[hash];
    assert IsNext(w, setting, tx.agentId, tx.settlement);
    forall agent | setting.identity(agent).Some?
      ensures EntriesOf(v.entries, setting.identity(agent).value) <= Owed(v.ledger, setting.serviceId, agent)
    {
      EntryAdded(w.entries, Entry(tx.agentId, tx.settlement), setting.identity(agent).value);
    }
  }

  lemma MiningKeepsNext(w: World, hash: nat, succeeds: bool, setting: Setting)
    requires Sound(w, setting) && IsPending(w, hash)
    ensures PendingAreNext(Happen(w, Mined(hash, succeeds)), setting)
  {
    var v, tx := Happen(w, Mined(hash, succeeds)), w.txs[hash];
    assert forall h: nat :: IsPending(v, h) <==> IsPending(w, h) && h != hash;
    forall h: nat | IsPending(v, h)
      ensures IsNext(v, setting, v.txs[h].agentId, v.txs[h].settlement)
    {
      assert w.txs[h].agentId != tx.agentId;
      EntryAdded(w.entries, Entry(tx.agentId, tx.settlement), w.txs[h].agentId);
      assert IsNext(w, setting, w.txs[h].agentId, w.txs[h].settlement);
    }
  }

  lemma MiningIsSound(w: World, hash: nat, succeeds: bool, setting: Setting)
    requires Sound(w, setting) && OneAddressEach(setting) && IsPending(w, hash)
    ensures Sound(Happen(w, Mined(hash, succeeds)), setting)
  {
    var v, tx := Happen(w, Mined(hash, succeeds)), w.txs[hash];
    MiningIsPrefixed(w, hash, succeeds, setting);
    MiningKeepsNext(w, hash, succeeds, setting);
    forall h: nat | h < |v.txs| && v.txs[h].status == Succeeded
      ensures v.txs[h].settlement in EntriesOf(v.entries, v.txs[h].agentId)
    {
      EntryAdded(w.entries, Entry(tx.agentId, tx.settlement), v.txs[h].agentId);
    }
  }

  /** No event breaks the property, whatever its order: only a send could. */
  lemma EventIsSound(w: World, e: Event, setting: Setting)
    requires Sound(w, setting) && OneAddressEach(setting)
    ensures Sound(Happen(w, e), setting)
    ensures Follows(w, Happen(w, e))
  {
    match e
    case Landed(s) =>
      if CanLand(w.ledger, s) {
        LandingIsSound(w, s, setting);
      }
    case Mined(hash, succeeds) =>
      if IsPending(w, hash) {
        MiningFollows(w, hash, succeeds, setting);
        MiningIsSound(w, hash, succeeds, setting);
      }
  }

  /** A send keeps everything exactly when it writes the next entry and none is unmined. */
  lemma SendIsSound(w: World, agentId: nat, s: Settlement, setting: Setting)
    requires Sound(w, setting)
    ensures Sound(Send(w, agentId, s), setting) <==> IsNext(w, setting, agentId, s) && NonePending(w, agentId)
  {
    var v := Send(w, agentId, s);
    assert IsPending(v, |w.txs|);
    assert forall h: nat :: IsPending(v, h) <==> IsPending(w, h) || h == |w.txs|;
    forall h: nat | IsPending(w, h)
      ensures v.txs[h] == w.txs[h] && IsPending(v, h)
    {
    }
    assert v.ledger == w.ledger && v.entries == w.entries;
    if IsNext(w, setting, agentId, s) && NonePending(w, agentId) {
      assert forall h: nat :: IsPending(w, h) ==> IsNext(w, setting, w.txs[h].agentId, w.txs[h].settlement);
    }
  }

  ghost predicate OneEntryEach(w: World) {
    forall i, j :: 0 <= i < j < |w.entries| ==> w.entries[i].settlement.id != w.entries[j].settlement.id
  }

  /** At a sound step no Settlement has two entries, under any agentId. */
  lemma AtMostOneEntryEach(w: World, setting: Setting)
    requires Sound(w, setting)
    ensures OneEntryEach(w)
  {
    forall i, j | 0 <= i < j < |w.entries|
      ensures w.entries[i].settlement.id != w.entries[j].settlement.id
    {
      EntriesDiffer(w, setting, i, j);
    }
  }

  /** Where an agent's entry sits among that agent's entries. */
  lemma {:induction false} EntryPlace(entries: seq<Entry>, i: nat)
    requires i < |entries|
    ensures
      var id := entries[i].agentId;
      var k := |EntriesOf(entries[..i], id)|;
      k < |EntriesOf(entries, id)| && EntriesOf(entries, id)[k] == entries[i].settlement
  {
    var rest := entries[..|entries| - 1];
    if i < |entries| - 1 {
      assert rest[..i] == entries[..i];
      EntryPlace(rest, i);
    }
  }

  lemma EntriesDiffer(w: World, setting: Setting, i: nat, j: nat)
    requires Sound(w, setting) && i < j < |w.entries|
    ensures w.entries[i].settlement.id != w.entries[j].settlement.id
  {
    var a, b := w.entries[i], w.entries[j];
    EntryOwed(w, setting, i);
    EntryOwed(w, setting, j);
    var p, q := |EntriesOf(w.entries[..i], a.agentId)|, |EntriesOf(w.entries[..j], b.agentId)|;
    assert a.agentId == b.agentId ==> p < q by {
      assert w.entries[..j][..i] == w.entries[..i];
      EntryPlace(w.entries[..j], i);
    }
    var owed := Owed(w.ledger, setting.serviceId, a.settlement.agent);
    assert forall x, y :: 0 <= x < y < |owed| ==> owed[x] != owed[y];
    assert a.settlement != b.settlement;
  }

  lemma EntryOwed(w: World, setting: Setting, i: nat)
    requires Sound(w, setting) && i < |w.entries|
    ensures
      var e := w.entries[i];
      var k, owed := |EntriesOf(w.entries[..i], e.agentId)|, Owed(w.ledger, setting.serviceId, e.settlement.agent);
      && setting.identity(e.settlement.agent) == Some(e.agentId)
      && e.settlement in w.ledger
      && k < |owed| && owed[k] == e.settlement
      && Rising(owed)
  {
    var agent := w.entries[i].settlement.agent;
    EntryPlace(w.entries, i);
    OwedFacts(w.ledger, setting.serviceId, agent);
    assert w.entries[i].settlement in Owed(w.ledger, setting.serviceId, agent);
  }

  /** The same write sent twice and both mined leaves two entries. */
  lemma BothMinedEntries(w: World, agentId: nat, s: Settlement)
    ensures
      var sent := Send(Send(w, agentId, s), agentId, s);
      var twice := Happen(Happen(sent, Mined(|w.txs|, true)), Mined(|w.txs| + 1, true));
      twice.ledger == w.ledger && EntriesOf(twice.entries, agentId) == EntriesOf(w.entries, agentId) + [s] + [s]
  {
    var sent := Send(Send(w, agentId, s), agentId, s);
    var once := Happen(sent, Mined(|w.txs|, true));
    assert once.entries == w.entries + [Entry(agentId, s)] && once.txs[|w.txs| + 1] == Tx(agentId, s, Pending);
    EntryAdded(w.entries, Entry(agentId, s), agentId);
    EntryAdded(once.entries, Entry(agentId, s), agentId);
  }

  /** Why an unmined write is never sent again: the same next entry, sent twice and mined twice, is a duplicate. */
  lemma SecondSendDuplicates(w: World, agentId: nat, s: Settlement, setting: Setting)
    requires Sound(w, setting) && IsNext(w, setting, agentId, s)
    ensures
      var sent := Send(Send(w, agentId, s), agentId, s);
      !Prefixed(Happen(Happen(sent, Mined(|w.txs|, true)), Mined(|w.txs| + 1, true)), setting)
  {
    BothMinedEntries(w, agentId, s);
    OwedFacts(w.ledger, setting.serviceId, s.agent);
    TwiceIsNoPrefix(EntriesOf(w.entries, agentId), s, Owed(w.ledger, setting.serviceId, s.agent));
  }

  lemma TwiceIsNoPrefix(rows: seq<Settlement>, s: Settlement, owed: seq<Settlement>)
    requires Rising(owed)
    ensures !(rows + [s] + [s] <= owed)
  {
    var n, both := |rows|, rows + [s] + [s];
    assert both[n] == both[n + 1];
    assert forall i, j :: 0 <= i < j < |owed| ==> owed[i] != owed[j];
  }
}
