/**
 * The Credit Limit (apps/registry/src/credit.ts:127-232).
 *
 * Limit is the reference: per-service sums, a set of counterparties, a bond sum and the
 * greatest feasible value, none of which mentions an order. CreditLimit is the code: one pass
 * over the history filling two parallel lists of slots. The rest of the module is what the
 * reference gives: order does not matter, more history or stake never costs credit, and the
 * result stays inside its published bounds.
 */
module CreditLimit {
  import opened Concentration
  import opened Records
  import opened Sums
  import opened Wrappers

  const BPS := 10_000
  const BOND_CAP_BPS := 9_500
  const MIN_WEIGHT_BPS := 2_500
  const MAX_WEIGHT_BPS := 10_000
  const RAMP_DAYS := 30
  const RAMP_SPAN_BPS := 7_500
  const MIN_COUNTERPARTIES := 3
  const SECONDS_PER_DAY := 86_400

  datatype Params = Params(asset: Id, baseline: nat, growthFactorBps: nat, evaluatedAt: int)

  datatype CreditError = HistoryTooLong(length: nat) | TooManyCounterparties(count: nat)

  // ------------------------------------------------------------------- pieces

  function AgeWeightBps(settledAt: int, evaluatedAt: int): nat {
    if evaluatedAt <= settledAt then MIN_WEIGHT_BPS
    else
      var ageDays := (evaluatedAt - settledAt) / SECONDS_PER_DAY;
      if ageDays >= RAMP_DAYS then MAX_WEIGHT_BPS
      else MIN_WEIGHT_BPS + RAMP_SPAN_BPS * ageDays / RAMP_DAYS
  }

  /** Right Asset, curated and bonded when it settled, and delivered strictly before that. */
  predicate Counts(s: SettlementRecord, asset: Id) {
    s.asset == asset && s.curated && s.bonded && s.firstDeliveryAt != 0 && s.firstDeliveryAt < s.settledAt
  }

  /** What one record adds to its counterparty's bucket, floored per record. */
  function Weight(s: SettlementRecord, p: Params): nat {
    if Counts(s, p.asset) then s.amount * AgeWeightBps(s.settledAt, p.evaluatedAt) / BPS else 0
  }

  /** The services with at least one record that weighs something. */
  function Counterparties(history: seq<SettlementRecord>, p: Params): set<Id> {
    set s | s in history && Weight(s, p) > 0 :: s.serviceId
  }

  function BucketSum(history: seq<SettlementRecord>, p: Params, id: Id): nat {
    if history == [] then 0
    else (if history[0].serviceId == id then Weight(history[0], p) else 0) + BucketSum(history[1..], p, id)
  }

  function Growth(bucket: nat, p: Params): nat {
    bucket * p.growthFactorBps / BPS
  }

  /** The growth each counterparty earns, one division per counterparty. */
  function Contributions(history: seq<SettlementRecord>, p: Params): map<Id, nat> {
    map id | id in Counterparties(history, p) :: Growth(BucketSum(history, p, id), p)
  }

  function BondSum(bonds: seq<BondEntry>, asset: Id): nat {
    if bonds == [] then 0
    else (if bonds[0].asset == asset then bonds[0].amount else 0) + BondSum(bonds[1..], asset)
  }

  function CapOfSum(sum: nat): nat {
    sum * BOND_CAP_BPS / BPS
  }

  // ---------------------------------------------------------------- reference

  function Shares(m: map<Id, nat>, x: nat): map<Id, nat> {
    map id | id in m :: Min(4 * m[id], x)
  }

  ghost predicate FeasibleOver(m: map<Id, nat>, baseline: nat, x: nat) {
    4 * x <= 4 * baseline + SumOf(Shares(m, x))
  }

  /** The greatest feasible value at or below top. */
  ghost function GreatestBelow(m: map<Id, nat>, baseline: nat, top: nat): nat {
    if top == 0 || FeasibleOver(m, baseline, top) then top else GreatestBelow(m, baseline, top - 1)
  }

  /** The greatest feasible value: no feasible value can exceed the uncapped one. */
  ghost function ConcentrationCap(m: map<Id, nat>, baseline: nat): nat {
    GreatestBelow(m, baseline, baseline + SumOf(m))
  }

  /** The limit over a map of contributions: capped by concentration from three on, by stake always. */
  ghost function LimitValue(m: map<Id, nat>, baseline: nat, bondCap: nat): nat {
    if |m| < MIN_COUNTERPARTIES then Min(baseline, bondCap)
    else Min(Min(baseline + SumOf(m), ConcentrationCap(m, baseline)), bondCap)
  }

  ghost function Limit(history: seq<SettlementRecord>, bonds: seq<BondEntry>, p: Params): Result<nat, CreditError> {
    if |history| > MAX_HISTORY then Err(HistoryTooLong(|history|))
    else if |Counterparties(history, p)| > MAX_COUNTERPARTIES then Err(TooManyCounterparties(MAX_COUNTERPARTIES + 1))
    else Ok(LimitValue(Contributions(history, p), p.baseline, CapOfSum(BondSum(bonds, p.asset))))
  }

  // ----------------------------------------------- the greatest feasible value

  lemma ThreeAtMost(m: map<Id, nat>, bound: nat)
    requires |m| == 3 && forall k :: k in m ==> m[k] <= bound
    ensures SumOf(m) <= 3 * bound
  {
    var m1, v1 := TakeOne(m);
    var m2, v2 := TakeOne(m1);
    var m3, v3 := TakeOne(m2);
    assert m3 == map[];
  }

  lemma TakeOne(m: map<Id, nat>) returns (rest: map<Id, nat>, v: nat)
    requires |m| > 0
    ensures |rest| == |m| - 1 && SumOf(m) == v + SumOf(rest)
    ensures (exists k :: k in m && m[k] == v) && forall k :: k in rest ==> k in m && rest[k] == m[k]
  {
    assert m.Keys != {};
    var k :| k in m;
    MapMinus(m, k);
    SumOfRemove(m, k);
    rest, v := m - {k}, m[k];
  }

  lemma SharesRemove(m: map<Id, nat>, k: Id, x: nat)
    requires k in m
    ensures SumOf(Shares(m, x)) == Min(4 * m[k], x) + SumOf(Shares(m - {k}, x))
  {
    SumOfRemove(Shares(m, x), k);
    assert Shares(m, x) - {k} == Shares(m - {k}, x);
  }

  lemma {:induction false} SharesBounds(m: map<Id, nat>, x: nat)
    ensures SumOf(Shares(m, x)) <= 4 * SumOf(m)
    decreases |m|
  {
    if m != map[] {
      var k :| k in m;
      SumOfRemove(m, k);
      SharesRemove(m, k, x);
      MapMinus(m, k);
      SharesBounds(m - {k}, x);
    }
  }

  lemma {:induction false} GreatestBelowFacts(m: map<Id, nat>, baseline: nat, top: nat)
    ensures GreatestBelow(m, baseline, top) <= top
    ensures FeasibleOver(m, baseline, GreatestBelow(m, baseline, top))
    ensures forall x: nat :: x <= top && FeasibleOver(m, baseline, x) ==> x <= GreatestBelow(m, baseline, top)
  {
    if top != 0 && !FeasibleOver(m, baseline, top) {
      GreatestBelowFacts(m, baseline, top - 1);
    }
  }

  lemma CapIsGreatest(m: map<Id, nat>, baseline: nat)
    ensures FeasibleOver(m, baseline, ConcentrationCap(m, baseline))
    ensures forall x: nat :: FeasibleOver(m, baseline, x) ==> x <= ConcentrationCap(m, baseline)
    ensures baseline <= ConcentrationCap(m, baseline) <= baseline + SumOf(m)
  {
    GreatestBelowFacts(m, baseline, baseline + SumOf(m));
    forall x: nat | FeasibleOver(m, baseline, x)
      ensures x <= ConcentrationCap(m, baseline)
    {
      FeasibleIsBounded(m, baseline, x);
    }
    BaselineIsFeasible(m, baseline);
  }

  lemma FeasibleIsBounded(m: map<Id, nat>, baseline: nat, x: nat)
    requires FeasibleOver(m, baseline, x)
    ensures x <= baseline + SumOf(m)
  {
    SharesBounds(m, x);
  }

  lemma BaselineIsFeasible(m: map<Id, nat>, baseline: nat)
    ensures FeasibleOver(m, baseline, baseline)
  {
  }

  lemma CapOfThree(m: map<Id, nat>, baseline: nat)
    requires |m| == 3
    ensures ConcentrationCap(m, baseline) <= 4 * baseline
  {
    var cap := ConcentrationCap(m, baseline);
    CapIsGreatest(m, baseline);
    assert Shares(m, cap).Keys == m.Keys;
    assert |Shares(m, cap)| == |Shares(m, cap).Keys| && |m| == |m.Keys|;
    ThreeAtMost(Shares(m, cap), cap);
  }

  /** Listing a map's values in any order gives the sequence form of the cap the same answer. */
  lemma ListedCap(keys: seq<Id>, c: seq<nat>, m: map<Id, nat>, baseline: nat, x: nat)
    requires |keys| == |c| && m.Keys == (set k | k in keys)
    requires forall i, j :: 0 <= i < j < |keys| ==> keys[i] != keys[j]
    requires forall i :: 0 <= i < |keys| ==> m[keys[i]] == c[i]
    requires IsGreatest(c, baseline, x)
    ensures x == ConcentrationCap(m, baseline)
  {
    CapIsGreatest(m, baseline);
    ListedFeasible(keys, c, m, baseline, x);
    ListedFeasible(keys, c, m, baseline, ConcentrationCap(m, baseline));
  }

  lemma ListedFeasible(keys: seq<Id>, c: seq<nat>, m: map<Id, nat>, baseline: nat, x: nat)
    requires |keys| == |c| && m.Keys == (set k | k in keys)
    requires forall i, j :: 0 <= i < j < |keys| ==> keys[i] != keys[j]
    requires forall i :: 0 <= i < |keys| ==> m[keys[i]] == c[i]
    ensures Feasible(c, baseline, x) <==> FeasibleOver(m, baseline, x)
  {
    var shares := seq(|c|, i requires 0 <= i < |c| => Min(4 * c[i], x) as nat);
    SumOfListed(keys, shares, Shares(m, x));
    ShareSumIsSum(c, shares, x);
  }

  lemma {:induction false} ShareSumIsSum(c: seq<nat>, shares: seq<nat>, x: nat)
    requires |shares| == |c| && forall i :: 0 <= i < |c| ==> shares[i] == Min(4 * c[i], x)
    ensures ShareSum(c, x) == Sum(shares)
  {
    if c != [] {
      ShareSumIsSum(c[1..], shares[1..], x);
    }
  }

  // ------------------------------------------------------------------ buckets

  lemma {:induction false} BucketAppend(a: seq<SettlementRecord>, b: seq<SettlementRecord>, p: Params, id: Id)
    ensures BucketSum(a + b, p, id) == BucketSum(a, p, id) + BucketSum(b, p, id)
  {
    if a == [] {
      assert a + b == b;
    } else {
      assert (a + b)[1..] == a[1..] + b;
      BucketAppend(a[1..], b, p, id);
    }
  }

  /** A service is a counterparty exactly when its bucket is not empty. */
  lemma {:induction false} CounterpartyIffBucket(h: seq<SettlementRecord>, p: Params, id: Id)
    ensures id in Counterparties(h, p) <==> BucketSum(h, p, id) > 0
  {
    if h != [] {
      CounterpartyIffBucket(h[1..], p, id);
      if id in Counterparties(h, p) {
        var s :| s in h && Weight(s, p) > 0 && s.serviceId == id;
        assert s == h[0] || s in h[1..];
      }
    }
  }

  /** What the pass over the history has built after the records in `done`. */
  ghost predicate Bucketed(done: seq<SettlementRecord>, p: Params, ids: seq<Id>, buckets: seq<nat>) {
    && |ids| == |buckets|
    && (forall i, j :: 0 <= i < j < |ids| ==> ids[i] != ids[j])
    && Counterparties(done, p) == (set id | id in ids)
    && (forall i :: 0 <= i < |ids| ==> buckets[i] == BucketSum(done, p, ids[i]))
  }

  lemma SkippedRecord(done: seq<SettlementRecord>, s: SettlementRecord, p: Params, ids: seq<Id>, buckets: seq<nat>)
    requires Bucketed(done, p, ids, buckets) && Weight(s, p) == 0
    ensures Bucketed(done + [s], p, ids, buckets)
  {
    assert Counterparties(done + [s], p) == Counterparties(done, p);
    forall i | 0 <= i < |ids|
      ensures buckets[i] == BucketSum(done + [s], p, ids[i])
    {
      BucketAppend(done, [s], p, ids[i]);
    }
  }

  lemma AddedToSlot(done: seq<SettlementRecord>, s: SettlementRecord, p: Params, ids: seq<Id>, buckets: seq<nat>,
      slot: nat)
    requires Bucketed(done, p, ids, buckets) && Weight(s, p) > 0
    requires slot < |ids| && ids[slot] == s.serviceId
    ensures Bucketed(done + [s], p, ids, buckets[slot := buckets[slot] + Weight(s, p)])
  {
    assert Counterparties(done + [s], p) == Counterparties(done, p) + {s.serviceId};
    forall i | 0 <= i < |ids|
      ensures buckets[slot := buckets[slot] + Weight(s, p)][i] == BucketSum(done + [s], p, ids[i])
    {
      BucketAppend(done, [s], p, ids[i]);
    }
  }

  lemma NewSlot(done: seq<SettlementRecord>, s: SettlementRecord, p: Params, ids: seq<Id>, buckets: seq<nat>)
    requires Bucketed(done, p, ids, buckets) && Weight(s, p) > 0
    requires s.serviceId !in ids
    ensures Bucketed(done + [s], p, ids + [s.serviceId], buckets + [Weight(s, p)])
  {
    var ids', buckets' := ids + [s.serviceId], buckets + [Weight(s, p)];
    assert Counterparties(done + [s], p) == (set id | id in ids') by {
      assert Counterparties(done + [s], p) == Counterparties(done, p) + {s.serviceId};
      assert (set id | id in ids') == (set id | id in ids) + {s.serviceId};
    }
    forall i | 0 <= i < |ids'|
      ensures buckets'[i] == BucketSum(done + [s], p, ids'[i])
    {
      BucketAppend(done, [s], p, ids'[i]);
      CounterpartyIffBucket(done, p, ids'[i]);
    }
  }

  lemma {:induction false} DistinctCount(ids: seq<Id>)
    requires forall i, j :: 0 <= i < j < |ids| ==> ids[i] != ids[j]
    ensures |set id | id in ids| == |ids|
  {
    if ids != [] {
      DistinctCount(ids[1..]);
      assert (set id | id in ids) == {ids[0]} + set id | id in ids[1..];
    }
  }

  // ----------------------------------------------------------------- the code

  /** ids.findIndex: the first slot holding id, or -1. */
  method FindSlot(ids: seq<Id>, id: Id) returns (slot: int)
    ensures slot == -1 ==> id !in ids
    ensures slot != -1 ==> 0 <= slot < |ids| && ids[slot] == id && id !in ids[..slot]
  {
    slot := 0;
    while slot < |ids|
      invariant 0 <= slot <= |ids|
      invariant id !in ids[..slot]
    {
      if ids[slot] == id {
        return;
      }
      slot := slot + 1;
    }
    slot := -1;
  }

  method BondCap(bonds: seq<BondEntry>, asset: Id) returns (cap: nat)
    ensures cap == CapOfSum(BondSum(bonds, asset))
  {
    var sum := 0;
    for i := 0 to |bonds|
      invariant sum + BondSum(bonds[i..], asset) == BondSum(bonds, asset)
    {
      assert bonds[i..][1..] == bonds[i + 1..];
      if bonds[i].asset == asset {
        sum := sum + bonds[i].amount;
      }
    }
    cap := sum * BOND_CAP_BPS / BPS;
  }

  /** Step 1: the slots, or the error past 32 of them. */
  method FillBuckets(history: seq<SettlementRecord>, p: Params) returns (r: Result<(seq<Id>, seq<nat>), CreditError>)
    ensures r.Err? <==> |Counterparties(history, p)| > MAX_COUNTERPARTIES
    ensures r.Err? ==> r.error == TooManyCounterparties(MAX_COUNTERPARTIES + 1)
    ensures r.Ok? ==> Bucketed(history, p, r.value.0, r.value.1)
  {
    var ids: seq<Id>, buckets: seq<nat> := [], [];
    for i := 0 to |history|
      invariant Bucketed(history[..i], p, ids, buckets)
      invariant |ids| <= MAX_COUNTERPARTIES
    {
      var s := history[i];
      assert history[..i + 1] == history[..i] + [s];
      if !Counts(s, p.asset) {
        SkippedRecord(history[..i], s, p, ids, buckets);
        continue;
      }
      var weighted := s.amount * AgeWeightBps(s.settledAt, p.evaluatedAt) / BPS;
      if weighted == 0 {
        SkippedRecord(history[..i], s, p, ids, buckets);
        continue;
      }
      var slot := FindSlot(ids, s.serviceId);
      if slot == -1 {
        NewSlot(history[..i], s, p, ids, buckets);
        if |ids| == MAX_COUNTERPARTIES {
          DistinctCount(ids + [s.serviceId]);
          SubsetCount(Counterparties(history[..i + 1], p), Counterparties(history, p));
          return Err(TooManyCounterparties(|ids| + 1));
        }
        slot := |ids|;
        ids := ids + [s.serviceId];
        buckets := buckets + [weighted];
      } else {
        AddedToSlot(history[..i], s, p, ids, buckets, slot);
        buckets := buckets[slot := buckets[slot] + weighted];
      }
    }
    assert history[..|history|] == history;
    DistinctCount(ids);
    r := Ok((ids, buckets));
  }

  lemma {:induction false} SubsetCount<T>(a: set<T>, b: set<T>)
    requires a <= b
    ensures |a| <= |b|
  {
    if a != {} {
      var x :| x in a;
      SubsetCount(a - {x}, b - {x});
    }
  }

  /** The computation, step for step. It returns the reference value and throws where it does. */
  method CreditLimit(history: seq<SettlementRecord>, bonds: seq<BondEntry>, p: Params)
      returns (r: Result<nat, CreditError>)
    ensures r == Limit(history, bonds, p)
  {
    if |history| > MAX_HISTORY {
      return Err(HistoryTooLong(|history|));
    }
    var filled := FillBuckets(history, p);
    if filled.Err? {
      return Err(filled.error);
    }
    var (ids, buckets) := filled.value;
    var cap := BondCap(bonds, p.asset);
    DistinctCount(ids);
    CountContributions(history, p);
    if |ids| < MIN_COUNTERPARTIES {
      return Ok(if p.baseline < cap then p.baseline else cap);
    }
    var limit := Grow(buckets, p, cap, ids, Contributions(history, p));
    return Ok(limit);
  }

  lemma CountContributions(history: seq<SettlementRecord>, p: Params)
    ensures Contributions(history, p).Keys == Counterparties(history, p)
    ensures |Contributions(history, p)| == |Counterparties(history, p)|
  {
  }

  /** Steps 4 to 6: the contributions, the concentration cap and the smallest of the three. */
  method Grow(buckets: seq<nat>, p: Params, cap: nat, ghost ids: seq<Id>, ghost m: map<Id, nat>) returns (limit: nat)
    requires |ids| == |buckets| && m.Keys == (set id | id in ids) && |m| >= MIN_COUNTERPARTIES
    requires forall i, j :: 0 <= i < j < |ids| ==> ids[i] != ids[j]
    requires forall i :: 0 <= i < |ids| ==> m[ids[i]] == Growth(buckets[i], p)
    ensures limit == LimitValue(m, p.baseline, cap)
  {
    var contributions: seq<nat> := seq(|buckets|, i requires 0 <= i < |buckets| => Growth(buckets[i], p));
    var total := 0;
    for i := 0 to |contributions|
      invariant total == Sum(contributions[..i])
    {
      assert contributions[..i + 1] == contributions[..i] + [contributions[i]];
      SumAppend(contributions[..i], contributions[i]);
      total := total + contributions[i];
    }
    assert contributions[..|contributions|] == contributions;
    var uncapped := p.baseline + total;
    var capped := ConcentrationCapped(contributions, p.baseline, total);
    SumOfListed(ids, contributions, m);
    ListedCap(ids, contributions, m, p.baseline, capped);
    limit := uncapped;
    if capped < limit {
      limit := capped;
    }
    if cap < limit {
      limit := cap;
    }
  }

  // ------------------------------------------------------- what it depends on

  ghost predicate SameBuckets(h: seq<SettlementRecord>, h': seq<SettlementRecord>, p: Params) {
    forall id :: BucketSum(h, p, id) == BucketSum(h', p, id)
  }

  /** Past the length check, only the per-service sums and the bond sum are ever used. */
  lemma DependsOnBuckets(h: seq<SettlementRecord>, h': seq<SettlementRecord>, bonds: seq<BondEntry>,
      bonds': seq<BondEntry>, p: Params)
    requires |h| <= MAX_HISTORY && |h'| <= MAX_HISTORY
    requires SameBuckets(h, h', p) && BondSum(bonds, p.asset) == BondSum(bonds', p.asset)
    ensures Limit(h, bonds, p) == Limit(h', bonds', p)
  {
    forall id
      ensures id in Counterparties(h, p) <==> id in Counterparties(h', p)
    {
      CounterpartyIffBucket(h, p, id);
      CounterpartyIffBucket(h', p, id);
    }
    assert Counterparties(h, p) == Counterparties(h', p);
    assert Contributions(h, p) == Contributions(h', p);
  }

  lemma {:induction false} BucketPermuted(h: seq<SettlementRecord>, h': seq<SettlementRecord>, p: Params, id: Id)
    requires multiset(h) == multiset(h')
    ensures BucketSum(h, p, id) == BucketSum(h', p, id)
  {
    if h == [] {
      EmptyMatch(h, h');
    } else {
      var i := MatchFirst(h, h');
      assert h' == h'[..i] + ([h'[i]] + h'[i + 1..]);
      BucketPermuted(h[1..], h'[..i] + h'[i + 1..], p, id);
      BucketAppend(h'[..i], h'[i + 1..], p, id);
      BucketAppend(h'[..i], [h'[i]] + h'[i + 1..], p, id);
      assert ([h'[i]] + h'[i + 1..])[1..] == h'[i + 1..];
    }
  }

  lemma {:induction false} BondAppend(a: seq<BondEntry>, b: seq<BondEntry>, asset: Id)
    ensures BondSum(a + b, asset) == BondSum(a, asset) + BondSum(b, asset)
  {
    if a == [] {
      assert a + b == b;
    } else {
      assert (a + b)[1..] == a[1..] + b;
      BondAppend(a[1..], b, asset);
    }
  }

  lemma {:induction false} BondPermuted(b: seq<BondEntry>, b': seq<BondEntry>, asset: Id)
    requires multiset(b) == multiset(b')
    ensures BondSum(b, asset) == BondSum(b', asset)
  {
    if b == [] {
      EmptyMatch(b, b');
    } else {
      var i := MatchFirst(b, b');
      assert b' == b'[..i] + ([b'[i]] + b'[i + 1..]);
      BondPermuted(b[1..], b'[..i] + b'[i + 1..], asset);
      BondAppend(b'[..i], b'[i + 1..], asset);
      BondAppend(b'[..i], [b'[i]] + b'[i + 1..], asset);
      assert ([b'[i]] + b'[i + 1..])[1..] == b'[i + 1..];
    }
  }

  /** The value, and which error is thrown, do not depend on any order. */
  lemma OrderDoesNotMatter(h: seq<SettlementRecord>, h': seq<SettlementRecord>, bonds: seq<BondEntry>,
      bonds': seq<BondEntry>, p: Params)
    requires multiset(h) == multiset(h') && multiset(bonds) == multiset(bonds')
    ensures Limit(h, bonds, p) == Limit(h', bonds', p)
  {
    assert |h| == |multiset(h)| && |h'| == |multiset(h')|;
    if |h| <= MAX_HISTORY {
      forall id
        ensures BucketSum(h, p, id) == BucketSum(h', p, id)
      {
        BucketPermuted(h, h', p, id);
      }
      BondPermuted(bonds, bonds', p.asset);
      DependsOnBuckets(h, h', bonds, bonds', p);
    }
  }

  /** Within the length cap, a record that fails a filter or weighs nothing changes nothing. */
  lemma WeightlessRecordIsIgnored(a: seq<SettlementRecord>, s: SettlementRecord, b: seq<SettlementRecord>,
      bonds: seq<BondEntry>, p: Params)
    requires |a| + 1 + |b| <= MAX_HISTORY && Weight(s, p) == 0
    ensures Limit(a + [s] + b, bonds, p) == Limit(a + b, bonds, p)
  {
    forall id
      ensures BucketSum(a + [s] + b, p, id) == BucketSum(a + b, p, id)
    {
      BucketAppend(a + [s], b, p, id);
      BucketAppend(a, [s], p, id);
      BucketAppend(a, b, p, id);
    }
    DependsOnBuckets(a + [s] + b, a + b, bonds, bonds, p);
  }

  // -------------------------------------------------------------- monotonicity

  lemma AgeWeightMonotone(settledAt: int, t: int, t': int)
    requires t <= t'
    ensures MIN_WEIGHT_BPS <= AgeWeightBps(settledAt, t) <= AgeWeightBps(settledAt, t') <= MAX_WEIGHT_BPS
  {
  }

  /** A record with the same fields and no smaller amount. */
  predicate Raised(s: SettlementRecord, s': SettlementRecord) {
    s.amount <= s'.amount && s' == s.(amount := s'.amount)
  }

  /** Later, and no less generous, parameters for the same Asset. */
  predicate NoWorse(p: Params, p': Params) {
    p.asset == p'.asset && p.baseline <= p'.baseline && p.growthFactorBps <= p'.growthFactorBps
        && p.evaluatedAt <= p'.evaluatedAt
  }

  lemma WeightMonotone(s: SettlementRecord, s': SettlementRecord, p: Params, p': Params)
    requires Raised(s, s') && NoWorse(p, p')
    ensures Weight(s, p) <= Weight(s', p')
  {
    var w, w' := AgeWeightBps(s.settledAt, p.evaluatedAt), AgeWeightBps(s.settledAt, p'.evaluatedAt);
    AgeWeightMonotone(s.settledAt, p.evaluatedAt, p'.evaluatedAt);
    MulMonotone(s.amount, w, w');
    MulMonotone(w', s.amount, s'.amount);
    DivMonotone(s.amount * w, s'.amount * w', BPS);
  }

  /** h' is h with records added anywhere and amounts raised. */
  ghost predicate Extends(h: seq<SettlementRecord>, h': seq<SettlementRecord>)
    decreases |h'|
  {
    || h == []
    || (h' != [] && Extends(h, h'[1..]))
    || (h' != [] && Raised(h[0], h'[0]) && Extends(h[1..], h'[1..]))
  }

  lemma {:induction false} BucketMonotone(h: seq<SettlementRecord>, h': seq<SettlementRecord>, p: Params, p': Params,
      id: Id)
    requires Extends(h, h') && NoWorse(p, p')
    ensures BucketSum(h, p, id) <= BucketSum(h', p', id)
    decreases |h'|
  {
    if h != [] {
      if Extends(h, h'[1..]) {
        BucketMonotone(h, h'[1..], p, p', id);
      } else {
        BucketMonotone(h[1..], h'[1..], p, p', id);
        WeightMonotone(h[0], h'[0], p, p');
      }
    }
  }

  lemma GrowthMonotone(bucket: nat, bucket': nat, p: Params, p': Params)
    requires bucket <= bucket' && p.growthFactorBps <= p'.growthFactorBps
    ensures Growth(bucket, p) <= Growth(bucket', p')
  {
    MulMonotone(bucket, p.growthFactorBps, p'.growthFactorBps);
    MulMonotone(p'.growthFactorBps, bucket, bucket');
    DivMonotone(bucket * p.growthFactorBps, bucket' * p'.growthFactorBps, BPS);
  }

  lemma CapMonotone(m: map<Id, nat>, m': map<Id, nat>, baseline: nat, baseline': nat)
    requires baseline <= baseline' && forall id :: id in m ==> id in m' && m[id] <= m'[id]
    ensures ConcentrationCap(m, baseline) <= ConcentrationCap(m', baseline')
  {
    CapIsGreatest(m, baseline);
    CapIsGreatest(m', baseline');
    var x := ConcentrationCap(m, baseline);
    SumOfMonotone(Shares(m, x), Shares(m', x));
    assert FeasibleOver(m', baseline', x);
  }

  /** Bucket by bucket no smaller, and no less stake: then no less credit. */
  lemma LimitMonotone(h: seq<SettlementRecord>, h': seq<SettlementRecord>, bonds: seq<BondEntry>,
      bonds': seq<BondEntry>, p: Params, p': Params)
    requires NoWorse(p, p')
    requires forall id :: BucketSum(h, p, id) <= BucketSum(h', p', id)
    requires BondSum(bonds, p.asset) <= BondSum(bonds', p.asset)
    requires Limit(h, bonds, p).Ok? && Limit(h', bonds', p').Ok?
    ensures Limit(h, bonds, p).value <= Limit(h', bonds', p').value
    ensures Counterparties(h, p) <= Counterparties(h', p')
  {
    CounterpartiesGrow(h, h', p, p');
    forall id | id in Contributions(h, p)
      ensures Contributions(h, p)[id] <= Contributions(h', p')[id]
    {
      GrowthMonotone(BucketSum(h, p, id), BucketSum(h', p', id), p, p');
    }
    DivMonotone(BondSum(bonds, p.asset) * BOND_CAP_BPS, BondSum(bonds', p.asset) * BOND_CAP_BPS, BPS);
    ValueMonotone(Contributions(h, p), Contributions(h', p'), p.baseline, p'.baseline,
        CapOfSum(BondSum(bonds, p.asset)), CapOfSum(BondSum(bonds', p.asset)));
  }

  lemma ValueMonotone(m: map<Id, nat>, m': map<Id, nat>, baseline: nat, baseline': nat, cap: nat, cap': nat)
    requires baseline <= baseline' && cap <= cap' && forall id :: id in m ==> id in m' && m[id] <= m'[id]
    ensures LimitValue(m, baseline, cap) <= LimitValue(m', baseline', cap')
  {
    SubsetCount(m.Keys, m'.Keys);
    assert |m| == |m.Keys| && |m'| == |m'.Keys|;
    SumOfMonotone(m, m');
    CapMonotone(m, m', baseline, baseline');
    CapIsGreatest(m', baseline');
  }

  lemma CounterpartiesGrow(h: seq<SettlementRecord>, h': seq<SettlementRecord>, p: Params, p': Params)
    requires forall id :: BucketSum(h, p, id) <= BucketSum(h', p', id)
    ensures Counterparties(h, p) <= Counterparties(h', p')
  {
    forall id | id in Counterparties(h, p)
      ensures id in Counterparties(h', p')
    {
      CounterpartyIffBucket(h, p, id);
      CounterpartyIffBucket(h', p', id);
    }
  }

  /**
   * Settling more never costs credit. Records may be added anywhere, amounts and bonds raised,
   * the evaluation moved forward, and both lists reordered: where neither call throws, the
   * second limit is no smaller. A call that did not throw can only start to throw by growing.
   */
  lemma MoreNeverLowers(
    h: seq<SettlementRecord>, grown: seq<SettlementRecord>, h': seq<SettlementRecord>,
    bonds: seq<BondEntry>, bonds': seq<BondEntry>, p: Params, p': Params)
    requires Extends(h, grown) && multiset(grown) == multiset(h')
    requires BondSum(bonds, p.asset) <= BondSum(bonds', p.asset) && NoWorse(p, p')
    ensures Limit(h', bonds', p').Ok? ==>
          Limit(h, bonds, p).Ok? && Limit(h, bonds, p).value <= Limit(h', bonds', p').value
  {
    OrderDoesNotMatter(grown, h', bonds', bonds', p');
    ExtendsLength(h, grown);
    forall id
      ensures BucketSum(h, p, id) <= BucketSum(grown, p', id)
    {
      BucketMonotone(h, grown, p, p', id);
    }
    CounterpartiesGrow(h, grown, p, p');
    SubsetCount(Counterparties(h, p), Counterparties(grown, p'));
    if Limit(h', bonds', p').Ok? {
      LimitMonotone(h, grown, bonds, bonds', p, p');
    }
  }

  lemma {:induction false} ExtendsLength(h: seq<SettlementRecord>, h': seq<SettlementRecord>)
    requires Extends(h, h')
    ensures |h| <= |h'|
    decreases |h'|
  {
    if h != [] {
      if Extends(h, h'[1..]) {
        ExtendsLength(h, h'[1..]);
      } else {
        ExtendsLength(h[1..], h'[1..]);
      }
    }
  }

  // ------------------------------------------------------------------- bounds

  /**
   * Every limit lies between the bond-capped baseline and both the bond cap and the uncapped
   * value; credit is always strictly less than the stake behind it; and three counterparties,
   * the fewest that earn growth, never take it past four times the baseline.
   */
  lemma LimitBounds(h: seq<SettlementRecord>, bonds: seq<BondEntry>, p: Params)
    requires Limit(h, bonds, p).Ok?
    ensures
      var limit, cap, m := Limit(h, bonds, p).value, CapOfSum(BondSum(bonds, p.asset)), Contributions(h, p);
      && Min(p.baseline, cap) <= limit <= Min(cap, p.baseline + SumOf(m))
      && (limit > 0 ==> limit < BondSum(bonds, p.asset))
      && (|m| < 3 ==> limit <= p.baseline)
      && (|m| == 3 ==> limit <= 4 * p.baseline)
  {
    ValueBounds(Contributions(h, p), p.baseline, CapOfSum(BondSum(bonds, p.asset)));
  }

  lemma ValueBounds(m: map<Id, nat>, baseline: nat, cap: nat)
    ensures Min(baseline, cap) <= LimitValue(m, baseline, cap) <= Min(cap, baseline + SumOf(m))
    ensures |m| < 3 ==> LimitValue(m, baseline, cap) <= baseline
    ensures |m| == 3 ==> LimitValue(m, baseline, cap) <= 4 * baseline
  {
    CapIsGreatest(m, baseline);
    if |m| == 3 {
      CapOfThree(m, baseline);
    }
  }

  /** min(4c, x) is concave in x, and so is the sum of the shares. */
  lemma {:induction false} SharesConcave(m: map<Id, nat>, x: nat, y: nat)
    requires x <= y
    ensures SumOf(Shares(m, x)) * y >= SumOf(Shares(m, y)) * x
    decreases |m|
  {
    if m == map[] {
      assert Shares(m, x) == map[] && Shares(m, y) == map[];
    } else {
      var k :| k in m;
      SharesRemove(m, k, x);
      SharesRemove(m, k, y);
      MapMinus(m, k);
      SharesConcave(m - {k}, x, y);
      OneShareConcave(4 * m[k], x, y);
      AddProducts(Min(4 * m[k], x), SumOf(Shares(m - {k}, x)), SumOf(Shares(m, x)),
                  Min(4 * m[k], y), SumOf(Shares(m - {k}, y)), SumOf(Shares(m, y)), x, y);
    }
  }

  lemma AddProducts(a: nat, a': nat, sa: nat, b: nat, b': nat, sb: nat, x: nat, y: nat)
    requires sa == a + a' && sb == b + b'
    requires a * y >= b * x && a' * y >= b' * x
    ensures sa * y >= sb * x
  {
  }

  lemma OneShareConcave(c: nat, x: nat, y: nat)
    requires x <= y
    ensures Min(c, x) * y >= Min(c, y) * x
  {
  }

  /** Everything below a feasible value is feasible. */
  lemma FeasibleIsDownwardClosed(m: map<Id, nat>, baseline: nat, x: nat, y: nat)
    requires x <= y && FeasibleOver(m, baseline, y)
    ensures FeasibleOver(m, baseline, x)
  {
    if y > 0 {
      SharesConcave(m, x, y);
      ScaleDown(x, y, baseline, SumOf(Shares(m, x)), SumOf(Shares(m, y)));
    }
  }

  lemma ScaleDown(x: nat, y: nat, baseline: nat, sx: nat, sy: nat)
    requires x <= y && 0 < y && 4 * y <= 4 * baseline + sy && sx * y >= sy * x
    ensures 4 * x <= 4 * baseline + sx
  {
  }

  /**
   * The quarter rule holds of the limit that is returned, on any path, the bond-capped one
   * included: baseline plus one share per counterparty, none above a quarter of the limit,
   * covers it. Where the stake does not bind and growth counts, no larger value has that
   * property.
   */
  lemma QuarterPerCounterparty(h: seq<SettlementRecord>, bonds: seq<BondEntry>, p: Params)
    requires Limit(h, bonds, p).Ok?
    ensures
      var limit, m := Limit(h, bonds, p).value, Contributions(h, p);
      && FeasibleOver(m, p.baseline, limit)
      && (|m| >= MIN_COUNTERPARTIES && limit < CapOfSum(BondSum(bonds, p.asset)) ==>
            forall x: nat :: x > limit ==> !FeasibleOver(m, p.baseline, x))
  {
    var m := Contributions(h, p);
    CapIsGreatest(m, p.baseline);
    FeasibleIsDownwardClosed(m, p.baseline, Limit(h, bonds, p).value, ConcentrationCap(m, p.baseline));
  }

  // --------------------------------------------- the pieces, by what they are for

  /** Whole days of age; none before the settlement. */
  function AgeDays(settledAt: int, evaluatedAt: int): nat {
    if evaluatedAt <= settledAt then 0 else (evaluatedAt - settledAt) / 86_400
  }

  /**
   * The age weight ramps by the whole day from a quarter at the settlement to the whole after
   * thirty days, each day an equal part of the rest, floored.
   */
  lemma AgeWeightRamp(settledAt: int, evaluatedAt: int)
    ensures
      var w, d := AgeWeightBps(settledAt, evaluatedAt), AgeDays(settledAt, evaluatedAt);
      && 30 * (w - 2_500) <= 7_500 * Min(d, 30) < 30 * (w - 2_500) + 30
      && (evaluatedAt <= settledAt ==> w == 2_500)
      && (w == 10_000 <==> d >= 30)
  {
  }

  /** A record counts when it is of the Asset, curated, bonded and delivered strictly before it settled. */
  lemma WeightOfRecord(s: SettlementRecord, p: Params)
    ensures (s.asset != p.asset || !s.curated || !s.bonded || s.firstDeliveryAt == 0
             || s.firstDeliveryAt >= s.settledAt) ==> Weight(s, p) == 0
    ensures s.asset == p.asset && s.curated && s.bonded && 0 < s.firstDeliveryAt < s.settledAt ==>
              10_000 * Weight(s, p) <= s.amount * AgeWeightBps(s.settledAt, p.evaluatedAt) < 10_000 * Weight(s, p)
                  + 10_000
  {
  }

  /** A service's bucket is the sum, over its own records, of what each weighs. */
  lemma {:induction false} BucketsAdd(a: seq<SettlementRecord>, b: seq<SettlementRecord>, p: Params, id: Id)
    ensures BucketSum(a + b, p, id) == BucketSum(a, p, id) + BucketSum(b, p, id)
  {
    if a == [] {
      assert a + b == b;
    } else {
      assert (a + b)[1..] == a[1..] + b;
      BucketsAdd(a[1..], b, p, id);
    }
  }

  lemma BucketOfOne(s: SettlementRecord, p: Params, id: Id)
    ensures BucketSum([s], p, id) == if s.serviceId == id then Weight(s, p) else 0
  {
  }

  /** The stake is the sum of the entries in the Asset. */
  lemma {:induction false} BondsAdd(a: seq<BondEntry>, b: seq<BondEntry>, asset: Id)
    ensures BondSum(a + b, asset) == BondSum(a, asset) + BondSum(b, asset)
  {
    if a == [] {
      assert a + b == b;
    } else {
      assert (a + b)[1..] == a[1..] + b;
      BondsAdd(a[1..], b, asset);
    }
  }

  lemma BondOfOne(bond: BondEntry, asset: Id)
    ensures BondSum([bond], asset) == if bond.asset == asset then bond.amount else 0
  {
  }

  /** Nineteen twentieths of the stake, floored once; and a bucket's growth, floored once. */
  lemma ScaledOnce(sum: nat, p: Params)
    ensures 20 * CapOfSum(sum) <= 19 * sum < 20 * CapOfSum(sum) + 20
    ensures 10_000 * Growth(sum, p) <= sum * p.growthFactorBps < 10_000 * Growth(sum, p) + 10_000
  {
  }

  /**
   * What the limit is, with no branch named: below three counterparties the smaller of baseline and
   * bond cap; from three on the greatest value within the bond cap that baseline and the shares
   * cover. It is refused past 512 records, or past 32 counterparties.
   */
  lemma LimitIsGreatest(h: seq<SettlementRecord>, bonds: seq<BondEntry>, p: Params)
    ensures
      var m, cap := Contributions(h, p), CapOfSum(BondSum(bonds, p.asset));
      if |h| > 512 then Limit(h, bonds, p) == Err(HistoryTooLong(|h|))
      else if |m| > 32 then Limit(h, bonds, p) == Err(TooManyCounterparties(33))
      else
        && Limit(h, bonds, p).Ok?
        && var limit := Limit(h, bonds, p).value;
          if |m| < 3 then limit == Min(p.baseline, cap)
          else limit <= cap && FeasibleOver(m, p.baseline, limit) && forall x: nat ::
              x <= cap && FeasibleOver(m, p.baseline, x) ==> x <= limit
  {
    var m, cap := Contributions(h, p), CapOfSum(BondSum(bonds, p.asset));
    assert m.Keys == Counterparties(h, p);
    if |h| <= 512 && 3 <= |m| <= 32 {
      ValueIsGreatest(m, p.baseline, cap);
    }
  }

  lemma ValueIsGreatest(m: map<Id, nat>, baseline: nat, cap: nat)
    requires |m| >= 3
    ensures LimitValue(m, baseline, cap) <= cap && FeasibleOver(m, baseline, LimitValue(m, baseline, cap))
    ensures forall x: nat :: x <= cap && FeasibleOver(m, baseline, x) ==> x <= LimitValue(m, baseline, cap)
  {
    CapIsGreatest(m, baseline);
    FeasibleIsDownwardClosed(m, baseline, LimitValue(m, baseline, cap), ConcentrationCap(m, baseline));
  }

  /** Each service with a bucket contributes its growth on it, and no other does. */
  lemma ContributionOf(h: seq<SettlementRecord>, p: Params, id: Id)
    ensures id in Contributions(h, p) <==> BucketSum(h, p, id) > 0
    ensures id in Contributions(h, p) ==>
              10_000 * Contributions(h, p)[id] <= BucketSum(h, p, id) * p.growthFactorBps < 10_000 * Contributions(h,
                  p)[id] + 10_000
  {
    CounterpartyIffBucket(h, p, id);
  }
}
