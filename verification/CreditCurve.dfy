/**
 * How the Credit Limit of one history moves with time (apps/registry/src/credit.ts:297-369).
 * A curve is a limit per moment, and a record enters it at its own settlement time; what makes
 * it a curve is proved here: it never falls, and it cannot fail before its last point.
 */
module CreditCurve {
  import opened CreditLimit
  import opened Records
  import opened Sums
  import opened Wrappers

  datatype Kind = Start | Settlement | Aging | Now

  datatype CurvePoint = CurvePoint(at: int, limit: nat, settlements: nat, kind: Kind)

  /** A history cut at a time, in its own order. */
  function SettledBy(h: seq<SettlementRecord>, t: int): seq<SettlementRecord> {
    if h == [] then []
    else if h[0].settledAt <= t then [h[0]] + SettledBy(h[1..], t)
    else SettledBy(h[1..], t)
  }

  /** The reference limit of a history as of a time. */
  ghost function LimitAt(h: seq<SettlementRecord>, bonds: seq<BondEntry>, p: Params, t: int): Result<nat, CreditError> {
    Limit(SettledBy(h, t), bonds, p.(evaluatedAt := t))
  }

  // ------------------------------------------------------------------ sorting

  function InsertByTime(s: SettlementRecord, sorted: seq<SettlementRecord>): seq<SettlementRecord> {
    if sorted == [] || s.settledAt <= sorted[0].settledAt then [s] + sorted
    else [sorted[0]] + InsertByTime(s, sorted[1..])
  }

  /** The stable sort by settlement time. */
  function SortByTime(h: seq<SettlementRecord>): seq<SettlementRecord> {
    if h == [] then [] else InsertByTime(h[0], SortByTime(h[1..]))
  }

  ghost predicate Ascending(h: seq<SettlementRecord>) {
    forall i, j :: 0 <= i < j < |h| ==> h[i].settledAt <= h[j].settledAt
  }

  lemma {:induction false} InsertByTimeFacts(s: SettlementRecord, sorted: seq<SettlementRecord>, t: int)
    requires Ascending(sorted)
    ensures Ascending(InsertByTime(s, sorted))
    ensures forall r :: r in InsertByTime(s, sorted) <==> r == s || r in sorted
    ensures multiset(SettledBy(InsertByTime(s, sorted), t)) ==
            multiset(SettledBy(sorted, t)) + (if s.settledAt <= t then multiset{s} else multiset{})
  {
    if sorted == [] || s.settledAt <= sorted[0].settledAt {
      assert ([s] + sorted)[1..] == sorted;
    } else {
      var rest := InsertByTime(s, sorted[1..]);
      InsertByTimeFacts(s, sorted[1..], t);
      assert ([sorted[0]] + rest)[1..] == rest;
      forall i | 0 <= i < |rest|
        ensures sorted[0].settledAt <= rest[i].settledAt
      {
        assert rest[i] == s || rest[i] in sorted[1..];
      }
      assert forall r :: r in sorted <==> r == sorted[0] || r in sorted[1..];
    }
  }

  lemma {:induction false} SortByTimeFacts(h: seq<SettlementRecord>, t: int)
    ensures Ascending(SortByTime(h))
    ensures forall r :: r in SortByTime(h) <==> r in h
    ensures multiset(SettledBy(SortByTime(h), t)) == multiset(SettledBy(h, t))
  {
    if h != [] {
      SortByTimeFacts(h[1..], t);
      InsertByTimeFacts(h[0], SortByTime(h[1..]), t);
      assert forall r :: r in h <==> r == h[0] || r in h[1..];
    }
  }

  lemma {:induction false} SettledTwice(h: seq<SettlementRecord>, t: int, now: int)
    requires t <= now
    ensures SettledBy(SettledBy(h, now), t) == SettledBy(h, t)
    ensures forall r :: r in SettledBy(h, t) <==> r in h && r.settledAt <= t
  {
    if h != [] {
      SettledTwice(h[1..], t, now);
      assert forall r :: r in h <==> r == h[0] || r in h[1..];
      if h[0].settledAt <= now {
        assert ([h[0]] + SettledBy(h[1..], now))[1..] == SettledBy(h[1..], now);
      }
    }
  }

  /** A cut keeps or drops each record for itself. */
  lemma {:induction false} SettledOfBoth(a: seq<SettlementRecord>, b: seq<SettlementRecord>, t: int)
    ensures SettledBy(a + b, t) == SettledBy(a, t) + SettledBy(b, t)
    ensures |a| == 1 ==> SettledBy(a, t) == if a[0].settledAt <= t then a else []
  {
    if a == [] {
      assert a + b == b;
    } else {
      SettledOfBoth(a[1..], b, t);
      assert (a + b)[1..] == a[1..] + b;
    }
  }

  // ------------------------------------------------------------- monotonicity

  lemma {:induction false} SettledExtends(h: seq<SettlementRecord>, t: int, t': int)
    requires t <= t'
    ensures Extends(SettledBy(h, t), SettledBy(h, t'))
  {
    if h != [] {
      SettledExtends(h[1..], t, t');
    }
  }

  /** The limit never falls as time passes, and a moment that throws makes every later one throw. */
  lemma LimitNeverFalls(h: seq<SettlementRecord>, bonds: seq<BondEntry>, p: Params, t: int, t': int)
    requires t <= t'
    ensures LimitAt(h, bonds, p, t').Ok? ==>
              LimitAt(h, bonds, p, t).Ok? && LimitAt(h, bonds, p, t).value <= LimitAt(h, bonds, p, t').value
  {
    SettledExtends(h, t, t');
    MoreNeverLowers(SettledBy(h, t), SettledBy(h, t'), SettledBy(h, t'), bonds, bonds,
                    p.(evaluatedAt := t), p.(evaluatedAt := t'));
  }

  /** Evaluating the sorted, already settled records gives the same answer up to now. */
  lemma SortedGivesSame(h: seq<SettlementRecord>, bonds: seq<BondEntry>, p: Params, t: int, now: int)
    requires t <= now
    ensures LimitAt(SortByTime(SettledBy(h, now)), bonds, p, t) == LimitAt(h, bonds, p, t)
    ensures |SettledBy(SortByTime(SettledBy(h, now)), t)| == |SettledBy(h, t)|
  {
    SortByTimeFacts(SettledBy(h, now), t);
    SettledTwice(h, t, now);
    var a, b := SettledBy(SortByTime(SettledBy(h, now)), t), SettledBy(h, t);
    assert |multiset(a)| == |a| && |multiset(b)| == |b|;
    OrderDoesNotMatter(a, b, bonds, bonds, p.(evaluatedAt := t));
  }

  // ---------------------------------------------------------------- the times

  /** The keys of m between lo and hi, in increasing order. */
  function SortedKeys(m: map<int, Kind>, lo: int, hi: int): seq<int>
    decreases hi - lo + 1
  {
    if lo > hi then [] else (if lo in m then [lo] else []) + SortedKeys(m, lo + 1, hi)
  }

  ghost predicate Increasing(s: seq<int>) {
    forall i, j :: 0 <= i < j < |s| ==> s[i] < s[j]
  }

  lemma LowestFirst(lo: int, rest: seq<int>)
    requires Increasing(rest) && forall k :: k in rest ==> lo < k
    ensures Increasing([lo] + rest) && forall k :: k in [lo] + rest <==> k == lo || k in rest
  {
    assert forall i :: 0 <= i < |rest| ==> rest[i] in rest;
  }

  lemma {:induction false} SortedKeysFacts(m: map<int, Kind>, lo: int, hi: int)
    ensures forall k :: k in SortedKeys(m, lo, hi) <==> k in m && lo <= k <= hi
    ensures Increasing(SortedKeys(m, lo, hi))
    decreases hi - lo + 1
  {
    if lo <= hi {
      SortedKeysFacts(m, lo + 1, hi);
      var rest := SortedKeys(m, lo + 1, hi);
      LowestFirst(lo, rest);
    }
  }

  lemma {:induction false} KeyCount(s: seq<int>, keys: set<int>)
    requires Increasing(s) && forall k :: k in s ==> k in keys
    ensures |s| <= |keys|
  {
    if s != [] {
      assert s[0] in s;
      forall k | k in s[1..]
        ensures k in keys - {s[0]}
      {
        var i :| 0 <= i < |s[1..]| && s[1..][i] == k;
        assert s[i + 1] in s;
      }
      KeyCount(s[1..], keys - {s[0]});
    }
  }

  lemma FractionOf(span: int, i: int, parts: int)
    requires 0 < span && 0 < i < parts
    ensures 0 <= span * i / parts < span
  {
  }

  /** The settlements drawn are the last half of maxPoints, and never none. */
  function KeptFrom(count: nat, maxPoints: int): nat {
    Max(0, count - Max(1, maxPoints / 2))
  }

  /** What a moment other than now stands for: a kept settlement, the start, or an ageing point. */
  ghost function KindOf(kept: seq<SettlementRecord>, first: int, t: int): Kind {
    if exists i :: 0 <= i < |kept| && kept[i].settledAt == t then Settlement
    else if t == first - 1 then Start
    else Aging
  }

  ghost predicate Labelled(times: map<int, Kind>, kept: seq<SettlementRecord>, first: int) {
    forall t :: t in times ==> times[t] == KindOf(kept, first, t)
  }

  lemma LabelSettlement(times: map<int, Kind>, kept: seq<SettlementRecord>, i: nat, first: int)
    requires i < |kept| && Labelled(times, kept[..i], first)
    ensures Labelled(times[kept[i].settledAt := Settlement], kept[..i + 1], first)
  {
  }

  function TimesOf(kept: seq<SettlementRecord>): set<int> {
    if kept == [] then {} else TimesOf(kept[..|kept| - 1]) + {kept[|kept| - 1].settledAt}
  }

  /** The first i of the evenly spaced moments. */
  function EvenTimes(first: int, now: int, slots: nat, i: nat): set<int> {
    set k: nat | 1 <= k <= i :: AgingAt(first, now, slots, k)
  }

  lemma {:induction false} TimesOfFacts(kept: seq<SettlementRecord>)
    ensures |TimesOf(kept)| <= |kept|
    ensures forall i :: 0 <= i < |kept| ==> kept[i].settledAt in TimesOf(kept)
  {
    if kept != [] {
      TimesOfFacts(kept[..|kept| - 1]);
    }
  }

  /** Exactly the moments a curve shows: the start, the kept settlements, the evenly spaced ones that fit, now. */
  ghost function CurveMoments(settled: seq<SettlementRecord>, now: int, maxPoints: int): set<int> {
    if settled == [] then {now}
    else
      var first := settled[0].settledAt;
      var fixed := {first - 1} + TimesOf(settled[KeptFrom(|settled|, maxPoints)..]);
      var slots := Max(0, maxPoints - |fixed| - 1);
      fixed + EvenTimes(first, now, slots, if first < now then slots else 0) + {now}
  }

  /** Evenly spaced: the i-th of `slots` moments splits the span in proportion, floored to a second. */
  ghost predicate EvenlyAt(first: int, now: int, slots: nat, i: nat, t: int) {
    (slots + 1) * (t - first) <= (now - first) * i < (slots + 1) * (t - first) + (slots + 1)
  }

  lemma AgingIsEven(first: int, now: int, slots: nat, i: nat, t: int)
    ensures t == AgingAt(first, now, slots, i) <==> EvenlyAt(first, now, slots, i, t)
  {
    QuotientIs((now - first) * i, slots + 1, t - first);
  }

  lemma QuotientIs(a: int, d: int, q: int)
    requires d > 0
    ensures a / d == q <==> d * q <= a < d * q + d
  {
    var p := a / d;
    assert d * p <= a < d * p + d;
    if d * q <= a < d * q + d && p != q {
      if p < q {
        MulMonotone(d, p + 1, q);
      } else {
        MulMonotone(d, q + 1, p);
      }
    }
  }

  lemma EvenTimesAre(first: int, now: int, slots: nat, n: nat, t: int)
    ensures t in EvenTimes(first, now, slots, n) <==> exists i: nat :: 1 <= i <= n && EvenlyAt(first, now, slots, i, t)
  {
    forall i: nat | 1 <= i <= n
      ensures t == AgingAt(first, now, slots, i) <==> EvenlyAt(first, now, slots, i, t)
    {
      AgingIsEven(first, now, slots, i, t);
    }
  }

  /** The settlements kept are the last half of maxPoints, at least one, or all there are. */
  lemma KeptAre(count: nat, maxPoints: int)
    ensures KeptFrom(count, maxPoints) <= count
    ensures count > 0 ==> 1 <= count - KeptFrom(count, maxPoints)
    ensures maxPoints >= 2 ==> 2 * (count - KeptFrom(count, maxPoints)) <= maxPoints
    ensures KeptFrom(count, maxPoints) > 0 && maxPoints >= 2 ==>
          maxPoints < 2 * (count - KeptFrom(count, maxPoints)) + 2
    ensures maxPoints < 2 && count > 0 ==> count - KeptFrom(count, maxPoints) == 1
  {
  }

  lemma {:induction false} TimesAre(kept: seq<SettlementRecord>, t: int)
    ensures t in TimesOf(kept) <==> exists r :: r in kept && r.settledAt == t
  {
    if kept != [] {
      var rest, last := kept[..|kept| - 1], kept[|kept| - 1];
      TimesAre(rest, t);
      assert kept == rest + [last];
      assert last in kept;
    }
  }

  /**
   * The moments of a curve, one by one: now, a second before the first settlement, each kept
   * settlement, and the evenly spaced ones that the room left allows.
   */
  lemma MomentsAre(settled: seq<SettlementRecord>, now: int, maxPoints: int, t: int)
    requires settled != []
    ensures
      var first, kept := settled[0].settledAt, settled[KeptFrom(|settled|, maxPoints)..];
      var slots := Max(0, maxPoints - |{first - 1} + TimesOf(kept)| - 1);
      t in CurveMoments(settled, now, maxPoints) <==>
        || t == now || t == first - 1 || (exists r :: r in kept && r.settledAt == t)
        || (first < now && t in EvenTimes(first, now, slots, slots))
  {
    var first, kept := settled[0].settledAt, settled[KeptFrom(|settled|, maxPoints)..];
    var slots := Max(0, maxPoints - |{first - 1} + TimesOf(kept)| - 1);
    MomentIn(settled, now, maxPoints, t, first, kept, slots);
    TimesAre(kept, t);
  }

  lemma MomentIn(settled: seq<SettlementRecord>, now: int, maxPoints: int, t: int, first: int,
      kept: seq<SettlementRecord>, slots: nat)
    requires settled != [] && first == settled[0].settledAt
    requires kept == settled[KeptFrom(|settled|, maxPoints)..]
    requires slots == Max(0, maxPoints - |{first - 1} + TimesOf(kept)| - 1)
    ensures t in CurveMoments(settled, now, maxPoints) <==>
              || t == now || t == first - 1 || t in TimesOf(kept)
              || (first < now && t in EvenTimes(first, now, slots, slots))
  {
  }

  /** The start and the kept settlements. */
  method SettlementTimes(kept: seq<SettlementRecord>, first: int, now: int) returns (times: map<int, Kind>)
    requires first <= now && forall i :: 0 <= i < |kept| ==> first <= kept[i].settledAt <= now
    ensures times.Keys == {first - 1} + TimesOf(kept) && Labelled(times, kept, first)
    ensures forall t :: t in times ==> first - 1 <= t <= now
  {
    times := map[first - 1 := Start];
    for i := 0 to |kept|
      invariant times.Keys == {first - 1} + TimesOf(kept[..i])
      invariant Labelled(times, kept[..i], first)
      invariant forall t :: t in times ==> first - 1 <= t <= now
    {
      LabelSettlement(times, kept, i, first);
      assert kept[..i + 1][..i] == kept[..i];
      times := times[kept[i].settledAt := Settlement];
    }
    assert kept[..|kept|] == kept;
  }

  /** Fills the slots that are left with moments a constant fraction of the span apart. */
  method AgingTimes(before: map<int, Kind>, kept: seq<SettlementRecord>, first: int, now: int, slots: nat)
      returns (times: map<int, Kind>)
    requires first <= now && first - 1 in before && Labelled(before, kept, first)
    requires forall t :: t in before ==> first - 1 <= t <= now
    requires forall i :: 0 <= i < |kept| ==> kept[i].settledAt in before
    ensures |times| <= |before.Keys| + slots && Labelled(times, kept, first)
    ensures times.Keys == before.Keys + EvenTimes(first, now, slots, if first < now then slots else 0)
    ensures forall t :: t in times ==> first - 1 <= t <= now
  {
    times := before;
    var span := now - first;
    if span > 0 && slots > 0 {
      for i := 1 to slots + 1
        invariant AgedTo(times, before, kept, first, now, slots, i - 1)
      {
        var time := EvenMoment(first, now, slots, i);
        AgedNext(times, before, kept, first, now, slots, i, time);
        if time !in times {
          times := times[time := Aging];
        }
      }
    }
  }

  /** The first i of the evenly spaced moments are in, and no moment has changed kind. */
  ghost predicate AgedTo(times: map<int, Kind>, before: map<int, Kind>, kept: seq<SettlementRecord>, first: int,
      now: int, slots: nat, i: nat) {
    && |times| <= |before.Keys| + i && Labelled(times, kept, first)
    && times.Keys == before.Keys + EvenTimes(first, now, slots, i)
    && forall t :: t in times ==> first - 1 <= t <= now
  }

  lemma AgedNext(times: map<int, Kind>, before: map<int, Kind>, kept: seq<SettlementRecord>, first: int, now: int,
      slots: nat, i: nat, time: int)
    requires i > 0 && AgedTo(times, before, kept, first, now, slots, i - 1)
    requires time == AgingAt(first, now, slots, i) && first <= time <= now
    requires first - 1 in before && forall k :: 0 <= k < |kept| ==> kept[k].settledAt in before
    ensures AgedTo(if time in times then times else times[time := Aging], before, kept, first, now, slots, i)
  {
  }

  /** The i-th of the evenly spaced moments: first + span * i / (slots + 1). */
  function AgingAt(first: int, now: int, slots: nat, i: nat): int {
    first + (now - first) * i / (slots + 1)
  }

  method EvenMoment(first: int, now: int, slots: nat, i: nat) returns (time: int)
    requires first < now && 0 < i <= slots
    ensures time == AgingAt(first, now, slots, i) && first <= time < now
  {
    var span := now - first;
    FractionOf(span, i, slots + 1);
    return first + span * i / (slots + 1);
  }

  /** The moments a curve is drawn at: start, the most recent settlements, ageing points, now. */
  method CurveTimes(settled: seq<SettlementRecord>, now: int, maxPoints: int) returns (times: map<int, Kind>)
    requires settled != [] && Ascending(settled) && forall r :: r in settled ==> r.settledAt <= now
    ensures |times| <= Max(3, maxPoints) && times.Keys == CurveMoments(settled, now, maxPoints)
    ensures settled[0].settledAt - 1 in times && now in times && times[now] == Now
    ensures Labelled(times - {now}, settled[KeptFrom(|settled|, maxPoints)..], settled[0].settledAt)
    ensures forall t :: t in times ==> settled[0].settledAt - 1 <= t <= now
  {
    var first := settled[0].settledAt;
    var kept := settled[KeptFrom(|settled|, maxPoints)..];
    KeptFacts(settled, kept, now, maxPoints);
    times := SettlementTimes(kept, first, now);
    FixedCount(kept, first, times.Keys);
    CountFits(|times.Keys|, |kept|, maxPoints);
    var agingSlots := Max(0, maxPoints - |times.Keys| - 1);
    times := AgingTimes(times, kept, first, now, agingSlots);
    NowAdded(times, kept, first, now);
    times := times[now := Now];
  }

  lemma CountFits(fixed: nat, kept: nat, maxPoints: int)
    requires fixed <= 1 + kept && kept <= Max(1, maxPoints / 2)
    ensures fixed + Max(0, maxPoints - fixed - 1) + 1 <= Max(3, maxPoints)
  {
  }

  lemma KeptFacts(settled: seq<SettlementRecord>, kept: seq<SettlementRecord>, now: int, maxPoints: int)
    requires settled != [] && Ascending(settled) && (forall r :: r in settled ==> r.settledAt <= now)
    requires kept == settled[KeptFrom(|settled|, maxPoints)..]
    ensures settled[0].settledAt <= now && |kept| <= Max(1, maxPoints / 2)
    ensures forall i :: 0 <= i < |kept| ==> settled[0].settledAt <= kept[i].settledAt <= now
  {
  }

  lemma FixedCount(kept: seq<SettlementRecord>, first: int, fixed: set<int>)
    requires fixed == {first - 1} + TimesOf(kept)
    ensures |fixed| <= 1 + |kept|
    ensures forall i :: 0 <= i < |kept| ==> kept[i].settledAt in fixed
  {
    TimesOfFacts(kept);
    assert fixed == TimesOf(kept) + {first - 1};
  }

  lemma NowAdded(times: map<int, Kind>, kept: seq<SettlementRecord>, first: int, now: int)
    requires Labelled(times, kept, first)
    ensures Labelled(times[now := Now] - {now}, kept, first)
    ensures times[now := Now].Keys == times.Keys + {now} && |times[now := Now]| <= |times| + 1
  {
  }

  // ---------------------------------------------------------------- the curve

  /** A point is the computation at its own moment. */
  ghost predicate PointOf(point: CurvePoint, h: seq<SettlementRecord>, bonds: seq<BondEntry>, p: Params) {
    LimitAt(h, bonds, p, point.at) == Ok(point.limit) && point.settlements == |SettledBy(h, point.at)|
  }

  ghost predicate PointsOf(points: seq<CurvePoint>, h: seq<SettlementRecord>, bonds: seq<BondEntry>, p: Params) {
    forall i :: 0 <= i < |points| ==> PointOf(points[i], h, bonds, p)
  }

  /** Times increase strictly and limits never fall. */
  ghost predicate Rising(points: seq<CurvePoint>) {
    forall i, j :: 0 <= i < j < |points| ==> points[i].at < points[j].at && points[i].limit <= points[j].limit
  }

  /** One point, as the inner function `at` computes it. */
  method PointAt(settled: seq<SettlementRecord>, bonds: seq<BondEntry>, p: Params, time: int, kind: Kind)
      returns (r: Result<CurvePoint, CreditError>)
    ensures LimitAt(settled, bonds, p, time).Ok? ==>
              r == Ok(CurvePoint(time, LimitAt(settled, bonds, p, time).value, |SettledBy(settled, time)|, kind))
    ensures LimitAt(settled, bonds, p, time).Err? ==> r == Err(LimitAt(settled, bonds, p, time).error)
  {
    var prefix := SettledBy(settled, time);
    var limit := CreditLimit.CreditLimit(prefix, bonds, p.(evaluatedAt := time));
    if limit.Err? {
      return Err(limit.error);
    }
    return Ok(CurvePoint(time, limit.value, |prefix|, kind));
  }

  /** The i-th moment is the first that throws, and this is what it throws. */
  ghost predicate FailsFirst(h: seq<SettlementRecord>, bonds: seq<BondEntry>, p: Params, ordered: seq<int>, i: nat,
      error: CreditError)
    requires i < |ordered|
  {
    && LimitAt(h, bonds, p, ordered[i]).Err? && LimitAt(h, bonds, p, ordered[i]).error == error
    && forall j :: 0 <= j < i ==> LimitAt(h, bonds, p, ordered[j]).Ok?
  }

  /** The error of the earliest moment of the curve that has one. */
  ghost predicate EarliestError(h: seq<SettlementRecord>, bonds: seq<BondEntry>, p: Params, moments: set<int>,
      error: CreditError) {
    exists t :: t in moments && LimitAt(h, bonds, p, t).Err? && LimitAt(h, bonds, p, t).error == error
      && forall u :: u in moments && u < t ==> LimitAt(h, bonds, p, u).Ok?
  }

  lemma BeforeIndex(ordered: seq<int>, i: nat, u: int)
    requires Increasing(ordered) && i < |ordered| && u in ordered && u < ordered[i]
    ensures u in ordered[..i]
  {
  }

  lemma OkBefore(h: seq<SettlementRecord>, settled: seq<SettlementRecord>, bonds: seq<BondEntry>, p: Params,
      done: seq<int>, now: int, u: int)
    requires settled == SortByTime(SettledBy(h, now)) && u in done && u <= now
    requires forall j :: 0 <= j < |done| ==> LimitAt(settled, bonds, p, done[j]).Ok?
    ensures LimitAt(h, bonds, p, u).Ok?
  {
    var j :| 0 <= j < |done| && done[j] == u;
    assert LimitAt(settled, bonds, p, done[j]).Ok?;
    SortedGivesSame(h, bonds, p, u, now);
  }

  lemma FirstIsEarliest(h: seq<SettlementRecord>, settled: seq<SettlementRecord>, bonds: seq<BondEntry>, p: Params,
      ordered: seq<int>, i: nat,
                        moments: set<int>, now: int, error: CreditError)
    requires settled == SortByTime(SettledBy(h, now)) && i < |ordered| && Increasing(ordered)
    requires (forall t :: t in ordered <==> t in moments) && forall t :: t in ordered ==> t <= now
    requires FailsFirst(settled, bonds, p, ordered, i, error)
    ensures EarliestError(h, bonds, p, moments, error)
  {
    var t := ordered[i];
    assert t in ordered;
    forall u | u in moments && u < t
      ensures LimitAt(h, bonds, p, u).Ok?
    {
      BeforeIndex(ordered, i, u);
      OkBefore(h, settled, bonds, p, ordered[..i], now, u);
    }
    SortedGivesSame(h, bonds, p, t, now);
  }

  /** One point per time, or the first error. */
  method Draw(settled: seq<SettlementRecord>, bonds: seq<BondEntry>, p: Params, times: map<int, Kind>,
      ordered: seq<int>)
    returns (r: Result<seq<CurvePoint>, CreditError>)
    requires forall i :: 0 <= i < |ordered| ==> ordered[i] in times
    ensures r.Err? <==> exists i :: 0 <= i < |ordered| && LimitAt(settled, bonds, p, ordered[i]).Err?
    ensures r.Err? ==> exists i :: 0 <= i < |ordered| && FailsFirst(settled, bonds, p, ordered, i, r.error)
    ensures r.Ok? ==> |r.value| == |ordered| && PointsOf(r.value, settled, bonds, p)
    ensures r.Ok? ==> forall i :: 0 <= i < |ordered| ==>
          r.value[i].at == ordered[i] && r.value[i].kind == times[ordered[i]]
  {
    var points: seq<CurvePoint> := [];
    for i := 0 to |ordered|
      invariant |points| == i && PointsOf(points, settled, bonds, p)
      invariant forall j :: 0 <= j < i ==> points[j].at == ordered[j] && points[j].kind == times[ordered[j]]
    {
      var point := PointAt(settled, bonds, p, ordered[i], times[ordered[i]]);
      if point.Err? {
        assert forall j :: 0 <= j < i ==> PointOf(points[j], settled, bonds, p);
        assert FailsFirst(settled, bonds, p, ordered, i, point.error);
        return Err(point.error);
      }
      assert PointOf(point.value, settled, bonds, p);
      points := points + [point.value];
    }
    forall i | 0 <= i < |ordered|
      ensures LimitAt(settled, bonds, p, ordered[i]).Ok?
    {
      assert PointOf(points[i], settled, bonds, p);
    }
    r := Ok(points);
  }

  /** Whether every moment up to now is computable is decided at now. */
  lemma DecidedAtNow(settled: seq<SettlementRecord>, bonds: seq<BondEntry>, p: Params, ordered: seq<int>, now: int)
    requires now in ordered && forall t :: t in ordered ==> t <= now
    ensures LimitAt(settled, bonds, p, now).Err? <==> exists i ::
          0 <= i < |ordered| && LimitAt(settled, bonds, p, ordered[i]).Err?
  {
    forall i | 0 <= i < |ordered|
      ensures LimitAt(settled, bonds, p, now).Ok? ==> LimitAt(settled, bonds, p, ordered[i]).Ok?
    {
      assert ordered[i] in ordered;
      LimitNeverFalls(settled, bonds, p, ordered[i], now);
    }
  }

  lemma PointsRise(points: seq<CurvePoint>, h: seq<SettlementRecord>, bonds: seq<BondEntry>, p: Params)
    requires PointsOf(points, h, bonds, p)
    requires forall i, j :: 0 <= i < j < |points| ==> points[i].at < points[j].at
    ensures Rising(points)
  {
    forall i, j | 0 <= i < j < |points|
      ensures points[i].limit <= points[j].limit
    {
      assert PointOf(points[i], h, bonds, p) && PointOf(points[j], h, bonds, p);
      LimitNeverFalls(h, bonds, p, points[i].at, points[j].at);
    }
  }

  /** Points over the sorted records are points over the history itself. */
  lemma PointsOfHistory(points: seq<CurvePoint>, h: seq<SettlementRecord>, bonds: seq<BondEntry>, p: Params, now: int)
    requires PointsOf(points, SortByTime(SettledBy(h, now)), bonds, p)
    requires forall i :: 0 <= i < |points| ==> points[i].at <= now
    ensures PointsOf(points, h, bonds, p)
  {
    forall i | 0 <= i < |points|
      ensures PointOf(points[i], h, bonds, p)
    {
      assert PointOf(points[i], SortByTime(SettledBy(h, now)), bonds, p);
      SortedGivesSame(h, bonds, p, points[i].at, now);
    }
  }

  ghost predicate Shown(points: seq<CurvePoint>, t: int) {
    exists j :: 0 <= j < |points| && points[j].at == t
  }

  /**
   * The curve. It throws exactly when the point at now does; otherwise its times increase
   * strictly and end at now, its limits never fall, each point is the reference
   * limit of its own time, and there are at most maxPoints of them (never fewer
   * than the three a very small maxPoints cannot avoid).
   */
  method Curve(history: seq<SettlementRecord>, bonds: seq<BondEntry>, p: Params, now: int, maxPoints: int)
    returns (r: Result<seq<CurvePoint>, CreditError>)
    ensures r.Ok? <==> LimitAt(history, bonds, p, now).Ok?
    ensures r.Ok? ==> 0 < |r.value| <= Max(3, maxPoints) && PointsOf(r.value, history, bonds, p) && Rising(r.value)
    ensures r.Ok? ==> r.value[|r.value| - 1].at == now && r.value[|r.value| - 1].kind == Now
    ensures r.Ok? && SettledBy(history, now) != [] ==> r.value[0].settlements == 0
    ensures r.Ok? ==> forall t :: Shown(r.value, t) <==>
          t in CurveMoments(SortByTime(SettledBy(history, now)), now, maxPoints)
    ensures r.Err? ==>
          EarliestError(history, bonds, p, CurveMoments(SortByTime(SettledBy(history, now)), now, maxPoints), r.error)
    ensures r.Ok? ==> KindsOf(r.value, SortByTime(SettledBy(history, now)), now, maxPoints)
    ensures r.Ok? && SettledBy(history, now) != [] ==> r.value[0].kind == Start
  {
    var settled := SortByTime(SettledBy(history, now));
    SettledFacts(history, now);
    var times, ordered := Moments(settled, now, maxPoints);
    r := Draw(settled, bonds, p, times, ordered);
    DecidedAtNow(settled, bonds, p, ordered, now);
    SortedGivesSame(history, bonds, p, now, now);
    if r.Ok? {
      CurveFacts(r.value, history, bonds, p, now, maxPoints, settled, ordered);
      LabelsAreKinds(r.value, times, settled, now, maxPoints);
      StartsAsStart(r.value, history, settled, now, maxPoints);
    } else {
      ghost var i :| 0 <= i < |ordered| && FailsFirst(settled, bonds, p, ordered, i, r.error);
      FirstIsEarliest(history, settled, bonds, p, ordered, i, CurveMoments(settled, now, maxPoints), now, r.error);
    }
  }

  /** The sorted moments of a curve over these records. */
  ghost predicate MomentsOf(ordered: seq<int>, settled: seq<SettlementRecord>, now: int, maxPoints: int) {
    && 0 < |ordered| <= Max(3, maxPoints) && Increasing(ordered)
    && ordered[|ordered| - 1] == now && (forall t :: t in ordered ==> t <= now)
    && (settled != [] ==> ordered[0] == settled[0].settledAt - 1)
    && forall t :: t in ordered <==> t in CurveMoments(settled, now, maxPoints)
  }

  method Moments(settled: seq<SettlementRecord>, now: int, maxPoints: int)
      returns (times: map<int, Kind>, ordered: seq<int>)
    requires Ascending(settled) && forall r :: r in settled ==> r.settledAt <= now
    ensures MomentsOf(ordered, settled, now, maxPoints)
    ensures now in times && times[now] == Now && forall t :: t in ordered ==> t in times
    ensures settled == [] ==> ordered == [now]
    ensures settled != [] ==> Labelled(times - {now}, settled[KeptFrom(|settled|, maxPoints)..], settled[0].settledAt)
  {
    if settled == [] {
      return map[now := Now], [now];
    }
    times := CurveTimes(settled, now, maxPoints);
    ordered := SortedKeys(times, settled[0].settledAt - 1, now);
    SortedKeysFacts(times, settled[0].settledAt - 1, now);
    KeyCount(ordered, times.Keys);
    EndsOfCurve(ordered, settled[0].settledAt - 1, now);
  }

  /** Each point says what it stands for. */
  ghost predicate KindsOf(points: seq<CurvePoint>, settled: seq<SettlementRecord>, now: int, maxPoints: int) {
    forall i :: 0 <= i < |points| ==>
      points[i].kind ==
        if points[i].at == now || settled == [] then Now
        else KindOf(settled[KeptFrom(|settled|, maxPoints)..], settled[0].settledAt, points[i].at)
  }

  lemma LabelsAreKinds(points: seq<CurvePoint>, times: map<int, Kind>, settled: seq<SettlementRecord>, now: int,
      maxPoints: int)
    requires forall i :: 0 <= i < |points| ==> points[i].at in times && points[i].kind == times[points[i].at]
    requires now in times && times[now] == Now && (settled == [] ==> forall i :: 0 <= i < |points| ==>
          points[i].at == now)
    requires settled != [] ==> Labelled(times - {now}, settled[KeptFrom(|settled|, maxPoints)..], settled[0].settledAt)
    ensures KindsOf(points, settled, now, maxPoints)
  {
  }

  lemma StartsAsStart(points: seq<CurvePoint>, h: seq<SettlementRecord>, settled: seq<SettlementRecord>, now: int,
      maxPoints: int)
    requires points != [] && KindsOf(points, settled, now, maxPoints) && Ascending(settled)
    requires settled == SortByTime(SettledBy(h, now)) && forall r :: r in settled ==> r.settledAt <= now
    requires settled != [] ==> points[0].at == settled[0].settledAt - 1
    ensures SettledBy(h, now) != [] ==> points[0].kind == Start
  {
    if settled == [] {
      NothingSettled(h, now);
    } else {
      assert settled[0] in settled;
      KindIs(settled[KeptFrom(|settled|, maxPoints)..], settled[0].settledAt, points[0].at);
    }
  }

  /** A kept settlement's own time is its point; a second before the first of all is the start; the rest are ageing. */
  lemma KindIs(kept: seq<SettlementRecord>, first: int, t: int)
    ensures KindOf(kept, first, t) == Settlement <==> exists r :: r in kept && r.settledAt == t
    ensures (forall r :: r in kept ==> first <= r.settledAt) ==> (KindOf(kept, first, t) == Start <==> t == first - 1)
    ensures KindOf(kept, first, t) != Now
  {
  }

  lemma SettledFacts(h: seq<SettlementRecord>, now: int)
    ensures Ascending(SortByTime(SettledBy(h, now)))
    ensures forall r :: r in SortByTime(SettledBy(h, now)) ==> r.settledAt <= now
  {
    SortByTimeFacts(SettledBy(h, now), now);
    SettledTwice(h, now, now);
  }

  lemma CurveFacts(
    points: seq<CurvePoint>, h: seq<SettlementRecord>, bonds: seq<BondEntry>, p: Params, now: int, maxPoints: int,
    settled: seq<SettlementRecord>, ordered: seq<int>)
    requires settled == SortByTime(SettledBy(h, now)) && Ascending(settled)
    requires MomentsOf(ordered, settled, now, maxPoints) && |points| == |ordered|
    requires forall i :: 0 <= i < |ordered| ==> points[i].at == ordered[i]
    requires PointsOf(points, settled, bonds, p)
    ensures PointsOf(points, h, bonds, p) && Rising(points)
    ensures SettledBy(h, now) != [] ==> points[0].settlements == 0
    ensures forall t :: Shown(points, t) <==> t in CurveMoments(settled, now, maxPoints)
  {
    assert forall i :: 0 <= i < |ordered| ==> ordered[i] in ordered;
    PointsRise(points, settled, bonds, p);
    PointsOfHistory(points, h, bonds, p, now);
    if settled == [] {
      NothingSettled(h, now);
    } else {
      StartsEmpty(points, settled, bonds, p);
    }
    MomentsAreShown(points, ordered);
  }

  lemma StartsEmpty(points: seq<CurvePoint>, settled: seq<SettlementRecord>, bonds: seq<BondEntry>, p: Params)
    requires points != [] && PointsOf(points, settled, bonds, p)
    requires settled != [] && Ascending(settled) && points[0].at == settled[0].settledAt - 1
    ensures points[0].settlements == 0
  {
    NoneBefore(settled, points[0].at);
    assert PointOf(points[0], settled, bonds, p);
  }

  lemma MomentsAreShown(points: seq<CurvePoint>, ordered: seq<int>)
    requires |points| == |ordered| && forall i :: 0 <= i < |ordered| ==> points[i].at == ordered[i]
    ensures forall t :: Shown(points, t) <==> t in ordered
  {
  }

  lemma NothingSettled(h: seq<SettlementRecord>, now: int)
    requires SortByTime(SettledBy(h, now)) == []
    ensures SettledBy(h, now) == []
  {
  }

  lemma {:induction false} NoneBefore(settled: seq<SettlementRecord>, t: int)
    requires forall r :: r in settled ==> t < r.settledAt
    ensures SettledBy(settled, t) == []
  {
    if settled != [] {
      NoneBefore(settled[1..], t);
    }
  }

  lemma EndsOfCurve(ordered: seq<int>, lo: int, hi: int)
    requires Increasing(ordered)
    requires lo in ordered && hi in ordered && forall k :: k in ordered ==> lo <= k <= hi
    ensures ordered[0] == lo && ordered[|ordered| - 1] == hi
  {
    var i :| 0 <= i < |ordered| && ordered[i] == lo;
    var j :| 0 <= j < |ordered| && ordered[j] == hi;
    assert ordered[0] in ordered && ordered[|ordered| - 1] in ordered;
  }
}
