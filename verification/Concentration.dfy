/**
 * The concentration cap of the Credit Limit (apps/registry/src/credit.ts:234-260).
 *
 * The cap is meant to solve L = baseline + sum of min(c_i, L / 4), so that each counterparty's
 * share stays within L / 4. Here that meaning is written down first (Feasible, IsGreatest,
 * RealCap), and the short closed-form loop the code runs is proved to compute it for every list
 * of contributions.
 */
module Concentration {
  import opened Sums

  // ------------------------------------------------------------------ meaning

  /** The sum of what each contribution may add when the result is m, in quarters. */
  function ShareSum(c: seq<nat>, m: nat): nat {
    if c == [] then 0 else Min(4 * c[0], m) + ShareSum(c[1..], m)
  }

  /** A result m is feasible when baseline plus the capped contributions reaches it. */
  predicate Feasible(c: seq<nat>, baseline: nat, m: nat) {
    4 * m <= 4 * baseline + ShareSum(c, m)
  }

  ghost predicate IsGreatest(c: seq<nat>, baseline: nat, m: nat) {
    && Feasible(c, baseline, m)
    && forall x: nat :: Feasible(c, baseline, x) ==> x <= m
  }

  /** sum of min(c_i, q), over the reals. */
  ghost function RealShares(c: seq<nat>, q: real): real {
    if c == [] then 0.0
    else (if c[0] as real <= q then c[0] as real else q) + RealShares(c[1..], q)
  }

  /** y is a solution of y = baseline + sum of min(c_i, y / 4). */
  ghost predicate Solves(c: seq<nat>, baseline: nat, y: real) {
    y >= 0.0 && y == baseline as real + RealShares(c, y / 4.0)
  }

  /** x is the largest real solution. There can be several: with baseline 0 zero is always one. */
  ghost predicate RealCap(c: seq<nat>, baseline: nat, x: real) {
    Solves(c, baseline, x) && forall y: real :: Solves(c, baseline, y) ==> y <= x
  }

  // --------------------------------------------------------------- candidates

  ghost predicate Descending(c: seq<nat>) {
    forall i, j :: 0 <= i < j < |c| ==> c[i] >= c[j]
  }

  /** Four times the sum of the baseline and the contributions left uncapped. */
  function Numerator(c: seq<nat>, baseline: nat, k: nat): nat
    requires k <= |c|
  {
    4 * (baseline + Sum(c[k..]))
  }

  /** a / (4 - k), with each of the four divisors written out. */
  function Quotient(a: nat, k: nat): nat
    requires k <= 3
  {
    if k == 0 then a / 4 else if k == 1 then a / 3 else if k == 2 then a / 2 else a
  }

  lemma QuotientIsDivision(a: nat, k: nat)
    requires k <= 3
    ensures Quotient(a, k) == a / (4 - k)
  {
  }

  /** L_k = 4 * (baseline + tail_k) / (4 - k), multiplied before it is divided. */
  function Candidate(c: seq<nat>, baseline: nat, k: nat): nat
    requires k <= |c| && k <= 3
  {
    Quotient(Numerator(c, baseline, k), k)
  }

  /** The k-th candidate before it is rounded down. */
  ghost function Unrounded(a: nat, k: nat): real
    requires k <= 3
  {
    if k == 0 then a as real / 4.0
    else if k == 1 then a as real / 3.0
    else if k == 2 then a as real / 2.0
    else a as real
  }

  lemma UnroundedFloor(a: nat, k: nat)
    requires k <= 3
    ensures Unrounded(a, k).Floor == Quotient(a, k)
    ensures Quotient(a, k) as real <= Unrounded(a, k)
  {
  }

  /** q added k times. */
  ghost function Repeat(k: nat, q: real): real {
    if k == 0 then 0.0 else q + Repeat(k - 1, q)
  }

  lemma {:induction false} SharesAtMost(c: seq<nat>, q: real, k: nat)
    requires k <= |c| && q >= 0.0
    ensures RealShares(c, q) <= Repeat(k, q) + Sum(c[k..]) as real
  {
    if k == 0 {
      assert c[0..] == c;
      if c != [] {
        SharesAtMost(c[1..], q, 0);
        assert c[1..][0..] == c[1..];
      }
    } else {
      SharesAtMost(c[1..], q, k - 1);
      assert c[1..][k - 1..] == c[k..];
    }
  }

  /** With the first k contributions at the cap and the rest under it, the bound is met exactly. */
  lemma {:induction false} SharesExactly(c: seq<nat>, q: real, k: nat)
    requires k <= |c| && q >= 0.0
    requires forall i :: 0 <= i < k ==> c[i] as real >= q
    requires forall i :: k <= i < |c| ==> c[i] as real <= q
    ensures RealShares(c, q) == Repeat(k, q) + Sum(c[k..]) as real
  {
    if k == 0 {
      assert c[0..] == c;
      if c != [] {
        SharesExactly(c[1..], q, 0);
        assert c[1..][0..] == c[1..];
      }
    } else {
      SharesExactly(c[1..], q, k - 1);
      assert c[1..][k - 1..] == c[k..];
    }
  }

  lemma {:induction false} QuarterShares(c: seq<nat>, m: nat)
    ensures ShareSum(c, m) as real == 4.0 * RealShares(c, m as real / 4.0)
  {
    if c != [] {
      QuarterShares(c[1..], m);
    }
  }

  lemma SolveForCandidate(y: real, baseline: nat, tail: nat, k: nat)
    requires k <= 3
    ensures y <= baseline as real + Repeat(k, y / 4.0) + tail as real <==> y <= Unrounded(4 * (baseline + tail), k)
    ensures y == baseline as real + Repeat(k, y / 4.0) + tail as real <==> y == Unrounded(4 * (baseline + tail), k)
  {
    assert Repeat(0, y / 4.0) == 0.0;
    assert Repeat(1, y / 4.0) == y / 4.0;
    assert Repeat(2, y / 4.0) == y / 2.0;
    assert Repeat(3, y / 4.0) == 3.0 * (y / 4.0);
    assert k == 0 || k == 1 || k == 2 || k == 3;
  }

  /** No value that baseline and the shares reach, integer or real, exceeds any candidate. */
  lemma CandidateIsBound(c: seq<nat>, baseline: nat, k: nat, y: real)
    requires k <= |c| && k <= 3 && y >= 0.0
    requires y <= baseline as real + RealShares(c, y / 4.0)
    ensures y <= Unrounded(Numerator(c, baseline, k), k)
  {
    SharesAtMost(c, y / 4.0, k);
    SolveForCandidate(y, baseline, Sum(c[k..]), k);
  }

  lemma FeasibleBelowCandidate(c: seq<nat>, baseline: nat, k: nat, m: nat)
    requires k <= |c| && k <= 3 && Feasible(c, baseline, m)
    ensures m <= Candidate(c, baseline, k)
  {
    QuarterShares(c, m);
    CandidateIsBound(c, baseline, k, m as real);
    UnroundedFloor(Numerator(c, baseline, k), k);
  }

  /** The two tests of the loop: the k largest are at the cap, the others under it. */
  predicate TopAtCap(c: seq<nat>, baseline: nat, k: nat)
    requires k <= |c| && k <= 3
  {
    k == 0 || c[k - 1] * 4 >= Candidate(c, baseline, k)
  }

  predicate RestUnderCap(c: seq<nat>, baseline: nat, k: nat)
    requires k <= |c| && k <= 3
  {
    k == |c| || c[k] * 4 <= Candidate(c, baseline, k)
  }

  /** A candidate passing both tests is feasible: its shares add up to exactly the bound. */
  lemma AcceptedIsFeasible(c: seq<nat>, baseline: nat, k: nat)
    requires Descending(c) && k <= |c| && k <= 3
    requires TopAtCap(c, baseline, k) && RestUnderCap(c, baseline, k)
    ensures Feasible(c, baseline, Candidate(c, baseline, k))
  {
    var m := Candidate(c, baseline, k);
    forall i | 0 <= i < k
      ensures c[i] as real >= m as real / 4.0
    {
      assert c[i] >= c[k - 1];
    }
    forall i | k <= i < |c|
      ensures c[i] as real <= m as real / 4.0
    {
      assert c[i] <= c[k];
    }
    SharesExactly(c, m as real / 4.0, k);
    QuarterShares(c, m);
    UnroundedFloor(Numerator(c, baseline, k), k);
    SolveForCandidate(m as real, baseline, Sum(c[k..]), k);
  }

  /** A candidate passing both tests is the greatest feasible integer. */
  lemma AcceptedIsGreatest(c: seq<nat>, baseline: nat, k: nat)
    requires Descending(c) && k <= |c| && k <= 3
    requires TopAtCap(c, baseline, k) && RestUnderCap(c, baseline, k)
    ensures IsGreatest(c, baseline, Candidate(c, baseline, k))
  {
    AcceptedIsFeasible(c, baseline, k);
    forall x: nat | Feasible(c, baseline, x)
      ensures x <= Candidate(c, baseline, k)
    {
      FeasibleBelowCandidate(c, baseline, k, x);
    }
  }

  /**
   * Moving past a candidate that failed only the second test: the next one is no larger, and
   * its own first test holds, even before rounding.
   */
  lemma StepDown(c: seq<nat>, baseline: nat, k: nat)
    requires k < |c| && k < 3 && !RestUnderCap(c, baseline, k)
    ensures Candidate(c, baseline, k + 1) <= Candidate(c, baseline, k)
    ensures TopAtCap(c, baseline, k + 1)
    ensures c[k] as real >= Unrounded(Numerator(c, baseline, k + 1), k + 1) / 4.0
  {
  }

  /** The third candidate always passes the second test, so the scan cannot run off the end. */
  lemma ThirdCandidateRests(c: seq<nat>, baseline: nat)
    requires |c| >= 3
    ensures RestUnderCap(c, baseline, 3)
  {
  }

  // -------------------------------------------------------------- the sorting

  function Insert(x: nat, s: seq<nat>): seq<nat> {
    if s == [] || x >= s[0] then [x] + s else [s[0]] + Insert(x, s[1..])
  }

  /** The contributions from largest to smallest. */
  function SortDescending(s: seq<nat>): seq<nat> {
    if s == [] then [] else Insert(s[0], SortDescending(s[1..]))
  }

  lemma {:induction false} InsertSorted(x: nat, s: seq<nat>)
    requires Descending(s)
    ensures Descending(Insert(x, s))
    ensures forall y :: y in Insert(x, s) ==> y == x || y in s
  {
    if s != [] && x < s[0] {
      InsertSorted(x, s[1..]);
      var t := Insert(x, s[1..]);
      forall i | 0 <= i < |t|
        ensures t[i] <= s[0]
      {
        assert t[i] == x || t[i] in s[1..];
      }
    }
  }

  lemma {:induction false} InsertSums(x: nat, s: seq<nat>, m: nat)
    ensures Sum(Insert(x, s)) == x + Sum(s)
    ensures ShareSum(Insert(x, s), m) == Min(4 * x, m) + ShareSum(s, m)
  {
    if s != [] && x < s[0] {
      InsertSums(x, s[1..], m);
    }
  }

  lemma {:induction false} SortFacts(s: seq<nat>, m: nat)
    ensures Descending(SortDescending(s))
    ensures Sum(SortDescending(s)) == Sum(s)
    ensures ShareSum(SortDescending(s), m) == ShareSum(s, m)
  {
    if s != [] {
      SortFacts(s[1..], m);
      InsertSorted(s[0], SortDescending(s[1..]));
      InsertSums(s[0], SortDescending(s[1..]), m);
    }
  }

  lemma SortKeepsMeaning(c: seq<nat>, baseline: nat, m: nat)
    requires IsGreatest(SortDescending(c), baseline, m)
    ensures IsGreatest(c, baseline, m)
  {
    SortFacts(c, m);
    forall x: nat | Feasible(c, baseline, x)
      ensures x <= m
    {
      SortFacts(c, x);
      assert Feasible(SortDescending(c), baseline, x);
    }
  }

  // -------------------------------------------------------------- the code

  /** One turn of the scan: the k-th candidate, and whether it passes both tests. */
  method TestCandidate(c: seq<nat>, baseline: nat, tail: nat, k: nat) returns (candidate: nat, accepted: bool)
    requires k <= |c| && k <= 3 && tail == Sum(c[k..])
    ensures candidate == Candidate(c, baseline, k)
    ensures accepted <==> TopAtCap(c, baseline, k) && RestUnderCap(c, baseline, k)
  {
    var quarters := 4 * (baseline + tail);
    candidate := quarters / (4 - k);
    QuotientIsDivision(quarters, k);
    var topAtCap := k == 0 || c[k - 1] * 4 >= candidate;
    var restUnderCap := k == |c| || c[k] * 4 <= candidate;
    accepted := topAtCap && restUnderCap;
  }

  /**
   * The scan over the sorted contributions: at most four candidates, and the first that passes
   * both tests is returned. The first test holds at every candidate reached, so the loop always
   * returns from inside and the fallback after it (the smallest candidate) is dead code.
   */
  method Scan(c: seq<nat>, baseline: nat, total: nat) returns (m: nat)
    requires Descending(c) && total == Sum(c)
    ensures IsGreatest(c, baseline, m)
  {
    var prefix := 0;
    m := baseline;  // the smallest candidate so far, or baseline before there is one
    var k := 0;
    assert c[0..] == c;
    while k <= 3 && k <= |c|
      invariant 0 <= k <= 4 && k <= |c| + 1
      invariant k == 0 ==> prefix == 0
      invariant 0 < k ==> k - 1 < |c| && k - 1 < 3 && total == prefix + Sum(c[k - 1..])
      invariant 0 < k ==> m == Candidate(c, baseline, k - 1)
      invariant 0 < k ==> !RestUnderCap(c, baseline, k - 1)
    {
      if k > 0 {
        StepDown(c, baseline, k - 1);
        assert c[k - 1..][1..] == c[k..];
        prefix := prefix + c[k - 1];
      }
      var candidate, accepted := TestCandidate(c, baseline, total - prefix, k);
      if k == 0 || candidate < m {
        m := candidate;
      }
      if accepted {
        AcceptedIsGreatest(c, baseline, k);
        return candidate;
      }
      if k == 3 {
        ThirdCandidateRests(c, baseline);
      }
      k := k + 1;
    }
    assert false;
  }

  /**
   * The closed form, as the code runs it. The value is the greatest integer m with
   * 4m <= 4 * baseline + sum of min(4 * c_i, m).
   */
  method ConcentrationCapped(contributions: seq<nat>, baseline: nat, total: nat) returns (m: nat)
    requires total == Sum(contributions)
    ensures IsGreatest(contributions, baseline, m)
  {
    SortFacts(contributions, 0);
    m := Scan(SortDescending(contributions), baseline, total);
    SortKeepsMeaning(contributions, baseline, m);
  }

  // ----------------------------------------------------- the real fixed point

  /** The index at which the scan stops, with its first test holding before rounding too. */
  lemma {:induction false} StopsAt(c: seq<nat>, baseline: nat, k: nat) returns (stop: nat)
    requires k <= |c| && k <= 3
    requires TopAtCap(c, baseline, k)
    requires k == 0 || c[k - 1] as real >= Unrounded(Numerator(c, baseline, k), k) / 4.0
    ensures k <= stop <= |c| && stop <= 3
    ensures TopAtCap(c, baseline, stop) && RestUnderCap(c, baseline, stop)
    ensures stop == 0 || c[stop - 1] as real >= Unrounded(Numerator(c, baseline, stop), stop) / 4.0
    decreases 3 - k
  {
    if RestUnderCap(c, baseline, k) {
      stop := k;
    } else {
      if k == 3 {
        ThirdCandidateRests(c, baseline);
      }
      StepDown(c, baseline, k);
      stop := StopsAt(c, baseline, k + 1);
    }
  }

  /** Where the scan stops, the unrounded candidate solves the equation exactly. */
  lemma StopSolves(c: seq<nat>, baseline: nat, k: nat)
    requires Descending(c) && k <= |c| && k <= 3
    requires RestUnderCap(c, baseline, k)
    requires k == 0 || c[k - 1] as real >= Unrounded(Numerator(c, baseline, k), k) / 4.0
    ensures var x := Unrounded(Numerator(c, baseline, k), k); x == baseline as real + RealShares(c, x / 4.0)
  {
    var x := Unrounded(Numerator(c, baseline, k), k);
    UnroundedFloor(Numerator(c, baseline, k), k);
    assert forall i :: 0 <= i < k ==> c[i] >= c[k - 1];
    assert forall i :: k <= i < |c| ==> c[i] <= c[k];
    SharesExactly(c, x / 4.0, k);
    SolveForCandidate(x, baseline, Sum(c[k..]), k);
  }

  /**
   * The integer the code returns is the floor of the real fixed point its documentation
   * names: the largest x with x = baseline + sum of min(c_i, x / 4).
   */
  lemma GreatestIsFloorOfRealCap(contributions: seq<nat>, baseline: nat, m: nat) returns (x: real)
    requires IsGreatest(contributions, baseline, m)
    ensures RealCap(contributions, baseline, x)
    ensures x.Floor == m
  {
    var c := SortDescending(contributions);
    SortFacts(contributions, 0);
    var k := StopsAt(c, baseline, 0);
    StopSolves(c, baseline, k);
    x := Unrounded(Numerator(c, baseline, k), k);
    UnroundedFloor(Numerator(c, baseline, k), k);
    AcceptedIsGreatest(c, baseline, k);
    SortKeepsMeaning(contributions, baseline, Candidate(c, baseline, k));
    RealSharesSorted(contributions, x / 4.0);
    forall y: real | Solves(contributions, baseline, y)
      ensures y <= x
    {
      RealSharesSorted(contributions, y / 4.0);
      CandidateIsBound(c, baseline, k, y);
    }
  }

  lemma {:induction false} InsertRealShares(x: nat, s: seq<nat>, q: real)
    ensures RealShares(Insert(x, s), q) == RealShares([x], q) + RealShares(s, q)
  {
    if s != [] && x < s[0] {
      InsertRealShares(x, s[1..], q);
    }
  }

  lemma {:induction false} RealSharesSorted(s: seq<nat>, q: real)
    ensures RealShares(SortDescending(s), q) == RealShares(s, q)
  {
    if s != [] {
      RealSharesSorted(s[1..], q);
      InsertRealShares(s[0], SortDescending(s[1..]), q);
    }
  }

  // ------------------------------------------------------------- consequences

  lemma {:induction false} SharesGrow(c: seq<nat>, m: nat, m': nat)
    requires m <= m'
    ensures ShareSum(c, m) <= ShareSum(c, m')
    ensures ShareSum(c, m) <= 4 * Sum(c)
  {
    if c != [] {
      SharesGrow(c[1..], m, m');
    }
  }

  /** The cap lies between the baseline and the uncapped value. */
  lemma GreatestBounds(c: seq<nat>, baseline: nat, m: nat)
    requires IsGreatest(c, baseline, m)
    ensures baseline <= m <= baseline + Sum(c)
    ensures |c| == 3 ==> m <= 4 * baseline
  {
    assert Feasible(c, baseline, baseline);
    SharesGrow(c, m, m);
    if |c| == 3 {
      assert c[1..][1..][1..] == [];
      assert ShareSum(c, m) == Min(4 * c[0], m) + Min(4 * c[1..][0], m) + Min(4 * c[1..][1..][0], m);
    }
  }
}
