/** Sums over sequences and over the values of a map, and how the two are related. */
module Sums {

  function Min(a: int, b: int): int {
    if a <= b then a else b
  }

  function Max(a: int, b: int): int {
    if a >= b then a else b
  }

  function Sum(s: seq<nat>): nat {
    if s == [] then 0 else s[0] + Sum(s[1..])
  }

  lemma {:induction false} SumAppend(s: seq<nat>, x: nat)
    ensures Sum(s + [x]) == Sum(s) + x
  {
    if s == [] {
      assert s + [x] == [x];
    } else {
      assert (s + [x])[1..] == s[1..] + [x];
      SumAppend(s[1..], x);
    }
  }

  lemma {:induction false} SumUpdate(s: seq<nat>, i: nat, x: nat)
    requires i < |s|
    ensures Sum(s[i := x]) == Sum(s) - s[i] + x
  {
    if i == 0 {
      assert s[0 := x][1..] == s[1..];
    } else {
      assert s[i := x][1..] == s[1..][i - 1 := x];
      SumUpdate(s[1..], i - 1, x);
    }
  }

  /** Floor division by a positive constant is monotone. */
  lemma DivMonotone(a: int, b: int, d: int)
    requires a <= b && d > 0
    ensures a / d <= b / d
  {
    assert a == d * (a / d) + a % d && b == d * (b / d) + b % d;
    if a / d > b / d {
      MulMonotone(d, b / d + 1, a / d);
    }
  }

  lemma MulMonotone(k: int, a: int, b: int)
    requires 0 <= k && a <= b
    ensures k * a <= k * b && a * k <= b * k
  {
  }

  /** Taking one element out of a sequence takes one out of its multiset. */
  lemma RemoveAt<T>(s: seq<T>, i: nat)
    requires i < |s|
    ensures multiset(s) == multiset(s[..i] + s[i + 1..]) + multiset{s[i]}
  {
    assert s == s[..i] + [s[i]] + s[i + 1..];
  }

  /** Removing an element from both sides of a permutation leaves a permutation. */
  lemma MatchFirst<T>(s: seq<T>, t: seq<T>) returns (i: nat)
    requires s != [] && multiset(s) == multiset(t)
    ensures i < |t| && t[i] == s[0]
    ensures multiset(s[1..]) == multiset(t[..i] + t[i + 1..])
  {
    assert s[0] in multiset(t);
    i :| 0 <= i < |t| && t[i] == s[0];
    RemoveAt(t, i);
    assert multiset(s[1..]) == multiset(s) - multiset{s[0]} by {
      assert s == [s[0]] + s[1..];
    }
  }

  lemma EmptyMatch<T>(s: seq<T>, t: seq<T>)
    requires s == [] && multiset(s) == multiset(t)
    ensures t == []
  {
    assert |multiset(t)| == |t|;
  }

  // ------------------------------------------------------------- sums over maps

  /** The sum of the values of a map. The key order cannot matter, see SumOfRemove. */
  ghost function SumOf<K>(m: map<K, nat>): nat
    decreases |m|
  {
    if m == map[] then 0 else
      var k :| k in m;
      assert |m - {k}| < |m| by { MapMinus(m, k); }
      m[k] + SumOf(m - {k})
  }

  lemma MapMinus<K, V>(m: map<K, V>, k: K)
    requires k in m
    ensures |m - {k}| == |m| - 1
  {
  }

  lemma {:induction false} SumOfRemove<K>(m: map<K, nat>, x: K)
    requires x in m
    ensures SumOf(m) == m[x] + SumOf(m - {x})
    decreases |m|
  {
    var k :| k in m && SumOf(m) == m[k] + SumOf(m - {k});
    if k != x {
      MapMinus(m, k);
      SumOfRemove(m - {k}, x);
      MapMinus(m, x);
      SumOfRemove(m - {x}, k);
      assert m - {k} - {x} == m - {x} - {k};
    }
  }

  /** A sequence whose elements are a map's values, listed key by key, has the map's sum. */
  lemma {:induction false} SumOfListed<K>(keys: seq<K>, values: seq<nat>, m: map<K, nat>)
    requires |keys| == |values|
    requires forall i, j :: 0 <= i < j < |keys| ==> keys[i] != keys[j]
    requires m.Keys == set k | k in keys
    requires forall i :: 0 <= i < |keys| ==> m[keys[i]] == values[i]
    ensures Sum(values) == SumOf(m)
  {
    if keys == [] {
      assert m == map[];
    } else {
      SumOfRemove(m, keys[0]);
      SumOfListed(keys[1..], values[1..], m - {keys[0]});
    }
  }

  /** Pointwise smaller maps have smaller sums; missing keys count as zero. */
  lemma {:induction false} SumOfMonotone<K>(m: map<K, nat>, m': map<K, nat>)
    requires forall k :: k in m ==> k in m' && m[k] <= m'[k]
    ensures SumOf(m) <= SumOf(m')
    decreases |m|
  {
    if m != map[] {
      var k :| k in m;
      MapMinus(m, k);
      SumOfRemove(m, k);
      SumOfRemove(m', k);
      SumOfMonotone(m - {k}, m' - {k});
    }
  }
}
