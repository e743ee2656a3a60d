/** Finite sums over sequences and over maps. */
module Sums {

  function Sum(s: seq<nat>): nat
  {
    if s == [] then 0 else Sum(s[..|s| - 1]) + s[|s| - 1]
  }

  function RealSum(s: seq<real>): real
  {
    if s == [] then 0.0 else RealSum(s[..|s| - 1]) + s[|s| - 1]
  }

  lemma SumSnoc(s: seq<nat>, x: nat)
    ensures Sum(s + [x]) == Sum(s) + x
  {
    assert (s + [x])[..|s|] == s;
  }

  lemma RealSumSnoc(s: seq<real>, x: real)
    ensures RealSum(s + [x]) == RealSum(s) + x
  {
    assert (s + [x])[..|s|] == s;
  }

  lemma {:induction false} SumConcat(s: seq<nat>, t: seq<nat>)
    ensures Sum(s + t) == Sum(s) + Sum(t)
  {
    if t == [] {
      assert s + t == s;
    } else {
      var n := |t| - 1;
      assert s + t == (s + t[..n]) + [t[n]];
      SumConcat(s, t[..n]);
      SumSnoc(s + t[..n], t[n]);
    }
  }

  /** The prefix sums grow by one element at a time. */
  lemma SumPrefix(s: seq<nat>, i: nat)
    requires i < |s|
    ensures Sum(s[..i + 1]) == Sum(s[..i]) + s[i]
  {
    assert s[..i + 1] == s[..i] + [s[i]];
    SumSnoc(s[..i], s[i]);
  }

  lemma {:induction false} SumUpdate(s: seq<nat>, i: nat, x: nat)
    requires i < |s|
    ensures Sum(s[i := x]) == Sum(s) - s[i] + x
  {
    assert s == s[..i] + [s[i]] + s[i + 1..];
    assert s[i := x] == s[..i] + [x] + s[i + 1..];
    SumConcat(s[..i] + [s[i]], s[i + 1..]);
    SumConcat(s[..i] + [x], s[i + 1..]);
    SumSnoc(s[..i], s[i]);
    SumSnoc(s[..i], x);
  }

  /** Every element, and every two elements at distinct positions together, is at most the sum. */
  lemma SumAtLeast(s: seq<nat>, i: nat)
    requires i < |s|
    ensures s[i] <= Sum(s)
  {
    SumUpdate(s, i, 0);
  }

  lemma {:induction false} SumMonotone(s: seq<nat>, t: seq<nat>)
    requires |s| == |t|
    requires forall i :: 0 <= i < |s| ==> s[i] <= t[i]
    ensures Sum(s) <= Sum(t)
  {
    if s != [] {
      var n := |s| - 1;
      SumMonotone(s[..n], t[..n]);
    }
  }

  lemma {:induction false} SumConstant(n: nat, x: nat)
    ensures Sum(seq(n, i => x)) == n * x
  {
    if n != 0 {
      assert seq(n, i => x)[..n - 1] == seq(n - 1, i => x);
      SumConstant(n - 1, x);
      assert (n - 1) * x + x == n * x;
    }
  }

  /** Total of the values of a map. */
  ghost function MapSum<K(!new)>(m: map<K, nat>): nat
    decreases |m|
  {
    if m == map[] then 0
    else
      var k :| k in m;
      assert (m - {k}).Keys == m.Keys - {k};
      m[k] + MapSum(m - {k})
  }

  /** The choice of the first key does not matter. */
  lemma {:induction false} MapSumRemove<K(!new)>(m: map<K, nat>, k: K)
    requires k in m
    ensures MapSum(m) == m[k] + MapSum(m - {k})
    decreases |m|
  {
    var j :| j in m && MapSum(m) == m[j] + MapSum(m - {j});
    if j != k {
      assert (m - {j}).Keys == m.Keys - {j};
      assert (m - {k}).Keys == m.Keys - {k};
      MapSumRemove(m - {j}, k);
      MapSumRemove(m - {k}, j);
      assert m - {j} - {k} == m - {k} - {j};
    }
  }

  lemma MapSumUpdate<K(!new)>(m: map<K, nat>, k: K, v: nat)
    ensures MapSum(m[k := v]) == MapSum(m) - (if k in m then m[k] else 0) + v
  {
    var m' := m[k := v];
    MapSumRemove(m', k);
    assert m' - {k} == m - {k};
    if k in m {
      MapSumRemove(m, k);
    } else {
      assert m - {k} == m;
    }
  }
}
