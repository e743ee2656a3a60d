/** The Gini metric: the sorted O(N log N) form computed by the source, and the pairwise double
sum of section D.12 of the concept document that it stands for. */
module Gini {
  import opened Arith
  import opened Sums
  import opened Sorting

  // ---------- Reference definition ----------

  /** Sum over `y` in `s` of `|x - y|`. */
  function Distance(x: nat, s: seq<nat>): nat
  {
    if s == [] then 0 else Distance(x, s[..|s| - 1]) + AbsDiff(x, s[|s| - 1])
  }

  /** Sum over `x` in `t` and `y` in `s` of `|x - y|`. */
  function Cross(t: seq<nat>, s: seq<nat>): nat
  {
    if t == [] then 0 else Cross(t[..|t| - 1], s) + Distance(t[|t| - 1], s)
  }

  /** The definition: all pairwise differences over twice the count times the total. */
  function Pairwise(s: seq<nat>): real
  {
    if |s| == 0 || Sum(s) == 0 then 0.0
    else Coefficient(Cross(s, s) as real, |s| as real, Sum(s) as real)
  }

  function Coefficient(c: real, n: real, t: real): real
    requires 0.0 < n && 0.0 < t
  {
    assert 0.0 < n * t;
    c / (2.0 * (n * t))
  }

  /** The closed form of the source, before the clamp. */
  function ClosedForm(w: real, n: real, t: real): real
    requires 0.0 < n && 0.0 < t
  {
    assert 0.0 < n * t;
    (2.0 * w) / (n * t) - (n + 1.0) / n
  }

  // ---------- Sorting ----------

  predicate Sorted(s: seq<nat>)
  {
    forall i, j :: 0 <= i < j < |s| ==> s[i] <= s[j]
  }

  function AtMost(a: nat, b: nat): bool { a <= b }

  function SortBalances(s: seq<nat>): (r: seq<nat>)
    ensures Sorted(r) && multiset(r) == multiset(s)
  {
    SortCorrect(AtMost, s);
    Sort(AtMost, s)
  }

  // ---------- The double sum depends only on the multiset ----------

  lemma {:induction false} DistanceConcat(x: nat, s: seq<nat>, t: seq<nat>)
    ensures Distance(x, s + t) == Distance(x, s) + Distance(x, t)
  {
    if t == [] {
      assert s + t == s;
    } else {
      var n := |t| - 1;
      assert (s + t)[..|s + t| - 1] == s + t[..n];
      DistanceConcat(x, s, t[..n]);
    }
  }

  lemma {:induction false} CrossConcat(s: seq<nat>, t: seq<nat>, u: seq<nat>)
    ensures Cross(s + t, u) == Cross(s, u) + Cross(t, u)
  {
    if t == [] {
      assert s + t == s;
    } else {
      var n := |t| - 1;
      assert (s + t)[..|s + t| - 1] == s + t[..n];
      CrossConcat(s, t[..n], u);
    }
  }

  /** Adding one element to the second list adds its distance to the first. */
  lemma {:induction false} CrossSnoc(t: seq<nat>, s: seq<nat>, x: nat)
    ensures Cross(t, s + [x]) == Cross(t, s) + Distance(x, t)
  {
    if t != [] {
      var n := |t| - 1;
      CrossSnoc(t[..n], s, x);
      assert (s + [x])[..|s|] == s;
    }
  }

  /** The last element of `s` sits somewhere in a permutation `t` of it, and removing it from both
  leaves permutations. */
  lemma Peel(s: seq<nat>, t: seq<nat>) returns (u: seq<nat>, v: seq<nat>)
    requires multiset(s) == multiset(t) && s != []
    ensures t == u + [s[|s| - 1]] + v
    ensures multiset(s[..|s| - 1]) == multiset(u + v)
  {
    var n := |s| - 1;
    assert s == s[..n] + [s[n]];
    assert s[n] in multiset(t);
    var k :| 0 <= k < |t| && t[k] == s[n];
    u, v := t[..k], t[k + 1..];
    assert t == u + [s[n]] + v;
    assert multiset(t) == multiset(u) + multiset{s[n]} + multiset(v);
    assert multiset(s) == multiset(s[..n]) + multiset{s[n]};
    assert multiset(t) == multiset(u) + multiset(v) + multiset{s[n]};
    MultisetCancel(multiset(s[..n]), multiset(u) + multiset(v), s[n]);
    assert multiset(u + v) == multiset(u) + multiset(v);
  }

  lemma MultisetCancel(a: multiset<nat>, b: multiset<nat>, x: nat)
    requires a + multiset{x} == b + multiset{x}
    ensures a == b
  {
    assert a == (a + multiset{x}) - multiset{x};
    assert b == (b + multiset{x}) - multiset{x};
  }

  lemma SameLength(s: seq<nat>, t: seq<nat>)
    requires multiset(s) == multiset(t)
    ensures |s| == |t|
  {
    assert |s| == |multiset(s)| && |t| == |multiset(t)|;
  }

  lemma {:induction false} DistancePermutation(x: nat, s: seq<nat>, t: seq<nat>)
    requires multiset(s) == multiset(t)
    ensures Distance(x, s) == Distance(x, t)
    decreases |s|
  {
    SameLength(s, t);
    if s != [] {
      var u, v := Peel(s, t);
      var y := s[|s| - 1];
      DistancePermutation(x, s[..|s| - 1], u + v);
      DistanceConcat(x, u, v);
      DistanceConcat(x, u + [y], v);
      DistanceConcat(x, u, [y]);
      assert Distance(x, [y]) == AbsDiff(x, y);
    }
  }

  lemma {:induction false} CrossPermutation(s: seq<nat>, t: seq<nat>, p: seq<nat>, q: seq<nat>)
    requires multiset(s) == multiset(t) && multiset(p) == multiset(q)
    ensures Cross(s, p) == Cross(t, q)
    decreases |s|
  {
    SameLength(s, t);
    if s != [] {
      var u, v := Peel(s, t);
      var y := s[|s| - 1];
      CrossPermutation(s[..|s| - 1], u + v, p, q);
      CrossConcat(u, v, q);
      CrossConcat(u + [y], v, q);
      CrossConcat(u, [y], q);
      assert Cross([y], q) == Distance(y, q);
      DistancePermutation(y, p, q);
    }
  }

  lemma {:induction false} SumPermutation(s: seq<nat>, t: seq<nat>)
    requires multiset(s) == multiset(t)
    ensures Sum(s) == Sum(t) && |s| == |t|
    decreases |s|
  {
    SameLength(s, t);
    if s != [] {
      var u, v := Peel(s, t);
      var y := s[|s| - 1];
      SumPermutation(s[..|s| - 1], u + v);
      SumConcat(u, v);
      SumConcat(u + [y], v);
      SumSnoc(u, y);
    }
  }

  /** The metric does not depend on the order of the wallets. */
  lemma PairwisePermutation(s: seq<nat>, t: seq<nat>)
    requires multiset(s) == multiset(t)
    ensures Pairwise(s) == Pairwise(t)
  {
    SumPermutation(s, t);
    CrossPermutation(s, t, s, t);
  }

  // ---------- The sorted form ----------

  /** Sum of rank times balance, ranks counted from one. */
  function Weighted(s: seq<nat>): nat
  {
    if s == [] then 0 else Weighted(s[..|s| - 1]) + |s| * s[|s| - 1]
  }

  /** An upper bound of a list is at distance `n * x - total` from it. */
  lemma {:induction false} DistanceFromTop(x: nat, s: seq<nat>)
    requires forall i :: 0 <= i < |s| ==> s[i] <= x
    ensures Distance(x, s) == |s| * x - Sum(s)
  {
    if s != [] {
      var n := |s| - 1;
      DistanceFromTop(x, s[..n]);
      assert n * x + x == |s| * x;
    }
  }

  lemma {:induction false} CrossSorted(s: seq<nat>)
    requires Sorted(s)
    ensures Cross(s, s) as int == 2 * (2 * Weighted(s) - (|s| + 1) * Sum(s))
  {
    if s != [] {
      var n := |s| - 1;
      var (t, x) := (s[..n], s[n]);
      assert s == t + [x];
      CrossSorted(t);
      CrossConcat(t, [x], s);
      CrossSnoc(t, t, x);
      assert Cross([x], s) == Distance(x, s);
      assert Distance(x, s) == Distance(x, t);
      DistanceFromTop(x, t);
      CrossStep(n, Weighted(t), Sum(t), x);
    }
  }

  lemma CrossStep(n: int, w: int, t: int, x: int)
    ensures 2 * (2 * (w + (n + 1) * x) - (n + 2) * (t + x)) == 2 * (2 * w - (n + 1) * t) + 2 * (n * x - t)
  {
  }

  lemma {:induction false} WeightedAtMost(s: seq<nat>)
    ensures Weighted(s) <= |s| * Sum(s)
  {
    if s != [] {
      var n := |s| - 1;
      WeightedAtMost(s[..n]);
      assert |s| * Sum(s) == n * Sum(s[..n]) + Sum(s[..n]) + |s| * s[n];
    }
  }

  /** On sorted balances the fast form is the pairwise definition. */
  lemma SortedFormIsPairwise(s: seq<nat>)
    requires Sorted(s) && |s| != 0 && Sum(s) != 0
    ensures ClosedForm(Weighted(s) as real, |s| as real, Sum(s) as real) == Pairwise(s)
  {
    CrossSorted(s);
    IntegerStep(Weighted(s), |s|, Sum(s), Cross(s, s));
  }

  lemma IntegerStep(w: nat, n: nat, t: nat, c: nat)
    requires n != 0 && t != 0 && c as int == 2 * (2 * w - (n + 1) * t)
    ensures ClosedForm(w as real, n as real, t as real) == Coefficient(c as real, n as real, t as real)
  {
    ToReal(n + 1, t);
    assert c as real == 2.0 * (2.0 * w as real - (n as real + 1.0) * t as real);
    FractionStep(w as real, n as real, t as real);
  }

  lemma ToReal(a: int, b: int)
    ensures (a * b) as real == a as real * b as real
  {
  }

  lemma FractionStep(w: real, n: real, t: real)
    requires n > 0.0 && t > 0.0
    ensures ClosedForm(w, n, t) == Coefficient(2.0 * (2.0 * w - (n + 1.0) * t), n, t)
  {
    var d := n * t;
    assert d > 0.0;
    Cancel(n + 1.0, n, t);
    var (u, v) := (2.0 * w, (n + 1.0) * t);
    assert (2.0 * (u - v)) / (2.0 * d) == u / d - v / d;
  }

  lemma Cancel(a: real, n: real, t: real)
    requires n > 0.0 && t > 0.0
    ensures n * t != 0.0 && (a * t) / (n * t) == a / n
  {
    assert n * t > 0.0;
    var q := a / n;
    assert q * n == a;
    assert a * t == q * (n * t);
  }

  /** Before any clamp the coefficient lies in `[0, (N - 1) / N]`: the clamp of the source guards
  float rounding alone. */
  lemma PairwiseRange(s: seq<nat>)
    requires |s| != 0
    ensures 0.0 <= Pairwise(s) <= (|s| as real - 1.0) / |s| as real < 1.0
  {
    hide Coefficient, Cross, Sum;
    var (n, t) := (|s|, Sum(s));
    if t == 0 {
      RangeStep(n as real, 1.0, 0.0);
    } else {
      CrossBound(s);
      ToReal(n - 1, t);
      RangeStep(n as real, t as real, Cross(s, s) as real);
    }
  }

  lemma CrossBound(s: seq<nat>)
    requires |s| != 0
    ensures Cross(s, s) <= 2 * ((|s| - 1) * Sum(s))
  {
    var r := SortBalances(s);
    SumPermutation(s, r);
    CrossPermutation(s, r, s, r);
    CrossSorted(r);
    WeightedAtMost(r);
    BoundStep(|s|, Sum(s), Weighted(r));
  }

  lemma BoundStep(n: int, t: int, w: int)
    requires w <= n * t
    ensures 2 * (2 * w - (n + 1) * t) <= 2 * ((n - 1) * t)
  {
  }

  lemma RangeStep(n: real, t: real, c: real)
    requires n >= 1.0 && t > 0.0 && 0.0 <= c <= 2.0 * ((n - 1.0) * t)
    ensures 0.0 <= Coefficient(c, n, t) <= (n - 1.0) / n < 1.0
  {
    var d := n * t;
    assert d > 0.0;
    DivMonotone(0.0, c, 2.0 * d);
    var v := (n - 1.0) * t;
    DivMonotone(c, 2.0 * v, 2.0 * d);
    assert (2.0 * v) / (2.0 * d) == v / d;
    Cancel(n - 1.0, n, t);
  }

  method Totals(sorted: seq<nat>) returns (total: nat, weighted: nat)
    ensures total == Sum(sorted) && weighted == Weighted(sorted)
  {
    total, weighted := 0, 0;
    for i := 0 to |sorted|
      invariant total == Sum(sorted[..i])
      invariant weighted == Weighted(sorted[..i])
    {
      SumPrefix(sorted, i);
      assert sorted[..i + 1][..i] == sorted[..i];
      total := total + sorted[i];
      weighted := weighted + (i + 1) * sorted[i];
    }
    assert sorted[..|sorted|] == sorted;
  }

  /** `compute_gini_from_balances`: sort, sum, rank-weighted sum, closed form, clamp. The result is
  the pairwise definition on every list, so the clamp never changes it. */
  method ComputeGiniFromBalances(balances: seq<nat>) returns (g: real)
    ensures g == Pairwise(balances)
    ensures 0.0 <= g < 1.0
  {
    if balances == [] {
      return 0.0;
    }
    var sorted := SortBalances(balances);
    SumPermutation(balances, sorted);
    var total, weighted := Totals(sorted);
    PairwiseRange(balances);
    if total == 0 {
      return 0.0;
    }
    var n := |sorted| as real;
    SortedFormIsPairwise(sorted);
    PairwisePermutation(balances, sorted);
    g := Clamp(ClosedForm(weighted as real, n, total as real), 0.0, 1.0);
  }
}
