/** Floors and caps, said as inequalities. */
module Rounding {
  import opened Arith
  import opened Economy

  /** The largest natural number that exceeds neither the cap nor, unless it is zero, the bound. */
  ghost predicate Largest(x: nat, bound: real, cap: nat)
  {
    x <= cap && (x > 0 ==> x as real <= bound) && (x < cap ==> bound < x as real + 1.0)
  }

  /** The same for a bound given as a fraction, without the division. */
  ghost predicate LargestRatio(x: nat, num: real, den: real, cap: nat)
  {
    && x <= cap
    && (x > 0 ==> Times(x as real, den) <= num)
    && (x < cap ==> num < Times(x as real + 1.0, den))
  }

  lemma LargestUnique(x: nat, y: nat, bound: real, cap: nat)
    requires Largest(x, bound, cap) && Largest(y, bound, cap)
    ensures x == y
  {
  }

  lemma TimesStrict(x: real, y: real, d: real)
    requires x <= y && 0.0 < d
    ensures Times(x, d) <= Times(y, d)
  {
  }

  lemma LargestRatioUnique(x: nat, y: nat, num: real, den: real, cap: nat)
    requires 0.0 < den && LargestRatio(x, num, den, cap) && LargestRatio(y, num, den, cap)
    ensures x == y
  {
    hide Times;
    if x < y {
      TimesStrict(x as real + 1.0, y as real, den);
    } else if y < x {
      TimesStrict(y as real + 1.0, x as real, den);
    }
  }

  lemma FloorIsLargest(bound: real, cap: nat)
    requires cap <= U64_MAX
    ensures Largest(Min(ToU64(bound), cap), bound, cap)
  {
  }

  lemma QuotientBounds(num: real, den: real, x: real)
    requires 0.0 < den
    ensures x <= num / den ==> Times(x, den) <= num
    ensures num / den < x ==> num < Times(x, den)
  {
    var q := num / den;
    assert q * den == num;
  }

  lemma FloorIsLargestRatio(num: real, den: real, cap: nat)
    requires 0.0 < den && cap <= U64_MAX
    ensures LargestRatio(Min(ToU64(num / den), cap), num, den, cap)
  {
    hide Times;
    FloorIsLargest(num / den, cap);
    var x := Min(ToU64(num / den), cap);
    QuotientBounds(num, den, x as real);
    QuotientBounds(num, den, x as real + 1.0);
  }
}
