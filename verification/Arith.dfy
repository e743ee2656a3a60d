/** Machine arithmetic of the source, written out over unbounded numbers.

`u64` values are `nat`s; every operation that can hit the end of the range is a named function
here. `f64` values are exact `real`s. */
module Arith {

  const U64_MAX: nat := 0xFFFF_FFFF_FFFF_FFFF

  /** `f64::EPSILON`, 2^-52. */
  const EPSILON: real := 1.0 / 4503599627370496.0

  function Min(a: nat, b: nat): nat { if a <= b then a else b }

  function Max(a: nat, b: nat): nat { if a <= b then b else a }

  function MaxReal(a: real, b: real): real { if a <= b then b else a }

  function AbsDiff(a: nat, b: nat): nat { if a <= b then b - a else a - b }

  function AbsInt(a: int): nat { if a < 0 then -a else a }

  function SatAdd(a: nat, b: nat): nat { Min(a + b, U64_MAX) }

  function SatSub(a: nat, b: nat): nat { if b <= a then a - b else 0 }

  function SatMul(a: nat, b: nat): nat { Min(a * b, U64_MAX) }

  /** `x.floor() as u64`: the cast saturates at both ends of the range. */
  function ToU64(x: real): nat { if x < 0.0 then 0 else Min(x.Floor, U64_MAX) }

  /** `f64::clamp`, which panics when the bounds are crossed. */
  function Clamp(x: real, lo: real, hi: real): real
    requires lo <= hi
  {
    if x < lo then lo else if hi < x then hi else x
  }

  lemma ToU64Monotone(x: real, y: real)
    requires x <= y
    ensures ToU64(x) <= ToU64(y)
  {
  }

  /** Below the end of the range the cast is the floor. */
  lemma ToU64Bounds(x: real)
    requires 0.0 <= x
    ensures ToU64(x) as real <= x
    ensures x < U64_MAX as real + 1.0 ==> x < ToU64(x) as real + 1.0
  {
  }

  lemma MulMonotone(a: real, b: real, c: real)
    requires 0.0 <= a && b <= c
    ensures a * b <= a * c && b * a <= c * a
  {
  }

  lemma MulNonNegative(a: real, b: real)
    requires 0.0 <= a && 0.0 <= b
    ensures 0.0 <= a * b
  {
  }

  lemma DivMonotone(a: real, b: real, d: real)
    requires a <= b && 0.0 < d
    ensures a / d <= b / d
  {
  }

  lemma DivSelf(y: real, d: real)
    requires d != 0.0
    ensures y * d / d == y
  {
  }

  lemma DivAdd(a: real, b: real, d: real)
    requires d != 0.0
    ensures (a + b) / d == a / d + b / d
  {
  }

  lemma MulDistribute(a: real, b: real, c: real)
    ensures a * (b + c) == a * b + a * c
  {
  }
}
