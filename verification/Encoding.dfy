/** Fixed-width number encodings used in hash preimages and storage keys. */
module Encoding {

  function Power(base: nat, width: nat): nat
  {
    if width == 0 then 1 else base * Power(base, width - 1)
  }

  function Quot(n: nat, base: nat): nat
    requires base >= 2
  {
    n / base
  }

  function Rem(n: nat, base: nat): nat
    requires base >= 2
  {
    n % base
  }

  /** Fixed-width digits, most significant first: `to_be_bytes` in base 256, `{:020}` in base 10. */
  function Digits(base: nat, width: nat, n: nat): (r: seq<nat>)
    requires base >= 2
    ensures |r| == width
  {
    if width == 0 then [] else Digits(base, width - 1, Quot(n, base)) + [Rem(n, base)]
  }

  /** Fixed-width digits, least significant first: `to_le_bytes` in base 256. */
  function LittleEndian(base: nat, width: nat, n: nat): (r: seq<nat>)
    requires base >= 2
    ensures |r| == width
  {
    if width == 0 then [] else [Rem(n, base)] + LittleEndian(base, width - 1, Quot(n, base))
  }

  /** Byte-wise lexicographic order, the order in which the store iterates. */
  predicate LexLess(a: seq<nat>, b: seq<nat>)
    requires |a| == |b|
  {
    a != [] && (a[0] < b[0] || (a[0] == b[0] && LexLess(a[1..], b[1..])))
  }

  lemma MulCancelLess(a: nat, x: nat, y: nat)
    requires a * x < a * y
    ensures x < y
  {
  }

  lemma Euclid(base: nat, n: nat)
    requires base >= 2
    ensures n == base * (n / base) + n % base && n % base < base
  {
  }

  lemma DivSmaller(base: nat, width: nat, n: nat)
    requires base >= 2 && width > 0 && n < Power(base, width)
    ensures Quot(n, base) < Power(base, width - 1)
  {
    Euclid(base, n);
    MulCancelLess(base, n / base, Power(base, width - 1));
  }

  /** Little-endian encodings are injective below the width's limit. */
  lemma {:induction false} LittleEndianInjective(base: nat, width: nat, m: nat, n: nat)
    requires base >= 2 && m < Power(base, width) && n < Power(base, width)
    requires LittleEndian(base, width, m) == LittleEndian(base, width, n)
    ensures m == n
  {
    if width != 0 {
      hide Power, LittleEndian, Quot, Rem;
      LittleEndianParts(base, width, m);
      LittleEndianParts(base, width, n);
      DivSmaller(base, width, m);
      DivSmaller(base, width, n);
      LittleEndianInjective(base, width - 1, Quot(m, base), Quot(n, base));
      Recombine(base, m, n);
    }
  }

  lemma LittleEndianParts(base: nat, width: nat, n: nat)
    requires base >= 2 && width > 0
    ensures LittleEndian(base, width, n)[0] == Rem(n, base)
    ensures LittleEndian(base, width, n)[1..] == LittleEndian(base, width - 1, Quot(n, base))
  {
  }

  lemma Recombine(base: nat, m: nat, n: nat)
    requires base >= 2 && Quot(m, base) == Quot(n, base) && Rem(m, base) == Rem(n, base)
    ensures m == n
  {
    Euclid(base, m);
    Euclid(base, n);
  }

  lemma {:induction false} LexAppend(a: seq<nat>, b: seq<nat>, x: nat, y: nat)
    requires |a| == |b| && (LexLess(a, b) || (a == b && x < y))
    ensures LexLess(a + [x], b + [y])
  {
    if a != [] {
      assert (a + [x])[1..] == a[1..] + [x] && (b + [y])[1..] == b[1..] + [y];
      if a[0] == b[0] {
        LexAppend(a[1..], b[1..], x, y);
      }
    }
  }

  lemma {:induction false} LexAsymmetric(a: seq<nat>, b: seq<nat>)
    requires |a| == |b| && LexLess(a, b)
    ensures !LexLess(b, a) && a != b
  {
    if a[0] == b[0] {
      LexAsymmetric(a[1..], b[1..]);
    }
  }

  lemma {:induction false} LexIrreflexive(a: seq<nat>)
    ensures !LexLess(a, a)
  {
    if a != [] {
      LexIrreflexive(a[1..]);
    }
  }

  lemma {:induction false} DigitsIncreasing(base: nat, width: nat, m: nat, n: nat)
    requires base >= 2 && m < n < Power(base, width)
    ensures LexLess(Digits(base, width, m), Digits(base, width, n))
  {
    if width != 0 {
      hide Power, Quot, Rem, LexLess;
      DivSmaller(base, width, n);
      DivOrder(base, m, n);
      var (p, q) := (Quot(m, base), Quot(n, base));
      if p < q {
        DigitsIncreasing(base, width - 1, p, q);
      }
      LexAppend(Digits(base, width - 1, p), Digits(base, width - 1, q), Rem(m, base), Rem(n, base));
    }
  }

  lemma DivOrder(base: nat, m: nat, n: nat)
    requires base >= 2 && m < n
    ensures Quot(m, base) < Quot(n, base) || (Quot(m, base) == Quot(n, base) && Rem(m, base) < Rem(n, base))
  {
    Euclid(base, m);
    Euclid(base, n);
    assert base * (n / base) + base == base * (n / base + 1);
    MulCancelLess(base, m / base, n / base + 1);
  }

  /** Zero-padded and big-endian keys sort exactly in numeric order. */
  lemma DigitsOrder(base: nat, width: nat, m: nat, n: nat)
    requires base >= 2 && m < Power(base, width) && n < Power(base, width)
    ensures LexLess(Digits(base, width, m), Digits(base, width, n)) <==> m < n
  {
    if m < n {
      DigitsIncreasing(base, width, m, n);
    } else if n < m {
      DigitsIncreasing(base, width, n, m);
      LexAsymmetric(Digits(base, width, n), Digits(base, width, m));
    } else {
      LexIrreflexive(Digits(base, width, n));
    }
  }

  /** Both key widths hold every `u64`. */
  lemma Widths()
    ensures Power(256, 8) == 0x1_0000_0000_0000_0000
    ensures Power(10, 20) > 0x1_0000_0000_0000_0000
  {
    assert Power(256, 4) == 0x1_0000_0000;
    assert Power(256, 6) == 0x1_0000_0000_0000;
    assert Power(10, 4) == 10_000;
    assert Power(10, 8) == 100_000_000;
    assert Power(10, 12) == 1_000_000_000_000;
    assert Power(10, 16) == 10_000_000_000_000_000;
  }

  lemma DigitsInjective(base: nat, width: nat, m: nat, n: nat)
    requires base >= 2 && m < Power(base, width) && n < Power(base, width)
    requires Digits(base, width, m) == Digits(base, width, n)
    ensures m == n
  {
    DigitsOrder(base, width, m, n);
    DigitsOrder(base, width, n, m);
    LexIrreflexive(Digits(base, width, n));
  }

  // ---------- Reading encodings back ----------

  /** Value of digits, most significant first. */
  function BigValue(base: nat, digits: seq<nat>): nat
  {
    if digits == [] then 0 else base * BigValue(base, digits[..|digits| - 1]) + digits[|digits| - 1]
  }

  /** Value of digits, least significant first. */
  function LittleValue(base: nat, digits: seq<nat>): nat
  {
    if digits == [] then 0 else digits[0] + base * LittleValue(base, digits[1..])
  }

  lemma {:induction false} DigitsRead(base: nat, width: nat, n: nat)
    requires base >= 2 && n < Power(base, width)
    ensures BigValue(base, Digits(base, width, n)) == n
    ensures forall i :: 0 <= i < width ==> Digits(base, width, n)[i] < base
  {
    if width != 0 {
      DivSmaller(base, width, n);
      DigitsRead(base, width - 1, Quot(n, base));
      Euclid(base, n);
      hide Power;
      assert Digits(base, width, n)[..width - 1] == Digits(base, width - 1, Quot(n, base));
    }
  }

  lemma {:induction false} LittleEndianRead(base: nat, width: nat, n: nat)
    requires base >= 2 && n < Power(base, width)
    ensures LittleValue(base, LittleEndian(base, width, n)) == n
    ensures forall i :: 0 <= i < width ==> LittleEndian(base, width, n)[i] < base
  {
    if width != 0 {
      DivSmaller(base, width, n);
      LittleEndianRead(base, width - 1, Quot(n, base));
      Euclid(base, n);
      hide Power;
      LittleEndianParts(base, width, n);
    }
  }
}
