/** The message an operator signs: method, path, timestamp and body, joined by newlines. */
module Canonical {

  const NEWLINE: char := '\n'

  /** Timestamps are signed 64-bit numbers. */
  type I64 = n: int | -0x8000_0000_0000_0000 <= n <= 0x7FFF_FFFF_FFFF_FFFF

  function Upper(c: char): char
  {
    if 'a' <= c <= 'z' then (c as int - 32) as char else c
  }

  function UpperAll(s: string): string { seq(|s|, i requires 0 <= i < |s| => Upper(s[i])) }

  function Digit(n: nat): char
    requires n < 10
  {
    (48 + n) as char
  }

  /** Decimal numeral, as `format!` prints it. */
  function Numeral(n: nat): (r: string)
    ensures r != []
  {
    if n < 10 then [Digit(n)] else Numeral(n / 10) + [Digit(n % 10)]
  }

  function Decimal(n: int): string { if n < 0 then ['-'] + Numeral(-n) else Numeral(n) }

  function Message(verb: string, path: string, timestamp: I64, body: string): string
  {
    UpperAll(verb) + [NEWLINE] + path + [NEWLINE] + Decimal(timestamp) + [NEWLINE] + body
  }

  lemma {:induction false} NumeralDigits(n: nat)
    ensures forall i :: 0 <= i < |Numeral(n)| ==> '0' <= Numeral(n)[i] <= '9'
  {
    if n >= 10 {
      NumeralDigits(n / 10);
    }
  }

  lemma {:induction false} NumeralInjective(m: nat, n: nat)
    requires Numeral(m) == Numeral(n)
    ensures m == n
  {
    var (a, b) := (Numeral(m), Numeral(n));
    assert a[|a| - 1] == b[|b| - 1];
    if m >= 10 && n >= 10 {
      assert a[..|a| - 1] == Numeral(m / 10) && b[..|b| - 1] == Numeral(n / 10);
      NumeralInjective(m / 10, n / 10);
    }
  }

  lemma DecimalSign(n: int)
    ensures Decimal(n) != [] && (Decimal(n)[0] == '-' <==> n < 0)
  {
    NumeralDigits(if n < 0 then -n else n);
  }

  lemma DecimalInjective(m: int, n: int)
    requires Decimal(m) == Decimal(n)
    ensures m == n
  {
    DecimalSign(m);
    DecimalSign(n);
    if m < 0 {
      assert Decimal(m)[1..] == Numeral(-m) && Decimal(n)[1..] == Numeral(-n);
      NumeralInjective(-m, -n);
    } else {
      NumeralInjective(m, n);
    }
  }

  lemma DecimalOneLine(n: int)
    ensures NEWLINE !in Decimal(n)
  {
    NumeralDigits(if n < 0 then -n else n);
  }

  /** The first newline splits a text in only one way. */
  lemma {:induction false} FirstLine(a: string, x: string, b: string, y: string)
    requires NEWLINE !in a && NEWLINE !in b && a + [NEWLINE] + x == b + [NEWLINE] + y
    ensures a == b && x == y
  {
    var (s, t) := (a + [NEWLINE] + x, b + [NEWLINE] + y);
    assert s[0] == if a == [] then NEWLINE else a[0];
    assert t[0] == if b == [] then NEWLINE else b[0];
    if a == [] {
      assert x == s[1..] && y == t[1..];
    } else {
      assert s[1..] == a[1..] + [NEWLINE] + x && t[1..] == b[1..] + [NEWLINE] + y;
      FirstLine(a[1..], x, b[1..], y);
      assert a == [a[0]] + a[1..] && b == [b[0]] + b[1..];
    }
  }

  lemma UpperOneLine(s: string)
    requires NEWLINE !in s
    ensures NEWLINE !in UpperAll(s)
  {
    forall i | 0 <= i < |s| ensures UpperAll(s)[i] != NEWLINE {
      assert s[i] != NEWLINE;
    }
  }

  lemma Regroup(v: string, p: string, t: string, b: string)
    ensures v + [NEWLINE] + p + [NEWLINE] + t + [NEWLINE] + b == v + [NEWLINE] + (p + [NEWLINE] + (t + [NEWLINE] + b))
  {
  }

  predicate OneLine(verb: string, path: string) { NEWLINE !in verb && NEWLINE !in path }

  /** The same request, up to the case of the method. */
  predicate SameRequest(v: string, p: string, t: I64, b: string, v': string, p': string, t': I64, b': string)
  {
    UpperAll(v) == UpperAll(v') && p == p' && t == t' && b == b'
  }

  lemma MessageParts(v: string, p: string, t: I64, b: string)
    ensures Message(v, p, t, b) == UpperAll(v) + [NEWLINE] + (p + [NEWLINE] + (Decimal(t) + [NEWLINE] + b))
  {
    hide UpperAll, Decimal;
    Regroup(UpperAll(v), p, Decimal(t), b);
  }

  lemma OneLineInjective(v: string, p: string, t: I64, b: string, v': string, p': string, t': I64, b': string)
    requires OneLine(v, p) && OneLine(v', p') && Message(v, p, t, b) == Message(v', p', t', b')
    ensures |v| == |v'| && |p| == |p'|
  {
    UpperOneLine(v);
    UpperOneLine(v');
    var (x, x') := (Decimal(t) + [NEWLINE] + b, Decimal(t') + [NEWLINE] + b');
    MessageParts(v, p, t, b);
    MessageParts(v', p', t', b');
    hide Message, Decimal;
    FirstLine(UpperAll(v), p + [NEWLINE] + x, UpperAll(v'), p' + [NEWLINE] + x');
    FirstLine(p, x, p', x');
  }

  /** A signature fixes the request: equal messages come from the same method up to case, the same path,
  timestamp and body, exactly when methods and paths are equally long; on one line they always are. */
  lemma MessageInjective(v: string, p: string, t: I64, b: string, v': string, p': string, t': I64, b': string)
    requires Message(v, p, t, b) == Message(v', p', t', b')
    ensures SameRequest(v, p, t, b, v', p', t', b') <==> |v| == |v'| && |p| == |p'|
    ensures OneLine(v, p) && OneLine(v', p') ==> SameRequest(v, p, t, b, v', p', t', b')
  {
    if OneLine(v, p) && OneLine(v', p') {
      OneLineInjective(v, p, t, b, v', p', t', b');
    }
    if |v| == |v'| && |p| == |p'| {
      EqualParts(v, p, t, b, v', p', t', b');
    } else {
      assert |UpperAll(v)| == |v| && |UpperAll(v')| == |v'|;
    }
  }

  lemma EqualParts(v: string, p: string, t: I64, b: string, v': string, p': string, t': I64, b': string)
    requires Message(v, p, t, b) == Message(v', p', t', b') && |v| == |v'| && |p| == |p'|
    ensures SameRequest(v, p, t, b, v', p', t', b')
  {
    DecimalOneLine(t);
    DecimalOneLine(t');
    MessageParts(v, p, t, b);
    MessageParts(v', p', t', b');
    var (u, u', d, d') := (UpperAll(v), UpperAll(v'), Decimal(t), Decimal(t'));
    assert |u| == |u'|;
    hide Message, UpperAll, Decimal;
    SplitAt(u, p + [NEWLINE] + (d + [NEWLINE] + b), u', p' + [NEWLINE] + (d' + [NEWLINE] + b'));
    SplitAt(p, d + [NEWLINE] + b, p', d' + [NEWLINE] + b');
    FirstLine(d, b, d', b');
    DecimalInjective(t, t');
  }

  lemma SplitAt(a: string, x: string, b: string, y: string)
    requires |a| == |b| && a + [NEWLINE] + x == b + [NEWLINE] + y
    ensures a == b && x == y
  {
    var (s, t) := (a + [NEWLINE] + x, b + [NEWLINE] + y);
    assert a == s[..|a|] && b == t[..|b|] && x == s[|a| + 1..] && y == t[|b| + 1..];
  }

  // ---------- When another request has the same message ----------

  ghost predicate IsDecimal(s: string) { exists n: I64 :: Decimal(n) == s }

  /** Another request has the same message. */
  ghost predicate Confused(v: string, p: string, t: I64, b: string, v': string, p': string, t': I64, b': string)
  {
    Message(v, p, t, b) == Message(v', p', t', b') && !SameRequest(v, p, t, b, v', p', t', b')
  }

  /** A way to read a message: the newlines at `i`, `j` and `k` end a text without small letters, a path and
  a numeral. */
  ghost predicate IsReading(m: string, i: int, j: int, k: int)
  {
    && 0 <= i < j < k < |m| && m[i] == m[j] == m[k] == NEWLINE
    && UpperAll(m[..i]) == m[..i] && IsDecimal(m[j + 1..k])
  }

  lemma UpperTwice(v: string)
    ensures UpperAll(UpperAll(v)) == UpperAll(v)
  {
    UpperPrefix(v, UpperAll(v));
  }

  lemma UpperPrefix(v: string, u: string)
    requires u <= UpperAll(v)
    ensures UpperAll(u) == u
  {
    forall i | 0 <= i < |u| ensures UpperAll(u)[i] == u[i] {
      assert u[i] == UpperAll(v)[i] == Upper(v[i]);
    }
  }

  /** Every request reads its own message. */
  lemma OwnReading(v: string, p: string, t: I64, b: string)
    ensures var j := |v| + 1 + |p|; IsReading(Message(v, p, t, b), |v|, j, j + 1 + |Decimal(t)|)
  {
    var (m, u, d) := (Message(v, p, t, b), UpperAll(v), Decimal(t));
    var j := |v| + 1 + |p|;
    UpperTwice(v);
    assert |u| == |v|;
    assert m == u + [NEWLINE] + p + [NEWLINE] + d + [NEWLINE] + b;
    hide UpperAll, Decimal, Message;
    assert m[..|v|] == u && m[j + 1..j + 1 + |d|] == d;
    assert IsDecimal(d);
  }

  /** And every reading is a request. */
  lemma ReadingIsRequest(m: string, i: int, j: int, k: int) returns (t: I64)
    requires IsReading(m, i, j, k)
    ensures m == Message(m[..i], m[i + 1..j], t, m[k + 1..])
  {
    t :| Decimal(t) == m[j + 1..k];
    hide UpperAll, Decimal;
    assert m == m[..i] + [NEWLINE] + m[i + 1..j] + [NEWLINE] + m[j + 1..k] + [NEWLINE] + m[k + 1..];
  }

  lemma ConfusedReads(v: string, p: string, t: I64, b: string, v': string, p': string, t': I64, b': string)
    requires Confused(v, p, t, b, v', p', t', b')
    ensures var j := |v'| + 1 + |p'|;
      && IsReading(Message(v, p, t, b), |v'|, j, j + 1 + |Decimal(t')|)
      && !(|v'| == |v| && j == |v| + 1 + |p|)
  {
    OwnReading(v', p', t', b');
    hide Message, IsReading, Decimal, UpperAll;
    MessageInjective(v, p, t, b, v', p', t', b');
  }

  lemma ReadingConfuses(v: string, p: string, t: I64, b: string, i: int, j: int, k: int)
    returns (v': string, p': string, t': I64, b': string)
    requires IsReading(Message(v, p, t, b), i, j, k) && !(i == |v| && j == |v| + 1 + |p|)
    ensures Confused(v, p, t, b, v', p', t', b')
  {
    var m := Message(v, p, t, b);
    t' := ReadingIsRequest(m, i, j, k);
    v', p', b' := m[..i], m[i + 1..j], m[k + 1..];
    hide Message, IsDecimal, Decimal, UpperAll, SameRequest;
    MessageInjective(v, p, t, b, v', p', t', b');
  }

  /** For every request: another request has the same message exactly when the message can be read with
  another method or path. */
  lemma ConfusedExactly(v: string, p: string, t: I64, b: string)
    ensures var m := Message(v, p, t, b);
      (exists v', p', t', b' :: Confused(v, p, t, b, v', p', t', b')) <==>
      (exists i, j, k :: IsReading(m, i, j, k) && !(i == |v| && j == |v| + 1 + |p|))
  {
    hide Message, IsReading, Decimal, Confused;
    if i, j, k :| IsReading(Message(v, p, t, b), i, j, k) && !(i == |v| && j == |v| + 1 + |p|) {
      var v', p', t', b' := ReadingConfuses(v, p, t, b, i, j, k);
    }
    if v', p', t', b' :| Confused(v, p, t, b, v', p', t', b') {
      ConfusedReads(v, p, t, b, v', p', t', b');
    }
  }

  // ---------- Methods and paths of several lines ----------

  function FirstLineOf(s: string): string
  {
    if s == [] || s[0] == NEWLINE then [] else [s[0]] + FirstLineOf(s[1..])
  }

  function AfterLine(s: string): string
  {
    if s == [] then [] else if s[0] == NEWLINE then s[1..] else AfterLine(s[1..])
  }

  function Newlines(s: string): nat
  {
    if s == [] then 0 else (if s[0] == NEWLINE then 1 else 0) + Newlines(s[1..])
  }

  lemma {:induction false} NewlinesConcat(a: string, b: string)
    ensures Newlines(a + b) == Newlines(a) + Newlines(b)
  {
    if a == [] {
      assert a + b == b;
    } else {
      assert (a + b)[1..] == a[1..] + b;
      NewlinesConcat(a[1..], b);
    }
  }

  lemma {:induction false} SplitLine(s: string)
    requires Newlines(s) > 0
    ensures s == FirstLineOf(s) + [NEWLINE] + AfterLine(s) && NEWLINE !in FirstLineOf(s)
    ensures Newlines(AfterLine(s)) == Newlines(s) - 1
  {
    if s[0] != NEWLINE {
      SplitLine(s[1..]);
    }
  }

  /** The first line of a text that starts with `a` and a newline is a prefix of `a`. */
  lemma {:induction false} FirstLineWithin(a: string, x: string)
    ensures FirstLineOf(a + [NEWLINE] + x) <= a
  {
    var s := a + [NEWLINE] + x;
    if a != [] && a[0] != NEWLINE {
      assert s[0] == a[0] && s[1..] == a[1..] + [NEWLINE] + x;
      FirstLineWithin(a[1..], x);
    }
  }

  function ThirdLine(s: string): string { FirstLineOf(AfterLine(AfterLine(s))) }

  /** Another request, with method and path on one line, has the same message. */
  ghost predicate Mistaken(v: string, p: string, t: I64, b: string, v': string, p': string, t': I64, b': string)
  {
    OneLine(v', p') && Confused(v, p, t, b, v', p', t', b')
  }

  lemma MessageNewlines(v: string, p: string, t: I64, b: string)
    ensures Newlines(Message(v, p, t, b)) >= 3
    ensures FirstLineOf(Message(v, p, t, b)) <= UpperAll(v)
  {
    hide UpperAll, Decimal;
    var (u, d, nl) := (UpperAll(v), Decimal(t), [NEWLINE]);
    NewlinesConcat(u, nl);
    NewlinesConcat(u + nl, p);
    NewlinesConcat(u + nl + p, nl);
    NewlinesConcat(u + nl + p + nl, d);
    NewlinesConcat(u + nl + p + nl + d, nl);
    NewlinesConcat(u + nl + p + nl + d + nl, b);
    Regroup(u, p, d, b);
    FirstLineWithin(u, p + nl + (d + nl + b));
  }

  /** A message whose third line is a numeral is the message of a one-line request. */
  lemma OneLineReading(v: string, p: string, t: I64, b: string, t': I64)
    requires Decimal(t') == ThirdLine(Message(v, p, t, b))
    ensures var m := Message(v, p, t, b); var rest := AfterLine(m);
      && OneLine(FirstLineOf(m), FirstLineOf(rest))
      && m == Message(FirstLineOf(m), FirstLineOf(rest), t', AfterLine(AfterLine(rest)))
  {
    var m := Message(v, p, t, b);
    MessageNewlines(v, p, t, b);
    UpperPrefix(v, FirstLineOf(m));
    hide Message, UpperAll, Decimal;
    SplitLine(m);
    SplitLine(AfterLine(m));
    SplitLine(AfterLine(AfterLine(m)));
    MessageParts(FirstLineOf(m), FirstLineOf(AfterLine(m)), t', AfterLine(AfterLine(AfterLine(m))));
  }

  lemma ThirdLineIsTime(v: string, p: string, t: I64, b: string)
    requires OneLine(v, p)
    ensures ThirdLine(Message(v, p, t, b)) == Decimal(t)
  {
    var m := Message(v, p, t, b);
    MessageNewlines(v, p, t, b);
    UpperOneLine(v);
    DecimalOneLine(t);
    MessageParts(v, p, t, b);
    hide Message, UpperAll, Decimal;
    var x := Decimal(t) + [NEWLINE] + b;
    SplitLine(m);
    FirstLine(FirstLineOf(m), AfterLine(m), UpperAll(v), p + [NEWLINE] + x);
    SplitLine(AfterLine(m));
    FirstLine(FirstLineOf(AfterLine(m)), AfterLine(AfterLine(m)), p, x);
    SplitLine(x);
    FirstLine(FirstLineOf(x), AfterLine(x), Decimal(t), b);
  }

  /** For every request: its message is that of a different one-line request exactly when its method or
  path holds a newline and the third line of the message reads as a numeral. */
  lemma MistakenExactly(v: string, p: string, t: I64, b: string)
    ensures (exists v', p', t', b' :: Mistaken(v, p, t, b, v', p', t', b')) <==>
      !OneLine(v, p) && IsDecimal(ThirdLine(Message(v, p, t, b)))
  {
    var m := Message(v, p, t, b);
    if v', p', t', b' :| Mistaken(v, p, t, b, v', p', t', b') {
      hide ThirdLine;
      ThirdLineIsTime(v', p', t', b');
      if OneLine(v, p) {
        MessageInjective(v, p, t, b, v', p', t', b');
      }
    }
    if !OneLine(v, p) && IsDecimal(ThirdLine(m)) {
      var t': I64 :| Decimal(t') == ThirdLine(m);
      OneLineReading(v, p, t, b, t');
      var (v', p') := (FirstLineOf(m), FirstLineOf(AfterLine(m)));
      SeveralLines(v, v');
      assert Mistaken(v, p, t, b, v', p', t', AfterLine(AfterLine(AfterLine(m))));
    }
  }

  lemma SeveralLines(v: string, v': string)
    requires NEWLINE !in v'
    ensures UpperAll(v) == UpperAll(v') ==> NEWLINE !in v
  {
    UpperOneLine(v');
    if UpperAll(v) == UpperAll(v') {
      forall i | 0 <= i < |v| ensures v[i] != NEWLINE {
        assert UpperAll(v)[i] != NEWLINE;
      }
    }
  }

  /** Such a pair: with a newline in the path two different requests share a message. */
  lemma NewlineInPathCollides()
    ensures Message("POST", "/a\n1", 2, "") == Message("POST", "/a", 1, "2\n")
  {
    assert Decimal(1) == "1" && Decimal(2) == "2";
    var verb := UpperAll("POST");
    var (a, b) := (Message("POST", "/a\n1", 2, ""), Message("POST", "/a", 1, "2\n"));
    assert "/a\n1" == "/a" + [NEWLINE] + "1";
    assert "2\n" == "2" + [NEWLINE];
    assert a == verb + [NEWLINE] + "/a" + [NEWLINE] + "1" + [NEWLINE] + "2" + [NEWLINE];
    assert b == verb + [NEWLINE] + "/a" + [NEWLINE] + "1" + [NEWLINE] + "2" + [NEWLINE];
  }

  // ---------- What the message says ----------

  /** Equal, or the small and the capital form of one letter. */
  predicate SameLetter(c: char, d: char)
  {
    c == d || ('a' <= c <= 'z' && d as int + 32 == c as int) || ('a' <= d <= 'z' && c as int + 32 == d as int)
  }

  /** Methods count as equal exactly when they differ in the case of their letters at most. */
  lemma CaseIsIgnored(v: string, v': string)
    ensures UpperAll(v) == UpperAll(v') <==>
      |v| == |v'| && forall i :: 0 <= i < |v| ==> SameLetter(v[i], v'[i])
  {
    if |v| == |v'| {
      forall i | 0 <= i < |v| ensures UpperAll(v)[i] == UpperAll(v')[i] <==> SameLetter(v[i], v'[i]) {
      }
      if UpperAll(v) == UpperAll(v') {
        forall i | 0 <= i < |v| ensures SameLetter(v[i], v'[i]) {
          assert UpperAll(v)[i] == UpperAll(v')[i];
        }
      }
    } else {
      assert |UpperAll(v)| != |UpperAll(v')|;
    }
  }

  /** Value of a decimal numeral. */
  function Reads(s: string): int
  {
    if s == [] then 0 else 10 * Reads(s[..|s| - 1]) + (s[|s| - 1] as int - '0' as int)
  }

  lemma {:induction false} NumeralReads(n: nat)
    ensures Reads(Numeral(n)) == n
    ensures n > 0 ==> Numeral(n)[0] != '0'
  {
    if n >= 10 {
      NumeralReads(n / 10);
      assert Numeral(n)[..|Numeral(n)| - 1] == Numeral(n / 10);
    } else {
      assert Numeral(n)[..0] == [];
    }
  }

  /** The message, line by line: the method without small letters, the path, the timestamp as a numeral without
  leading zeros, and the body. */
  lemma MessageLayout(v: string, p: string, t: I64, b: string)
    ensures exists u, d ::
      && Message(v, p, t, b) == u + "\n" + p + "\n" + d + "\n" + b
      && |u| == |v| && (forall i :: 0 <= i < |v| ==> SameLetter(u[i], v[i]) && !('a' <= u[i] <= 'z'))
      && IsNumeralOf(d, t)
  {
    var (u, d) := (UpperAll(v), Decimal(t));
    var n: int := t;
    NumeralReads(if n < 0 then -n else n);
    assert IsNumeralOf(d, t);
    hide Decimal, IsNumeralOf;
    assert Message(v, p, t, b) == u + "\n" + p + "\n" + d + "\n" + b;
  }

  ghost predicate IsNumeralOf(d: string, t: int)
  {
    d != [] && if t < 0 then d[0] == '-' && Reads(d[1..]) == -t && d[1..] != [] && d[1] != '0'
               else Reads(d) == t && (t > 0 ==> d[0] != '0')
  }
}
