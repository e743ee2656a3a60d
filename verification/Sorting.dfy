/** Sorting by a total order. */
module Sorting {

  ghost predicate TotalOrder<T(!new)>(le: (T, T) -> bool)
  {
    && (forall a, b :: le(a, b) || le(b, a))
    && (forall a, b :: le(a, b) && le(b, a) ==> a == b)
    && (forall a, b, c :: le(a, b) && le(b, c) ==> le(a, c))
  }

  ghost predicate SortedBy<T>(le: (T, T) -> bool, s: seq<T>)
  {
    forall i, j :: 0 <= i < j < |s| ==> le(s[i], s[j])
  }

  function Insert<T>(le: (T, T) -> bool, s: seq<T>, x: T): seq<T>
  {
    if s == [] || le(x, s[0]) then [x] + s else [s[0]] + Insert(le, s[1..], x)
  }

  function Sort<T>(le: (T, T) -> bool, s: seq<T>): seq<T>
  {
    if s == [] then [] else Insert(le, Sort(le, s[1..]), s[0])
  }

  /** The order read backwards. */
  function Flip<T>(le: (T, T) -> bool): (T, T) -> bool { (a, b) => le(b, a) }

  lemma {:induction false} InsertElements<T>(le: (T, T) -> bool, s: seq<T>, x: T)
    ensures multiset(Insert(le, s, x)) == multiset(s) + multiset{x}
  {
    if s != [] && !le(x, s[0]) {
      InsertElements(le, s[1..], x);
      assert s == [s[0]] + s[1..];
    }
  }

  lemma SortedCons<T(!new)>(le: (T, T) -> bool, x: T, s: seq<T>)
    requires TotalOrder(le) && SortedBy(le, s) && (s != [] ==> le(x, s[0]))
    ensures SortedBy(le, [x] + s)
  {
    forall i | 0 <= i < |s| ensures le(x, s[i]) {
      assert i == 0 || le(s[0], s[i]);
    }
  }

  lemma {:induction false} InsertSorted<T(!new)>(le: (T, T) -> bool, s: seq<T>, x: T)
    requires TotalOrder(le) && SortedBy(le, s)
    ensures SortedBy(le, Insert(le, s, x))
  {
    if s == [] || le(x, s[0]) {
      SortedCons(le, x, s);
    } else {
      var rest := Insert(le, s[1..], x);
      InsertSorted(le, s[1..], x);
      InsertElements(le, s[1..], x);
      assert le(s[0], x);
      hide TotalOrder;
      forall i | 0 <= i < |rest| ensures le(s[0], rest[i]) {
        assert rest[i] in multiset(rest);
        if rest[i] != x {
          assert rest[i] in multiset(s[1..]);
        }
      }
      assert SortedBy(le, [s[0]] + rest);
    }
  }

  /** Sorting orders the elements and keeps them. */
  lemma {:induction false} SortCorrect<T(!new)>(le: (T, T) -> bool, s: seq<T>)
    requires TotalOrder(le)
    ensures SortedBy(le, Sort(le, s)) && multiset(Sort(le, s)) == multiset(s)
  {
    if s != [] {
      hide TotalOrder, SortedBy;
      SortCorrect(le, s[1..]);
      InsertSorted(le, Sort(le, s[1..]), s[0]);
      InsertElements(le, Sort(le, s[1..]), s[0]);
      assert s == [s[0]] + s[1..];
    } else {
      assert Sort(le, s) == [];
    }
  }

  lemma FlipIsTotal<T(!new)>(le: (T, T) -> bool)
    requires TotalOrder(le)
    ensures TotalOrder(Flip(le))
  {
  }
}
