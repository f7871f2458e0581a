/** Sorting by an order: any sorting gives the same list when the order is total and tells all elements
    apart. */
module Sorting {
  /** A total order on the elements of a list. */
  ghost predicate Orders<T>(le: (T, T) -> bool, s: seq<T>) {
    && (forall a, b :: a in s && b in s ==> le(a, b) || le(b, a))
    && (forall a, b :: a in s && b in s && le(a, b) && le(b, a) ==> a == b)
    && (forall a, b, c :: a in s && b in s && c in s && le(a, b) && le(b, c) ==> le(a, c))
  }

  ghost predicate Sorted<T>(le: (T, T) -> bool, s: seq<T>) {
    forall i, j :: 0 <= i < j < |s| ==> le(s[i], s[j])
  }

  function Insert<T>(x: T, s: seq<T>, le: (T, T) -> bool): seq<T> {
    if s == [] then [x]
    else if le(x, s[0]) then [x] + s
    else [s[0]] + Insert(x, s[1..], le)
  }

  function Sort<T>(s: seq<T>, le: (T, T) -> bool): seq<T> {
    if s == [] then [] else Insert(s[0], Sort(s[1..], le), le)
  }

  lemma {:induction false} InsertPermutes<T>(x: T, s: seq<T>, le: (T, T) -> bool)
    ensures multiset(Insert(x, s, le)) == multiset{x} + multiset(s)
  {
    if s != [] {
      InsertPermutes(x, s[1..], le);
      assert s == [s[0]] + s[1..];
    }
  }

  lemma {:induction false} SortPermutes<T>(s: seq<T>, le: (T, T) -> bool)
    ensures multiset(Sort(s, le)) == multiset(s)
  {
    if s != [] {
      SortPermutes(s[1..], le);
      InsertPermutes(s[0], Sort(s[1..], le), le);
      assert s == [s[0]] + s[1..];
    }
  }

  lemma OrdersPart<T>(le: (T, T) -> bool, s: seq<T>, part: seq<T>)
    requires Orders(le, s) && forall x :: x in part ==> x in s
    ensures Orders(le, part)
  {
  }

  lemma {:induction false} InsertSorts<T>(x: T, s: seq<T>, le: (T, T) -> bool)
    requires Orders(le, [x] + s) && Sorted(le, s)
    ensures Sorted(le, Insert(x, s, le))
  {
    if s != [] {
      assert x in [x] + s && forall y :: y in s ==> y in [x] + s;
      if le(x, s[0]) {
        forall j | 0 < j < |s| + 1
          ensures le(x, ([x] + s)[j])
        {
          assert s[j - 1] in s && s[0] in s;
        }
      } else {
        var rest := Insert(x, s[1..], le);
        OrdersPart(le, [x] + s, [x] + s[1..]);
        InsertSorts(x, s[1..], le);
        InsertPermutes(x, s[1..], le);
        forall j | 0 <= j < |rest|
          ensures le(s[0], rest[j])
        {
          assert rest[j] in multiset(rest);
          assert rest[j] == x || rest[j] in s[1..];
          assert s[0] in s;
        }
      }
    }
  }

  lemma InPart<T>(s: seq<T>, rest: seq<T>)
    requires s != [] && multiset(rest) == multiset(s[1..])
    ensures forall y :: y in [s[0]] + rest ==> y in s
  {
    SameElements(rest, s[1..]);
    assert forall y :: y in s[1..] ==> y in s;
  }

  lemma {:induction false} SortSorts<T>(s: seq<T>, le: (T, T) -> bool)
    requires Orders(le, s)
    ensures Sorted(le, Sort(s, le))
  {
    if s != [] {
      var rest := Sort(s[1..], le);
      OrdersPart(le, s, s[1..]);
      SortSorts(s[1..], le);
      SortPermutes(s[1..], le);
      InPart(s, rest);
      OrdersPart(le, s, [s[0]] + rest);
      InsertSorts(s[0], rest, le);
    }
  }

  lemma SameElements<T>(a: seq<T>, b: seq<T>)
    requires multiset(a) == multiset(b)
    ensures forall x :: x in a <==> x in b
    ensures |a| == |b|
  {
    forall x
      ensures x in a <==> x in b
    {
      assert x in multiset(a) <==> x in multiset(b);
    }
    assert |multiset(a)| == |multiset(b)|;
  }

  lemma SameFirst<T>(a: seq<T>, b: seq<T>, le: (T, T) -> bool)
    requires a != [] && b != [] && a[0] in b && b[0] in a && Orders(le, a) && Sorted(le, a) && Sorted(le, b)
    ensures a[0] == b[0]
  {
    var i :| 0 <= i < |a| && a[i] == b[0];
    var j :| 0 <= j < |b| && b[j] == a[0];
    assert i > 0 ==> le(a[0], a[i]);
    assert j > 0 ==> le(b[0], b[j]);
    assert a[0] in a && a[i] in a;
  }

  /** Two sorted arrangements of the same elements are one. */
  lemma {:induction false} SortedUnique<T>(a: seq<T>, b: seq<T>, le: (T, T) -> bool)
    requires multiset(a) == multiset(b) && Orders(le, a) && Sorted(le, a) && Sorted(le, b)
    ensures a == b
  {
    SameElements(a, b);
    if a != [] {
      assert a[0] in a && b[0] in b;
      SameFirst(a, b, le);
      OrdersPart(le, a, a[1..]);
      assert Sorted(le, a[1..]) && Sorted(le, b[1..]);
      SameRest(a, b);
      hide Orders, Sorted;
      SortedUnique(a[1..], b[1..], le);
      assert a == [a[0]] + a[1..] && b == [b[0]] + b[1..];
    }
  }

  lemma SameRest<T>(a: seq<T>, b: seq<T>)
    requires multiset(a) == multiset(b) && a != [] && b != [] && a[0] == b[0]
    ensures multiset(a[1..]) == multiset(b[1..])
  {
    assert a == [a[0]] + a[1..] && b == [b[0]] + b[1..];
    assert multiset(a[1..]) == multiset(a) - multiset{a[0]};
    assert multiset(b[1..]) == multiset(b) - multiset{b[0]};
  }

  lemma OrdersPermuted<T>(le: (T, T) -> bool, a: seq<T>, b: seq<T>)
    requires multiset(a) == multiset(b) && Orders(le, a)
    ensures Orders(le, b)
  {
    SameElements(a, b);
    OrdersPart(le, a, b);
  }

  /** Sorting does not depend on the arrangement it starts from. */
  lemma SortUnique<T>(a: seq<T>, b: seq<T>, le: (T, T) -> bool)
    requires multiset(a) == multiset(b) && Orders(le, a)
    ensures Sort(a, le) == Sort(b, le)
  {
    hide Orders, Sorted;
    SortPermutes(a, le);
    SortPermutes(b, le);
    OrdersPermuted(le, a, b);
    OrdersPermuted(le, a, Sort(a, le));
    SortSorts(a, le);
    SortSorts(b, le);
    SortedUnique(Sort(a, le), Sort(b, le), le);
  }

  /** A value at two places counts twice. */
  lemma Twice<T>(s: seq<T>, j: nat, k: nat)
    requires j < k < |s| && s[j] == s[k]
    ensures multiset(s)[s[k]] >= 2
  {
    assert s == s[..k] + [s[k]] + s[k + 1..];
    assert s[..k][j] == s[k];
  }
}
