/** sorted() on a collection without equal keys: the one sequence of its elements that is in order. */
module Sorting {
  import opened Order

  ghost predicate SortedBy<T(!new)>(less: (T, T) -> bool, r: seq<T>) {
    forall i, j :: 0 <= i < j < |r| ==> less(r[i], r[j])
  }

  method Sorted<T(==, !new)>(less: (T, T) -> bool, items: set<T>) returns (r: seq<T>)
    requires StrictTotal(less)
    ensures (forall x :: x in r <==> x in items) && SortedBy(less, r)
  {
    r := [];
    var left := items;
    while left != {}
      invariant forall x :: x in items <==> x in r || x in left
      invariant forall i, x :: 0 <= i < |r| && x in left ==> less(r[i], x)
      invariant SortedBy(less, r)
    {
      LeastExists(less, left);
      var x :| x in left && forall y :: y in left && y != x ==> less(x, y);
      r, left := r + [x], left - {x};
    }
  }

  lemma {:induction false} LeastExists<T(!new)>(less: (T, T) -> bool, items: set<T>)
    requires StrictTotal(less) && items != {}
    ensures exists x :: x in items && forall y :: y in items && y != x ==> less(x, y)
    decreases |items|
  {
    var z :| z in items;
    var rest := items - {z};
    if rest == {} {
      assert items == {z};
    } else {
      LeastExists(less, rest);
      var x :| x in rest && forall y :: y in rest && y != x ==> less(x, y);
      var least := if less(z, x) then z else x;
      assert least in items && (less(x, z) || less(z, x));
      forall y | y in items && y != least ensures less(least, y) {
        assert y == z || y == x || less(x, y);
      }
    }
  }

  ghost predicate Elements<T(!new)>(r: seq<T>, items: set<T>) {
    forall x :: x in r <==> x in items
  }

  /** Two ordered sequences of the same elements are the same sequence. */
  lemma {:induction false} SortedUnique<T(!new)>(less: (T, T) -> bool, a: seq<T>, b: seq<T>)
    requires StrictTotal(less) && SortedBy(less, a) && SortedBy(less, b)
    requires forall x :: x in a <==> x in b
    ensures a == b
  {
    if a == [] {
      NoElements(b);
    } else {
      assert a[0] in b && b[0] in a;
      HeadFirst(less, a, b[0]);
      HeadFirst(less, b, a[0]);
      TailElements(less, a, b);
      SortedUnique(less, a[1..], b[1..]);
      assert a == [a[0]] + a[1..] && b == [b[0]] + b[1..];
    }
  }

  lemma NoElements<T>(s: seq<T>)
    ensures s == [] || exists x :: x in s
  {
    if s != [] {
      assert s[0] in s;
    }
  }

  lemma HeadFirst<T(!new)>(less: (T, T) -> bool, a: seq<T>, x: T)
    requires SortedBy(less, a) && x in a
    ensures x == a[0] || less(a[0], x)
  {
  }

  lemma TailElements<T(!new)>(less: (T, T) -> bool, a: seq<T>, b: seq<T>)
    requires StrictTotal(less) && SortedBy(less, a) && SortedBy(less, b) && a != [] && b != [] && a[0] == b[0]
    requires forall x :: x in a <==> x in b
    ensures forall x :: x in a[1..] <==> x in b[1..]
  {
    forall x ensures x in a[1..] <==> x in b[1..] {
      HeadOnce(less, a, x);
      HeadOnce(less, b, x);
    }
  }

  lemma HeadOnce<T(!new)>(less: (T, T) -> bool, a: seq<T>, x: T)
    requires StrictTotal(less) && SortedBy(less, a) && a != []
    ensures x in a[1..] <==> x in a && x != a[0]
  {
    if x in a[1..] {
      var i :| 0 <= i < |a[1..]| && a[1..][i] == x;
      assert less(a[0], a[i + 1]);
    }
    if x in a && x != a[0] {
      var i :| 0 <= i < |a| && a[i] == x;
      assert a[1..][i - 1] == x;
    }
  }

  /** The elements of a set in order. */
  ghost function Arranged<T(!new)>(less: (T, T) -> bool, items: set<T>): (r: seq<T>)
    requires StrictTotal(less)
    ensures SortedBy(less, r) && Elements(r, items) && |r| == |items|
    decreases |items|
  {
    if items == {} then []
    else
      LeastExists(less, items);
      var x :| x in items && forall y :: y in items && y != x ==> less(x, y);
      [x] + Arranged(less, items - {x})
  }

  lemma ArrangedIs<T(!new)>(less: (T, T) -> bool, items: set<T>, r: seq<T>)
    requires StrictTotal(less) && SortedBy(less, r) && Elements(r, items)
    ensures r == Arranged(less, items)
  {
    SortedUnique(less, r, Arranged(less, items));
  }

  lemma DistinctWhenSorted<T(!new)>(less: (T, T) -> bool, r: seq<T>)
    requires StrictTotal(less) && SortedBy(less, r)
    ensures forall i, j :: 0 <= i < j < |r| ==> r[i] != r[j]
  {
  }
}
