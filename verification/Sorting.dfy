/**
 A stable insertion sort standing for the library sorts, and what its callers need of it: the result
 is sorted, is a permutation, and is the only sorted arrangement when no two elements tie.
 */
module Sorting {

  /** leq is reflexive, total and transitive on the elements of xs. */
  ghost predicate PreorderOn<T(!new)>(leq: (T, T) -> bool, xs: seq<T>) {
    && (forall x, y :: x in xs && y in xs ==> leq(x, y) || leq(y, x))
    && (forall x, y, z :: x in xs && y in xs && z in xs && leq(x, y) && leq(y, z) ==> leq(x, z))
  }

  ghost predicate SortedBy<T(!new)>(leq: (T, T) -> bool, xs: seq<T>) {
    forall i, j :: 0 <= i < j < |xs| ==> leq(xs[i], xs[j])
  }

  function Insert<T>(leq: (T, T) -> bool, x: T, xs: seq<T>): (ys: seq<T>)
    ensures |ys| == |xs| + 1
    ensures multiset(ys) == multiset(xs) + multiset{x}
  {
    if xs == [] then [x]
    else if leq(x, xs[0]) then
      assert [x] + xs == [x] + xs[..];
      [x] + xs
    else
      assert xs == [xs[0]] + xs[1..];
      [xs[0]] + Insert(leq, x, xs[1..])
  }

  /** The elements are taken from the back, so an element goes before the ones it ties with. */
  function Sort<T>(leq: (T, T) -> bool, xs: seq<T>): (ys: seq<T>)
    ensures |ys| == |xs|
    ensures multiset(ys) == multiset(xs)
  {
    if xs == [] then [] else
      assert xs == [xs[0]] + xs[1..];
      Insert(leq, xs[0], Sort(leq, xs[1..]))
  }

  lemma SameElements<T>(xs: seq<T>, ys: seq<T>)
    requires multiset(xs) == multiset(ys)
    ensures forall x :: x in xs <==> x in ys
  {
    forall x ensures x in xs <==> x in ys {
      assert x in xs <==> x in multiset(xs);
      assert x in ys <==> x in multiset(ys);
    }
  }

  lemma InsertElements<T>(leq: (T, T) -> bool, x: T, xs: seq<T>)
    ensures forall y :: y in Insert(leq, x, xs) <==> y == x || y in xs
  {
    var ys := Insert(leq, x, xs);
    forall y ensures y in ys <==> y == x || y in xs {
      assert y in ys <==> y in multiset(ys);
      assert y in xs <==> y in multiset(xs);
    }
  }

  lemma {:induction false} InsertSorted<T(!new)>(leq: (T, T) -> bool, x: T, xs: seq<T>)
    requires PreorderOn(leq, [x] + xs) && SortedBy(leq, xs)
    ensures SortedBy(leq, Insert(leq, x, xs))
  {
    assert x in [x] + xs && forall y :: y in xs ==> y in [x] + xs;
    if xs != [] {
      if leq(x, xs[0]) {
        forall y | y in xs ensures leq(x, y) {
          assert y == xs[0] || leq(xs[0], y);
        }
        ConsSorted(leq, x, xs);
      } else {
        assert xs == [xs[0]] + xs[1..];
        assert forall y :: y in [x] + xs[1..] ==> y in [x] + xs;
        InsertSorted(leq, x, xs[1..]);
        InsertElements(leq, x, xs[1..]);
        forall y | y in Insert(leq, x, xs[1..]) ensures leq(xs[0], y) {
          assert y != x ==> y in xs[1..];
        }
        ConsSorted(leq, xs[0], Insert(leq, x, xs[1..]));
      }
    }
  }

  lemma ConsSorted<T(!new)>(leq: (T, T) -> bool, x: T, xs: seq<T>)
    requires SortedBy(leq, xs) && forall y :: y in xs ==> leq(x, y)
    ensures SortedBy(leq, [x] + xs)
  {
  }

  lemma {:induction false} SortSorted<T(!new)>(leq: (T, T) -> bool, xs: seq<T>)
    requires PreorderOn(leq, xs)
    ensures SortedBy(leq, Sort(leq, xs))
  {
    if xs != [] {
      var tail := Sort(leq, xs[1..]);
      assert forall y :: y in xs[1..] ==> y in xs;
      SortSorted(leq, xs[1..]);
      SameElements(tail, xs[1..]);
      assert forall y :: y in [xs[0]] + tail ==> y in xs;
      InsertSorted(leq, xs[0], tail);
    }
  }

  /** Sorting what is already sorted changes nothing. */
  lemma {:induction false} SortFixed<T(!new)>(leq: (T, T) -> bool, xs: seq<T>)
    requires SortedBy(leq, xs)
    ensures Sort(leq, xs) == xs
  {
    if xs != [] {
      assert SortedBy(leq, xs[1..]) by {
        assert forall i :: 0 <= i < |xs[1..]| ==> xs[1..][i] == xs[i + 1];
      }
      SortFixed(leq, xs[1..]);
      assert xs == [xs[0]] + xs[1..];
    }
  }

  lemma SameHead<T(!new)>(leq: (T, T) -> bool, xs: seq<T>, ys: seq<T>)
    requires SortedBy(leq, xs) && SortedBy(leq, ys) && xs != [] && ys != []
    requires forall x, y :: x in xs && y in xs && leq(x, y) && leq(y, x) ==> x == y
    requires forall x :: x in xs <==> x in ys
    ensures xs[0] == ys[0]
  {
    assert xs[0] in xs && ys[0] in ys;
    var i :| 0 <= i < |ys| && ys[i] == xs[0];
    var j :| 0 <= j < |xs| && xs[j] == ys[0];
    assert i == 0 || leq(ys[0], xs[0]);
    assert j == 0 || leq(xs[0], ys[0]);
  }

  lemma SameTail<T>(xs: seq<T>, ys: seq<T>)
    requires xs != [] && ys != [] && xs[0] == ys[0] && multiset(xs) == multiset(ys)
    ensures multiset(xs[1..]) == multiset(ys[1..])
  {
    assert xs == [xs[0]] + xs[1..] && ys == [ys[0]] + ys[1..];
    assert multiset(xs[1..]) == multiset(xs) - multiset{xs[0]};
    assert multiset(ys[1..]) == multiset(ys) - multiset{ys[0]};
  }

  /** Without ties the sorted arrangement of some elements is unique. */
  lemma {:induction false} SortedUnique<T(!new)>(leq: (T, T) -> bool, xs: seq<T>, ys: seq<T>)
    requires SortedBy(leq, xs) && SortedBy(leq, ys)
    requires forall x, y :: x in xs && y in xs && leq(x, y) && leq(y, x) ==> x == y
    requires multiset(xs) == multiset(ys)
    ensures xs == ys
  {
    SameElements(xs, ys);
    assert |xs| == |multiset(xs)| == |multiset(ys)| == |ys|;
    if xs != [] {
      SameHead(leq, xs, ys);
      SameTail(xs, ys);
      SortedTail(leq, xs);
      SortedTail(leq, ys);
      assert forall y :: y in xs[1..] ==> y in xs;
      SortedUnique(leq, xs[1..], ys[1..]);
      assert xs == [xs[0]] + xs[1..] && ys == [ys[0]] + ys[1..];
    }
  }

  lemma SortedTail<T(!new)>(leq: (T, T) -> bool, xs: seq<T>)
    requires SortedBy(leq, xs) && xs != []
    ensures SortedBy(leq, xs[1..])
  {
    assert forall i :: 0 <= i < |xs[1..]| ==> xs[1..][i] == xs[i + 1];
  }
}
