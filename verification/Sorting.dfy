/** The stable sort of the standard library, latest first. */
module Sorting {
  function Place<T>(x: T, xs: seq<T>, time: T -> int): (r: seq<T>)
    ensures multiset(r) == multiset([x]) + multiset(xs)
  {
    if xs == [] || time(xs[0]) <= time(x) then [x] + xs
    else
      assert xs == [xs[0]] + xs[1..];
      [xs[0]] + Place(x, xs[1..], time)
  }

  function SortDesc<T>(xs: seq<T>, time: T -> int): (r: seq<T>)
    ensures multiset(r) == multiset(xs) && |r| == |xs|
  {
    if xs == [] then []
    else
      assert xs == [xs[0]] + xs[1..];
      var r := Place(xs[0], SortDesc(xs[1..], time), time);
      assert |r| == |multiset(r)|;
      r
  }

  predicate Desc<T>(xs: seq<T>, time: T -> int) {
    forall j, k :: 0 <= j < k < |xs| ==> time(xs[j]) >= time(xs[k])
  }

  predicate StrictlyDesc<T>(xs: seq<T>, time: T -> int) {
    forall j, k :: 0 <= j < k < |xs| ==> time(xs[j]) > time(xs[k])
  }

  lemma {:induction false} PlaceKeepsDesc<T>(x: T, xs: seq<T>, time: T -> int)
    requires Desc(xs, time)
    ensures Desc(Place(x, xs, time), time)
  {
    if xs != [] && time(xs[0]) > time(x) {
      PlaceKeepsDesc(x, xs[1..], time);
      forall y | y in Place(x, xs[1..], time) ensures time(y) <= time(xs[0]) {
        assert y in multiset(Place(x, xs[1..], time));
      }
    }
  }

  lemma {:induction false} SortDescSorts<T>(xs: seq<T>, time: T -> int)
    ensures Desc(SortDesc(xs, time), time)
  {
    if xs != [] {
      SortDescSorts(xs[1..], time);
      PlaceKeepsDesc(xs[0], SortDesc(xs[1..], time), time);
    }
  }

  /** A sequence already in order is left as it is. */
  lemma {:induction false} SortedStays<T>(xs: seq<T>, time: T -> int)
    requires Desc(xs, time)
    ensures SortDesc(xs, time) == xs
  {
    if xs != [] { SortedStays(xs[1..], time); }
  }

  lemma SameElements<T>(xs: seq<T>, time: T -> int, x: T)
    ensures x in SortDesc(xs, time) <==> x in xs
  {
    assert x in multiset(SortDesc(xs, time)) <==> x in multiset(xs);
  }

  /** Only one strictly decreasing sequence holds given elements. */
  lemma {:induction false} StrictlyDescUnique<T(!new)>(xs: seq<T>, ys: seq<T>, time: T -> int)
    requires StrictlyDesc(xs, time) && StrictlyDesc(ys, time)
    requires forall x :: x in xs <==> x in ys
    ensures xs == ys
  {
    if xs != [] { NonEmpty(xs, ys); }
    if ys != [] { NonEmpty(ys, xs); }
    if xs != [] {
      assert xs[0] in ys && ys[0] in xs;
      forall x ensures x in xs[1..] <==> x in ys[1..] {
        TailHolds(xs, time, x);
        TailHolds(ys, time, x);
      }
      StrictlyDescUnique(xs[1..], ys[1..], time);
    }
  }

  lemma NonEmpty<T>(xs: seq<T>, ys: seq<T>)
    requires xs != [] && forall x :: x in xs ==> x in ys
    ensures ys != []
  {
    assert xs[0] in ys;
  }

  lemma TailHolds<T>(xs: seq<T>, time: T -> int, x: T)
    requires StrictlyDesc(xs, time) && xs != []
    ensures x in xs[1..] <==> x in xs && x != xs[0]
  {
  }

  /** Distinct times make the sorted order strict. */
  lemma SortDescStrict<T>(xs: seq<T>, time: T -> int)
    requires forall j, k :: 0 <= j < k < |xs| ==> time(xs[j]) != time(xs[k])
    ensures StrictlyDesc(SortDesc(xs, time), time)
  {
    SortDescSorts(xs, time);
    var r := SortDesc(xs, time);
    forall j, k | 0 <= j < k < |r| ensures time(r[j]) > time(r[k]) {
      if time(r[j]) == time(r[k]) { SameTimeTwice(xs, time, r, j, k); }
    }
  }

  lemma SameTimeTwice<T>(xs: seq<T>, time: T -> int, r: seq<T>, j: nat, k: nat)
    requires multiset(r) == multiset(xs) && j < k < |r| && time(r[j]) == time(r[k])
    ensures exists a, b :: 0 <= a < b < |xs| && time(xs[a]) == time(xs[b])
  {
    assert r[j] in multiset(xs) && r[k] in multiset(xs);
    if r[j] == r[k] {
      assert r == r[..j] + [r[j]] + r[j + 1..k] + [r[k]] + r[k + 1..];
      assert multiset(r)[r[j]] >= 2;
      TwiceMeansTwoPlaces(xs, r[j]);
    } else {
      var a :| 0 <= a < |xs| && xs[a] == r[j];
      var b :| 0 <= b < |xs| && xs[b] == r[k];
      assert a < b || b < a;
    }
  }

  lemma {:induction false} TwiceMeansTwoPlaces<T>(xs: seq<T>, x: T)
    requires multiset(xs)[x] >= 2
    ensures exists a, b :: 0 <= a < b < |xs| && xs[a] == x && xs[b] == x
  {
    assert xs == [xs[0]] + xs[1..];
    if xs[0] == x {
      assert x in multiset(xs[1..]);
      var b :| 0 <= b < |xs[1..]| && xs[1..][b] == x;
      assert xs[b + 1] == x;
    } else {
      TwiceMeansTwoPlaces(xs[1..], x);
      var a, b :| 0 <= a < b < |xs[1..]| && xs[1..][a] == x && xs[1..][b] == x;
      assert xs[a + 1] == x && xs[b + 1] == x;
    }
  }

  /** The elements of one time, in order. */
  function AtTime<T>(xs: seq<T>, time: T -> int, t: int): seq<T> {
    if xs == [] then [] else (if time(xs[0]) == t then [xs[0]] else []) + AtTime(xs[1..], time, t)
  }

  lemma {:induction false} PlaceIsStable<T>(x: T, xs: seq<T>, time: T -> int, t: int)
    requires Desc(xs, time)
    ensures AtTime(Place(x, xs, time), time, t) == (if time(x) == t then [x] else []) + AtTime(xs, time, t)
  {
    if xs == [] || time(xs[0]) <= time(x) {
      assert ([x] + xs)[1..] == xs;
    } else {
      PlaceIsStable(x, xs[1..], time, t);
      assert Place(x, xs, time)[1..] == Place(x, xs[1..], time);
      if time(x) == t { NoneAfter(xs, time, t); }
    }
  }

  /** Nothing of a later time than the first element follows it. */
  lemma NoneAfter<T>(xs: seq<T>, time: T -> int, t: int)
    requires xs != [] && time(xs[0]) > t
    ensures AtTime(xs, time, t) == AtTime(xs[1..], time, t)
  {
  }

  /** Elements of equal time keep their order. */
  lemma {:induction false} SortIsStable<T>(xs: seq<T>, time: T -> int, t: int)
    ensures AtTime(SortDesc(xs, time), time, t) == AtTime(xs, time, t)
  {
    if xs != [] {
      SortIsStable(xs[1..], time, t);
      SortDescSorts(xs[1..], time);
      PlaceIsStable(xs[0], SortDesc(xs[1..], time), time, t);
    }
  }
}
