/** Stable sorting by any total preorder, as `sort` and `sort_by_key` do it. */
module Sorting {

  type Order<!T> = (T, T) -> bool

  ghost predicate Ordering<T(!new)>(leq: Order<T>) {
    && (forall a, b :: leq(a, b) || leq(b, a))
    && (forall a, b, c :: leq(a, b) && leq(b, c) ==> leq(a, c))
  }

  function Insert<T>(x: T, xs: seq<T>, leq: Order<T>): (r: seq<T>)
    ensures |r| == |xs| + 1
  {
    if xs == [] || leq(x, xs[0]) then [x] + xs else [xs[0]] + Insert(x, xs[1..], leq)
  }

  function Sort<T>(xs: seq<T>, leq: Order<T>): (r: seq<T>)
    ensures |r| == |xs|
  {
    if xs == [] then [] else Insert(xs[0], Sort(xs[1..], leq), leq)
  }

  ghost predicate Sorted<T>(xs: seq<T>, leq: Order<T>) {
    forall i, j :: 0 <= i < j < |xs| ==> leq(xs[i], xs[j])
  }

  lemma {:induction false} InsertPermutes<T>(x: T, xs: seq<T>, leq: Order<T>)
    ensures multiset(Insert(x, xs, leq)) == multiset(xs) + multiset{x}
    ensures forall y :: y in Insert(x, xs, leq) <==> y in xs || y == x
  {
    if xs == [] || leq(x, xs[0]) {
      assert forall y :: y in [x] + xs <==> y in xs || y == x;
    } else {
      InsertPermutes(x, xs[1..], leq);
      assert xs == [xs[0]] + xs[1..];
    }
  }

  lemma {:induction false} InsertSorts<T(!new)>(x: T, xs: seq<T>, leq: Order<T>)
    requires Ordering(leq) && Sorted(xs, leq)
    ensures Sorted(Insert(x, xs, leq), leq)
  {
    if xs != [] {
      if leq(x, xs[0]) {
        forall j | 0 <= j < |xs| ensures leq(x, xs[j]) { assert j == 0 || leq(xs[0], xs[j]); }
      } else {
        InsertSorts(x, xs[1..], leq);
        InsertPermutes(x, xs[1..], leq);
        var tail := Insert(x, xs[1..], leq);
        forall j | 0 <= j < |tail| ensures leq(xs[0], tail[j]) { assert tail[j] in tail; }
      }
    }
  }

  /** The elements of a list that rank with `x`, in order. */
  ghost function Peers<T>(xs: seq<T>, x: T, leq: Order<T>): seq<T> {
    if xs == [] then []
    else (if leq(x, xs[0]) && leq(xs[0], x) then [xs[0]] else []) + Peers(xs[1..], x, leq)
  }

  lemma {:induction false} InsertStable<T(!new)>(y: T, xs: seq<T>, x: T, leq: Order<T>)
    requires Ordering(leq)
    ensures Peers(Insert(y, xs, leq), x, leq) == Peers([y] + xs, x, leq)
  {
    if xs == [] || leq(y, xs[0]) {
      assert Insert(y, xs, leq) == [y] + xs;
    } else {
      InsertStable(y, xs[1..], x, leq);
      var r := Insert(y, xs, leq);
      assert r[0] == xs[0] && r[1..] == Insert(y, xs[1..], leq);
      assert ([y] + xs)[1..] == xs && ([y] + xs[1..])[1..] == xs[1..];
    }
  }

  /** Sorting permutes, orders, and keeps elements of equal rank in their order. */
  lemma {:induction false} SortSpec<T(!new)>(xs: seq<T>, leq: Order<T>)
    requires Ordering(leq)
    ensures multiset(Sort(xs, leq)) == multiset(xs) && Sorted(Sort(xs, leq), leq)
    ensures forall x :: Peers(Sort(xs, leq), x, leq) == Peers(xs, x, leq)
  {
    if xs != [] {
      var rest := Sort(xs[1..], leq);
      SortSpec(xs[1..], leq);
      InsertPermutes(xs[0], rest, leq);
      InsertSorts(xs[0], rest, leq);
      assert xs == [xs[0]] + xs[1..];
      forall x ensures Peers(Sort(xs, leq), x, leq) == Peers(xs, x, leq) {
        InsertStable(xs[0], rest, x, leq);
        assert ([xs[0]] + rest)[1..] == rest;
      }
    }
  }

  lemma {:induction false} SortMembers<T>(xs: seq<T>, leq: Order<T>)
    ensures forall x :: x in Sort(xs, leq) <==> x in xs
  {
    if xs != [] {
      SortMembers(xs[1..], leq);
      InsertPermutes(xs[0], Sort(xs[1..], leq), leq);
      assert xs == [xs[0]] + xs[1..];
    }
  }

  // --------------------------------------------------------------------- uniqueness

  /** Elements of equal rank are equal. */
  ghost predicate Told<T>(xs: seq<T>, leq: Order<T>) {
    forall i, j :: 0 <= i < |xs| && 0 <= j < |xs| && leq(xs[i], xs[j]) && leq(xs[j], xs[i]) ==> xs[i] == xs[j]
  }

  lemma TailMultiset<T>(a: seq<T>)
    requires a != []
    ensures multiset(a[1..]) == multiset(a) - multiset{a[0]}
  {
    assert a == [a[0]] + a[1..];
  }

  lemma TailSorted<T>(a: seq<T>, leq: Order<T>)
    requires a != [] && Sorted(a, leq)
    ensures Sorted(a[1..], leq) && (Told(a, leq) ==> Told(a[1..], leq))
  {
    if Told(a, leq) {
      forall i, j | 0 <= i < |a| - 1 && 0 <= j < |a| - 1 && leq(a[1..][i], a[1..][j]) && leq(a[1..][j], a[1..][i])
        ensures a[1..][i] == a[1..][j]
      {
        assert a[i + 1] == a[1..][i] && a[j + 1] == a[1..][j];
      }
    }
  }

  lemma HeadsAgree<T(!new)>(a: seq<T>, b: seq<T>, leq: Order<T>)
    requires Ordering(leq) && multiset(a) == multiset(b) && Sorted(a, leq) && Sorted(b, leq) && Told(a, leq)
    ensures |a| == |b| && (a != [] ==> a[0] == b[0])
  {
    assert |a| == |multiset(a)| && |b| == |multiset(b)|;
    if a != [] {
      assert a[0] in multiset(b) && b[0] in multiset(a);
      var i :| 0 <= i < |a| && a[i] == b[0];
      var j :| 0 <= j < |b| && b[j] == a[0];
      assert leq(a[0], a[0]) && leq(b[0], b[0]);
      assert leq(a[0], a[i]) && leq(b[0], b[j]);
    }
  }

  /** A sorted list is determined by its elements when those of equal rank are equal. */
  lemma {:induction false} SortedUnique<T(!new)>(a: seq<T>, b: seq<T>, leq: Order<T>)
    requires Ordering(leq) && multiset(a) == multiset(b) && Sorted(a, leq) && Sorted(b, leq) && Told(a, leq)
    ensures a == b
  {
    hide Sorted, Told, Ordering;
    HeadsAgree(a, b, leq);
    if a != [] {
      TailMultiset(a);
      TailMultiset(b);
      TailSorted(a, leq);
      TailSorted(b, leq);
      SortedUnique(a[1..], b[1..], leq);
      assert a == [a[0]] + a[1..] && b == [b[0]] + b[1..];
    }
  }
}
