/** Byte-wise order of strings and the sort that makes the encoding independent
    of declaration order. */
module ConfigSort {
  import opened Canonical
  import Sorting

  predicate Leq(a: seq<Byte>, b: seq<Byte>) {
    a == [] || (b != [] && (a[0] < b[0] || (a[0] == b[0] && Leq(a[1..], b[1..]))))
  }

  lemma {:induction false} LeqTotal(a: seq<Byte>, b: seq<Byte>)
    ensures Leq(a, b) || Leq(b, a)
  {
    if a != [] && b != [] { LeqTotal(a[1..], b[1..]); }
  }

  lemma {:induction false} LeqAntisymmetric(a: seq<Byte>, b: seq<Byte>)
    requires Leq(a, b) && Leq(b, a)
    ensures a == b
  {
    if a != [] {
      LeqAntisymmetric(a[1..], b[1..]);
      assert a == [a[0]] + a[1..] && b == [b[0]] + b[1..];
    }
  }

  lemma {:induction false} LeqTransitive(a: seq<Byte>, b: seq<Byte>, c: seq<Byte>)
    requires Leq(a, b) && Leq(b, c)
    ensures Leq(a, c)
  {
    if a != [] && a[0] == b[0] && b[0] == c[0] { LeqTransitive(a[1..], b[1..], c[1..]); }
  }

  /** The strings differ first at byte `k`, where `a` ends or has the smaller byte. */
  ghost predicate Precedes(a: seq<Byte>, b: seq<Byte>, k: nat) {
    k <= |a| && k <= |b| && a[..k] == b[..k] && (k == |a| || (k < |b| && a[k] < b[k]))
  }

  /** It is the lexicographic order. */
  lemma {:induction false} LeqLexicographic(a: seq<Byte>, b: seq<Byte>)
    ensures Leq(a, b) <==> exists k: nat :: Precedes(a, b, k)
  {
    if a == [] {
      assert Precedes(a, b, 0);
    } else if b != [] && a[0] == b[0] {
      LeqLexicographic(a[1..], b[1..]);
      if k: nat :| Precedes(a[1..], b[1..], k) {
        assert a[..k + 1] == [a[0]] + a[1..][..k] && b[..k + 1] == [b[0]] + b[1..][..k];
        assert Precedes(a, b, k + 1);
      }
      if k: nat :| Precedes(a, b, k) {
        assert k > 0 && a[..k][1..] == a[1..][..k - 1] && b[..k][1..] == b[1..][..k - 1];
        assert Precedes(a[1..], b[1..], k - 1);
      }
    } else if b != [] && a[0] < b[0] {
      assert Precedes(a, b, 0);
    } else if k: nat :| Precedes(a, b, k) {
      assert k > 0 ==> a[..k][0] == a[0] && b[..k][0] == b[0];
    }
  }

  function ByBytes(): Sorting.Order<Text> { (a: Text, b: Text) => Leq(a, b) }

  lemma ByBytesOrders()
    ensures Sorting.Ordering(ByBytes())
  {
    hide Leq;
    forall a: Text, b: Text ensures ByBytes()(a, b) || ByBytes()(b, a) { LeqTotal(a, b); }
    forall a: Text, b: Text, c: Text | ByBytes()(a, b) && ByBytes()(b, c) ensures ByBytes()(a, c) { LeqTransitive(a, b, c); }
  }

  /** `Vec::sort` on strings. */
  function Sort(xs: seq<Text>): (r: seq<Text>)
    ensures |r| == |xs|
  {
    Sorting.Sort(xs, ByBytes())
  }

  ghost predicate Sorted(xs: seq<Text>) {
    forall i, j :: 0 <= i < j < |xs| ==> Leq(xs[i], xs[j])
  }

  /** Sorting permutes and orders. */
  lemma SortSpec(xs: seq<Text>)
    ensures multiset(Sort(xs)) == multiset(xs) && Sorted(Sort(xs))
  {
    hide Leq;
    ByBytesOrders();
    Sorting.SortSpec(xs, ByBytes());
    var r := Sort(xs);
    forall i, j | 0 <= i < j < |r| ensures Leq(r[i], r[j]) { assert ByBytes()(r[i], r[j]); }
  }

  /** A sorted list is determined by its elements. */
  lemma SortedUnique(a: seq<Text>, b: seq<Text>)
    requires multiset(a) == multiset(b) && Sorted(a) && Sorted(b)
    ensures a == b
  {
    hide Leq;
    ByBytesOrders();
    forall i, j | 0 <= i < |a| && 0 <= j < |a| && ByBytes()(a[i], a[j]) && ByBytes()(a[j], a[i]) ensures a[i] == a[j] {
      LeqAntisymmetric(a[i], a[j]);
    }
    Sorting.SortedUnique(a, b, ByBytes());
  }

  /** Two lists sort alike exactly when they hold the same strings equally often. */
  lemma SortEqual(a: seq<Text>, b: seq<Text>)
    ensures Sort(a) == Sort(b) <==> multiset(a) == multiset(b)
  {
    SortSpec(a);
    SortSpec(b);
    if multiset(a) == multiset(b) { SortedUnique(Sort(a), Sort(b)); }
  }
}
