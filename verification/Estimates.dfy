/** The deterministic duration estimator (`src/duration_history.rs`). */
module Estimates {
  import opened Plan
  import opened Canonical
  import Sorting

  const DEFAULT_FLOOR_MS: nat := 10_000
  const SAFETY_MARGIN_ADDEND_MS: nat := 2_000
  const ABSOLUTE_CAP_MS: nat := 900_000

  datatype Confidence = NoConfidence | Low | Medium | High

  datatype RunEstimate = RunEstimate(typical: Word, upper: Word, recommended: Word, samples: nat, confidence: Confidence)

  // --------------------------------------------------------------------- sorting

  function Ascending(): Sorting.Order<Word> { (a: Word, b: Word) => a <= b }

  function Sort(xs: seq<Word>): (r: seq<Word>)
    ensures |r| == |xs|
  {
    Sorting.Sort(xs, Ascending())
  }

  ghost predicate Sorted(xs: seq<Word>) { forall i, j :: 0 <= i < j < |xs| ==> xs[i] <= xs[j] }

  /** How many samples are at or below `x`. */
  ghost function AtMost(xs: seq<Word>, x: int): (n: nat)
    ensures n <= |xs|
  {
    if xs == [] then 0 else (if xs[0] <= x then 1 else 0) + AtMost(xs[1..], x)
  }

  lemma SortSpec(xs: seq<Word>)
    ensures Sorted(Sort(xs)) && multiset(Sort(xs)) == multiset(xs)
  {
    Sorting.SortSpec(xs, Ascending());
    var r := Sort(xs);
    forall i, j | 0 <= i < j < |r| ensures r[i] <= r[j] { assert Ascending()(r[i], r[j]); }
  }

  lemma {:induction false} InsertAtMost(y: Word, xs: seq<Word>, x: int)
    ensures AtMost(Sorting.Insert(y, xs, Ascending()), x) == AtMost(xs, x) + if y <= x then 1 else 0
  {
    if xs == [] || y <= xs[0] {
      assert ([y] + xs)[1..] == xs;
    } else {
      InsertAtMost(y, xs[1..], x);
      assert Sorting.Insert(y, xs, Ascending())[1..] == Sorting.Insert(y, xs[1..], Ascending());
    }
  }

  lemma {:induction false} SortAtMost(xs: seq<Word>, x: int)
    ensures AtMost(Sort(xs), x) == AtMost(xs, x)
  {
    if xs != [] {
      SortAtMost(xs[1..], x);
      InsertAtMost(xs[0], Sort(xs[1..]), x);
    }
  }

  lemma {:induction false} SortMembers(xs: seq<Word>, x: Word)
    ensures x in Sort(xs) <==> x in xs
  {
    SortSpec(xs);
    assert x in Sort(xs) <==> x in multiset(Sort(xs));
    assert x in xs <==> x in multiset(xs);
  }

  // ------------------------------------------------------------- order statistics

  /** `x` is the least sample with at least `rank` samples at or below it. */
  ghost predicate IsRank(samples: seq<Word>, rank: nat, x: Word) {
    x in samples && AtMost(samples, x) >= rank && forall y :: y in samples && AtMost(samples, y) >= rank ==> x <= y
  }

  lemma {:induction false} SortedAbove(xs: seq<Word>, k: nat, x: int)
    requires Sorted(xs) && k <= |xs| && forall i :: k <= i < |xs| ==> xs[i] > x
    ensures AtMost(xs, x) <= k
  {
    if xs != [] && k > 0 {
      SortedAbove(xs[1..], k - 1, x);
    } else if xs != [] {
      SortedAbove(xs[1..], 0, x);
    }
  }

  lemma {:induction false} SortedBelow(xs: seq<Word>, k: nat, x: int)
    requires Sorted(xs) && k <= |xs| && forall i :: 0 <= i < k ==> xs[i] <= x
    ensures AtMost(xs, x) >= k
  {
    if k > 0 { SortedBelow(xs[1..], k - 1, x); }
  }

  /** Sorting puts the samples in rank order. */
  lemma SortedRank(samples: seq<Word>, rank: nat)
    requires 1 <= rank <= |samples|
    ensures IsRank(samples, rank, Sort(samples)[rank - 1])
  {
    hide Sort, AtMost;
    var x := Sort(samples)[rank - 1];
    SortMembers(samples, x);
    RankReached(samples, rank);
    forall y | y in samples && AtMost(samples, y) >= rank ensures x <= y {
      if y < x { RankMissed(samples, rank, y); }
    }
  }

  lemma RankReached(samples: seq<Word>, rank: nat)
    requires 1 <= rank <= |samples|
    ensures AtMost(samples, Sort(samples)[rank - 1]) >= rank
  {
    hide Sort, AtMost;
    SortSpec(samples);
    SortAtMost(samples, Sort(samples)[rank - 1]);
    SortedBelow(Sort(samples), rank, Sort(samples)[rank - 1]);
  }

  lemma RankMissed(samples: seq<Word>, rank: nat, y: int)
    requires 1 <= rank <= |samples| && y < Sort(samples)[rank - 1]
    ensures AtMost(samples, y) < rank
  {
    hide Sort, AtMost;
    SortSpec(samples);
    SortAtMost(samples, y);
    SortedAbove(Sort(samples), rank - 1, y);
  }

  // ------------------------------------------------------------------- estimating

  function Median(sorted: seq<Word>): Word {
    var n := |sorted|;
    if n == 0 then 0
    else if n % 2 == 1 then sorted[n / 2]
    else
      var a: nat, b: nat := sorted[n / 2 - 1], sorted[n / 2];
      Min((a + b) / 2, TWO64 - 1)
  }

  function NearestRankP90(sorted: seq<Word>): Word {
    var n := |sorted|;
    if n == 0 then 0 else sorted[(n * 9 + 9) / 10 - 1]
  }

  function SaturatingAdd(a: Word, b: Word): Word { if a + b < TWO64 then a + b else TWO64 - 1 }

  function Max(a: nat, b: nat): nat { if a < b then b else a }

  function Min(a: nat, b: nat): nat { if a < b then a else b }

  function RecommendTimeout(upper: Word, floor: Option<Word>): Word {
    var margin := SaturatingAdd(SaturatingAdd(upper, upper / 2), SAFETY_MARGIN_ADDEND_MS);
    Min(Max(margin, Max(if floor.Some? then floor.value else 0, DEFAULT_FLOOR_MS)), ABSOLUTE_CAP_MS)
  }

  function ConfidenceOf(samples: nat): Confidence {
    if samples == 0 then NoConfidence else if samples <= 2 then Low else if samples <= 9 then Medium else High
  }

  /** `estimate` on the retained success samples of a signature. */
  function Estimate(samples: seq<Word>, floor: Option<Word>): Option<RunEstimate> {
    if samples == [] then None
    else
      var sorted := Sort(samples);
      var upper := NearestRankP90(sorted);
      Some(RunEstimate(Median(sorted), upper, RecommendTimeout(upper, floor), |samples|, ConfidenceOf(|samples|)))
  }

  /** Without sorting: the typical duration is the mean of the two middle ranks, the
      upper one the least sample that at least nine tenths of the samples do not exceed. */
  lemma EstimateExact(samples: seq<Word>, floor: Option<Word>) returns (a: Word, b: Word)
    requires samples != []
    ensures var n := |samples|; var e := Estimate(samples, floor);
      && e.Some?
      && IsRank(samples, (n + 1) / 2, a) && IsRank(samples, n / 2 + 1, b) && e.value.typical == (a + b) / 2
      && e.value.upper in samples
      && 10 * AtMost(samples, e.value.upper) >= 9 * n
      && (forall y :: y in samples && 10 * AtMost(samples, y) >= 9 * n ==> e.value.upper <= y)
  {
    hide Sort, AtMost, RecommendTimeout, IsRank;
    var n, s := |samples|, Sort(samples);
    SortedRank(samples, (n + 1) / 2);
    SortedRank(samples, n / 2 + 1);
    a, b := s[(n + 1) / 2 - 1], s[n / 2];
    UpperExact(samples);
  }

  lemma UpperExact(samples: seq<Word>)
    requires samples != []
    ensures var n := |samples|; var upper := NearestRankP90(Sort(samples));
      && upper in samples
      && 10 * AtMost(samples, upper) >= 9 * n
      && (forall y :: y in samples && 10 * AtMost(samples, y) >= 9 * n ==> upper <= y)
  {
    hide Sort, AtMost;
    SortedRank(samples, (|samples| * 9 + 9) / 10);
  }

  /** The estimate lies among the samples, typical no higher than upper. */
  lemma EstimateOrdered(samples: seq<Word>, floor: Option<Word>, low: Word, high: Word)
    requires samples != [] && low in samples && high in samples
    requires forall x :: x in samples ==> low <= x <= high
    ensures var e := Estimate(samples, floor).value; low <= e.typical <= e.upper <= high
  {
    var n, s := |samples|, Sort(samples);
    SortSpec(samples);
    forall i | 0 <= i < n ensures low <= s[i] <= high { SortMembers(samples, s[i]); }
  }

  /** Nothing but the multiset of retained samples matters. */
  lemma EstimateMultiset(a: seq<Word>, b: seq<Word>, floor: Option<Word>)
    requires multiset(a) == multiset(b)
    ensures Estimate(a, floor) == Estimate(b, floor)
  {
    assert |a| == |multiset(a)| && |b| == |multiset(b)|;
    SortSpec(a);
    SortSpec(b);
    Sorting.SortedUnique(Sort(a), Sort(b), Ascending());
  }

  /** The recommendation: saturation never shows, it stays within its bounds, never
      falls below the upper duration unless the cap does, and grows with the floor. */
  lemma RecommendExact(upper: Word, floor: Option<Word>, floor': Option<Word>)
    ensures var r := RecommendTimeout(upper, floor);
      && DEFAULT_FLOOR_MS <= r <= ABSOLUTE_CAP_MS
      && r >= Min(upper, ABSOLUTE_CAP_MS)
      && r == Min(ABSOLUTE_CAP_MS, Max(upper + upper / 2 + SAFETY_MARGIN_ADDEND_MS,
                                       Max(DEFAULT_FLOOR_MS, if floor.Some? then floor.value else 0)))
      && (floor.Some? && floor'.Some? && floor.value <= floor'.value ==> r <= RecommendTimeout(upper, floor'))
      && (floor.None? ==> r <= RecommendTimeout(upper, floor'))
  {
  }
}
