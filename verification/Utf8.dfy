/** UTF-8 over bytes: well-formedness, lossy decoding as `String::from_utf8_lossy`
    does it, and character boundaries. Text is its own UTF-8 encoding. */
module Utf8 {
  import opened Canonical

  predicate Continuation(b: Byte) { 0x80 <= b <= 0xBF }

  /** The second bytes allowed after lead byte `a`. */
  predicate Second(a: Byte, b: Byte) {
    if a == 0xE0 then 0xA0 <= b <= 0xBF
    else if a == 0xED then 0x80 <= b <= 0x9F
    else if a == 0xF0 then 0x90 <= b <= 0xBF
    else if a == 0xF4 then 0x80 <= b <= 0x8F
    else Continuation(b)
  }

  /** Length of the well-formed sequence at the head, 0 when there is none. */
  function HeadLength(bs: seq<Byte>): (n: nat)
    ensures n <= |bs| && n <= 4
  {
    if bs == [] then 0
    else if bs[0] < 0x80 then 1
    else if 0xC2 <= bs[0] <= 0xDF && |bs| >= 2 && Continuation(bs[1]) then 2
    else if 0xE0 <= bs[0] <= 0xEF && |bs| >= 3 && Second(bs[0], bs[1]) && Continuation(bs[2]) then 3
    else if 0xF0 <= bs[0] <= 0xF4 && |bs| >= 4 && Second(bs[0], bs[1]) && Continuation(bs[2]) && Continuation(bs[3]) then 4
    else 0
  }

  /** Length of the ill-formed run that one replacement character stands for. */
  function BadLength(bs: seq<Byte>): (n: nat)
    requires bs != [] && HeadLength(bs) == 0
    ensures 1 <= n <= |bs|
  {
    if 0xE0 <= bs[0] <= 0xF4 && |bs| >= 2 && Second(bs[0], bs[1]) then
      if bs[0] >= 0xF0 && |bs| >= 3 && Continuation(bs[2]) then 3 else 2
    else 1
  }

  const REPLACEMENT: seq<Byte> := [0xEF, 0xBF, 0xBD]

  predicate WellFormed(bs: seq<Byte>) {
    bs == [] || (HeadLength(bs) > 0 && WellFormed(bs[HeadLength(bs)..]))
  }

  function Lossy(bs: seq<Byte>): (text: seq<Byte>)
    ensures WellFormed(text) && (text == [] <==> bs == [])
  {
    if bs == [] then []
    else
      var n := HeadLength(bs);
      if n > 0 then
        var rest := Lossy(bs[n..]);
        HeadLocal(bs[..n], rest, bs[n..]);
        bs[..n] + rest
      else
        var rest := Lossy(bs[BadLength(bs)..]);
        assert (REPLACEMENT + rest)[3..] == rest;
        REPLACEMENT + rest
  }

  /** Whether a head is well formed does not depend on what follows it. */
  lemma HeadLocal(head: seq<Byte>, rest: seq<Byte>, other: seq<Byte>)
    requires head != [] && HeadLength(head + other) == |head|
    ensures HeadLength(head + rest) == |head| && (head + rest)[|head|..] == rest
  {
  }

  /** Well-formed bytes survive lossy decoding unchanged. */
  lemma {:induction false} LossyIdentity(bs: seq<Byte>)
    requires WellFormed(bs)
    ensures Lossy(bs) == bs
  {
    if bs != [] {
      LossyIdentity(bs[HeadLength(bs)..]);
    }
  }

  // ----------------------------------------------------------------- boundaries

  function Shifted(xs: seq<nat>, n: nat): (r: seq<nat>)
    ensures |r| == |xs| && forall i :: 0 <= i < |xs| ==> r[i] == xs[i] + n
  {
    seq(|xs|, i requires 0 <= i < |xs| => xs[i] + n)
  }

  /** The byte index of every character and of the end of the text. */
  function Boundaries(text: seq<Byte>): (r: seq<nat>)
    requires WellFormed(text)
    ensures |r| >= 1 && r[0] == 0
    ensures text != [] ==> |r| >= 2
  {
    if text == [] then [0] else [0] + Shifted(Boundaries(text[HeadLength(text)..]), HeadLength(text))
  }

  /** Boundaries ascend from 0 to the length of the text. */
  lemma {:induction false} BoundariesAscend(text: seq<Byte>)
    requires WellFormed(text)
    ensures Boundaries(text)[|Boundaries(text)| - 1] == |text|
    ensures forall i, j :: 0 <= i < j < |Boundaries(text)| ==> Boundaries(text)[i] < Boundaries(text)[j]
  {
    if text != [] { BoundariesAscend(text[HeadLength(text)..]); }
  }

  lemma BoundaryInside(text: seq<Byte>, k: nat)
    requires WellFormed(text) && k < |Boundaries(text)|
    ensures Boundaries(text)[k] <= |text|
    ensures k < |Boundaries(text)| - 1 ==> Boundaries(text)[k] < Boundaries(text)[k + 1] <= |text|
  {
    BoundariesAscend(text);
  }

  lemma NonEmpty(text: seq<Byte>)
    requires WellFormed(text) && |Boundaries(text)| > 1
    ensures text != []
  {
  }

  lemma ShiftedTwice(xs: seq<nat>, m: nat, n: nat)
    ensures Shifted(Shifted(xs, m), n) == Shifted(xs, m + n)
  {
  }

  lemma ShiftedTail(xs: seq<nat>, n: nat, k: nat)
    requires 0 < k <= |xs|
    ensures ([0] + Shifted(xs, n))[k..] == Shifted(xs[k - 1..], n)
  {
    var ys := [0] + Shifted(xs, n);
    forall i | 0 <= i < |xs| - k + 1 ensures ys[k..][i] == Shifted(xs[k - 1..], n)[i] {
      assert ys[k + i] == Shifted(xs, n)[k + i - 1];
    }
  }

  lemma BoundariesRest(text: seq<Byte>, k: nat)
    requires WellFormed(text) && text != [] && 0 < k < |Boundaries(text)|
    ensures k - 1 < |Boundaries(text[HeadLength(text)..])|
    ensures Boundaries(text)[k] == Boundaries(text[HeadLength(text)..])[k - 1] + HeadLength(text)
    ensures Boundaries(text)[k..] == Shifted(Boundaries(text[HeadLength(text)..])[k - 1..], HeadLength(text))
  {
    hide HeadLength, Shifted;
    var rest := Boundaries(text[HeadLength(text)..]);
    assert Boundaries(text) == [0] + Shifted(rest, HeadLength(text));
    ShiftedTail(rest, HeadLength(text), k);
  }

  /** Cutting a text at a boundary leaves well-formed text whose boundaries are the
      remaining ones. */
  lemma {:induction false} CutAtBoundary(text: seq<Byte>, k: nat)
    requires WellFormed(text) && k < |Boundaries(text)|
    ensures Boundaries(text)[k] <= |text| && WellFormed(text[Boundaries(text)[k]..])
    ensures Shifted(Boundaries(text[Boundaries(text)[k]..]), Boundaries(text)[k]) == Boundaries(text)[k..]
  {
    hide HeadLength, Boundaries, Shifted;
    BoundaryInside(text, k);
    if k == 0 {
      assert text[0..] == text && Boundaries(text)[0..] == Boundaries(text);
    } else {
      var n := HeadLength(text);
      NonEmpty(text);
      var rest := text[n..];
      BoundariesRest(text, k);
      CutAtBoundary(rest, k - 1);
      var b := Boundaries(rest)[k - 1];
      assert text[b + n..] == rest[b..];
      ShiftedTwice(Boundaries(rest[b..]), b, n);
    }
  }

  // -------------------------------------------------------------- cutting anywhere

  function Replacements(n: nat): seq<Byte> {
    if n == 0 then [] else REPLACEMENT + Replacements(n - 1)
  }

  lemma StrayHead(bs: seq<Byte>)
    requires bs != [] && Continuation(bs[0])
    ensures Lossy(bs) == REPLACEMENT + Lossy(bs[1..])
  {
    assert HeadLength(bs) == 0 && BadLength(bs) == 1;
  }

  /** Stray continuation bytes become one replacement character each. */
  lemma {:induction false} LossyStray(bs: seq<Byte>, n: nat)
    requires n <= |bs| && forall i :: 0 <= i < n ==> Continuation(bs[i])
    ensures Lossy(bs) == Replacements(n) + Lossy(bs[n..])
  {
    hide Lossy, HeadLength, BadLength, Replacements;
    if n == 0 {
      assert bs[0..] == bs;
      NoReplacements(Lossy(bs));
    } else {
      StrayHead(bs);
      LossyStray(bs[1..], n - 1);
      assert bs[1..][n - 1..] == bs[n..];
      MoreReplacements(n, Lossy(bs[n..]));
    }
  }

  lemma HeadTail(bs: seq<Byte>)
    requires HeadLength(bs) > 0
    ensures forall i :: 0 < i < HeadLength(bs) ==> Continuation(bs[i])
  {
  }

  /** Well-formed text cut anywhere, even inside a character, is decoded as what is
      left of that character, at most three replacement characters, and the rest of
      the text unchanged. */
  lemma {:induction false} LossyCut(bs: seq<Byte>, from: nat) returns (lost: nat)
    requires WellFormed(bs) && from <= |bs|
    ensures lost <= 3 && from + lost <= |bs| && WellFormed(bs[from + lost..])
    ensures Lossy(bs[from..]) == Replacements(lost) + bs[from + lost..]
    ensures WellFormed(bs[from..]) ==> lost == 0
    decreases |bs|
  {
    hide Lossy, WellFormed, HeadLength, Replacements;
    if WellFormed(bs[from..]) {
      lost := 0;
      LossyIdentity(bs[from..]);
      NoReplacements(bs[from..]);
    } else {
      if bs == [] {
        NothingLeft(bs, from);
        assert false;
      }
      WellFormedTail(bs);
      var n := HeadLength(bs);
      if from < n {
        lost := n - from;
        HeadTail(bs);
        LossyStray(bs[from..], lost);
        assert bs[from..][lost..] == bs[n..];
        LossyIdentity(bs[n..]);
      } else {
        lost := LossyCut(bs[n..], from - n);
        assert bs[n..][from - n..] == bs[from..] && bs[n..][from - n + lost..] == bs[from + lost..];
      }
    }
  }

  lemma NothingLeft(bs: seq<Byte>, from: nat)
    requires bs == [] && from <= |bs|
    ensures bs[from..] == bs
  {
  }

  lemma MoreReplacements(n: nat, text: seq<Byte>)
    requires n > 0
    ensures Replacements(n) + text == REPLACEMENT + (Replacements(n - 1) + text)
  {
  }

  lemma NoReplacements(text: seq<Byte>)
    ensures Replacements(0) + text == text
  {
  }

  lemma WellFormedTail(bs: seq<Byte>)
    requires WellFormed(bs) && bs != []
    ensures HeadLength(bs) > 0 && WellFormed(bs[HeadLength(bs)..])
  {
  }

  // ----------------------------------------------------- how much has been decoded

  /** Source bytes that the first `k` decoded characters stand for. */
  function Decoded(bs: seq<Byte>, k: nat): (n: nat)
    ensures n <= |bs|
  {
    if bs == [] || k == 0 then 0
    else
      var n := if HeadLength(bs) > 0 then HeadLength(bs) else BadLength(bs);
      n + Decoded(bs[n..], k - 1)
  }

  /** How many bytes longer the first `k` decoded characters are than their source. */
  function Growth(bs: seq<Byte>, k: nat): nat {
    if bs == [] || k == 0 then 0
    else if HeadLength(bs) > 0 then Growth(bs[HeadLength(bs)..], k - 1)
    else 3 - BadLength(bs) + Growth(bs[BadLength(bs)..], k - 1)
  }

  /** Every ill-formed run among the first `k` decoded characters is three bytes long. */
  predicate FullRuns(bs: seq<Byte>, k: nat) {
    bs == [] || k == 0
    || (if HeadLength(bs) > 0 then FullRuns(bs[HeadLength(bs)..], k - 1)
        else BadLength(bs) == 3 && FullRuns(bs[BadLength(bs)..], k - 1))
  }

  lemma {:induction false} GrowthZero(bs: seq<Byte>, k: nat)
    ensures Growth(bs, k) == 0 <==> FullRuns(bs, k)
  {
    if bs != [] && k > 0 {
      GrowthZero(bs[if HeadLength(bs) > 0 then HeadLength(bs) else BadLength(bs)..], k - 1);
    }
  }

  lemma LossyUnfolds(bs: seq<Byte>)
    requires bs != []
    ensures Lossy(bs) == if HeadLength(bs) > 0 then bs[..HeadLength(bs)] + Lossy(bs[HeadLength(bs)..])
                         else REPLACEMENT + Lossy(bs[BadLength(bs)..])
  {
  }

  lemma ReplacementHead(rest: seq<Byte>)
    ensures HeadLength(REPLACEMENT + rest) == 3 && (REPLACEMENT + rest)[3..] == rest
  {
  }

  lemma LossyHead(bs: seq<Byte>)
    requires bs != []
    ensures var n, h := if HeadLength(bs) > 0 then HeadLength(bs) else BadLength(bs), HeadLength(Lossy(bs));
      && h > 0 && Lossy(bs)[h..] == Lossy(bs[n..])
      && h == (if HeadLength(bs) > 0 then n else 3)
  {
    hide HeadLength, BadLength, Lossy, WellFormed;
    var n := HeadLength(bs);
    LossyUnfolds(bs);
    if n > 0 {
      assert bs[..n] + bs[n..] == bs;
      HeadLocal(bs[..n], Lossy(bs[n..]), bs[n..]);
    } else {
      ReplacementHead(Lossy(bs[BadLength(bs)..]));
    }
  }

  /** Decoding what is left after the first `k` characters gives the remaining ones,
      and the k-th boundary is as far behind their source as the text has grown. */
  lemma {:induction false} DecodedBoundary(bs: seq<Byte>, k: nat)
    requires k < |Boundaries(Lossy(bs))|
    ensures Boundaries(Lossy(bs))[k] == Decoded(bs, k) + Growth(bs, k) <= |Lossy(bs)|
    ensures Lossy(bs[Decoded(bs, k)..]) == Lossy(bs)[Boundaries(Lossy(bs))[k]..]
    decreases k
  {
    hide HeadLength, BadLength, Lossy, Boundaries, Decoded, Growth, WellFormed;
    BoundaryInside(Lossy(bs), k);
    if k == 0 {
      DecodedNone(bs);
      assert bs[0..] == bs && Lossy(bs)[0..] == Lossy(bs);
    } else {
      NonEmpty(Lossy(bs));
      LossyHead(bs);
      DecodedStep(bs, k);
      var n := if HeadLength(bs) > 0 then HeadLength(bs) else BadLength(bs);
      BoundariesRest(Lossy(bs), k);
      DecodedBoundary(bs[n..], k - 1);
      var h, b, d := HeadLength(Lossy(bs)), Boundaries(Lossy(bs[n..]))[k - 1], Decoded(bs[n..], k - 1);
      assert Lossy(bs)[h..][b..] == Lossy(bs)[h + b..];
      assert bs[n..][d..] == bs[n + d..];
    }
  }

  lemma DecodedNone(bs: seq<Byte>)
    ensures Decoded(bs, 0) == 0 && Growth(bs, 0) == 0
  {
  }

  lemma DecodedStep(bs: seq<Byte>, k: nat)
    requires bs != [] && k > 0
    ensures HeadLength(bs) > 0 ==>
      && Decoded(bs, k) == HeadLength(bs) + Decoded(bs[HeadLength(bs)..], k - 1)
      && Growth(bs, k) == Growth(bs[HeadLength(bs)..], k - 1)
    ensures HeadLength(bs) == 0 ==>
      && Decoded(bs, k) == BadLength(bs) + Decoded(bs[BadLength(bs)..], k - 1)
      && Growth(bs, k) == 3 - BadLength(bs) + Growth(bs[BadLength(bs)..], k - 1)
  {
  }
}
