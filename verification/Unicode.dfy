/** Which byte sequences are UTF-8: the encodings of scalar values (sections 3.9 and
    D92 of the Unicode Standard, section 3 of RFC 3629), defined by arithmetic. */
module Unicode {
  import opened Canonical
  import opened Utf8

  /** Code points without the surrogates. */
  predicate Scalar(c: nat) { c < 0xD800 || 0xE000 <= c < 0x11_0000 }

  function Encode(c: nat): (bs: seq<Byte>)
    requires Scalar(c)
    ensures 1 <= |bs| <= 4
  {
    if c < 0x80 then [c]
    else if c < 0x800 then [0xC0 + c / 0x40, 0x80 + c % 0x40]
    else if c < 0x1_0000 then [0xE0 + c / 0x40 / 0x40, 0x80 + c / 0x40 % 0x40, 0x80 + c % 0x40]
    else [0xF0 + c / 0x40 / 0x40 / 0x40, 0x80 + c / 0x40 / 0x40 % 0x40, 0x80 + c / 0x40 % 0x40, 0x80 + c % 0x40]
  }

  /** The head of a text is the encoding of its first scalar value. */
  lemma EncodingIsHead(c: nat, rest: seq<Byte>)
    requires Scalar(c)
    ensures HeadLength(Encode(c) + rest) == |Encode(c)| && (Encode(c) + rest)[|Encode(c)|..] == rest
  {
  }

  lemma Join(high: int, low: int)
    requires 0 <= low < 0x40
    ensures (high * 0x40 + low) / 0x40 == high && (high * 0x40 + low) % 0x40 == low
  {
  }

  /** Two, three or four bytes with their marks taken off and joined. */
  function Value2(a: int, b: int): int { (a - 0xC0) * 0x40 + (b - 0x80) }

  function Value3(a: int, b: int, c: int): int { ((a - 0xE0) * 0x40 + (b - 0x80)) * 0x40 + (c - 0x80) }

  function Value4(a: int, b: int, c: int, d: int): int {
    (((a - 0xF0) * 0x40 + (b - 0x80)) * 0x40 + (c - 0x80)) * 0x40 + (d - 0x80)
  }

  lemma Encodes2(a: Byte, b: Byte)
    requires 0xC2 <= a <= 0xDF && Continuation(b)
    ensures 0x80 <= Value2(a, b) < 0x800 && Encode(Value2(a, b)) == [a, b]
  {
    Join(a - 0xC0, b - 0x80);
  }

  lemma Encodes3(a: Byte, b: Byte, c: Byte)
    requires 0xE0 <= a <= 0xEF && Second(a, b) && Continuation(c)
    ensures Value3(a, b, c) >= 0x800 && Scalar(Value3(a, b, c)) && Encode(Value3(a, b, c)) == [a, b, c]
  {
    Join((a - 0xE0) * 0x40 + (b - 0x80), c - 0x80);
    Join(a - 0xE0, b - 0x80);
  }

  lemma Encodes4(a: Byte, b: Byte, c: Byte, d: Byte)
    requires 0xF0 <= a <= 0xF4 && Second(a, b) && Continuation(c) && Continuation(d)
    ensures 0x1_0000 <= Value4(a, b, c, d) < 0x11_0000 && Encode(Value4(a, b, c, d)) == [a, b, c, d]
  {
    Join(((a - 0xF0) * 0x40 + (b - 0x80)) * 0x40 + (c - 0x80), d - 0x80);
    Join((a - 0xF0) * 0x40 + (b - 0x80), c - 0x80);
    Join(a - 0xF0, b - 0x80);
  }

  /** Every well-formed head encodes a scalar value. */
  lemma HeadIsEncoding(bs: seq<Byte>) returns (c: nat)
    requires HeadLength(bs) > 0
    ensures Scalar(c) && Encode(c) == bs[..HeadLength(bs)]
  {
    hide Encode, Value2, Value3, Value4;
    var n := HeadLength(bs);
    if n == 1 {
      c := bs[0];
      EncodesOne(bs[0]);
    } else if n == 2 {
      Encodes2(bs[0], bs[1]);
      c := Value2(bs[0], bs[1]);
    } else if n == 3 {
      Encodes3(bs[0], bs[1], bs[2]);
      c := Value3(bs[0], bs[1], bs[2]);
    } else {
      Encodes4(bs[0], bs[1], bs[2], bs[3]);
      c := Value4(bs[0], bs[1], bs[2], bs[3]);
    }
  }

  lemma EncodesOne(a: Byte)
    requires a < 0x80
    ensures Encode(a) == [a]
  {
  }

  ghost predicate Scalars(cs: seq<nat>) { forall i :: 0 <= i < |cs| ==> Scalar(cs[i]) }

  function Text(cs: seq<nat>): seq<Byte>
    requires Scalars(cs)
  {
    if cs == [] then [] else Encode(cs[0]) + Text(cs[1..])
  }

  lemma {:induction false} TextIsWellFormed(cs: seq<nat>)
    requires Scalars(cs)
    ensures WellFormed(Text(cs))
  {
    hide HeadLength, Encode;
    if cs != [] {
      TextIsWellFormed(cs[1..]);
      EncodingIsHead(cs[0], Text(cs[1..]));
    }
  }

  lemma {:induction false} WellFormedIsText(bs: seq<Byte>) returns (cs: seq<nat>)
    requires WellFormed(bs)
    ensures Scalars(cs) && Text(cs) == bs
  {
    hide HeadLength, Encode;
    if bs == [] {
      cs := [];
    } else {
      var n := HeadLength(bs);
      var c := HeadIsEncoding(bs);
      var rest := WellFormedIsText(bs[n..]);
      cs := [c] + rest;
      assert cs[1..] == rest && bs == bs[..n] + bs[n..];
    }
  }

  /** Bytes are well formed exactly when they encode a sequence of scalar values. */
  lemma WellFormedExact(bs: seq<Byte>)
    ensures WellFormed(bs) <==> exists cs :: Scalars(cs) && Text(cs) == bs
  {
    if WellFormed(bs) { var cs := WellFormedIsText(bs); }
    if cs :| Scalars(cs) && Text(cs) == bs { TextIsWellFormed(cs); }
  }

  /** Text survives lossy decoding. */
  lemma LossyOfText(cs: seq<nat>)
    requires Scalars(cs)
    ensures Lossy(Text(cs)) == Text(cs)
  {
    TextIsWellFormed(cs);
    LossyIdentity(Text(cs));
  }

  /** Boundaries are the places between the encodings. */
  lemma {:induction false} BoundariesOfText(cs: seq<nat>, k: nat)
    requires Scalars(cs) && WellFormed(Text(cs)) && k <= |cs|
    ensures |Boundaries(Text(cs))| == |cs| + 1 && Boundaries(Text(cs))[k] == |Text(cs[..k])|
  {
    hide HeadLength, Encode, WellFormed;
    if cs != [] {
      var c, rest := cs[0], cs[1..];
      EncodingIsHead(c, Text(rest));
      TextIsWellFormed(rest);
      BoundariesOfText(rest, if k > 0 then k - 1 else 0);
      if k > 0 { assert cs[..k][1..] == rest[..k - 1]; }
    }
  }

  // ------------------------------------------------------------- ill-formed bytes

  /** `bs` begins the encoding of some scalar value. */
  ghost predicate Begins(bs: seq<Byte>) { exists c :: Scalar(c) && bs <= Encode(c) }

  lemma ReplacementCharacter()
    ensures REPLACEMENT == Encode(0xFFFD)
  {
  }

  /** One replacement character stands for the maximal subpart: the longest beginning of
      an encoding, or a single byte if there is none. */
  lemma MaximalSubpart(bs: seq<Byte>)
    requires bs != [] && HeadLength(bs) == 0
    ensures BadLength(bs) == 1 || Begins(bs[..BadLength(bs)])
    ensures forall m :: BadLength(bs) < m <= |bs| ==> !Begins(bs[..m])
  {
    var n := BadLength(bs);
    if n == 2 { BeginsTwo(bs[..2]); }
    if n == 3 { BeginsThree(bs[..3]); }
    forall m | n < m <= |bs| ensures !Begins(bs[..m]) {
      forall c | Scalar(c) ensures !(bs[..m] <= Encode(c)) { TooLong(bs, m, c); }
    }
  }

  lemma BeginsTwo(bs: seq<Byte>)
    requires |bs| == 2 && 0xE0 <= bs[0] <= 0xF4 && Second(bs[0], bs[1])
    ensures Begins(bs)
  {
    hide Encode, Value3, Value4;
    if bs[0] < 0xF0 {
      Encodes3(bs[0], bs[1], 0x80);
    } else {
      Encodes4(bs[0], bs[1], 0x80, 0x80);
    }
  }

  lemma BeginsThree(bs: seq<Byte>)
    requires |bs| == 3 && 0xF0 <= bs[0] <= 0xF4 && Second(bs[0], bs[1]) && Continuation(bs[2])
    ensures Begins(bs)
  {
    hide Encode, Value4;
    Encodes4(bs[0], bs[1], bs[2], 0x80);
  }

  lemma TooLong(bs: seq<Byte>, m: nat, c: nat)
    requires bs != [] && HeadLength(bs) == 0 && BadLength(bs) < m <= |bs| && Scalar(c)
    ensures !(bs[..m] <= Encode(c))
  {
    hide Encode;
    if m == |Encode(c)| { NotWhole(bs, m, c); }
    if |Encode(c)| > 2 { LeadBytes(c); }
  }

  lemma NotWhole(bs: seq<Byte>, m: nat, c: nat)
    requires HeadLength(bs) == 0 && Scalar(c) && m == |Encode(c)| <= |bs|
    ensures bs[..m] != Encode(c)
  {
    hide Encode, HeadLength;
    EncodingIsHead(c, bs[m..]);
    assert bs == bs[..m] + bs[m..];
  }

  lemma LeadBytes(c: nat)
    requires Scalar(c) && |Encode(c)| > 2
    ensures 0xE0 <= Encode(c)[0] <= 0xF4 && Second(Encode(c)[0], Encode(c)[1]) && Continuation(Encode(c)[2])
    ensures |Encode(c)| > 3 <==> Encode(c)[0] >= 0xF0
  {
  }
}
