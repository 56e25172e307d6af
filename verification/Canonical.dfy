/** The length-prefixed canonical byte encoding of `src/config_revision.rs`, and a
    decoder that undoes it. */
module Canonical {
  import opened Plan

  const TWO64: nat := 0x1_0000_0000_0000_0000

  type Byte = b: int | 0 <= b < 256 witness 0

  /** A string as its UTF-8 bytes; its length fits a `u64`. */
  type Text = s: seq<Byte> | |s| < TWO64 witness []

  type Texts = xs: seq<Text> | |xs| < TWO64 witness []

  /** The bytes of ASCII text. */
  function Ascii(s: string): (bs: seq<Byte>)
    ensures |bs| == |s| && forall i :: 0 <= i < |s| ==> bs[i] == s[i] as int % 256
  {
    seq(|s|, i requires 0 <= i < |s| => s[i] as int % 256)
  }

  // --------------------------------------------------------- little-endian u64

  ghost function Pow256(k: nat): nat { if k == 0 then 1 else 256 * Pow256(k - 1) }

  function LittleEndian(n: nat, k: nat): (bs: seq<Byte>)
    ensures |bs| == k
  {
    if k == 0 then [] else [n % 256] + LittleEndian(n / 256, k - 1)
  }

  function Number256(bs: seq<Byte>): nat {
    if bs == [] then 0 else bs[0] + 256 * Number256(bs[1..])
  }

  lemma {:induction false} LittleEndianRoundTrip(n: nat, k: nat)
    requires n < Pow256(k)
    ensures Number256(LittleEndian(n, k)) == n
  {
    if k > 0 {
      LittleEndianRoundTrip(n / 256, k - 1);
      assert LittleEndian(n, k)[1..] == LittleEndian(n / 256, k - 1);
    }
  }

  function U64(n: nat): (bs: seq<Byte>)
    ensures |bs| == 8
  {
    LittleEndian(n % TWO64, 8)
  }

  // ----------------------------------------------------------- field encodings

  function Flag(b: bool): seq<Byte> { if b then [1] else [0] }

  function StringBytes(s: Text): seq<Byte> { U64(|s|) + s }

  function OptionalBytes(s: Option<Text>): seq<Byte> {
    match s
    case Some(value) => [1] + StringBytes(value)
    case None => [0]
  }

  function Concat(xs: seq<Text>): seq<Byte> {
    if xs == [] then [] else StringBytes(xs[0]) + Concat(xs[1..])
  }

  function ListBytes(xs: Texts): seq<Byte> { U64(|xs|) + Concat(xs) }

  function OptionalListBytes(xs: Option<Texts>): seq<Byte> {
    match xs
    case Some(list) => [1] + ListBytes(list)
    case None => [0]
  }

  // ------------------------------------------------------------------ decoding

  datatype Read<+T> = Fail | Got(value: T, rest: seq<Byte>)

  function ReadU64(bs: seq<Byte>): Read<nat> {
    if |bs| < 8 then Fail else Got(Number256(bs[..8]), bs[8..])
  }

  function ReadFlag(bs: seq<Byte>): Read<bool> {
    if bs == [] || bs[0] > 1 then Fail else Got(bs[0] == 1, bs[1..])
  }

  function ReadString(bs: seq<Byte>): Read<Text> {
    match ReadU64(bs)
    case Fail => Fail
    case Got(n, rest) => if n >= TWO64 || |rest| < n then Fail else Got(rest[..n], rest[n..])
  }

  function ReadOptional(bs: seq<Byte>): Read<Option<Text>> {
    match ReadFlag(bs)
    case Fail => Fail
    case Got(present, rest) =>
      if !present then Got(None, rest)
      else match ReadString(rest)
           case Fail => Fail
           case Got(s, rest') => Got(Some(s), rest')
  }

  function ReadStrings(n: nat, bs: seq<Byte>): (r: Read<seq<Text>>)
    ensures r.Got? ==> |r.value| == n
  {
    if n == 0 then Got([], bs)
    else match ReadString(bs)
         case Fail => Fail
         case Got(s, rest) =>
           match ReadStrings(n - 1, rest)
           case Fail => Fail
           case Got(ss, rest') => Got([s] + ss, rest')
  }

  function ReadList(bs: seq<Byte>): Read<Texts> {
    match ReadU64(bs)
    case Fail => Fail
    case Got(n, rest) =>
      if n >= TWO64 then Fail
      else match ReadStrings(n, rest)
           case Fail => Fail
           case Got(xs, rest') => Got(xs, rest')
  }

  function ReadOptionalList(bs: seq<Byte>): Read<Option<Texts>> {
    match ReadFlag(bs)
    case Fail => Fail
    case Got(present, rest) =>
      if !present then Got(None, rest)
      else match ReadList(rest)
           case Fail => Fail
           case Got(xs, rest') => Got(Some(xs), rest')
  }

  lemma ReadsU64(n: nat, rest: seq<Byte>)
    ensures ReadU64(U64(n) + rest) == Got(n % TWO64, rest)
  {
    assert Pow256(8) == TWO64 by {
      assert Pow256(1) == 256 && Pow256(2) == 0x1_0000 && Pow256(3) == 0x100_0000;
      assert Pow256(4) == 0x1_0000_0000 && Pow256(5) == 0x100_0000_0000 && Pow256(6) == 0x1_0000_0000_0000;
      assert Pow256(7) == 0x100_0000_0000_0000;
    }
    LittleEndianRoundTrip(n % TWO64, 8);
    assert (U64(n) + rest)[..8] == U64(n) && (U64(n) + rest)[8..] == rest;
  }

  lemma ReadsFlag(b: bool, rest: seq<Byte>)
    ensures ReadFlag(Flag(b) + rest) == Got(b, rest)
  {
    assert (Flag(b) + rest)[1..] == rest;
  }

  lemma ReadsString(s: Text, rest: seq<Byte>)
    ensures ReadString(StringBytes(s) + rest) == Got(s, rest)
  {
    assert StringBytes(s) + rest == U64(|s|) + (s + rest);
    ReadsU64(|s|, s + rest);
    assert (s + rest)[..|s|] == s && (s + rest)[|s|..] == rest;
  }

  lemma ReadsOptional(s: Option<Text>, rest: seq<Byte>)
    ensures ReadOptional(OptionalBytes(s) + rest) == Got(s, rest)
  {
    hide StringBytes, ReadString, ReadFlag;
    ReadsFlag(s.Some?, if s.Some? then StringBytes(s.value) + rest else rest);
    if s.Some? {
      assert OptionalBytes(s) + rest == Flag(true) + (StringBytes(s.value) + rest);
      ReadsString(s.value, rest);
    }
  }

  lemma {:induction false} ReadsStrings(xs: seq<Text>, rest: seq<Byte>)
    ensures ReadStrings(|xs|, Concat(xs) + rest) == Got(xs, rest)
  {
    if xs == [] {
      assert Concat(xs) + rest == rest;
    } else {
      assert Concat(xs) + rest == StringBytes(xs[0]) + (Concat(xs[1..]) + rest);
      ReadsString(xs[0], Concat(xs[1..]) + rest);
      ReadsStrings(xs[1..], rest);
      assert xs == [xs[0]] + xs[1..];
    }
  }

  lemma ReadsList(xs: Texts, rest: seq<Byte>)
    ensures ReadList(ListBytes(xs) + rest) == Got(xs, rest)
  {
    hide Concat, U64, ReadStrings, Number256;
    assert ListBytes(xs) + rest == U64(|xs|) + (Concat(xs) + rest);
    ReadsU64(|xs|, Concat(xs) + rest);
    ReadsStrings(xs, rest);
  }

  lemma ReadsOptionalList(xs: Option<Texts>, rest: seq<Byte>)
    ensures ReadOptionalList(OptionalListBytes(xs) + rest) == Got(xs, rest)
  {
    hide ListBytes, ReadList, ReadFlag;
    ReadsFlag(xs.Some?, if xs.Some? then ListBytes(xs.value) + rest else rest);
    if xs.Some? {
      assert OptionalListBytes(xs) + rest == Flag(true) + (ListBytes(xs.value) + rest);
      ReadsList(xs.value, rest);
    }
  }

  // ------------------------------------------------------------------- records

  /** A `u64`. */
  type Word = n: nat | n < TWO64 witness 0

  /** One field of a canonically encoded record. */
  datatype Field =
    | Num(number: Word)
    | Bit(flag: bool)
    | Str(text: Text)
    | OptStr(optional: Option<Text>)
    | List(texts: Texts)
    | OptList(optionals: Option<Texts>)

  /** What a reader must know in advance about a field. */
  datatype Shape = NumShape | BitShape | StrShape | OptStrShape | ListShape | OptListShape

  function ShapeOf(f: Field): Shape {
    match f
    case Num(_) => NumShape
    case Bit(_) => BitShape
    case Str(_) => StrShape
    case OptStr(_) => OptStrShape
    case List(_) => ListShape
    case OptList(_) => OptListShape
  }

  function FieldBytes(f: Field): seq<Byte> {
    match f
    case Num(n) => U64(n)
    case Bit(b) => Flag(b)
    case Str(s) => StringBytes(s)
    case OptStr(s) => OptionalBytes(s)
    case List(xs) => ListBytes(xs)
    case OptList(xs) => OptionalListBytes(xs)
  }

  function RecordBytes(fs: seq<Field>): seq<Byte> {
    if fs == [] then [] else FieldBytes(fs[0]) + RecordBytes(fs[1..])
  }

  function ReadField(shape: Shape, bs: seq<Byte>): Read<Field> {
    match shape
    case NumShape => (match ReadU64(bs) case Got(n, rest) => (if n < TWO64 then Got(Num(n), rest) else Fail) case Fail => Fail)
    case BitShape => (match ReadFlag(bs) case Got(b, rest) => Got(Bit(b), rest) case Fail => Fail)
    case StrShape => (match ReadString(bs) case Got(s, rest) => Got(Str(s), rest) case Fail => Fail)
    case OptStrShape => (match ReadOptional(bs) case Got(s, rest) => Got(OptStr(s), rest) case Fail => Fail)
    case ListShape => (match ReadList(bs) case Got(xs, rest) => Got(List(xs), rest) case Fail => Fail)
    case OptListShape => (match ReadOptionalList(bs) case Got(xs, rest) => Got(OptList(xs), rest) case Fail => Fail)
  }

  function ReadRecord(shapes: seq<Shape>, bs: seq<Byte>): (r: Read<seq<Field>>)
    ensures r.Got? ==> Shaped(r.value, shapes)
  {
    if shapes == [] then Got([], bs)
    else match ReadField(shapes[0], bs)
         case Fail => Fail
         case Got(f, rest) =>
           match ReadRecord(shapes[1..], rest)
           case Fail => Fail
           case Got(fs, rest') => Got([f] + fs, rest')
  }

  predicate Shaped(fs: seq<Field>, shapes: seq<Shape>) {
    |fs| == |shapes| && forall i :: 0 <= i < |fs| ==> ShapeOf(fs[i]) == shapes[i]
  }

  lemma ReadsField(f: Field, rest: seq<Byte>)
    ensures ReadField(ShapeOf(f), FieldBytes(f) + rest) == Got(f, rest)
  {
    hide ReadU64, ReadFlag, ReadString, ReadOptional, ReadList, ReadOptionalList;
    hide U64, Flag, StringBytes, OptionalBytes, ListBytes, OptionalListBytes;
    match f
    case Num(n) => ReadsU64(n, rest);
    case Bit(b) => ReadsFlag(b, rest);
    case Str(s) => ReadsString(s, rest);
    case OptStr(s) => ReadsOptional(s, rest);
    case List(xs) => ReadsList(xs, rest);
    case OptList(xs) => ReadsOptionalList(xs, rest);
  }

  /** A reader that knows the shape of a record recovers every field and exactly
      the bytes that follow it. */
  lemma {:induction false} ReadsRecord(fs: seq<Field>, shapes: seq<Shape>, rest: seq<Byte>)
    requires Shaped(fs, shapes)
    ensures ReadRecord(shapes, RecordBytes(fs) + rest) == Got(fs, rest)
  {
    hide FieldBytes, ReadField;
    if fs == [] {
      assert RecordBytes(fs) + rest == rest;
    } else {
      assert RecordBytes(fs) + rest == FieldBytes(fs[0]) + (RecordBytes(fs[1..]) + rest);
      ReadsField(fs[0], RecordBytes(fs[1..]) + rest);
      ReadsRecord(fs[1..], shapes[1..], rest);
      assert fs == [fs[0]] + fs[1..];
    }
  }

  lemma {:induction false} RecordAppend(fs: seq<Field>, gs: seq<Field>)
    ensures RecordBytes(fs + gs) == RecordBytes(fs) + RecordBytes(gs)
  {
    hide FieldBytes;
    if fs == [] {
      assert fs + gs == gs;
    } else {
      RecordAppend(fs[1..], gs);
      assert (fs + gs)[1..] == fs[1..] + gs && (fs + gs)[0] == fs[0];
      assert RecordBytes(fs + gs) == FieldBytes(fs[0]) + (RecordBytes(fs[1..]) + RecordBytes(gs));
    }
  }

  lemma RecordOne(f: Field)
    ensures RecordBytes([f]) == FieldBytes(f)
  {
    assert RecordBytes([f]) == FieldBytes(f) + RecordBytes([]);
  }

  // ------------------------------------------------------------------- encoder

  /** The byte buffer that canonical fields are appended to. */
  class CanonicalEncoder {
    var bytes: seq<Byte>

    constructor ()
      ensures bytes == []
    {
      bytes := [];
    }

    method PutU64(value: Word)
      modifies this
      ensures bytes == old(bytes) + U64(value)
    {
      bytes := bytes + LittleEndian(value, 8);
    }

    method PutByte(value: Byte)
      modifies this
      ensures bytes == old(bytes) + [value]
    {
      bytes := bytes + [value];
    }

    method PutBool(value: bool)
      modifies this
      ensures bytes == old(bytes) + Flag(value)
    {
      bytes := bytes + [if value then 1 else 0];
    }

    method PutString(value: Text)
      modifies this
      ensures bytes == old(bytes) + StringBytes(value)
    {
      PutU64(|value|);
      bytes := bytes + value;
    }

    method PutOptionalString(value: Option<Text>)
      modifies this
      ensures bytes == old(bytes) + OptionalBytes(value)
    {
      match value {
        case Some(text) =>
          PutByte(1);
          PutString(text);
        case None =>
          PutByte(0);
      }
    }

    /** A count followed by each string, as every list of a rule is written. */
    method PutList(xs: Texts)
      modifies this
      ensures bytes == old(bytes) + ListBytes(xs)
    {
      hide U64, StringBytes;
      PutU64(|xs|);
      var i := 0;
      while i < |xs|
        invariant 0 <= i <= |xs|
        invariant bytes == old(bytes) + U64(|xs|) + Concat(xs[..i])
      {
        ghost var before := bytes;
        PutString(xs[i]);
        ConcatSnoc(xs[..i], xs[i]);
        assert before + StringBytes(xs[i]) == old(bytes) + U64(|xs|) + (Concat(xs[..i]) + StringBytes(xs[i]));
        assert xs[..i + 1] == xs[..i] + [xs[i]];
        i := i + 1;
      }
      assert xs[..i] == xs;
    }

    method PutOptionalList(xs: Option<Texts>)
      modifies this
      ensures bytes == old(bytes) + OptionalListBytes(xs)
    {
      match xs {
        case Some(list) =>
          PutByte(1);
          PutList(list);
        case None =>
          PutByte(0);
      }
    }
  }

  lemma {:induction false} ConcatSnoc(xs: seq<Text>, x: Text)
    ensures Concat(xs + [x]) == Concat(xs) + StringBytes(x)
  {
    hide StringBytes;
    if xs == [] {
      assert xs + [x] == [x];
      assert Concat([x]) == StringBytes(x) + Concat([]);
    } else {
      ConcatSnoc(xs[1..], x);
      assert (xs + [x])[1..] == xs[1..] + [x] && (xs + [x])[0] == xs[0];
      assert Concat(xs + [x]) == StringBytes(xs[0]) + (Concat(xs[1..]) + StringBytes(x));
    }
  }
}
