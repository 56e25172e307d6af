/** The opaque paging cursor `<generation>|<plan index>|<stream>|<byte offset>` of
    `src/output.rs`: how it is written and how it is read back. */
module Cursor {
  import opened Plan
  import opened Canonical
  import Decimal

  const BAR: char := '|'

  function Format(generation: nat, index: nat, stream: nat, offset: nat): string {
    Decimal.Digits(generation) + [BAR] +
      (Decimal.Digits(index) + [BAR] + (Decimal.Digits(stream) + [BAR] + Decimal.Digits(offset)))
  }

  /** `split('|')`. */
  function Split(s: string): (parts: seq<string>)
    ensures parts != []
  {
    if s == [] then [[]]
    else if s[0] == BAR then [[]] + Split(s[1..])
    else
      var parts := Split(s[1..]);
      [[s[0]] + parts[0]] + parts[1..]
  }

  /** `parse::<u64>`: an optional plus sign, then at least one digit, no overflow. */
  function ParseNumber(s: string): (r: Option<Word>) {
    var digits := if s != [] && s[0] == '+' then s[1..] else s;
    if digits != [] && Decimal.AllDigits(digits) && Decimal.Value(digits) < TWO64 then Some(Decimal.Value(digits)) else None
  }

  /** `s` writes `n` in digits, with or without a plus sign. */
  ghost predicate Writes(s: string, digits: string, n: nat) {
    (s == digits || s == "+" + digits) && digits != [] && Decimal.AllDigits(digits) && Decimal.Value(digits) == n
  }

  lemma NumberExact(s: string, n: Word)
    ensures ParseNumber(s) == Some(n) <==> exists digits :: Writes(s, digits, n)
  {
    hide Decimal.Value;
    if ParseNumber(s) == Some(n) {
      var digits := if s[0] == '+' then s[1..] else s;
      assert s[0] == '+' ==> s == "+" + digits;
      assert Writes(s, digits, n);
    }
    if digits :| Writes(s, digits, n) {
      assert Decimal.IsDigit(digits[0]);
      assert s == "+" + digits ==> s[1..] == digits;
    }
  }

  datatype Parts = Parts(generation: Word, index: Word, stream: Word, offset: Word)

  datatype Parsed = Wrong(arity: bool) | Right(parts: Parts)

  function Parse(raw: string): Parsed {
    var parts := Split(raw);
    if |parts| != 4 then Wrong(true)
    else match (ParseNumber(parts[0]), ParseNumber(parts[1]), ParseNumber(parts[2]), ParseNumber(parts[3]))
         case (Some(g), Some(i), Some(s), Some(o)) => Right(Parts(g, i, s, o))
         case _ => Wrong(false)
  }

  lemma {:induction false} SplitAtBar(a: string, rest: string)
    requires BAR !in a
    ensures Split(a + [BAR] + rest) == [a] + Split(rest)
  {
    var s := a + [BAR] + rest;
    if a == [] {
      assert s[1..] == rest;
    } else {
      SplitAtBar(a[1..], rest);
      assert s[1..] == a[1..] + [BAR] + rest;
      assert [a[0]] + a[1..] == a;
    }
  }

  lemma {:induction false} SplitWhole(a: string)
    requires BAR !in a
    ensures Split(a) == [a]
  {
    if a != [] {
      SplitWhole(a[1..]);
      assert [a[0]] + a[1..] == a;
    }
  }

  lemma DigitsParse(n: Word)
    ensures ParseNumber(Decimal.Digits(n)) == Some(n)
  {
    Decimal.ValueOfDigits(n);
    assert Decimal.IsDigit(Decimal.Digits(n)[0]);
  }

  lemma BarFree(n: nat)
    ensures BAR !in Decimal.Digits(n)
  {
  }

  lemma TooLarge(n: nat)
    requires n >= TWO64
    ensures ParseNumber(Decimal.Digits(n)) == None
  {
    Decimal.ValueOfDigits(n);
    assert Decimal.IsDigit(Decimal.Digits(n)[0]);
  }

  lemma FormatSplits(generation: nat, index: nat, stream: nat, offset: nat)
    ensures Split(Format(generation, index, stream, offset)) ==
      [Decimal.Digits(generation), Decimal.Digits(index), Decimal.Digits(stream), Decimal.Digits(offset)]
  {
    hide Decimal.Digits, Split;
    var g, i, s, o := Decimal.Digits(generation), Decimal.Digits(index), Decimal.Digits(stream), Decimal.Digits(offset);
    BarFree(generation);
    BarFree(index);
    BarFree(stream);
    BarFree(offset);
    SplitAtBar(g, i + [BAR] + (s + [BAR] + o));
    SplitAtBar(i, s + [BAR] + o);
    SplitAtBar(s, o);
    SplitWhole(o);
  }

  /** An offset that does not fit 64 bits is not read back at all. */
  lemma CursorTooLarge(generation: Word, index: Word, stream: Word, offset: nat)
    requires offset >= TWO64
    ensures Parse(Format(generation, index, stream, offset)) == Wrong(false)
  {
    hide Decimal.Digits, ParseNumber, Split;
    FormatSplits(generation, index, stream, offset);
    TooLarge(offset);
  }

  /** Every cursor that is written reads back as the same position. */
  lemma CursorRoundTrip(generation: Word, index: Word, stream: Word, offset: Word)
    ensures Parse(Format(generation, index, stream, offset)) == Right(Parts(generation, index, stream, offset))
  {
    hide Decimal.Digits, ParseNumber, Split;
    FormatSplits(generation, index, stream, offset);
    DigitsParse(generation);
    DigitsParse(index);
    DigitsParse(stream);
    DigitsParse(offset);
  }
}
