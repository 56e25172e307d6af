/** Decimal notation of naturals, as `format!` writes it and `str::parse` reads it. */
module Decimal {

  function DigitChar(d: nat): (c: char)
    requires d < 10
    ensures '0' <= c <= '9' && DigitValue(c) == d
  {
    '0' + d as char
  }

  predicate IsDigit(c: char) { '0' <= c <= '9' }

  function DigitValue(c: char): nat
    requires IsDigit(c)
  {
    (c - '0') as nat
  }

  predicate AllDigits(s: string) { forall i :: 0 <= i < |s| ==> IsDigit(s[i]) }

  function Digits(n: nat): (s: string)
    ensures s != [] && AllDigits(s)
  {
    if n < 10 then [DigitChar(n)] else Digits(n / 10) + [DigitChar(n % 10)]
  }

  function Value(s: string): nat
    requires AllDigits(s)
  {
    if s == [] then 0 else 10 * Value(s[..|s| - 1]) + DigitValue(s[|s| - 1])
  }

  lemma {:induction false} ValueOfDigits(n: nat)
    ensures Value(Digits(n)) == n
  {
    if n >= 10 {
      ValueOfDigits(n / 10);
      assert Digits(n)[..|Digits(n)| - 1] == Digits(n / 10);
    }
  }

  /** More digits for larger numbers. */
  lemma {:induction false} DigitsMonotone(m: nat, n: nat)
    requires m <= n
    ensures |Digits(m)| <= |Digits(n)|
  {
    if m >= 10 { DigitsMonotone(m / 10, n / 10); }
  }

  lemma FourDigits(n: nat)
    requires n >= 10_000
    ensures |Digits(n)| == |Digits(n / 10_000)| + 4
  {
    assert n / 10 / 10 / 10 / 10 == n / 10_000;
    assert |Digits(n)| == |Digits(n / 10)| + 1 && |Digits(n / 10)| == |Digits(n / 10 / 10)| + 1;
    assert |Digits(n / 10 / 10)| == |Digits(n / 10 / 10 / 10)| + 1;
    assert |Digits(n / 10 / 10 / 10)| == |Digits(n / 10 / 10 / 10 / 10)| + 1;
  }

  /** Numbers below `10_000 * 10_000^k` have at most `4 * k + 4` digits. */
  lemma {:induction false} DigitBound(n: nat, k: nat)
    requires n < 10_000 * Pow10000(k)
    ensures |Digits(n)| <= 4 * k + 4
  {
    if n >= 10_000 {
      FourDigits(n);
      DigitBound(n / 10_000, k - 1);
    } else {
      assert |Digits(n)| <= |Digits(9_999)| by { DigitsMonotone(n, 9_999); }
      assert Digits(9_999) == Digits(999) + ['9'] && Digits(999) == Digits(99) + ['9'] && Digits(99) == Digits(9) + ['9'];
    }
  }

  ghost function Pow10000(k: nat): nat { if k == 0 then 1 else 10_000 * Pow10000(k - 1) }
}
