/**
 * Decimal rendering of integers: Python's str() of an int (no padding) and the
 * zero-padded fields that strftime writes, with the reading back of a digit string.
 */
module Decimal {

  predicate IsDigit(ch: char) {
    '0' <= ch <= '9'
  }

  predicate AllDigits(s: string) {
    forall i :: 0 <= i < |s| ==> IsDigit(s[i])
  }

  function DigitChar(d: nat): (ch: char)
    requires d < 10
    ensures IsDigit(ch) && ch as int - '0' as int == d
  {
    ('0' as int + d) as char
  }

  function DigitValue(ch: char): (d: nat)
    requires IsDigit(ch)
    ensures d < 10
  {
    ch as int - '0' as int
  }

  function Pow10(w: nat): (p: nat)
    ensures p >= 1
  {
    if w == 0 then 1 else 10 * Pow10(w - 1)
  }

  /** The shortest decimal spelling of n, as str(n) gives it. */
  function Digits(n: nat): (s: string)
    ensures 1 <= |s| && AllDigits(s)
    ensures n < 10 <==> |s| == 1
    decreases n
  {
    if n < 10 then [DigitChar(n)] else Digits(n / 10) + [DigitChar(n % 10)]
  }

  /** str(i) for a Python int: a minus sign before the digits of a negative number. */
  function IntToString(i: int): (s: string)
    ensures 1 <= |s|
    ensures s[0] == '-' <==> i < 0
    ensures i >= 0 ==> AllDigits(s)
  {
    if i < 0 then "-" + Digits(-i) else Digits(i)
  }

  /** Powers of ten grow with the exponent. */
  lemma {:induction false} Pow10Monotone(a: nat, b: nat)
    requires a <= b
    ensures Pow10(a) <= Pow10(b)
  {
    if a < b {
      Pow10Monotone(a, b - 1);
    }
  }

  /** Digits(n) spells n: reading it back gives n. */
  lemma {:induction false} DigitsRoundTrip(n: nat)
    ensures ValueOf(Digits(n)) == n
  {
    var s := Digits(n);
    if n < 10 {
      assert s[..0] == [];
    } else {
      assert s[..|s| - 1] == Digits(n / 10);
      DigitsRoundTrip(n / 10);
    }
  }

  /** Digits(n) has no leading zero: it starts with '0' only for n == 0. */
  lemma {:induction false} DigitsNoLeadingZero(n: nat)
    ensures Digits(n)[0] == '0' <==> n == 0
  {
    if n >= 10 {
      DigitsNoLeadingZero(n / 10);
    }
  }

  /** Digits(n) has k characters exactly when 10^(k-1) <= n < 10^k (or n < 10 for k == 1). */
  lemma {:induction false} DigitsLength(n: nat)
    ensures n < Pow10(|Digits(n)|)
    ensures |Digits(n)| > 1 ==> Pow10(|Digits(n)| - 1) <= n
  {
    if n >= 10 {
      DigitsLength(n / 10);
    }
  }

  /** A larger number never has a shorter spelling. */
  lemma {:induction false} DigitsMonotone(a: nat, b: nat)
    requires a <= b
    ensures |Digits(a)| <= |Digits(b)|
  {
    DigitsLength(a);
    DigitsLength(b);
    if |Digits(a)| > |Digits(b)| {
      Pow10Monotone(|Digits(b)|, |Digits(a)| - 1);
    }
  }

  /**
   * str(i) spells i: after an optional minus sign come the digits of |i|, with no
   * leading zero unless i is 0.
   */
  lemma IntToStringSpellsValue(i: int)
    ensures var digits := if i < 0 then IntToString(i)[1..] else IntToString(i);
      && 1 <= |digits| && AllDigits(digits)
      && ValueOf(digits) == (if i < 0 then -i else i)
      && (digits[0] == '0' <==> i == 0)
  {
    var n: nat := if i < 0 then -i else i;
    DigitsRoundTrip(n);
    DigitsNoLeadingZero(n);
    if i < 0 {
      assert IntToString(i)[1..] == Digits(n);
    }
  }

  /** The low w decimal digits of n, zero-padded on the left to exactly w characters. */
  function FixedDigits(n: nat, w: nat): (s: string)
    ensures |s| == w && AllDigits(s)
  {
    if w == 0 then "" else FixedDigits(n / 10, w - 1) + [DigitChar(n % 10)]
  }

  /** The number a string of decimal digits denotes. */
  function ValueOf(s: string): nat
    requires AllDigits(s)
  {
    if s == [] then 0 else 10 * ValueOf(s[..|s| - 1]) + DigitValue(s[|s| - 1])
  }

  /** Reading a zero-padded field back gives the number it was made from. */
  lemma {:induction false} FixedDigitsRoundTrip(n: nat, w: nat)
    requires n < Pow10(w)
    ensures ValueOf(FixedDigits(n, w)) == n
  {
    if w > 0 {
      var s := FixedDigits(n, w);
      assert s[..|s| - 1] == FixedDigits(n / 10, w - 1);
      FixedDigitsRoundTrip(n / 10, w - 1);
    }
  }
}
