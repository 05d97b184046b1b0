/**
 * Decimal digit strings: zero-padded fixed-width numbers (as `LocalDate.toString`
 * prints months, days and short years) and `String.valueOf(int)`.
 */
module Decimal {

  predicate IsDigit(c: char) {
    '0' <= c <= '9'
  }

  predicate AllDigits(s: string) {
    forall i :: 0 <= i < |s| ==> IsDigit(s[i])
  }

  function DigitChar(d: nat): (c: char)
    requires d < 10
    ensures IsDigit(c)
  {
    ('0' as int + d) as char
  }

  function DigitValue(c: char): (d: nat)
    requires IsDigit(c)
    ensures d < 10 && DigitChar(d) == c
  {
    c as int - '0' as int
  }

  function Pow10(n: nat): (r: nat)
    ensures r >= 1
  {
    if n == 0 then 1 else 10 * Pow10(n - 1)
  }

  /** The `width` lowest decimal digits of `n`, most significant first, padded with zeros. */
  function FixedDigits(n: nat, width: nat): (s: string)
    ensures |s| == width && AllDigits(s)
  {
    if width == 0 then "" else FixedDigits(n / 10, width - 1) + [DigitChar(n % 10)]
  }

  /** The number a string of decimal digits denotes. */
  function DigitsValue(s: string): (n: nat)
    requires AllDigits(s)
    ensures n < Pow10(|s|)
  {
    if s == [] then 0
    else
      var prefix := DigitsValue(s[..|s| - 1]);
      assert prefix <= Pow10(|s| - 1) - 1;
      prefix * 10 + DigitValue(s[|s| - 1])
  }

  /** Reading back a fixed-width rendering gives the number, when it fits the width. */
  lemma {:induction false} FixedDigitsValue(n: nat, width: nat)
    requires n < Pow10(width)
    ensures DigitsValue(FixedDigits(n, width)) == n
  {
    if width > 0 {
      FixedDigitsValue(n / 10, width - 1);
      var s := FixedDigits(n, width);
      assert s[..|s| - 1] == FixedDigits(n / 10, width - 1);
    }
  }

  /** Rendering the value of a digit string at its own width gives the string back. */
  lemma {:induction false} DigitsValueFixed(s: string)
    requires AllDigits(s)
    ensures FixedDigits(DigitsValue(s), |s|) == s
  {
    if s != [] {
      var init := s[..|s| - 1];
      DigitsValueFixed(init);
      var n := DigitsValue(s);
      assert n / 10 == DigitsValue(init) && n % 10 == DigitValue(s[|s| - 1]);
      assert s == init + [s[|s| - 1]];
    }
  }

  /** How many digits `Integer.toString` prints for `n`. */
  function NumDigits(n: nat): (k: nat)
    ensures 1 <= k && n < Pow10(k)
    ensures n >= 10 ==> Pow10(k - 1) <= n
  {
    if n < 10 then 1 else 1 + NumDigits(n / 10)
  }

  /** `Integer.toString` of a non-negative number: no sign, no leading zeros. */
  function NatToDecimal(n: nat): string {
    FixedDigits(n, NumDigits(n))
  }

  lemma NatToDecimalCanonical(n: nat)
    ensures AllDigits(NatToDecimal(n)) && DigitsValue(NatToDecimal(n)) == n
    ensures |NatToDecimal(n)| > 1 ==> NatToDecimal(n)[0] != '0'
  {
    FixedDigitsValue(n, NumDigits(n));
    if |NatToDecimal(n)| > 1 {
      LeadingDigit(n, NumDigits(n));
    }
  }

  /** The first of `width` digits is zero exactly when the number is below `10^(width-1)`. */
  lemma {:induction false} LeadingDigit(n: nat, width: nat)
    requires 1 <= width && n < Pow10(width)
    ensures FixedDigits(n, width)[0] == '0' <==> n < Pow10(width - 1)
  {
    if width > 1 {
      LeadingDigit(n / 10, width - 1);
      assert FixedDigits(n, width)[0] == FixedDigits(n / 10, width - 1)[0];
    }
  }

  /** `String.valueOf(int)`: a minus sign for negative numbers, then the digits of the magnitude. */
  function IntToString(i: int): (s: string)
    ensures |s| >= 1
    ensures i < 0 <==> s[0] == '-'
  {
    if i < 0 then "-" + NatToDecimal(-i) else NatToDecimal(i)
  }

  /** The integer an optionally signed digit string denotes. */
  function SignedValue(s: string): int
    requires |s| >= 1 && (s[0] == '-' ==> AllDigits(s[1..])) && (s[0] != '-' ==> AllDigits(s))
  {
    if s[0] == '-' then -(DigitsValue(s[1..]) as int) else DigitsValue(s)
  }

  /** `String.valueOf(int)` loses nothing: reading its text back gives the number. */
  lemma IntToStringValue(i: int)
    ensures var s := IntToString(i);
      && (s[0] == '-' ==> AllDigits(s[1..])) && (s[0] != '-' ==> AllDigits(s))
      && SignedValue(s) == i
  {
    if i < 0 {
      NatToDecimalCanonical(-i);
      assert IntToString(i)[1..] == NatToDecimal(-i);
    } else {
      NatToDecimalCanonical(i);
    }
  }
}
