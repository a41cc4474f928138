/**
 * Rust's `i32` and its `to_string()`: base ten, no leading zeros, a leading
 * `-` for negative values.
 */
module Decimal {

  /** Rust's 32-bit signed integer. */
  type i32 = x: int | -0x8000_0000 <= x < 0x8000_0000

  predicate IsDigit(c: char) {
    '0' <= c <= '9'
  }

  predicate AllDigits(s: string) {
    forall k :: 0 <= k < |s| ==> IsDigit(s[k])
  }

  function DigitChar(d: nat): (c: char)
    requires d < 10
    ensures IsDigit(c) && c as int - '0' as int == d
  {
    ('0' as int + d) as char
  }

  /** The number a string of decimal digits denotes, most significant first. */
  function DigitsValue(s: string): nat
    requires AllDigits(s)
    decreases |s|
  {
    if s == [] then 0
    else DigitsValue(s[..|s| - 1]) * 10 + (s[|s| - 1] as int - '0' as int)
  }

  /** The decimal digits of `n`: at least one digit, and no leading zero. */
  function NatToDecimal(n: nat): (s: string)
    ensures |s| > 0 && AllDigits(s)
    ensures s[0] == '0' ==> n == 0 && |s| == 1
    decreases n
  {
    if n < 10 then [DigitChar(n)] else NatToDecimal(n / 10) + [DigitChar(n % 10)]
  }

  /** `n.to_string()`. */
  function IntToDecimal(n: int): string {
    if n < 0 then "-" + NatToDecimal(-n) else NatToDecimal(n)
  }

  /** The digits denote the number they were made from. */
  lemma {:induction false} NatToDecimalValue(n: nat)
    ensures DigitsValue(NatToDecimal(n)) == n
    decreases n
  {
    if n >= 10 {
      NatToDecimalValue(n / 10);
      var s := NatToDecimal(n);
      assert s[..|s| - 1] == NatToDecimal(n / 10);
    }
  }

  /**
   * The rendering is a sign (present exactly for negative numbers) followed by
   * digits without a leading zero whose value is the magnitude.
   */
  lemma IntToDecimalMeaning(n: int)
    ensures var s := IntToDecimal(n);
      && |s| > 0
      && (s[0] == '-' <==> n < 0)
      && var digits := if n < 0 then s[1..] else s;
      && |digits| > 0 && AllDigits(digits)
      && (digits[0] == '0' ==> n == 0 && |s| == 1)
      && DigitsValue(digits) == (if n < 0 then -n else n)
  {
    var m := if n < 0 then -n else n;
    NatToDecimalValue(m);
    if n < 0 {
      assert IntToDecimal(n)[1..] == NatToDecimal(m);
    }
  }

  /** Distinct numbers render to distinct text. */
  lemma IntToDecimalInjective(a: int, b: int)
    requires IntToDecimal(a) == IntToDecimal(b)
    ensures a == b
  {
    IntToDecimalMeaning(a);
    IntToDecimalMeaning(b);
  }

  /** The rendering holds only digits and `-`; in particular no `{`, `}` or `/`. */
  lemma IntToDecimalAlphabet(n: int)
    ensures forall k :: 0 <= k < |IntToDecimal(n)| ==> IsDigit(IntToDecimal(n)[k]) || (k == 0 && n < 0 && IntToDecimal(n)[k] == '-')
  {
    IntToDecimalMeaning(n);
  }
}
