/**
  Decimal rendering of integers, as PHP's `sprintf('%d', $v)` produces it:
  an optional minus sign followed by the digits of the magnitude, with no
  leading zeros. A parser is given beside it so that the rendering can be
  shown to lose no information.
 */
module Decimal {
  import opened Wrappers

  predicate IsDigit(ch: char) {
    '0' <= ch <= '9'
  }

  predicate AllDigits(s: string) {
    forall i :: 0 <= i < |s| ==> IsDigit(s[i])
  }

  function DigitChar(d: nat): (ch: char)
    requires d < 10
    ensures IsDigit(ch) && DigitValue(ch) == d
  {
    ('0' as int + d) as char
  }

  function DigitValue(ch: char): (d: nat)
    requires IsDigit(ch)
    ensures d < 10
  {
    ch as int - '0' as int
  }

  /** The canonical decimal digits of `n`: never empty, no leading zero. */
  function NatToDecimal(n: nat): (s: string)
    ensures |s| >= 1 && AllDigits(s)
    ensures s[0] == '0' ==> n == 0 && s == "0"
    decreases n
  {
    if n < 10 then [DigitChar(n)] else NatToDecimal(n / 10) + [DigitChar(n % 10)]
  }

  /** `sprintf('%d', v)`: a minus sign for negative values, then the magnitude's digits. */
  function IntToDecimal(v: int): (s: string)
    ensures |s| >= 1
    ensures s[0] == '-' <==> v < 0
    ensures v >= 0 ==> AllDigits(s) && (s[0] == '0' ==> s == "0")
    ensures v < 0 ==> |s| >= 2 && AllDigits(s[1..]) && s[1] != '0'
  {
    if v < 0 then "-" + NatToDecimal(-v) else NatToDecimal(v)
  }

  /** The value of a string of decimal digits, most significant first. */
  function DigitsValue(s: string): nat
    requires AllDigits(s)
  {
    if s == [] then 0 else DigitsValue(s[..|s| - 1]) * 10 + DigitValue(s[|s| - 1])
  }

  /** Reads back an optionally signed run of decimal digits; anything else is `None`. */
  function ParseDecimal(s: string): Option<int> {
    if |s| >= 2 && s[0] == '-' && AllDigits(s[1..]) then
      var magnitude: int := DigitsValue(s[1..]);
      Some(-magnitude)
    else if |s| >= 1 && AllDigits(s) then
      var magnitude: int := DigitsValue(s);
      Some(magnitude)
    else None
  }

  lemma {:induction false} NatToDecimalRoundTrip(n: nat)
    ensures DigitsValue(NatToDecimal(n)) == n
    decreases n
  {
    var s := NatToDecimal(n);
    if n >= 10 {
      NatToDecimalRoundTrip(n / 10);
      assert s[..|s| - 1] == NatToDecimal(n / 10);
    }
  }

  /** Rendering then parsing gives back the value, so distinct values render distinctly. */
  lemma IntToDecimalRoundTrip(v: int)
    ensures ParseDecimal(IntToDecimal(v)) == Some(v)
  {
    if v < 0 {
      NatToDecimalRoundTrip(-v);
      assert IntToDecimal(v)[1..] == NatToDecimal(-v);
    } else {
      NatToDecimalRoundTrip(v);
    }
  }

  lemma IntToDecimalInjective(v: int, w: int)
    ensures IntToDecimal(v) == IntToDecimal(w) <==> v == w
  {
    IntToDecimalRoundTrip(v);
    IntToDecimalRoundTrip(w);
  }
}
