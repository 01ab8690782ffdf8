/**
 * How a template literal such as `Q${status.period}` renders an integer period: decimal
 * digits with no leading zero, and a leading `-` for a negative value. This holds for the
 * integers JavaScript prints in plain digits (below `1e21` and exactly representable); the
 * exponent form of larger numbers is not modelled. `ParseInt` reads such a
 * text back, so the period is recoverable from the label.
 */
module Decimal {

  predicate IsDigit(c: char) {
    '0' <= c <= '9'
  }

  function DigitChar(d: nat): (c: char)
    requires d < 10
    ensures IsDigit(c) && c as int - '0' as int == d
  {
    ('0' as int + d) as char
  }

  /** The decimal text of a natural number. */
  function NatToDecimal(n: nat): (s: string)
    ensures |s| >= 1
    ensures forall k :: 0 <= k < |s| ==> IsDigit(s[k])
    ensures s[0] == '0' ==> n == 0
    ensures |s| > 1 ==> s[0] != '0'
    decreases n
  {
    if n < 10 then [DigitChar(n)] else NatToDecimal(n / 10) + [DigitChar(n % 10)]
  }

  /** The value of a string of decimal digits. */
  function DecimalValue(s: string): nat
    requires forall k :: 0 <= k < |s| ==> IsDigit(s[k])
    decreases |s|
  {
    if s == [] then 0
    else
      assert IsDigit(s[|s| - 1]);
      DecimalValue(s[..|s| - 1]) * 10 + (s[|s| - 1] as int - '0' as int)
  }

  /** Reading the rendered digits back gives the number. */
  lemma {:induction false} NatDecimalRoundTrip(n: nat)
    ensures DecimalValue(NatToDecimal(n)) == n
    decreases n
  {
    var s := NatToDecimal(n);
    if n >= 10 {
      NatDecimalRoundTrip(n / 10);
      assert s[..|s| - 1] == NatToDecimal(n / 10);
    }
  }

  /** `${i}` for an integer `i`. */
  function IntToDecimal(i: int): string {
    if i < 0 then "-" + NatToDecimal(-i) else NatToDecimal(i)
  }

  /** The integer written by a decimal text with an optional leading `-`. */
  function ParseInt(s: string): (r: int)
    requires |s| >= 1
    requires s[0] == '-' ==> |s| >= 2 && forall k :: 1 <= k < |s| ==> IsDigit(s[k])
    requires s[0] != '-' ==> forall k :: 0 <= k < |s| ==> IsDigit(s[k])
  {
    if s[0] == '-' then 0 - DecimalValue(s[1..]) as int else DecimalValue(s)
  }

  /** The rendering of an integer is a well-formed decimal text that reads back as that integer. */
  lemma IntDecimalRoundTrip(i: int)
    ensures |IntToDecimal(i)| >= 1
    ensures IntToDecimal(i)[0] == '-' <==> i < 0
    ensures ParseInt(IntToDecimal(i)) == i
  {
    if i < 0 {
      assert IntToDecimal(i)[1..] == NatToDecimal(-i);
      NatDecimalRoundTrip(-i);
    } else {
      NatDecimalRoundTrip(i);
    }
  }
}
