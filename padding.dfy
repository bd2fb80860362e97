/** `leadingZero`: the two-digit padding the log timestamps use, over
    natural numbers rendered in decimal. */
module Padding {

  predicate IsDigit(c: char) {
    '0' <= c <= '9'
  }

  predicate IsDigits(s: string) {
    forall i :: 0 <= i < |s| ==> IsDigit(s[i])
  }

  function DigitChar(d: nat): (c: char)
    requires d < 10
    ensures IsDigit(c)
  {
    ('0' as int + d) as char
  }

  function DigitValue(c: char): (d: nat)
    requires IsDigit(c)
    ensures d < 10
  {
    c as int - '0' as int
  }

  /** The number a string of decimal digits denotes. */
  function ValueOf(s: string): nat
    requires IsDigits(s)
  {
    if s == [] then 0 else ValueOf(s[..|s| - 1]) * 10 + DigitValue(s[|s| - 1])
  }

  /** A non-negative integer written as its decimal digits, without leading
      zeros. This is how JavaScript renders integers below 10^21; larger
      numbers (exponent form, or beyond exact integers) are not covered. */
  function Decimal(n: nat): (s: string)
    ensures |s| >= 1 && IsDigits(s)
    ensures s[0] == '0' ==> n == 0
    ensures |s| == 1 <==> n < 10
    ensures n < 100 ==> |s| <= 2
  {
    if n < 10 then [DigitChar(n)] else Decimal(n / 10) + [DigitChar(n % 10)]
  }

  /** Reading a rendered number back gives the number. */
  lemma {:induction false} DecimalRoundTrip(n: nat)
    ensures ValueOf(Decimal(n)) == n
  {
    if n >= 10 {
      DecimalRoundTrip(n / 10);
      var s := Decimal(n);
      assert s[..|s| - 1] == Decimal(n / 10);
    }
  }

  /** A leading zero does not change the value of a digit string. */
  lemma {:induction false} LeadingZeroNeutral(s: string)
    requires IsDigits(s)
    ensures IsDigits("0" + s) && ValueOf("0" + s) == ValueOf(s)
    decreases |s|
  {
    if s != [] {
      var init := s[..|s| - 1];
      LeadingZeroNeutral(init);
      assert ("0" + s)[..|"0" + s| - 1] == "0" + init;
    }
  }

  /** `leadingZero(num)`: `num` itself when it is above 9, otherwise `"0"`
      followed by it. Above 9 the source returns the number, which its only
      caller concatenates into a string: the rendering is the same. */
  function LeadingZero(n: nat): (r: string)
    ensures IsDigits(r) && ValueOf(r) == n
    ensures n > 9 ==> r == Decimal(n)
    ensures n < 100 ==> |r| == 2
    ensures n < 10 ==> r[0] == '0'
  {
    DecimalRoundTrip(n);
    LeadingZeroNeutral(Decimal(n));
    if n > 9 then Decimal(n) else "0" + Decimal(n)
  }
}
