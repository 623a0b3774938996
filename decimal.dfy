/** How Swift string interpolation writes an `Int` ("\(x)"): base ten, no
    leading zeros, a leading '-' for negative values. A parser for that form
    shows the rendering loses nothing. */
module Decimal {

  predicate IsDigit(c: char) {
    '0' <= c <= '9'
  }

  predicate AllDigits(s: string) {
    forall i :: 0 <= i < |s| ==> IsDigit(s[i])
  }

  /** The shape of every rendering: an optional '-' and at least one digit. */
  predicate IsDecimal(s: string) {
    if |s| > 0 && s[0] == '-' then |s| > 1 && AllDigits(s[1..])
    else |s| > 0 && AllDigits(s)
  }

  function DigitChar(d: nat): (c: char)
    requires d < 10
    ensures IsDigit(c) && DigitValue(c) == d
  {
    ('0' as int + d) as char
  }

  function DigitValue(c: char): nat
    requires IsDigit(c)
  {
    c as int - '0' as int
  }

  /** The digits of `n`, most significant first. */
  function NatToDecimal(n: nat): (s: string)
    ensures |s| > 0 && AllDigits(s)
    decreases n
  {
    if n < 10 then [DigitChar(n)] else NatToDecimal(n / 10) + [DigitChar(n % 10)]
  }

  /** `"\(x)"` for a Swift `Int` `x`. */
  function IntToDecimal(x: int): (s: string)
    ensures IsDecimal(s)
  {
    if x < 0 then "-" + NatToDecimal(-x) else NatToDecimal(x)
  }

  /** The value of a string of digits. */
  function DecimalToNat(s: string): nat
    requires AllDigits(s)
  {
    if s == [] then 0 else DecimalToNat(s[..|s| - 1]) * 10 + DigitValue(s[|s| - 1])
  }

  /** The value of a rendering. */
  function DecimalToInt(s: string): int
    requires IsDecimal(s)
  {
    if s[0] == '-' then -(DecimalToNat(s[1..]) as int) else DecimalToNat(s)
  }

  lemma {:induction false} NatToDecimalRoundTrip(n: nat)
    ensures DecimalToNat(NatToDecimal(n)) == n
    decreases n
  {
    var s := NatToDecimal(n);
    if n >= 10 {
      NatToDecimalRoundTrip(n / 10);
      assert s[..|s| - 1] == NatToDecimal(n / 10);
    }
  }

  /** Reading a rendering back gives the integer that was rendered. */
  lemma IntToDecimalRoundTrip(x: int)
    ensures DecimalToInt(IntToDecimal(x)) == x
  {
    if x < 0 {
      NatToDecimalRoundTrip(-x);
      assert IntToDecimal(x)[1..] == NatToDecimal(-x);
    } else {
      NatToDecimalRoundTrip(x);
    }
  }

  /** A rendering never contains a comma, so a comma can separate two of them. */
  lemma DecimalHasNoComma(s: string, i: int)
    requires IsDecimal(s) && 0 <= i < |s|
    ensures s[i] != ','
  {
    if s[0] == '-' && i > 0 {
      assert s[i] == s[1..][i - 1];
    }
  }

  /** Two integers render alike exactly when they are equal. */
  lemma IntToDecimalInjective(x: int, y: int)
    ensures IntToDecimal(x) == IntToDecimal(y) <==> x == y
  {
    if IntToDecimal(x) == IntToDecimal(y) {
      IntToDecimalRoundTrip(x);
      IntToDecimalRoundTrip(y);
    }
  }
}
