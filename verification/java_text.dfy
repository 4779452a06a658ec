/**
 * Decimal rendering of Java `int` values, as `"..." + n` and `Integer.toString(n)` produce it:
 * an optional minus sign followed by the decimal digits, without leading zeros.
 */
module JavaText {

  predicate IsDigit(c: char) {
    '0' <= c <= '9'
  }

  /** The characters a decimal rendering can contain: the digits and the minus sign. */
  predicate IsNumeral(c: char) {
    IsDigit(c) || c == '-'
  }

  predicate AllDigits(s: string) {
    forall i :: 0 <= i < |s| ==> IsDigit(s[i])
  }

  predicate AllNumeral(s: string) {
    forall i :: 0 <= i < |s| ==> IsNumeral(s[i])
  }

  function DigitValue(c: char): (d: nat)
    requires IsDigit(c)
    ensures d < 10
  {
    c as int - '0' as int
  }

  function DigitChar(d: nat): (c: char)
    requires d < 10
    ensures IsDigit(c) && DigitValue(c) == d
  {
    ('0' as int + d) as char
  }

  /** The digits of `n`, most significant first. */
  function NatToString(n: nat): (s: string)
    ensures |s| >= 1 && AllDigits(s)
  {
    if n < 10 then [DigitChar(n)] else NatToString(n / 10) + [DigitChar(n % 10)]
  }

  /** `Integer.toString(n)`. */
  function IntToString(n: int): (s: string)
    ensures |s| >= 1 && AllNumeral(s)
    ensures s[0] == '-' <==> n < 0
  {
    if n < 0 then "-" + NatToString(-n) else NatToString(n)
  }

  /** Reads back a string of decimal digits. */
  function ParseDigits(s: string): nat
    requires |s| >= 1 && AllDigits(s)
  {
    if |s| == 1 then DigitValue(s[0])
    else 10 * ParseDigits(s[..|s| - 1]) + DigitValue(s[|s| - 1])
  }

  /** `Integer.parseInt` restricted to what `Integer.toString` produces. */
  function ParseInt(s: string): int
    requires |s| >= 1 && (s[0] == '-' ==> |s| >= 2 && AllDigits(s[1..]))
    requires s[0] != '-' ==> AllDigits(s)
  {
    if s[0] == '-' then -(ParseDigits(s[1..]) as int) else ParseDigits(s)
  }

  lemma {:induction false} ParseDigitsOfNatToString(n: nat)
    ensures ParseDigits(NatToString(n)) == n
  {
    if n >= 10 {
      var s := NatToString(n);
      assert s[..|s| - 1] == NatToString(n / 10);
      ParseDigitsOfNatToString(n / 10);
    }
  }

  /** Parsing undoes the decimal rendering. */
  lemma ParseIntOfIntToString(n: int)
    ensures ParseInt(IntToString(n)) == n
  {
    var s := IntToString(n);
    if n < 0 {
      assert s == "-" + NatToString(-n);
      assert s[0] == '-' && s[1..] == NatToString(-n);
      ParseDigitsOfNatToString(-n);
    } else {
      assert s == NatToString(n);
      ParseDigitsOfNatToString(n);
    }
  }

  /** Two ints with the same decimal rendering are equal. */
  lemma IntToStringInjective(a: int, b: int)
    requires IntToString(a) == IntToString(b)
    ensures a == b
  {
    ParseIntOfIntToString(a);
    ParseIntOfIntToString(b);
  }

  /**
   * A numeral followed by text that starts with a non-numeral character splits in one way
   * only: the numeral ends where the first non-numeral character stands.
   */
  lemma NumeralSplit(x: string, p: string, y: string, q: string)
    requires AllNumeral(x) && AllNumeral(y)
    requires |p| > 0 && !IsNumeral(p[0])
    requires |q| > 0 && !IsNumeral(q[0])
    requires x + p == y + q
    ensures x == y && p == q
  {
    // the first non-numeral character of the common string stands at |x| and at |y|
    assert (x + p)[|x|] == p[0];
    assert (y + q)[|y|] == q[0];
    assert |x| == |y|;
    assert x == (x + p)[..|x|];
    assert y == (y + q)[..|y|];
  }

  /** Equal strings with a common prefix agree after it. */
  lemma CancelPrefix(p: string, x: string, y: string)
    requires p + x == p + y
    ensures x == y
  {
    assert x == (p + x)[|p|..];
    assert y == (p + y)[|p|..];
  }
}
