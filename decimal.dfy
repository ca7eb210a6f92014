/** Decimal text of integers, as the system's string formatting writes them:
    an optional minus sign followed by the digits, most significant first.  The
    parser beside it is the partner that shows the text determines the number. */
module Decimal {

  predicate IsDigit(c: char)
  {
    '0' <= c <= '9'
  }

  predicate AllDigits(s: string)
  {
    forall i :: 0 <= i < |s| ==> IsDigit(s[i])
  }

  function DigitChar(d: nat): (c: char)
    requires d < 10
    ensures IsDigit(c) && c as int - '0' as int == d
  {
    ('0' as int + d) as char
  }

  function DigitValue(c: char): (d: nat)
    requires IsDigit(c)
    ensures d < 10 && DigitChar(d) == c
  {
    c as int - '0' as int
  }

  /** The decimal digits of `n`, with no leading zero. */
  function NatToString(n: nat): (s: string)
    ensures s != [] && AllDigits(s)
    ensures s[0] == '0' ==> n == 0 && s == "0"
  {
    if n < 10 then [DigitChar(n)] else NatToString(n / 10) + [DigitChar(n % 10)]
  }

  /** A decimal text: digits, optionally after a minus sign. */
  predicate IsDecimal(s: string)
  {
    s != [] && if s[0] == '-' then AllDigits(s[1..]) else AllDigits(s)
  }

  /** The decimal text of `n`: a minus sign for a negative number, then its digits. */
  function IntToString(n: int): (s: string)
    ensures IsDecimal(s)
    ensures n >= 0 ==> AllDigits(s)
    ensures n < 0 ==> s[0] == '-' && |s| >= 2 && AllDigits(s[1..])
    ensures n >= 0 ==> (s[0] == '0' ==> n == 0 && s == "0")
    ensures n < 0 ==> s[1] != '0'
  {
    if n < 0 then "-" + NatToString(-n) else NatToString(n)
  }

  /** The number a string of digits denotes. */
  function ParseNat(s: string): nat
    requires AllDigits(s)
  {
    if s == [] then 0 else ParseNat(s[..|s| - 1]) * 10 + DigitValue(s[|s| - 1])
  }

  /** The number a decimal text with an optional minus sign denotes. */
  function ParseInt(s: string): int
    requires IsDecimal(s)
  {
    if s[0] == '-' then -(ParseNat(s[1..]) as int) else ParseNat(s)
  }

  lemma {:induction false} ParseNatToString(n: nat)
    ensures ParseNat(NatToString(n)) == n
  {
    if n >= 10 {
      var s := NatToString(n / 10);
      var t := s + [DigitChar(n % 10)];
      assert t[..|t| - 1] == s;
      ParseNatToString(n / 10);
    }
  }

  /** Parsing the decimal text of a number gives the number back. */
  lemma IntToStringRoundTrip(n: int)
    ensures ParseInt(IntToString(n)) == n
  {
    if n < 0 {
      ParseNatToString(-n);
      assert IntToString(n)[1..] == NatToString(-n);
    } else {
      ParseNatToString(n);
    }
  }

  /** Distinct numbers have distinct decimal texts. */
  lemma IntToStringInjective(a: int, b: int)
    requires a != b
    ensures IntToString(a) != IntToString(b)
  {
    IntToStringRoundTrip(a);
    IntToStringRoundTrip(b);
  }
}
