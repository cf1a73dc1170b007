/** Base-10 formatting of a signed integer, as `strconv.FormatInt(i, 10)`
    writes the message index into the request path, together with the parser
    that inverts it. */
module Decimal {

  predicate IsDigit(c: char) {
    '0' <= c <= '9'
  }

  predicate AllDigits(s: string) {
    forall k :: 0 <= k < |s| ==> IsDigit(s[k])
  }

  function DigitChar(d: nat): (c: char)
    requires d < 10
    ensures IsDigit(c) && c as int - '0' as int == d
  {
    ('0' as int + d) as char
  }

  /** The shortest base-10 numeral of `n`: digits only, and a leading zero
      only for zero itself. */
  function Numeral(n: nat): (s: string)
    ensures |s| >= 1 && AllDigits(s)
    ensures s[0] == '0' <==> n == 0
    ensures |s| > 1 ==> n >= 10
  {
    if n < 10 then [DigitChar(n)] else Numeral(n / 10) + [DigitChar(n % 10)]
  }

  /** `strconv.FormatInt(i, 10)`: a `-` sign for negative values, then the
      numeral of the magnitude. */
  function FormatInt(i: int): (s: string)
    ensures |s| >= 1
    ensures s[0] == '-' <==> i < 0
    ensures s[0] == '-' ==> |s| >= 2 && AllDigits(s[1..])
    ensures s[0] != '-' ==> AllDigits(s)
  {
    if i < 0 then "-" + Numeral(-i) else Numeral(i)
  }

  function ParseNumeral(s: string): nat
    requires AllDigits(s)
  {
    if s == [] then 0
    else ParseNumeral(s[..|s| - 1]) * 10 + (s[|s| - 1] as int - '0' as int)
  }

  function ParseInt(s: string): int
    requires |s| >= 1
    requires s[0] == '-' ==> AllDigits(s[1..])
    requires s[0] != '-' ==> AllDigits(s)
  {
    if s[0] == '-' then -(ParseNumeral(s[1..]) as int) else ParseNumeral(s)
  }

  lemma {:induction false} NumeralRoundTrip(n: nat)
    ensures ParseNumeral(Numeral(n)) == n
  {
    if n >= 10 {
      NumeralRoundTrip(n / 10);
      var s := Numeral(n);
      assert s[..|s| - 1] == Numeral(n / 10);
    }
  }

  /** Reading back what `FormatInt` wrote gives the original value. */
  lemma FormatIntRoundTrip(i: int)
    ensures ParseInt(FormatInt(i)) == i
  {
    if i < 0 {
      NumeralRoundTrip(-i);
      assert FormatInt(i)[1..] == Numeral(-i);
    } else {
      NumeralRoundTrip(i);
    }
  }

  /** Distinct values are written as distinct numerals. */
  lemma FormatIntInjective(i: int, j: int)
    requires FormatInt(i) == FormatInt(j)
    ensures i == j
  {
    FormatIntRoundTrip(i);
    FormatIntRoundTrip(j);
  }
}
