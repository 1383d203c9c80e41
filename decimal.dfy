/** Python's str() of an integer: plain decimal text, with a leading '-' when
    negative and no leading zeros. The metadata table renders integral values
    this way before they reach the key generator. */
module Decimal {
  import opened Common

  predicate IsDigit(c: char) {
    '0' <= c <= '9'
  }

  predicate AllDigits(s: string) {
    forall i :: 0 <= i < |s| ==> IsDigit(s[i])
  }

  function DigitChar(d: nat): (c: char)
    requires d < 10
    ensures IsDigit(c) && (c == '0' <==> d == 0)
  {
    (48 + d) as char
  }

  function DigitValue(c: char): (d: nat)
    requires IsDigit(c)
    ensures d < 10 && DigitChar(d) == c
  {
    c as int - 48
  }

  /** The decimal text of a non-negative integer. */
  function Natural(n: nat): (s: string)
    ensures |s| > 0 && AllDigits(s)
    ensures s[0] == '0' <==> n == 0
    ensures |s| > 1 ==> s[0] != '0'
    decreases n
  {
    if n < 10 then [DigitChar(n)] else Natural(n / 10) + [DigitChar(n % 10)]
  }

  /** str(n) for a Python int (or str(int(v)) for a numpy int64). */
  function Show(n: int): (s: string)
    ensures |s| > 0
    ensures n < 0 <==> s[0] == '-'
    ensures AllDigits(if n < 0 then s[1..] else s)
    ensures var d := if n < 0 then s[1..] else s;
      |d| > 0 && (d[0] == '0' ==> n == 0 && s == "0")
  {
    if n < 0 then "-" + Natural(-n) else Natural(n)
  }

  /** The value of a string of decimal digits. */
  function ParseNatural(s: string): nat
    requires AllDigits(s)
    decreases |s|
  {
    if |s| == 0 then 0 else ParseNatural(s[..|s| - 1]) * 10 + DigitValue(s[|s| - 1])
  }

  /** int(s) restricted to the texts Show produces; None for anything else. */
  function Parse(s: string): Option<int> {
    if |s| > 1 && s[0] == '-' && AllDigits(s[1..]) then Some(0 - ParseNatural(s[1..]) as int)
    else if |s| > 0 && AllDigits(s) then Some(ParseNatural(s))
    else None
  }

  lemma {:induction false} NaturalRoundTrip(n: nat)
    ensures ParseNatural(Natural(n)) == n
    decreases n
  {
    if n >= 10 {
      var s := Natural(n);
      NaturalRoundTrip(n / 10);
      assert s[..|s| - 1] == Natural(n / 10);
    }
  }

  lemma ParseNegative(t: string)
    requires |t| > 0 && AllDigits(t)
    ensures Parse("-" + t) == Some(0 - ParseNatural(t) as int)
  {
    assert ("-" + t)[1..] == t;
  }

  lemma ParseDigits(t: string)
    requires |t| > 0 && AllDigits(t)
    ensures Parse(t) == Some(ParseNatural(t) as int)
  {
    assert IsDigit(t[0]);
  }

  /** Rendering an integer and reading it back gives the same integer. */
  lemma ShowRoundTrip(n: int)
    ensures Parse(Show(n)) == Some(n)
  {
    if n < 0 {
      NaturalRoundTrip(-n);
      ParseNegative(Natural(-n));
    } else {
      NaturalRoundTrip(n);
      ParseDigits(Natural(n));
    }
  }

  /** Distinct integers render as distinct texts, so generated URIs keep them apart. */
  lemma ShowInjective(a: int, b: int)
    requires Show(a) == Show(b)
    ensures a == b
  {
    ShowRoundTrip(a);
    ShowRoundTrip(b);
  }
}
