/**
  * Canonical decimal text of integers, as PHP's `(string)` cast of an `int`
  * writes it, and the inverse test PHP applies to decide whether a string
  * array key is really an integer key: "0", or an optional '-' followed by
  * digits without a leading zero ("-0" is not an integer).
  */
module Decimal {
  import opened Wrappers

  predicate IsDigit(c: char) {
    '0' <= c <= '9'
  }

  predicate AllDigits(s: string) {
    forall k :: 0 <= k < |s| ==> IsDigit(s[k])
  }

  function DigitValue(c: char): (d: nat)
    requires IsDigit(c)
    ensures d < 10
  {
    (c as int) - ('0' as int)
  }

  function DigitChar(d: nat): (c: char)
    requires d < 10
    ensures IsDigit(c) && DigitValue(c) == d
  {
    (('0' as int) + d) as char
  }

  /** Digits only, at least one, and no leading zero unless the whole text is "0". */
  predicate IsCanonicalNat(s: string) {
    |s| > 0 && AllDigits(s) && (s[0] == '0' ==> |s| == 1)
  }

  /** The text of a non-negative int, or '-' and the text of a positive int. */
  predicate IsCanonicalInt(s: string) {
    IsCanonicalNat(s) || (|s| >= 2 && s[0] == '-' && IsCanonicalNat(s[1..]) && s[1] != '0')
  }

  /** The number a digit string denotes, most significant digit first. */
  function DigitsValue(s: string): nat
    requires AllDigits(s)
  {
    if s == [] then 0 else DigitsValue(s[..|s| - 1]) * 10 + DigitValue(s[|s| - 1])
  }

  /** Decimal text of a natural number. */
  function NatToString(n: nat): (s: string)
    ensures IsCanonicalNat(s)
    ensures DigitsValue(s) == n
    ensures s[0] == '0' <==> n == 0
  {
    if n < 10 then [DigitChar(n)]
    else
      var p := NatToString(n / 10);
      var s := p + [DigitChar(n % 10)];
      assert s[..|s| - 1] == p;
      s
  }

  /** PHP's `(string)` cast of an int. */
  function IntToString(i: int): (s: string)
    ensures IsCanonicalInt(s)
    ensures s[0] == '-' <==> i < 0
  {
    if i < 0 then "-" + NatToString(-i) else NatToString(i)
  }

  /** The integer a canonical decimal text denotes, and None for every other text. */
  function ParseInt(s: string): (r: Option<int>)
    ensures r.Some? <==> IsCanonicalInt(s)
  {
    if IsCanonicalNat(s) then Some(DigitsValue(s))
    else if IsCanonicalInt(s) then Some(-(DigitsValue(s[1..]) as int))
    else None
  }

  lemma {:induction false} LeadingDigitBound(s: string)
    requires AllDigits(s) && |s| > 0
    ensures DigitsValue(s) >= DigitValue(s[0])
  {
    if |s| > 1 {
      LeadingDigitBound(s[..|s| - 1]);
    }
  }

  /** A canonical digit string is the text of the number it denotes. */
  lemma {:induction false} NatToStringOfValue(s: string)
    requires IsCanonicalNat(s)
    ensures NatToString(DigitsValue(s)) == s
  {
    if |s| > 1 {
      var p := s[..|s| - 1];
      assert IsCanonicalNat(p);
      LeadingDigitBound(p);
      var n := DigitsValue(s);
      assert n / 10 == DigitsValue(p) && n % 10 == DigitValue(s[|s| - 1]);
      NatToStringOfValue(p);
      assert s == p + [s[|s| - 1]];
    }
  }

  /** Parsing the cast of an int gives the int back. */
  lemma ParseIntToString(i: int)
    ensures ParseInt(IntToString(i)) == Some(i)
  {
    var s := IntToString(i);
    if i < 0 {
      assert s[1..] == NatToString(-i);
    }
  }

  /** Every text that parses is the cast of the int it parses to. */
  lemma ToStringOfParseInt(s: string)
    requires ParseInt(s).Some?
    ensures IntToString(ParseInt(s).value) == s
  {
    if IsCanonicalNat(s) {
      NatToStringOfValue(s);
    } else {
      NatToStringOfValue(s[1..]);
      LeadingDigitBound(s[1..]);
      assert s == "-" + s[1..];
    }
  }

  /** Distinct ints have distinct texts. */
  lemma IntToStringInjective(a: int, b: int)
    requires IntToString(a) == IntToString(b)
    ensures a == b
  {
    ParseIntToString(a);
    ParseIntToString(b);
  }
}
