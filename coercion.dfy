/**
 * Numeric coercion of raw cells (`pd.to_numeric(..., errors='coerce')` in the
 * transform task). Every number is kept exactly, in hundredths, so that
 * monetary sums never pick up binary floating-point drift.
 */
module Coercion {
  import opened Wrappers

  /** A decimal number in hundredths: 9.99 is 999, 5 is 500. */
  type Cents = int

  /** A cell as the CSV reader hands it over: missing (an empty cell or a
      not-a-number marker) or the cell's text. */
  datatype RawScalar = Null | Text(text: string)

  predicate IsDigit(c: char) {
    '0' <= c <= '9'
  }

  /** The characters a numeral may be written with. */
  predicate IsNumeralChar(c: char) {
    IsDigit(c) || c == '.' || c == '+' || c == '-'
  }

  predicate AllDigits(s: string) {
    forall i :: 0 <= i < |s| ==> IsDigit(s[i])
  }

  function DigitChar(d: nat): (c: char)
    requires d < 10
    ensures IsDigit(c) && c as int - '0' as int == d
  {
    ('0' as int + d) as char
  }

  /** The value of a string of decimal digits, most significant first. */
  function DigitsValue(s: string): nat
    requires AllDigits(s)
  {
    if s == [] then 0 else 10 * DigitsValue(s[..|s| - 1]) + (s[|s| - 1] as int - '0' as int)
  }

  /** The position of the first '.', or |s| when there is none. */
  function FirstDot(s: string): (k: nat)
    ensures k <= |s|
    ensures forall i :: 0 <= i < k ==> s[i] != '.'
    ensures k < |s| ==> s[k] == '.'
  {
    if s == [] then 0 else if s[0] == '.' then 0 else 1 + FirstDot(s[1..])
  }

  /** An unsigned decimal literal: digits, optionally a '.' and at most two
      fractional digits, with at least one digit in all ("7", "7.", ".5",
      "19.99"). */
  function ParseUnsigned(s: string): (r: Option<nat>)
    ensures r.Some? ==> 0 < |s| && forall i :: 0 <= i < |s| ==> IsNumeralChar(s[i])
  {
    var k := FirstDot(s);
    var whole := s[..k];
    var frac := if k < |s| then s[k + 1..] else [];
    if AllDigits(whole) && AllDigits(frac) && 0 < |whole| + |frac| && |frac| <= 2 then
      assert forall i :: k < i < |s| ==> s[i] == frac[i - k - 1];
      Some(100 * DigitsValue(whole) + (if |frac| == 1 then 10 else 1) * DigitsValue(frac))
    else
      None
  }

  /** A signed decimal literal in hundredths; None for anything else. */
  function ParseDecimal(s: string): (r: Option<Cents>)
    ensures r.Some? ==> 0 < |s| && forall i :: 0 <= i < |s| ==> IsNumeralChar(s[i])
  {
    if 0 < |s| && (s[0] == '-' || s[0] == '+') then
      match ParseUnsigned(s[1..])
      case None => None
      case Some(v) =>
        assert forall i :: 1 <= i < |s| ==> s[i] == s[1..][i - 1];
        var value: int := if s[0] == '-' then 0 - v as int else v;
        Some(value)
    else
      ParseUnsigned(s)
  }

  /** `pd.to_numeric` with `errors='coerce'`: a cell that is not a numeral
      becomes missing instead of raising. */
  function ToNumeric(x: RawScalar): (r: Option<Cents>)
    ensures x.Null? ==> r.None?
  {
    match x
    case Null => None
    case Text(s) => ParseDecimal(s)
  }

  /** Coercion to a whole number: a numeral with a fractional part is as
      unconvertible as a word. */
  function ToInteger(x: RawScalar): (r: Option<int>)
    ensures r.Some? <==> ToNumeric(x).Some? && ToNumeric(x).value % 100 == 0
    ensures r.Some? ==> ToNumeric(x) == Some(100 * r.value)
  {
    match ToNumeric(x)
    case Some(c) => if c % 100 == 0 then Some(c / 100) else None
    case None => None
  }

  /** The decimal digits of n, most significant first, without leading zeros. */
  function NatDigits(n: nat): (s: string)
    ensures 0 < |s| && AllDigits(s)
    ensures DigitsValue(s) == n
  {
    if n < 10 then [DigitChar(n)]
    else
      var s := NatDigits(n / 10) + [DigitChar(n % 10)];
      assert s[..|s| - 1] == NatDigits(n / 10);
      s
  }

  /** The two digits of n, a leading zero included: "05" for 5. */
  function TwoDigits(n: nat): (s: string)
    requires n < 100
    ensures |s| == 2 && AllDigits(s)
    ensures DigitsValue(s) == n
  {
    var hi, lo := DigitChar(n / 10), DigitChar(n % 10);
    assert [hi][..0] == [];
    assert DigitsValue([hi]) == n / 10;
    assert [hi, lo][..1] == [hi];
    [hi, lo]
  }

  /** The text a whole number is written as: "-3", "0", "42". */
  function IntText(n: int): (s: string)
    ensures 0 < |s|
  {
    if n < 0 then "-" + NatDigits(-n) else NatDigits(n)
  }

  /** The text of a non-negative number in hundredths: "19.99", "5.00". */
  function UnsignedText(m: nat): (s: string)
    ensures 0 < |s|
  {
    NatDigits(m / 100) + "." + TwoDigits(m % 100)
  }

  /** The text a number in hundredths is written as: "-3.05", "19.99", "5.00". */
  function FormatCents(c: Cents): (s: string)
    ensures 0 < |s|
  {
    if c < 0 then "-" + UnsignedText(-c) else UnsignedText(c)
  }

  lemma {:induction false} FirstDotAfterDigits(d: string, rest: string)
    requires AllDigits(d)
    requires rest == [] || rest[0] == '.'
    ensures FirstDot(d + rest) == |d|
  {
    if d != [] {
      assert (d + rest)[1..] == d[1..] + rest;
      FirstDotAfterDigits(d[1..], rest);
    } else {
      assert d + rest == rest;
    }
  }

  /** A plain run of digits reads as that whole number. */
  lemma {:induction false} WholeNumeral(d: string)
    requires 0 < |d| && AllDigits(d)
    ensures ParseDecimal(d) == Some(100 * DigitsValue(d))
  {
    FirstDotAfterDigits(d, []);
    assert d + [] == d && d[..|d|] == d;
  }

  /** Digits, a point and two digits read as that number in hundredths. */
  lemma {:induction false} TwoPlaceNumeral(d: string, f: string)
    requires AllDigits(d) && AllDigits(f) && |f| == 2
    ensures ParseUnsigned(d + "." + f) == Some(100 * DigitsValue(d) + DigitsValue(f))
    ensures ParseDecimal(d + "." + f) == Some(100 * DigitsValue(d) + DigitsValue(f))
  {
    var u := d + "." + f;
    assert u == d + ("." + f);
    FirstDotAfterDigits(d, "." + f);
    assert u[..|d|] == d;
    assert u[|d| + 1..] == f;
    assert u[0] != '-' && u[0] != '+';
  }

  lemma {:induction false} UnsignedRoundTrip(m: nat)
    ensures ParseUnsigned(UnsignedText(m)) == Some(m)
    ensures ParseDecimal(UnsignedText(m)) == Some(m)
  {
    TwoPlaceNumeral(NatDigits(m / 100), TwoDigits(m % 100));
    assert 100 * (m / 100) + m % 100 == m;
  }

  /** A minus sign before an unsigned numeral negates it. */
  lemma MinusSign(t: string, v: nat)
    requires 0 < |t| && t[0] == '-' && ParseUnsigned(t[1..]) == Some(v)
    ensures ParseDecimal(t) == Some(0 - v)
  {
  }

  lemma {:induction false} NegativeRoundTrip(c: Cents)
    requires c < 0
    ensures ParseDecimal("-" + UnsignedText(-c)) == Some(c)
  {
    var u := UnsignedText(-c);
    var t := "-" + u;
    UnsignedRoundTrip(-c);
    assert t[1..] == u;
    MinusSign(t, -c);
  }

  /** Every number written by FormatCents is read back unchanged by the
      coercion: values survive a handoff through a CSV artifact. */
  lemma {:induction false} FormatCentsRoundTrip(c: Cents)
    ensures ParseDecimal(FormatCents(c)) == Some(c)
  {
    if c < 0 {
      NegativeRoundTrip(c);
    } else {
      UnsignedRoundTrip(c);
    }
  }

  lemma {:induction false} NegativeWholeNumeral(n: int)
    requires n < 0
    ensures ParseDecimal("-" + NatDigits(-n)) == Some(100 * n)
  {
    var d := NatDigits(-n);
    var t := "-" + d;
    WholeNumeral(d);
    assert t[1..] == d;
    assert ParseUnsigned(d) == Some(100 * -n);
    MinusSign(t, 100 * -n);
  }

  /** Every whole number written by IntText is read back as that whole
      number. */
  lemma {:induction false} IntTextRoundTrip(n: int)
    ensures ParseDecimal(IntText(n)) == Some(100 * n)
    ensures ToInteger(Text(IntText(n))) == Some(n)
  {
    if n < 0 {
      NegativeWholeNumeral(n);
    } else {
      WholeNumeral(NatDigits(n));
    }
    WholeValue(Text(IntText(n)), n);
  }

  /** A cell holding a whole number of hundredths coerces to that integer. */
  lemma WholeValue(x: RawScalar, n: int)
    requires ToNumeric(x) == Some(100 * n)
    ensures ToInteger(x) == Some(n)
  {
    assert (100 * n) % 100 == 0 && (100 * n) / 100 == n;
  }

  /** A cell containing a letter or a space is never a number. */
  lemma WordIsMissing(s: string, i: nat)
    requires i < |s| && !IsNumeralChar(s[i])
    ensures ToNumeric(Text(s)) == None
    ensures ToInteger(Text(s)) == None
  {
  }
}
