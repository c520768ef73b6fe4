/**
 * JavaScript number parsing and printing as the application uses them:
 * `parseFloat` (section 19.2.4 of ECMA-262), `parseInt` on a run of decimal digits,
 * and `Number.prototype.toString` on non-negative integers. Numbers are exact reals.
 */
module JsNumber {
  import opened Wrappers
  import opened JsString

  predicate AllDigits(s: string) {
    forall i :: 0 <= i < |s| ==> IsAsciiDigit(s[i])
  }

  function DigitValue(c: char): (d: nat)
    requires IsAsciiDigit(c)
    ensures d < 10
  {
    c as int - '0' as int
  }

  function DigitChar(d: nat): (c: char)
    requires d < 10
    ensures IsAsciiDigit(c) && DigitValue(c) == d
  {
    ('0' as int + d) as char
  }

  /** The value of a run of decimal digits (`parseInt(d, 10)` for such a run). */
  function DigitsValue(d: string): nat
    requires AllDigits(d)
  {
    if d == [] then 0 else DigitsValue(d[..|d| - 1]) * 10 + DigitValue(d[|d| - 1])
  }

  /** Number of decimal digits at the start of `s`. */
  function LeadingDigits(s: string): (k: nat)
    ensures k <= |s| && AllDigits(s[..k])
    ensures k < |s| ==> !IsAsciiDigit(s[k])
  {
    if s != [] && IsAsciiDigit(s[0]) then 1 + LeadingDigits(s[1..]) else 0
  }

  lemma LeadingDigitsOfDigits(d: string, t: string)
    requires AllDigits(d)
    requires t == [] || !IsAsciiDigit(t[0])
    ensures LeadingDigits(d + t) == |d|
  {
    if d != [] {
      assert (d + t)[1..] == d[1..] + t;
      LeadingDigitsOfDigits(d[1..], t);
    } else {
      assert d + t == t;
    }
  }

  /** `m` times 10 to the power `e`, one decimal shift at a time. */
  function Shift(m: real, e: int): (r: real)
    ensures m >= 0.0 ==> r >= 0.0
    ensures m > 0.0 ==> r > 0.0
    decreases if e < 0 then -e else e
  {
    if e == 0 then m
    else if e > 0 then Shift(m * 10.0, e - 1)
    else Shift(m / 10.0, e + 1)
  }

  /** `n.toString()` for a non-negative integer: its decimal digits, without leading zeros. */
  function NatToString(n: nat): (s: string)
    ensures s != [] && AllDigits(s)
    ensures |s| > 1 ==> s[0] != '0'
    ensures DigitsValue(s) == n
  {
    if n < 10 then [DigitChar(n)]
    else
      var s := NatToString(n / 10) + [DigitChar(n % 10)];
      assert s[..|s| - 1] == NatToString(n / 10);
      s
  }

  /** The value of a leading ExponentPart (`e`/`E`, optional sign, digits), or 0 when there is none. */
  function Exponent(a: string): int {
    if a != [] && (a[0] == 'e' || a[0] == 'E') then
      var b := a[1..];
      var negative := b != [] && b[0] == '-';
      var c := if b != [] && (b[0] == '-' || b[0] == '+') then b[1..] else b;
      var n := LeadingDigits(c);
      if n == 0 then 0
      else if negative then -(DigitsValue(c[..n]) as int)
      else DigitsValue(c[..n])
    else 0
  }

  /** The unsigned text starts a StrUnsignedDecimalLiteral (the `Infinity` spelling aside). */
  predicate StartsNumeral(u: string) {
    (u != [] && IsAsciiDigit(u[0])) || (|u| >= 2 && u[0] == '.' && IsAsciiDigit(u[1]))
  }

  /** The parts of an unsigned decimal literal: the integer part, the fraction digits and the exponent. */
  datatype Numeral = Numeral(whole: nat, frac: string, exp: int)

  /** The longest unsigned decimal literal at the start of `u`, taken apart. */
  function ScanUnsigned(u: string): (r: Option<Numeral>)
    ensures r.Some? <==> StartsNumeral(u)
    ensures r.Some? ==> AllDigits(r.value.frac)
  {
    var k := LeadingDigits(u);
    var rest := u[k..];
    var hasPoint := rest != [] && rest[0] == '.';
    var f := if hasPoint then LeadingDigits(rest[1..]) else 0;
    var frac := if hasPoint then rest[1..][..f] else "";
    var after := if hasPoint then rest[1 + f..] else rest;
    if k == 0 && f == 0 then None
    else Some(Numeral(DigitsValue(u[..k]), frac, Exponent(after)))
  }

  /** The value of `whole.frac` times 10 to the power `exp`. */
  function NumeralValue(x: Numeral): (r: real)
    requires AllDigits(x.frac)
    ensures r >= 0.0
  {
    Shift(x.whole as real + Shift(DigitsValue(x.frac) as real, -|x.frac|), x.exp)
  }

  /** A numeral without fraction or exponent is its integer part. */
  lemma NumeralValueOfWhole(n: nat)
    ensures NumeralValue(Numeral(n, "", 0)) == n as real
  {
  }

  /** A numeral that is only a fraction is its digits shifted right by their number. */
  lemma NumeralValueOfFraction(d: string)
    requires AllDigits(d)
    ensures NumeralValue(Numeral(0, d, 0)) == Shift(DigitsValue(d) as real, -|d|)
  {
  }

  /** The value of the longest unsigned decimal literal at the start of `u`. */
  function ParseUnsigned(u: string): (r: Option<real>)
    ensures r.Some? <==> StartsNumeral(u)
    ensures r.Some? ==> r.value >= 0.0
  {
    match ScanUnsigned(u)
    case None => None
    case Some(x) => Some(NumeralValue(x))
  }

  /** The text with white space and one sign character removed from its start. */
  function UnsignedPart(s: string): string {
    var t := TrimStart(s);
    if t != [] && (t[0] == '-' || t[0] == '+') then t[1..] else t
  }

  /**
   * `parseFloat(s)`: leading white space is skipped, an optional sign is read, and the
   * longest prefix that is a decimal literal is converted; `None` stands for NaN.
   */
  function ParseFloat(s: string): (r: Option<real>)
    ensures r.Some? <==> StartsNumeral(UnsignedPart(s))
    ensures r.Some? && r.value < 0.0 ==> TrimStart(s)[0] == '-'
  {
    var t := TrimStart(s);
    var v := ParseUnsigned(UnsignedPart(s));
    if t != [] && t[0] == '-' then
      match v
      case Some(x) => Some(-x)
      case None => None
    else v
  }

  /** A decimal integer followed by anything that cannot continue a number parses to that integer. */
  lemma ParseFloatOfNumeral(n: nat, t: string)
    requires t == [] || !(IsAsciiDigit(t[0]) || t[0] == '.' || t[0] == 'e' || t[0] == 'E')
    ensures ParseFloat(NatToString(n) + t) == Some(n as real)
  {
    var d := NatToString(n);
    var s := d + t;
    assert s[0] == d[0];
    ParseFloatOfUnsigned(s);
    assert ScanUnsigned(s) == Some(Numeral(n, "", 0)) by {
      ScanInteger(d, t);
    }
    NumeralValueOfWhole(n);
  }

  /** A decimal integer on its own parses to that integer. */
  lemma ParseFloatOfInteger(n: nat)
    ensures ParseFloat(NatToString(n)) == Some(n as real)
  {
    ParseFloatOfNumeral(n, "");
    assert NatToString(n) + "" == NatToString(n);
  }

  /** Text that starts with a digit or a point is parsed without sign or white space. */
  lemma ParseFloatOfUnsigned(s: string)
    requires s != [] && (IsAsciiDigit(s[0]) || s[0] == '.')
    ensures ParseFloat(s) == ParseUnsigned(s)
  {
    assert TrimStart(s) == s;
  }

  lemma ScanInteger(d: string, t: string)
    requires d != [] && AllDigits(d)
    requires t == [] || !(IsAsciiDigit(t[0]) || t[0] == '.' || t[0] == 'e' || t[0] == 'E')
    ensures ScanUnsigned(d + t) == Some(Numeral(DigitsValue(d), "", 0))
  {
    var s := d + t;
    LeadingDigitsOfDigits(d, t);
    assert s[..|d|] == d;
    assert s[|d|..] == t;
  }

  /** A point followed by digits parses to the fraction they spell. */
  lemma ParseFloatFraction(d: string)
    requires d != [] && AllDigits(d)
    ensures ParseFloat("." + d) == Some(Shift(DigitsValue(d) as real, -|d|))
  {
    var u := "." + d;
    assert u[0] == '.';
    ParseFloatOfUnsigned(u);
    assert ScanUnsigned(u) == Some(Numeral(0, d, 0)) by {
      ScanFraction(d);
    }
    NumeralValueOfFraction(d);
  }

  lemma ScanFraction(d: string)
    requires d != [] && AllDigits(d)
    ensures ScanUnsigned("." + d) == Some(Numeral(0, d, 0))
  {
    var u := "." + d;
    assert LeadingDigits(u) == 0 && u[0..] == u && u[..0] == "";
    assert u[1..] == d;
    assert LeadingDigits(d) == |d| by {
      LeadingDigitsOfDigits(d, "");
      assert d + "" == d;
    }
    assert d[..|d|] == d;
    assert u[1 + |d|..] == "";
  }

  /** Text that starts with a letter is not a number. */
  lemma ParseFloatOfLetter(s: string)
    requires s != [] && IsAsciiLetter(s[0])
    ensures ParseFloat(s) == None
  {
    assert TrimStart(s) == s;
    assert UnsignedPart(s) == s;
    assert !StartsNumeral(s);
  }
}
