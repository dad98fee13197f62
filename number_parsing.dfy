/**
 * `parseFloat` on the amount text of a draft: leading white space is skipped,
 * then the longest prefix of the form  [+-] digits [. digits] [(e|E) [+-] digits]
 * (with at least one digit before or after the point) is read; anything else
 * is NaN, here None. Values are exact reals.
 */
module NumberParsing {
  import opened Wrappers
  import opened StringOps

  /** The white space `parseFloat` skips: ECMAScript's WhiteSpace and LineTerminator characters. */
  predicate IsJsWhitespace(c: char) {
    if c <= ' ' then c == ' ' || '\t' <= c <= '\r'
    else if c < '\U{00A0}' then false
    else if c < '\U{2000}' then c == '\U{00A0}' || c == '\U{1680}'
    else if c <= '\U{200A}' then true
    else c == '\U{2028}' || c == '\U{2029}' || c == '\U{202F}' || c == '\U{205F}'
         || c == '\U{3000}' || c == '\U{FEFF}'
  }

  /** `s` without its leading white space. */
  function TrimStart(s: string): (r: string)
    ensures |r| <= |s| && r == s[|s| - |r|..]
    ensures |r| > 0 ==> !IsJsWhitespace(r[0])
    ensures forall i :: 0 <= i < |s| - |r| ==> IsJsWhitespace(s[i])
  {
    if |s| > 0 && IsJsWhitespace(s[0]) then TrimStart(s[1..]) else s
  }

  /** The length of the run of digits `s` starts with. */
  function DigitRun(s: string): (n: nat)
    ensures n <= |s| && AllDigits(s[..n])
    ensures n < |s| ==> !IsDigit(s[n])
  {
    if |s| > 0 && IsDigit(s[0]) then 1 + DigitRun(s[1..]) else 0
  }

  /** An optional leading sign: whether it was '-', and what follows it. */
  function SplitSign(s: string): (bool, string) {
    if |s| > 0 && s[0] == '-' then (true, s[1..])
    else if |s| > 0 && s[0] == '+' then (false, s[1..])
    else (false, s)
  }

  /** The parts of the numeric prefix that was read. */
  datatype Numeral = Numeral(negative: bool, intDigits: string, fracDigits: string,
                             expNegative: bool, expDigits: string)
  {
    predicate Valid() {
      AllDigits(intDigits) && AllDigits(fracDigits) && AllDigits(expDigits)
      && |intDigits| + |fracDigits| > 0
    }
  }

  /** The exponent part at the head of `s`, or no exponent when it is not complete. */
  function ScanExponent(s: string): (r: (bool, string))
    ensures AllDigits(r.1)
  {
    if |s| > 0 && (s[0] == 'e' || s[0] == 'E') then
      var (neg, v) := SplitSign(s[1..]);
      var digits := v[..DigitRun(v)];
      if |digits| > 0 then (neg, digits) else (false, "")
    else (false, "")
  }

  /**
   * The digits before the point, the digits after it (when there is a point)
   * and what remains, at the head of `u`.
   */
  function ScanMantissa(u: string): (r: (string, string, string))
    ensures AllDigits(r.0) && AllDigits(r.1)
  {
    var k := DigitRun(u);
    var afterInt := u[k..];
    if |afterInt| > 0 && afterInt[0] == '.' then
      var f := DigitRun(afterInt[1..]);
      (u[..k], afterInt[1..][..f], afterInt[1..][f..])
    else (u[..k], "", afterInt)
  }

  /** The longest numeric prefix of `s` after its leading white space. */
  function ScanNumeral(s: string): (r: Option<Numeral>)
    ensures r.Some? ==> r.value.Valid()
  {
    var (neg, u) := SplitSign(TrimStart(s));
    var (intDigits, fracDigits, rest) := ScanMantissa(u);
    if |intDigits| + |fracDigits| == 0 then None
    else
      var (expNeg, expDigits) := ScanExponent(rest);
      Some(Numeral(neg, intDigits, fracDigits, expNeg, expDigits))
  }

  function Pow10(n: nat): (r: nat)
    ensures r >= 1
  {
    if n == 0 then 1 else 10 * Pow10(n - 1)
  }

  function NumeralValue(n: Numeral): real
    requires n.Valid()
  {
    var mantissa := DecimalValue(n.intDigits) as real
                    + DecimalValue(n.fracDigits) as real / Pow10(|n.fracDigits|) as real;
    var scale := Pow10(DecimalValue(n.expDigits)) as real;
    var magnitude := if n.expNegative then mantissa / scale else mantissa * scale;
    if n.negative then -magnitude else magnitude
  }

  /** `parseFloat(s)`, None standing for NaN. */
  function ParseFloat(s: string): Option<real> {
    match ScanNumeral(s)
    case None => None
    case Some(n) => Some(NumeralValue(n))
  }

  /**
   * An independent statement of when `parseFloat` is not NaN: after the white
   * space and an optional sign comes a digit, or a point followed by a digit.
   */
  predicate StartsNumeric(s: string) {
    var u := SplitSign(TrimStart(s)).1;
    (|u| > 0 && IsDigit(u[0])) || (|u| > 1 && u[0] == '.' && IsDigit(u[1]))
  }

  lemma ParseFloatDefinedIff(s: string)
    ensures ParseFloat(s).Some? <==> StartsNumeric(s)
  {
    var u := SplitSign(TrimStart(s)).1;
    var k := DigitRun(u);
    if k == 0 {
      assert u[k..] == u;
      if |u| > 0 && u[0] == '.' {
        assert u[1..][..DigitRun(u[1..])] != "" <==> |u| > 1 && IsDigit(u[1]);
      }
    }
  }

  /** A digit string with no point or exponent is its own mantissa. */
  lemma ScanMantissaOfDigits(u: string)
    requires AllDigits(u)
    ensures ScanMantissa(u) == (u, "", "")
  {
    var k := DigitRun(u);
    assert k == |u|;
    assert u[..k] == u;
  }

  /** Text starting with a digit has no leading white space and no sign. */
  lemma StartsWithDigit(s: string)
    requires |s| > 0 && IsDigit(s[0])
    ensures TrimStart(s) == s && SplitSign(s) == (false, s)
  {
  }

  /** A non-empty digit string reads as a numeral with digits only. */
  lemma ScanNumeralOfDigits(s: string)
    requires |s| > 0 && AllDigits(s)
    ensures ScanNumeral(s) == Some(Numeral(false, s, "", false, ""))
  {
    StartsWithDigit(s);
    ScanMantissaOfDigits(s);
  }

  /** A printed natural number (as the carrier service and the mock records give amounts) parses to itself. */
  lemma ParseFloatOfDecimal(n: nat)
    ensures ParseFloat(DecimalString(n)) == Some(n as real)
  {
    var s := DecimalString(n);
    ScanNumeralOfDigits(s);
    DecimalRoundTrip(n);
    assert NumeralValue(Numeral(false, s, "", false, "")) == n as real;
  }

  lemma ScanMantissaOfFixedPoint(a: string, b: string)
    requires AllDigits(a) && AllDigits(b)
    ensures ScanMantissa(a + "." + b) == (a, b, "")
  {
    var s := a + "." + b;
    var k := DigitRun(s);
    assert k == |a| by {
      assert AllDigits(s[..|a|]) by { assert s[..|a|] == a; }
      assert !IsDigit(s[|a|]);
    }
    assert s[..k] == a && s[k..] == "." + b;
    assert ("." + b)[1..] == b;
    assert DigitRun(b) == |b|;
    assert b[..|b|] == b && b[|b|..] == "";
  }

  /** Digits, a point and digits read as that fixed-point numeral. */
  lemma ScanNumeralOfFixedPoint(a: string, b: string)
    requires |a| > 0 && AllDigits(a) && AllDigits(b)
    ensures ScanNumeral(a + "." + b) == Some(Numeral(false, a, b, false, ""))
  {
    var s := a + "." + b;
    assert s[0] == a[0];
    StartsWithDigit(s);
    ScanMantissaOfFixedPoint(a, b);
    assert ScanExponent("") == (false, "");
  }

  /** Without sign or exponent a numeral's value is its whole part plus its fraction. */
  lemma NumeralValueOfFixedPoint(a: string, b: string)
    requires |a| + |b| > 0 && AllDigits(a) && AllDigits(b)
    ensures NumeralValue(Numeral(false, a, b, false, ""))
            == DecimalValue(a) as real + DecimalValue(b) as real / Pow10(|b|) as real
  {
    var mantissa := DecimalValue(a) as real + DecimalValue(b) as real / Pow10(|b|) as real;
    assert Pow10(DecimalValue("")) == 1;
    assert mantissa * (Pow10(DecimalValue("")) as real) == mantissa * 1.0 == mantissa;
  }

  /** A scanned numeral is what `parseFloat` evaluates. */
  lemma ParseFloatOfScan(s: string, n: Numeral)
    requires ScanNumeral(s) == Some(n)
    ensures ParseFloat(s) == Some(NumeralValue(n))
  {
  }

  /** The digit strings "12" and "5" are worth 12 and 5. */
  lemma TwelveAndFive(twelve: string, five: string)
    requires twelve == "12" && five == "5"
    ensures AllDigits(twelve) && AllDigits(five)
    ensures DecimalValue(twelve) == 12 && DecimalValue(five) == 5 && Pow10(|five|) == 10
  {
    assert twelve[..1] == "1";
    assert DecimalValue("1") == 1;
    assert five[..0] == "";
  }

  /** The commit scenario's amount "12.5" reads as 12.5. */
  lemma ParseFloatReadsFraction(s: string)
    requires s == "12.5"
    ensures ParseFloat(s) == Some(12.5)
  {
    var twelve, five := s[..2], s[3..];
    assert s == twelve + "." + five;
    TwelveAndFive(twelve, five);
    ScanNumeralOfFixedPoint(twelve, five);
    ParseFloatOfScan(s, Numeral(false, twelve, five, false, ""));
    NumeralValueOfFixedPoint(twelve, five);
  }

  /** The commit scenario's amount "abc", and the empty amount, are NaN. */
  lemma ParseFloatRejectsText()
    ensures ParseFloat("abc") == None
    ensures ParseFloat("") == None
  {
    var t := "abc";
    assert TrimStart(t) == t;
    assert SplitSign(t) == (false, t);
    assert DigitRun(t) == 0;
    assert ScanMantissa(t) == ("", "", t);
  }
}
