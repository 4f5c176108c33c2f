/** Decimal numerals and their values: the part of Python's `float(str)` the
    model uses. Amounts are exact `real`s; binary rounding is not modelled. */
module Decimal {
  import opened Chars
  import opened Wrappers

  predicate AllDigits(s: string) {
    forall k :: 0 <= k < |s| ==> IsDigit(s[k])
  }

  function DigitValue(c: char): (v: nat)
    requires IsDigit(c)
    ensures v < 10
  {
    c as int - '0' as int
  }

  /** The value of a string of decimal digits, most significant first. */
  function DigitsValue(ds: string): nat
    requires AllDigits(ds)
  {
    if |ds| == 0 then 0 else DigitsValue(ds[..|ds| - 1]) * 10 + DigitValue(ds[|ds| - 1])
  }

  function Pow10(n: nat): (p: nat)
    ensures p >= 1
  {
    if n == 0 then 1 else 10 * Pow10(n - 1)
  }

  /** A string of `n` digits denotes a number below 10^n. */
  lemma {:induction false} DigitsValueBound(ds: string)
    requires AllDigits(ds)
    ensures DigitsValue(ds) < Pow10(|ds|)
    decreases |ds|
  {
    if |ds| > 0 {
      DigitsValueBound(ds[..|ds| - 1]);
    }
  }

  /** The value of the digits after a decimal point: always in [0, 1). */
  function FracValue(f: string): (v: real)
    requires AllDigits(f)
    ensures 0.0 <= v < 1.0
  {
    DigitsValueBound(f);
    var d := DigitsValue(f) as real;
    var p := Pow10(|f|) as real;
    QuotientBelowOne(d, p);
    d / p
  }

  lemma QuotientBelowOne(d: real, p: real)
    requires 0.0 <= d < p
    ensures 0.0 <= d / p < 1.0
  {
  }

  datatype Sign = NoSign | Plus | Minus

  function SignText(sign: Sign): string {
    match sign
    case NoSign => ""
    case Plus => "+"
    case Minus => "-"
  }

  /** The digits after the point, none when there is no point. */
  function FracOf(frac: Option<string>): string {
    match frac
    case Some(f) => f
    case None => []
  }

  function FracText(frac: Option<string>): string {
    match frac
    case Some(f) => "." + f
    case None => ""
  }

  /** The shape of a numeral Python's `float` accepts in this model: an
      optional sign, integer digits, and an optional point followed by
      fraction digits (`frac == Some("")` is a trailing point, as in `"1."`). */
  datatype Numeral = Numeral(sign: Sign, whole: string, frac: Option<string>) {

    function FracDigits(): string {
      FracOf(frac)
    }

    /** At least one digit overall and digits only on both sides of the point. */
    predicate Valid() {
      AllDigits(whole) && AllDigits(FracDigits()) && |whole| + |FracDigits()| > 0
    }

    function Render(): string {
      SignText(sign) + (whole + FracText(frac))
    }

    function Value(): real
      requires Valid()
    {
      var v := DigitsValue(whole) as real + FracValue(FracDigits());
      if sign == Minus then -v else v
    }
  }

  /** Index of the first `c` in `s`, or `|s|` when there is none. */
  function Find(s: string, c: char): (k: nat)
    ensures k <= |s|
    ensures forall j :: 0 <= j < k ==> s[j] != c
    ensures k < |s| ==> s[k] == c
  {
    if |s| == 0 then 0 else if s[0] == c then 0 else 1 + Find(s[1..], c)
  }

  /** A leading `-` or `+`, and the rest. */
  function SplitSign(t: string): (r: (Sign, string))
    ensures SignText(r.0) + r.1 == t
  {
    if |t| > 0 && t[0] == '-' then (Minus, t[1..])
    else if |t| > 0 && t[0] == '+' then (Plus, t[1..])
    else (NoSign, t)
  }

  /** The text before the first point, and the text after it if there is one. */
  function SplitPoint(body: string): (r: (string, Option<string>))
    ensures r.0 + FracText(r.1) == body
    ensures forall j :: 0 <= j < |r.0| ==> r.0[j] != '.'
  {
    var k := Find(body, '.');
    if k < |body| then
      assert body == body[..k] + "." + body[k + 1..];
      (body[..k], Some(body[k + 1..]))
    else (body, None)
  }

  /** Splits an already stripped string into a numeral; fails on anything
      that is not one. */
  function Scan(t: string): (r: Option<Numeral>)
    ensures r.Some? ==> r.value.Valid() && r.value.Render() == t
  {
    var split := SplitSign(t);
    var parts := SplitPoint(split.1);
    var n := Numeral(split.0, parts.0, parts.1);
    if n.Valid() then Some(n) else None
  }

  lemma SplitSignRender(sign: Sign, body: string)
    requires |body| > 0 ==> body[0] != '-' && body[0] != '+'
    ensures SplitSign(SignText(sign) + body) == (sign, body)
  {
    if sign == NoSign {
      assert SignText(sign) + body == body;
    }
  }

  /** `Find` stops at the first occurrence. */
  lemma FindFirst(s: string, c: char, m: nat)
    requires m <= |s| && (m < |s| ==> s[m] == c)
    requires forall j :: 0 <= j < m ==> s[j] != c
    ensures Find(s, c) == m
  {
    var k := Find(s, c);
    if k < m {
      assert false;
    } else if m < k {
      assert false;
    }
  }

  lemma SplitPointRender(whole: string, frac: Option<string>)
    requires AllDigits(whole)
    ensures SplitPoint(whole + FracText(frac)) == (whole, frac)
  {
    var body := whole + FracText(frac);
    assert forall j :: 0 <= j < |whole| ==> body[j] == whole[j];
    match frac
    case Some(f) =>
      assert body == whole + "." + f;
      assert body[|whole|] == '.';
      FindFirst(body, '.', |whole|);
      assert body[..|whole|] == whole;
      assert body[|whole| + 1..] == f;
    case None =>
      assert body == whole;
      FindFirst(body, '.', |whole|);
  }

  /** Every valid numeral is recognised by `Scan` as itself: together with
      `Scan`'s contract, the accepted strings are exactly the renderings of
      valid numerals. */
  lemma ScanRender(n: Numeral)
    requires n.Valid()
    ensures Scan(n.Render()) == Some(n)
  {
    var body := n.whole + FracText(n.frac);
    assert n.Render() == SignText(n.sign) + body;
    assert |body| > 0 ==> body[0] != '-' && body[0] != '+' by {
      if |body| > 0 && |n.whole| == 0 {
        assert n.frac.Some?;
        assert body[0] == '.';
      } else if |body| > 0 {
        assert body[0] == n.whole[0];
      }
    }
    SplitSignRender(n.sign, body);
    SplitPointRender(n.whole, n.frac);
  }

  /** Python's `float(s)` restricted to plain decimals: surrounding
      whitespace is ignored, `None` stands for the `ValueError`. */
  function FloatOfString(s: string): (r: Option<real>)
    ensures r.Some? <==> Scan(Strip(s)).Some?
  {
    match Scan(Strip(s))
    case Some(n) => Some(n.Value())
    case None => None
  }

  /** The empty string (and a string of whitespace) is not a number. */
  lemma EmptyIsNotANumber(s: string)
    requires forall k :: 0 <= k < |s| ==> IsSpace(s[k])
    ensures FloatOfString(s) == None
  {
  }

  /** A rendered numeral reads back as its own value. */
  lemma FloatOfRender(n: Numeral)
    requires n.Valid()
    ensures FloatOfString(n.Render()) == Some(n.Value())
  {
    var t := n.Render();
    assert |t| > 0 ==> !IsSpace(t[0]) && !IsSpace(t[|t| - 1]) by {
      if n.sign == NoSign && |n.whole| > 0 {
        assert t[0] == n.whole[0];
      }
      match n.frac
      case Some(f) =>
        if |f| > 0 {
          assert t[|t| - 1] == f[|f| - 1];
        }
      case None =>
        assert t[|t| - 1] == n.whole[|n.whole| - 1];
    }
    StripUntouched(t);
    ScanRender(n);
  }

  /** An unsigned plain decimal reads as its digits' value plus its
      fraction, and only the empty string fails. */
  lemma FloatOfPlain(whole: string, frac: Option<string>)
    requires AllDigits(whole) && AllDigits(FracOf(frac))
    requires frac.Some? ==> |frac.value| > 0
    ensures FloatOfString(whole + FracText(frac)).None? <==> |whole| == 0 && frac.None?
    ensures FloatOfString(whole + FracText(frac)).Some? ==>
              FloatOfString(whole + FracText(frac)).value == DigitsValue(whole) as real + FracValue(FracOf(frac))
  {
    if |whole| == 0 && frac.None? {
      assert whole + FracText(frac) == [];
      EmptyIsNotANumber(whole + FracText(frac));
    } else {
      PlainValue(whole, frac);
    }
  }

  /** A non-empty unsigned plain decimal reads as its digits' value plus
      its fraction. */
  lemma PlainValue(whole: string, frac: Option<string>)
    requires AllDigits(whole) && AllDigits(FracOf(frac)) && (frac.Some? ==> |frac.value| > 0)
    requires |whole| > 0 || frac.Some?
    ensures FloatOfString(whole + FracText(frac)).Some?
    ensures FloatOfString(whole + FracText(frac)).value == DigitsValue(whole) as real + FracValue(FracOf(frac))
  {
    var n := Numeral(NoSign, whole, frac);
    assert n.Render() == whole + FracText(frac);
    FloatOfRender(n);
    UnsignedValue(n);
  }

  /** An unsigned numeral's value is its digits' value plus its fraction. */
  lemma UnsignedValue(n: Numeral)
    requires n.Valid() && n.sign == NoSign
    ensures n.Value() == DigitsValue(n.whole) as real + FracValue(FracOf(n.frac))
  {
  }

  /** The value of the numeral `1250.50`, evaluated digit by digit. */
  lemma ValueOf1250Point50()
    ensures DigitsValue("1250") as real + FracValue("50") == 1250.50
  {
    assert "1250"[..3] == "125" && "125"[..2] == "12" && "12"[..1] == "1" && "1"[..0] == "";
    assert DigitsValue("1") == 1;
    assert DigitsValue("12") == 12;
    assert DigitsValue("125") == 125;
    assert DigitsValue("1250") == 1250;
    assert "50"[..1] == "5" && "5"[..0] == "";
    assert DigitsValue("5") == 5;
    assert DigitsValue("50") == 50;
    assert Pow10(2) == 100;
    assert FracValue("50") == 0.5;
  }
}
