/** The part of JavaScript's `parseFloat` and `parseInt(_, 10)` that the price
    strings and request parameters of the system go through: optional leading
    white space, an optional sign, decimal digits and (for `parseFloat`) one
    decimal point. `NaN` is `None`. */
module JsNumbers {
  import opened Wrappers

  predicate IsDigit(c: char) {
    '0' <= c <= '9'
  }

  /** ECMAScript's WhiteSpace and LineTerminator characters, which `parseFloat`
      and `parseInt` skip: the ASCII ones, no-break space, the byte order mark,
      the space separators (category Zs) and the line and paragraph separators. */
  predicate IsSpace(c: char) {
    c == ' ' || c == '\t' || c == '\n' || c == '\r' || c == '\U{B}' || c == '\U{C}'
    || c == '\U{A0}' || c == '\U{FEFF}' || c == '\U{1680}' || '\U{2000}' <= c <= '\U{200A}'
    || c == '\U{2028}' || c == '\U{2029}' || c == '\U{202F}' || c == '\U{205F}' || c == '\U{3000}'
  }

  predicate AllDigits(s: string) {
    forall i :: 0 <= i < |s| ==> IsDigit(s[i])
  }

  function DigitValue(c: char): (d: nat)
    requires IsDigit(c)
    ensures d <= 9
  {
    (c as int) - ('0' as int)
  }

  /** Length of the longest prefix of `s` made of digits. */
  function DigitRun(s: string): (n: nat)
    ensures n <= |s|
    ensures AllDigits(s[..n])
    ensures n < |s| ==> !IsDigit(s[n])
  {
    if |s| > 0 && IsDigit(s[0]) then 1 + DigitRun(s[1..]) else 0
  }

  /** The natural number a string of decimal digits denotes. */
  function DigitsValue(s: string): nat
    requires AllDigits(s)
  {
    if s == [] then 0 else 10 * DigitsValue(s[..|s| - 1]) + DigitValue(s[|s| - 1])
  }

  function Pow10(k: nat): (p: nat)
    ensures p >= 1
  {
    if k == 0 then 1 else 10 * Pow10(k - 1)
  }

  /** The value of the digits after a decimal point. */
  function Fraction(s: string): real
    requires AllDigits(s)
  {
    (DigitsValue(s) as real) / (Pow10(|s|) as real)
  }

  function SkipSpace(s: string): (t: string)
    ensures |t| <= |s| && t == s[|s| - |t|..]
    ensures t == [] || !IsSpace(t[0])
  {
    if |s| > 0 && IsSpace(s[0]) then SkipSpace(s[1..]) else s
  }

  /** Splits an optional leading sign off `t`. */
  function Sign(t: string): (r: (real, string))
    ensures r.0 == 1.0 || r.0 == -1.0
    ensures |r.1| <= |t|
  {
    if |t| > 0 && t[0] == '-' then (-1.0, t[1..])
    else if |t| > 0 && t[0] == '+' then (1.0, t[1..])
    else (1.0, t)
  }

  /** The digits before the point of the decimal at the head of `body`. */
  function IntegerDigits(body: string): (d: string)
    ensures AllDigits(d)
  {
    body[..DigitRun(body)]
  }

  /** The digits after the point of the decimal at the head of `body`. */
  function FractionDigits(body: string): (d: string)
    ensures AllDigits(d)
  {
    var n := DigitRun(body);
    if n < |body| && body[n] == '.' then body[n + 1..][..DigitRun(body[n + 1..])] else []
  }

  /** The unsigned decimal `digits [ '.' digits ]` at the head of `body`; at
      least one digit is needed on one side of the point. */
  function UnsignedPrefix(body: string): Option<real> {
    DecimalOf(IntegerDigits(body), FractionDigits(body))
  }

  function DecimalOf(intPart: string, fracPart: string): (v: Option<real>)
    requires AllDigits(intPart) && AllDigits(fracPart)
    ensures v.Some? ==> v.value >= 0.0
  {
    if |intPart| + |fracPart| == 0 then None
    else Some(DigitsValue(intPart) as real + Fraction(fracPart))
  }

  /** What is left of `s` once leading white space and one sign are read. */
  function Unsigned(s: string): string {
    Sign(SkipSpace(s)).1
  }

  /** `parseFloat(s)`: the longest decimal prefix after white space, `None` for NaN. */
  function ParseFloat(s: string): Option<real> {
    var (sign, body) := Sign(SkipSpace(s));
    match UnsignedPrefix(body)
    case None => None
    case Some(v) => Some(if sign < 0.0 then -v else v)
  }

  /** `parseInt(s, 10)`: the leading digits after white space and sign, `None` for NaN. */
  function ParseInt(s: string): Option<int> {
    var (sign, body) := Sign(SkipSpace(s));
    var n := DigitRun(body);
    if n == 0 then None
    else Some(if sign < 0.0 then -(DigitsValue(body[..n]) as int) else DigitsValue(body[..n]))
  }

  /** `parseFloat` is NaN exactly when, after white space and a sign, the
      text starts neither with a digit nor with a point and a digit. */
  lemma ParseFloatNaN(s: string)
    ensures ParseFloat(s).Some? <==>
      var b := Unsigned(s);
      (|b| > 0 && IsDigit(b[0])) || (|b| > 1 && b[0] == '.' && IsDigit(b[1]))
  {
    var (sign, body) := Sign(SkipSpace(s));
    UnsignedPrefixDefined(body);
  }

  lemma UnsignedPrefixDefined(b: string)
    ensures UnsignedPrefix(b).Some? <==>
      (|b| > 0 && IsDigit(b[0])) || (|b| > 1 && b[0] == '.' && IsDigit(b[1]))
  {
    var n := DigitRun(b);
    assert n > 0 <==> |b| > 0 && IsDigit(b[0]);
    if n == 0 && |b| > 0 && b[0] == '.' {
      assert DigitRun(b[1..]) > 0 <==> |b| > 1 && IsDigit(b[1]);
    }
  }

  /** `parseInt` is NaN exactly when, after white space and a sign, the text
      does not start with a digit. */
  lemma ParseIntNaN(s: string)
    ensures ParseInt(s).Some? <==> var b := Unsigned(s); |b| > 0 && IsDigit(b[0])
  {
  }

  lemma {:induction false} DigitsBelowPow10(d: string)
    requires AllDigits(d)
    ensures DigitsValue(d) < Pow10(|d|)
  {
    if d != [] {
      DigitsBelowPow10(d[..|d| - 1]);
    }
  }

  /** The digits after a point are worth less than one. */
  lemma FractionBelowOne(d: string)
    requires AllDigits(d)
    ensures 0.0 <= Fraction(d) < 1.0
  {
    DigitsBelowPow10(d);
    QuotientBelowOne(DigitsValue(d) as real, Pow10(|d|) as real);
  }

  lemma QuotientBelowOne(n: real, p: real)
    requires 0.0 <= n < p
    ensures 0.0 <= n / p < 1.0
  {
  }

  /** Where `parseInt` reads a number, `parseFloat` reads one too, and the
      integer is the decimal truncated toward zero. */
  lemma ParseIntTruncatesParseFloat(s: string)
    requires ParseInt(s).Some?
    ensures ParseFloat(s).Some?
    ensures var i := ParseInt(s).value as real; var f := ParseFloat(s).value;
      (f >= 0.0 ==> i <= f < i + 1.0) && (f < 0.0 ==> i - 1.0 < f <= i)
  {
    var body := Unsigned(s);
    ParseIntOfDigits(s);
    ParseFloatOfDigits(s);
    FractionBelowOne(FractionDigits(body));
  }

  lemma ParseIntOfDigits(s: string)
    requires ParseInt(s).Some?
    ensures DigitRun(Unsigned(s)) > 0
    ensures var sign := Sign(SkipSpace(s)).0; var d := DigitsValue(IntegerDigits(Unsigned(s)));
      ParseInt(s) == Some(if sign < 0.0 then -(d as int) else d)
  {
  }

  lemma ParseFloatOfDigits(s: string)
    requires DigitRun(Unsigned(s)) > 0
    ensures var sign := Sign(SkipSpace(s)).0; var body := Unsigned(s);
      var v := DigitsValue(IntegerDigits(body)) as real + Fraction(FractionDigits(body));
      ParseFloat(s) == Some(if sign < 0.0 then -v else v)
  {
    var body := Unsigned(s);
    var v := DigitsValue(IntegerDigits(body)) as real + Fraction(FractionDigits(body));
    assert UnsignedPrefix(body) == Some(v);
  }

  lemma {:induction false} DigitRunOfDigitsThen(d: string, t: string)
    requires AllDigits(d)
    ensures DigitRun(d + t) == |d| + DigitRun(t)
  {
    if d != [] {
      assert (d + t)[0] == d[0] && IsDigit(d[0]);
      assert (d + t)[1..] == d[1..] + t;
      DigitRunOfDigitsThen(d[1..], t);
    } else {
      assert d + t == t;
    }
  }

}
