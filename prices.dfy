/** Item prices. Prices are stored as strings such as "12.34 USD"; every sum
    of item values reads them with `parseFloat`, counting an unparsable price
    as 0, and the inventory sync extracts the number of a market price with the
    regular expression `\d+(\.\d+)?` before storing it as "<number> USD". */
module Prices {
  import opened Wrappers
  import opened JsNumbers

  /** The value an item's price contributes to a pot:
      `isNaN(parseFloat(price)) ? 0 : parseFloat(price)`. */
  function PriceValue(price: string): (v: real)
    ensures ParseFloat(price).None? ==> v == 0.0
    ensures ParseFloat(price).Some? ==> v == ParseFloat(price).value
  {
    match ParseFloat(price)
    case None => 0.0
    case Some(x) => x
  }

  /** A whole match of `^\d+(\.\d+)?$`. */
  predicate IsDecimal(m: string) {
    var n := DigitRun(m);
    n > 0 && (n == |m| || (m[n] == '.' && n + 1 < |m| && AllDigits(m[n + 1..])))
  }

  /** The greedy match of `\d+(\.\d+)?` that starts at the first character of `s`. */
  function NumberAt(s: string): (m: string)
    requires |s| > 0 && IsDigit(s[0])
    ensures IsDecimal(m)
    ensures |m| <= |s| && m == s[..|m|]
    ensures forall j :: |m| < j <= |s| ==> !IsDecimal(s[..j])
  {
    var n := DigitRun(s);
    if n + 2 <= |s| && s[n] == '.' && IsDigit(s[n + 1]) then
      var k := DigitRun(s[n + 1..]);
      FractionMatchIsLongest(s, n, k);
      s[..n + 1 + k]
    else
      WholeMatchIsLongest(s, n);
      s[..n]
  }

  /** Every prefix of `s` that covers its leading digits starts with the
      same digit run. */
  lemma PrefixDigitRun(s: string, n: nat, j: nat)
    requires n == DigitRun(s) && n <= j <= |s|
    ensures DigitRun(s[..j]) == n
  {
    var p := s[..j];
    assert p == s[..n] + p[n..];
    if n < j {
      assert p[n..][0] == s[n];
    }
    DigitRunOfDigitsThen(s[..n], p[n..]);
  }

  /** With a fraction: the digits, the point and the fraction's digits
      match, and no longer prefix does. */
  lemma FractionMatchIsLongest(s: string, n: nat, k: nat)
    requires |s| > 0 && IsDigit(s[0]) && n == DigitRun(s)
    requires n + 2 <= |s| && s[n] == '.' && IsDigit(s[n + 1])
    requires k == DigitRun(s[n + 1..])
    ensures n + 1 + k <= |s|
    ensures IsDecimal(s[..n + 1 + k])
    ensures forall j :: n + 1 + k < j <= |s| ==> !IsDecimal(s[..j])
  {
    FractionIsDecimal(s, n, k);
    forall j | n + 1 + k < j <= |s| ensures !IsDecimal(s[..j]) {
      LongerFractionFails(s, n, k, j);
    }
  }

  lemma FractionIsDecimal(s: string, n: nat, k: nat)
    requires |s| > 0 && IsDigit(s[0]) && n == DigitRun(s)
    requires n + 2 <= |s| && s[n] == '.' && IsDigit(s[n + 1])
    requires k == DigitRun(s[n + 1..])
    ensures n + 1 + k <= |s|
    ensures IsDecimal(s[..n + 1 + k])
  {
    var m := s[..n + 1 + k];
    PrefixDigitRun(s, n, n + 1 + k);
    assert s[n + 1..][0] == s[n + 1];
    assert m[n + 1..] == s[n + 1..][..k];
  }

  lemma LongerFractionFails(s: string, n: nat, k: nat, j: nat)
    requires n == DigitRun(s)
    requires n + 2 <= |s| && s[n] == '.'
    requires k == DigitRun(s[n + 1..])
    requires n + 1 + k < j <= |s|
    ensures !IsDecimal(s[..j])
  {
    var p := s[..j];
    var t := s[n + 1..];
    PrefixDigitRun(s, n, j);
    assert !IsDigit(t[k]);
    assert p[n + 1..][k] == t[k];
  }

  /** Without a fraction: the digits alone match, and no longer prefix does. */
  lemma WholeMatchIsLongest(s: string, n: nat)
    requires |s| > 0 && IsDigit(s[0]) && n == DigitRun(s)
    requires !(n + 2 <= |s| && s[n] == '.' && IsDigit(s[n + 1]))
    ensures IsDecimal(s[..n])
    ensures forall j :: n < j <= |s| ==> !IsDecimal(s[..j])
  {
    PrefixDigitRun(s, n, n);
    forall j | n < j <= |s| ensures !IsDecimal(s[..j]) {
      var p := s[..j];
      PrefixDigitRun(s, n, j);
      if n + 1 < j {
        assert p[n + 1..][0] == s[n + 1];
      }
    }
  }

  /** The index of the first digit of `s`, if any. */
  function FirstDigit(s: string): (k: Option<nat>)
    ensures k.None? <==> forall i :: 0 <= i < |s| ==> !IsDigit(s[i])
    ensures k.Some? ==> k.value < |s| && IsDigit(s[k.value])
    ensures k.Some? ==> forall i :: 0 <= i < k.value ==> !IsDigit(s[i])
  {
    if s == [] then None
    else if IsDigit(s[0]) then Some(0)
    else match FirstDigit(s[1..])
      case None => None
      case Some(i) => Some(i + 1)
  }

  /** `s.match(/\d+(\.\d+)?/)`: the leftmost, longest match, or `None`. */
  function FirstNumberMatch(s: string): (m: Option<string>)
    ensures m.None? <==> forall i :: 0 <= i < |s| ==> !IsDigit(s[i])
    ensures m.Some? ==> IsDecimal(m.value)
  {
    match FirstDigit(s)
    case None => None
    case Some(k) => Some(NumberAt(s[k..]))
  }

  /** The number the inventory sync reads from a market price:
      `priceMatch ? parseFloat(priceMatch[0]) : 0`. */
  function ExtractedPrice(priceString: string): (r: real)
    ensures (forall i :: 0 <= i < |priceString| ==> !IsDigit(priceString[i])) ==> r == 0.0
    ensures FirstNumberMatch(priceString).Some? ==> ParseFloat(FirstNumberMatch(priceString).value) == Some(r)
    ensures r >= 0.0
  {
    match FirstNumberMatch(priceString)
    case None => 0.0
    case Some(m) =>
      assert m + [] == m;
      ParseDecimalThen(m, []);
      PriceValue(m)
  }

  /** The suffix of every stored price. */
  const Currency := " USD"

  /** The price text the inventory sync stores: `${price} USD`. The match's own
      digits stand for JavaScript's rendering of the parsed number (see
      README, Left out). */
  function StoredPriceText(priceString: string): (r: string)
    ensures |r| > |Currency| && r[|r| - |Currency|..] == Currency
    ensures IsDecimal(r[..|r| - |Currency|])
  {
    match FirstNumberMatch(priceString)
    case None =>
      ZeroDigits();
      assert ("0" + Currency)[..1] == "0";
      "0" + Currency
    case Some(m) =>
      assert (m + Currency)[..|m|] == m;
      m + Currency
  }

  /** A string that starts with a digit has no white space or sign to skip. */
  lemma ParseFloatFromDigit(s: string)
    requires |s| > 0 && IsDigit(s[0])
    ensures ParseFloat(s) == UnsignedPrefix(s)
  {
    assert SkipSpace(s) == s;
    assert Sign(s) == (1.0, s);
  }

  /** The integer part of a decimal followed by anything. */
  lemma {:induction false} IntegerPartThen(m: string, t: string)
    requires IsDecimal(m)
    requires t == [] || (!IsDigit(t[0]) && t[0] != '.')
    ensures DigitRun(m + t) == DigitRun(m)
    ensures IntegerDigits(m + t) == IntegerDigits(m)
  {
    var n := DigitRun(m);
    assert m == m[..n] + m[n..];
    assert m + t == m[..n] + (m[n..] + t);
    DigitRunOfDigitsThen(m[..n], m[n..] + t);
    if n == |m| {
      assert m[n..] + t == t;
    } else {
      assert (m[n..] + t)[0] == '.';
    }
  }

  /** The fraction part of a decimal followed by anything. */
  lemma {:induction false} FractionPartThen(m: string, t: string)
    requires IsDecimal(m)
    requires t == [] || (!IsDigit(t[0]) && t[0] != '.')
    ensures FractionDigits(m + t) == FractionDigits(m)
  {
    var n := DigitRun(m);
    IntegerPartThen(m, t);
    if n < |m| {
      var frac := m[n + 1..];
      assert (m + t)[n] == m[n];
      assert (m + t)[n + 1..] == frac + t;
      DigitRunOfDigitsThen(frac, t);
      assert frac + [] == frac;
      DigitRunOfDigitsThen(frac, []);
      assert (frac + t)[..|frac|] == frac;
      assert frac[..|frac|] == frac;
    } else {
      assert n == |m + t| || (m + t)[n] == t[0];
    }
  }

  /** A decimal followed by anything that cannot continue it parses to the
      same non-negative number as the decimal alone. */
  lemma {:induction false} ParseDecimalThen(m: string, t: string)
    requires IsDecimal(m)
    requires t == [] || (!IsDigit(t[0]) && t[0] != '.')
    ensures ParseFloat(m + t).Some? && ParseFloat(m + t) == ParseFloat(m)
    ensures ParseFloat(m).value >= 0.0
  {
    ParseFloatFromDigit(m);
    assert (m + t)[0] == m[0];
    ParseFloatFromDigit(m + t);
    IntegerPartThen(m, t);
    FractionPartThen(m, t);
  }

  /** The price text stored by the inventory sync reads back, in every later
      sum of item values, as exactly the number the sync extracted, and that
      number is never negative. */
  lemma StoredPriceReadsBack(priceString: string)
    ensures PriceValue(StoredPriceText(priceString)) == ExtractedPrice(priceString)
    ensures ExtractedPrice(priceString) >= 0.0
  {
    match FirstNumberMatch(priceString)
    case None =>
      ZeroThen(Currency);
    case Some(m) =>
      ParseDecimalThen(m, Currency);
  }

  lemma ZeroThen(t: string)
    requires t == [] || (!IsDigit(t[0]) && t[0] != '.')
    ensures PriceValue("0" + t) == 0.0
  {
    ZeroDecimal();
    ParseDecimalThen("0", t);
  }

  lemma ZeroDecimal()
    ensures IsDecimal("0") && ParseFloat("0") == Some(0.0)
  {
    ZeroDigits();
    assert Fraction([]) == 0.0;
    ParseFloatFromDigit("0");
  }

  lemma ZeroDigits()
    ensures DigitRun("0") == 1 && IsDecimal("0")
    ensures IntegerDigits("0") == "0" && FractionDigits("0") == [] && DigitsValue("0") == 0
  {
    assert "0"[1..] == [];
    assert "0"[..0] == [];
  }
}
