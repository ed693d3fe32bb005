/**
 * Turning a raw price string from the page into a number: the expression
 * `parseFloat(text.replace(/[^\d.,]/g, '').replace(',', ''))` that every
 * price extractor in content.js applies, and its acceptance test.
 * Prices are exact `real`s: the decimal text is read without binary
 * floating-point rounding.
 */
module PriceText {
  import opened Wrappers
  import opened Text

  predicate IsPriceChar(c: char) {
    IsDigit(c) || c == '.' || c == ','
  }

  predicate AllDigits(s: string) {
    forall k | 0 <= k < |s| :: IsDigit(s[k])
  }

  /** `s.replace(/[^\d.,]/g, '')`: the digits, dots and commas of `s`, in order. */
  function KeepPriceChars(s: string): (r: string)
    ensures |r| <= |s|
    ensures forall k | 0 <= k < |r| :: IsPriceChar(r[k])
  {
    if s == [] then []
    else (if IsPriceChar(s[0]) then [s[0]] else []) + KeepPriceChars(s[1..])
  }

  /** Filtering distributes over concatenation: it keeps characters in their order. */
  lemma {:induction false} KeepPriceCharsAppend(a: string, b: string)
    ensures KeepPriceChars(a + b) == KeepPriceChars(a) + KeepPriceChars(b)
  {
    if a == [] {
      assert a + b == b;
    } else {
      assert (a + b)[0] == a[0];
      assert (a + b)[1..] == a[1..] + b;
      KeepPriceCharsAppend(a[1..], b);
    }
  }

  /** Filtering leaves a string alone exactly when it holds only price characters. */
  lemma {:induction false} KeepPriceCharsIdentity(s: string)
    ensures KeepPriceChars(s) == s <==> forall k | 0 <= k < |s| :: IsPriceChar(s[k])
  {
    if s != [] && forall k | 0 <= k < |s| :: IsPriceChar(s[k]) {
      KeepPriceCharsIdentity(s[1..]);
      assert s == [s[0]] + s[1..];
    }
  }

  /** `s.replace(',', '')`: a string pattern, so only the first comma goes. */
  function RemoveFirstComma(s: string): (r: string)
    ensures ',' !in s ==> r == s
  {
    var i := IndexOf(s, ',');
    if i < |s| then s[..i] + s[i + 1..]
    else
      assert s[..i] == s;
      s
  }

  /** With a comma present, the result is the input without its first comma. */
  lemma RemoveFirstCommaSplices(s: string)
    requires ',' in s
    ensures exists i | 0 <= i < |s| :: s[i] == ',' && ',' !in s[..i] && RemoveFirstComma(s) == s[..i] + s[i + 1..]
  {
    var i := IndexOf(s, ',');
    assert s[i] == ',' && ',' !in s[..i];
  }

  /** Filtering empties a string that holds no digit, dot or comma. */
  lemma {:induction false} KeepPriceCharsNone(s: string)
    requires forall k | 0 <= k < |s| :: !IsPriceChar(s[k])
    ensures KeepPriceChars(s) == []
  {
    if s != [] {
      assert forall k | 0 <= k < |s[1..]| :: s[1..][k] == s[k + 1];
      KeepPriceCharsNone(s[1..]);
    }
  }

  /** The cleaning both extractors apply before parsing. */
  function Clean(text: string): string {
    RemoveFirstComma(KeepPriceChars(text))
  }

  /**
   * A price written with a thousands comma after a currency symbol (or any
   * text without digits, dots and commas): cleaning drops the symbol and the
   * first comma, and keeps everything else in order.
   */
  lemma CleanThousands(symbol: string, lead: string, rest: string)
    requires forall k | 0 <= k < |symbol| :: !IsPriceChar(symbol[k])
    requires AllDigits(lead)
    requires forall k | 0 <= k < |rest| :: IsPriceChar(rest[k])
    ensures Clean(symbol + (lead + "," + rest)) == lead + rest
  {
    KeepAfterSymbol(symbol, lead, rest);
    RemoveCommaAfterDigits(lead, rest);
  }

  /** Filtering drops the symbol and keeps the number that follows it whole. */
  lemma KeepAfterSymbol(symbol: string, lead: string, rest: string)
    requires forall k | 0 <= k < |symbol| :: !IsPriceChar(symbol[k])
    requires AllDigits(lead)
    requires forall k | 0 <= k < |rest| :: IsPriceChar(rest[k])
    ensures KeepPriceChars(symbol + (lead + "," + rest)) == lead + "," + rest
  {
    var number := lead + "," + rest;
    KeepPriceCharsAppend(symbol, number);
    KeepPriceCharsNone(symbol);
    NumberIsPriceChars(lead, rest);
    KeepPriceCharsIdentity(number);
  }

  /** Digits, a comma and price characters are all price characters. */
  lemma NumberIsPriceChars(lead: string, rest: string)
    requires AllDigits(lead)
    requires forall k | 0 <= k < |rest| :: IsPriceChar(rest[k])
    ensures forall k | 0 <= k < |lead + "," + rest| :: IsPriceChar((lead + "," + rest)[k])
  {
    var number := lead + "," + rest;
    forall k | 0 <= k < |number| ensures IsPriceChar(number[k]) {
      if k < |lead| {
        assert number[k] == lead[k];
      } else if k > |lead| {
        assert number[k] == rest[k - |lead| - 1];
      }
    }
  }

  /** The first comma after a run of digits is the one removed. */
  lemma RemoveCommaAfterDigits(lead: string, rest: string)
    requires AllDigits(lead)
    ensures RemoveFirstComma(lead + "," + rest) == lead + rest
  {
    var number := lead + "," + rest;
    forall k | 0 <= k < |lead| ensures lead[k] != ',' {
      assert IsDigit(lead[k]);
    }
    IndexOfFirst(lead, ',', rest);
    assert number[..|lead|] + number[|lead| + 1..] == lead + rest;
  }

  /** The cleaned text holds only digits, dots and commas. */
  lemma CleanKeepsPriceChars(text: string)
    ensures forall k | 0 <= k < |Clean(text)| :: IsPriceChar(Clean(text)[k])
  {
    var f := KeepPriceChars(text);
    var i := IndexOf(f, ',');
    if i < |f| {
      forall k | 0 <= k < |Clean(text)| ensures IsPriceChar(Clean(text)[k]) {
        if k < i {
          assert Clean(text)[k] == f[k];
        } else {
          assert Clean(text)[k] == f[k + 1];
        }
      }
    } else {
      assert f[..i] == f;
    }
  }

  function DigitValue(c: char): nat
    requires IsDigit(c)
  {
    (c as int) - ('0' as int)
  }

  /** The value of a string of decimal digits, most significant first. */
  function DigitsValue(s: string): nat
    requires AllDigits(s)
  {
    if s == [] then 0 else 10 * DigitsValue(s[..|s| - 1]) + DigitValue(s[|s| - 1])
  }

  /** The value of the digits after a decimal point: `0.d1d2…`. */
  function FractionValue(frac: string): (v: real)
    requires AllDigits(frac)
    ensures v >= 0.0
  {
    if frac == [] then 0.0 else (DigitValue(frac[0]) as real + FractionValue(frac[1..])) / 10.0
  }

  /** Digits after the point never add up to a whole unit. */
  lemma {:induction false} FractionBelowOne(frac: string)
    requires AllDigits(frac)
    ensures FractionValue(frac) < 1.0
  {
    if frac != [] {
      FractionBelowOne(frac[1..]);
    }
  }

  /** The number written `whole.frac`. */
  function DecimalValue(whole: string, frac: string): (v: real)
    requires AllDigits(whole) && AllDigits(frac)
    ensures v >= 0.0
  {
    DigitsValue(whole) as real + FractionValue(frac)
  }

  /** The text begins with a decimal literal: a digit, or a dot and a digit. */
  predicate StartsNumber(s: string) {
    (|s| > 0 && IsDigit(s[0])) || (|s| > 1 && s[0] == '.' && IsDigit(s[1]))
  }

  /**
   * `parseFloat` on text made of digits, dots and commas: the longest prefix
   * of the form `digits [. digits]` with at least one digit, or none (NaN).
   * A second dot or a comma ends the number.
   */
  function ParseFloat(s: string): (r: Option<real>)
    ensures r.Some? <==> StartsNumber(s)
    ensures r.Some? ==> r.value >= 0.0
  {
    var e := DigitRunEnd(s, 0);
    if e < |s| && s[e] == '.' then
      var f := DigitRunEnd(s, e + 1);
      if e == 0 && f == e + 1 then None
      else Some(DecimalValue(s[..e], s[e + 1..f]))
    else if e == 0 then None
    else Some(DigitsValue(s[..e]) as real)
  }

  /**
   * The extractors' acceptance test `!isNaN(price) && price > floor` on the
   * cleaned text: `floor` is 0 for the structured selectors and 10 for the
   * Takealot text scan.
   */
  function PriceAbove(text: string, floor: real): (r: Option<real>)
    ensures r.Some? ==> r.value > floor && r == ParseFloat(Clean(text))
    ensures r.None? <==> ParseFloat(Clean(text)).None? || ParseFloat(Clean(text)).value <= floor
  {
    var p := ParseFloat(Clean(text));
    if p.Some? && p.value > floor then p else None
  }

  /** The run of digits of `s` from `k` ends at `e` when `e` is its first non-digit. */
  lemma DigitRunEndIs(s: string, k: nat, e: nat)
    requires k <= e <= |s|
    requires forall i | k <= i < e :: IsDigit(s[i])
    requires e == |s| || !IsDigit(s[e])
    ensures DigitRunEnd(s, k) == e
  {
  }

  /** The decimal rendering of a natural number. */
  function DecimalString(n: nat): (s: string)
    ensures |s| > 0 && AllDigits(s)
  {
    var d := ['0' + ((n % 10) as char)];
    if n < 10 then d else DecimalString(n / 10) + d
  }

  lemma {:induction false} DecimalStringValue(n: nat)
    ensures DigitsValue(DecimalString(n)) == n
  {
    if n >= 10 {
      var s := DecimalString(n);
      DecimalStringValue(n / 10);
      assert s[..|s| - 1] == DecimalString(n / 10);
    }
  }

  /** Parsing reads back every whole number written in decimal. */
  lemma ParseDecimalString(n: nat)
    ensures ParseFloat(DecimalString(n)) == Some(n as real)
  {
    var s := DecimalString(n);
    DigitRunEndIs(s, 0, |s|);
    DecimalStringValue(n);
    assert s[..|s|] == s;
  }

  /** A run of digits followed by a non-digit (or the end) is read up to its end. */
  lemma DigitRunOver(p: string, a: string, b: string)
    requires AllDigits(a) && (b == [] || !IsDigit(b[0]))
    ensures DigitRunEnd(p + a + b, |p|) == |p| + |a|
  {
    var s := p + a + b;
    forall i | |p| <= i < |p| + |a| ensures IsDigit(s[i]) {
      assert s[i] == a[i - |p|];
    }
    if b != [] {
      assert s[|p| + |a|] == b[0];
    }
    DigitRunEndIs(s, |p|, |p| + |a|);
  }

  /** The run of digits at the start of `a + b` is `a` when `b` does not go on with a digit. */
  lemma DigitRunAtStart(a: string, b: string)
    requires AllDigits(a) && (b == [] || !IsDigit(b[0]))
    ensures DigitRunEnd(a + b, 0) == |a|
  {
    var s := a + b;
    forall i | 0 <= i < |a| ensures IsDigit(s[i]) {
      assert s[i] == a[i];
    }
    if b != [] {
      assert s[|a|] == b[0];
    }
    DigitRunEndIs(s, 0, |a|);
  }

  /**
   * Parsing `whole.frac`, both runs of digits and not both empty, gives the
   * whole part plus the fraction scaled by its number of digits.
   */
  lemma ParseDecimalFraction(whole: string, frac: string)
    requires AllDigits(whole) && AllDigits(frac) && |whole| + |frac| > 0
    ensures ParseFloat(whole + "." + frac) == Some(DecimalValue(whole, frac))
  {
    ParseDecimalPrefix(whole, frac, []);
    assert whole + "." + frac + [] == whole + "." + frac;
  }

  /**
   * `parseFloat` reads only its longest numeric prefix: after `whole.frac`,
   * whatever follows that does not begin with a digit (a comma, a second
   * dot, anything else) is ignored.
   */
  lemma ParseDecimalPrefix(whole: string, frac: string, rest: string)
    requires AllDigits(whole) && AllDigits(frac) && |whole| + |frac| > 0
    requires rest == [] || !IsDigit(rest[0])
    ensures ParseFloat(whole + "." + frac + rest) == Some(DecimalValue(whole, frac))
  {
    var s := whole + "." + frac + rest;
    DigitRunAtStart(whole, "." + frac + rest);
    assert whole + ("." + frac + rest) == s;
    DigitRunOver(whole + ".", frac, rest);
    var e := DigitRunEnd(s, 0);
    var f := DigitRunEnd(s, e + 1);
    assert e == |whole| && f == |whole| + 1 + |frac| && s[e] == '.';
    assert s[..e] == whole;
    assert s[e + 1..f] == frac;
  }

  /**
   * Without a decimal point: a run of digits followed by anything that is
   * neither a digit nor a dot (a comma, say) parses to the run's value.
   */
  lemma ParseWholePrefix(whole: string, rest: string)
    requires AllDigits(whole) && |whole| > 0
    requires rest == [] || (!IsDigit(rest[0]) && rest[0] != '.')
    ensures ParseFloat(whole + rest) == Some(DigitsValue(whole) as real)
  {
    var s := whole + rest;
    DigitRunAtStart(whole, rest);
    var e := DigitRunEnd(s, 0);
    assert e == |whole|;
    if rest != [] {
      assert s[e] == rest[0];
    }
    assert s[..e] == whole;
  }
}
