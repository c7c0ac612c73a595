/** The string-to-value normalisers of the product extractors: price, currency, rating, review
    count and one `key: value` specification item. Each takes the text the selector
    found (or "" when it found nothing) and does what the regular expression and the Python
    conversion in the source do, with exact decimals in place of floats. */
module Normalise {
  import opened Wrappers
  import opened Text

  // ---------------------------------------------------------------- counting characters

  function Count(s: string, c: char): nat {
    if s == [] then 0 else (if s[0] == c then 1 else 0) + Count(s[1..], c)
  }

  lemma {:induction false} CountConcat(a: string, b: string, c: char)
    ensures Count(a + b, c) == Count(a, c) + Count(b, c)
  {
    if a == [] {
      assert a + b == b;
    } else {
      assert (a + b)[0] == a[0];
      assert (a + b)[1..] == a[1..] + b;
      CountConcat(a[1..], b, c);
    }
  }

  lemma {:induction false} CountZero(s: string, c: char)
    ensures Count(s, c) == 0 <==> c !in s
  {
    if s != [] {
      CountZero(s[1..], c);
      assert s == [s[0]] + s[1..];
    }
  }

  predicate HasDigit(s: string) {
    exists k :: 0 <= k < |s| && IsDigit(s[k])
  }

  lemma HasDigitConcat(a: string, b: string)
    ensures HasDigit(a + b) <==> HasDigit(a) || HasDigit(b)
  {
    if HasDigit(a + b) {
      var k :| 0 <= k < |a + b| && IsDigit((a + b)[k]);
      if k >= |a| {
        assert IsDigit(b[k - |a|]);
      }
    }
    if HasDigit(a) {
      var k :| 0 <= k < |a| && IsDigit(a[k]);
      assert IsDigit((a + b)[k]);
    }
    if HasDigit(b) {
      var k :| 0 <= k < |b| && IsDigit(b[k]);
      assert IsDigit((a + b)[|a| + k]);
    }
  }

  function Pow10(n: nat): (p: nat)
    ensures p >= 1
  {
    if n == 0 then 1 else 10 * Pow10(n - 1)
  }

  // ---------------------------------------------------------------- decimals

  predicate DigitsOrDots(s: string) {
    forall k :: 0 <= k < |s| ==> IsDigit(s[k]) || s[k] == '.'
  }

  /** The exact value of a decimal literal `whole.frac`. */
  function DecimalValue(whole: string, frac: string): (v: real)
    requires forall k :: 0 <= k < |whole| ==> IsDigit(whole[k])
    requires forall k :: 0 <= k < |frac| ==> IsDigit(frac[k])
    ensures v >= 0.0
  {
    var n := DigitsValue(frac) as real;
    var d := Pow10(|frac|) as real;
    assert n / d >= 0.0 by {
      assert n >= 0.0 && d > 0.0;
      assert n / d * d == n;
    }
    DigitsValue(whole) as real + n / d
  }

  /** `float(s)` on a string made only of digits and dots: it parses exactly when there is at
      least one digit and at most one dot ("12", "12.", ".5", "12.5"), and raises otherwise. */
  function ParseDecimal(s: string): Option<real>
    requires DigitsOrDots(s)
  {
    if '.' in s then
      SplitAtDotDigits(s);
      var (whole, frac) := SplitOnce(s, '.');
      if '.' in frac || (whole == [] && frac == []) then None
      else Some(DecimalValue(whole, frac))
    else if s == [] then None
    else Some(DigitsValue(s) as real)
  }

  /** Around the first dot of digits and dots: digits before it, and digits after it when there
      is no second dot. */
  lemma SplitAtDotDigits(s: string)
    requires DigitsOrDots(s) && '.' in s
    ensures var (whole, frac) := SplitOnce(s, '.');
            && (forall k :: 0 <= k < |whole| ==> IsDigit(whole[k]))
            && ('.' !in frac ==> forall k :: 0 <= k < |frac| ==> IsDigit(frac[k]))
  {
    var (whole, frac) := SplitOnce(s, '.');
    assert forall k :: 0 <= k < |whole| ==> whole[k] == s[k];
    assert forall k :: 0 <= k < |frac| ==> frac[k] == s[|whole| + 1 + k];
  }

  lemma ParseDecimalDefined(s: string)
    requires DigitsOrDots(s)
    ensures ParseDecimal(s).Some? <==> HasDigit(s) && Count(s, '.') <= 1
    ensures ParseDecimal(s).Some? ==> ParseDecimal(s).value >= 0.0
  {
    if '.' in s {
      ParseDottedDefined(s);
    } else {
      CountZero(s, '.');
      if s != [] {
        assert IsDigit(s[0]);
      }
    }
  }

  lemma ParseDottedDefined(s: string)
    requires DigitsOrDots(s) && '.' in s
    ensures ParseDecimal(s).Some? <==> HasDigit(s) && Count(s, '.') <= 1
  {
    var (whole, frac) := SplitOnce(s, '.');
    SplitAtDotDigits(s);
    AroundDot(whole, frac);
    CountZero(whole, '.');
    CountZero(frac, '.');
    if '.' !in frac {
      if whole != [] {
        assert IsDigit(whole[0]);
      } else if frac != [] {
        assert IsDigit(frac[0]);
      }
    }
  }

  /** Counting dots and looking for digits on both sides of a dot. */
  lemma AroundDot(whole: string, frac: string)
    ensures Count(whole + "." + frac, '.') == Count(whole, '.') + 1 + Count(frac, '.')
    ensures HasDigit(whole + "." + frac) <==> HasDigit(whole) || HasDigit(frac)
  {
    CountConcat(whole + ".", frac, '.');
    CountConcat(whole, ".", '.');
    assert Count(".", '.') == 1;
    HasDigitConcat(whole + ".", frac);
    HasDigitConcat(whole, ".");
    assert !HasDigit(".");
  }

  // ---------------------------------------------------------------- price (`_extract_price`)

  predicate IsPriceChar(c: char) {
    IsDigit(c) || c == '.' || c == ','
  }

  /** `re.sub(r'[^\d.,]', '', text)`: keeps digits, dots and commas, in order. */
  function KeepPriceChars(text: string): (r: string)
    ensures forall k :: 0 <= k < |r| ==> IsPriceChar(r[k])
  {
    if text == [] then []
    else (if IsPriceChar(text[0]) then [text[0]] else []) + KeepPriceChars(text[1..])
  }

  lemma {:induction false} KeepPriceCharsKeeps(text: string)
    ensures Count(KeepPriceChars(text), '.') == Count(text, '.')
    ensures Count(KeepPriceChars(text), ',') == Count(text, ',')
    ensures HasDigit(KeepPriceChars(text)) <==> HasDigit(text)
  {
    if text != [] {
      KeepPriceCharsKeeps(text[1..]);
      var head := if IsPriceChar(text[0]) then [text[0]] else [];
      CountConcat(head, KeepPriceChars(text[1..]), '.');
      CountConcat(head, KeepPriceChars(text[1..]), ',');
      HasDigitConcat(head, KeepPriceChars(text[1..]));
      assert text == [text[0]] + text[1..];
      HasDigitConcat([text[0]], text[1..]);
    }
  }

  /** `s.replace(',', '.')`. */
  function CommaToDot(s: string): (r: string)
    ensures |r| == |s| && forall k :: 0 <= k < |s| ==> r[k] == (if s[k] == ',' then '.' else s[k])
  {
    seq(|s|, k requires 0 <= k < |s| => if s[k] == ',' then '.' else s[k])
  }

  lemma CommaToDotWithoutCommas(s: string)
    requires ',' !in s
    ensures CommaToDot(s) == s
  {
  }

  lemma {:induction false} CommaToDotCounts(s: string)
    ensures Count(CommaToDot(s), '.') == Count(s, '.') + Count(s, ',')
    ensures HasDigit(CommaToDot(s)) <==> HasDigit(s)
  {
    if s != [] {
      CommaToDotCounts(s[1..]);
      assert CommaToDot(s)[1..] == CommaToDot(s[1..]);
    }
    if HasDigit(s) {
      var k :| 0 <= k < |s| && IsDigit(s[k]);
      assert IsDigit(CommaToDot(s)[k]);
    }
  }

  /** `_extract_price` after the selector: no text gives None; otherwise the text is cleaned down to
      digits and separators, every comma becomes a dot, and the result is parsed as a float. */
  function ParsePrice(text: string): Option<real>
  {
    if text == "" then None
    else
      var cleaned := CommaToDot(KeepPriceChars(text));
      ParseDecimal(cleaned)
  }

  /** A price is found exactly when the text has a digit and at most one separator, counting dots
      and commas together; it is never negative. */
  lemma ParsePriceDefined(text: string)
    ensures ParsePrice(text).Some? <==> HasDigit(text) && Count(text, '.') + Count(text, ',') <= 1
    ensures ParsePrice(text).Some? ==> ParsePrice(text).value >= 0.0
  {
    KeepPriceCharsKeeps(text);
    CommaToDotCounts(KeepPriceChars(text));
    ParseDecimalDefined(CommaToDot(KeepPriceChars(text)));
  }

  lemma ParsePriceOf(text: string, cleaned: string)
    requires text != "" && CommaToDot(KeepPriceChars(text)) == cleaned
    ensures ParsePrice(text) == ParseDecimal(cleaned)
  {
  }

  lemma PriceOfDollarsAndCents()
    ensures ParsePrice("$19.99") == Some(19.99)
  {
    assert CommaToDot(KeepPriceChars("$19.99")) == "19.99" by {
      assert KeepPriceChars("$19.99") == "19.99";
      CommaToDotWithoutCommas("19.99");
    }
    ParsePriceOf("$19.99", "19.99");
    NineteenNinetyNine();
  }

  lemma NineteenNinetyNine()
    ensures ParseDecimal("19.99") == Some(19.99)
  {
    SplitOnceAt("19.99", '.', 2);
    assert "19.99"[..2] == "19" && "19.99"[3..] == "99";
    assert DigitsValue("19") == 19 by { assert "19"[..1] == "1"; }
    assert DigitsValue("99") == 99 by { assert "99"[..1] == "9"; }
    assert Pow10(2) == 100;
    assert DecimalValue("19", "99") == 19.0 + 99.0 / 100.0;
  }

  lemma PriceWithDecimalComma()
    ensures ParsePrice("1,5") == Some(1.5)
  {
    assert CommaToDot(KeepPriceChars("1,5")) == "1.5" by {
      assert KeepPriceChars("1,5") == "1,5";
      assert CommaToDot("1,5") == "1.5";
    }
    ParsePriceOf("1,5", "1.5");
    OnePointFive();
  }

  lemma OnePointFive()
    ensures ParseDecimal("1.5") == Some(1.5)
  {
    SplitOnceAt("1.5", '.', 1);
    assert "1.5"[..1] == "1" && "1.5"[2..] == "5";
  }

  lemma PriceOfZero()
    ensures ParsePrice("0.00") == Some(0.0)
  {
    assert CommaToDot(KeepPriceChars("0.00")) == "0.00" by {
      assert KeepPriceChars("0.00") == "0.00";
      CommaToDotWithoutCommas("0.00");
    }
    ParsePriceOf("0.00", "0.00");
    ZeroPointZeroZero();
  }

  lemma ZeroPointZeroZero()
    ensures ParseDecimal("0.00") == Some(0.0)
  {
    SplitOnceAt("0.00", '.', 1);
    assert "0.00"[..1] == "0" && "0.00"[2..] == "00";
    assert DigitsValue("0") == 0;
    assert DigitsValue("00") == 0 by { assert "00"[..1] == "0"; }
    assert DecimalValue("0", "00") == 0.0;
  }

  lemma CountPositive(s: string, c: char, i: nat)
    requires i < |s| && s[i] == c
    ensures Count(s, c) >= 1
  {
    assert s == s[..i] + s[i..];
    CountConcat(s[..i], s[i..], c);
  }

  /** A thousands separator together with a decimal point leaves two separators: no price. */
  lemma PriceWithThousandsSeparator()
    ensures ParsePrice("$1,234.56") == None
  {
    ParsePriceDefined("$1,234.56");
    CountPositive("$1,234.56", ',', 2);
    CountPositive("$1,234.56", '.', 6);
  }

  /** The dot of the rupee prefix counts as a separator too. */
  lemma RupeesWithThousandsSeparator()
    ensures ParsePrice("Rs. 1,299") == None
  {
    ParsePriceDefined("Rs. 1,299");
    CountPositive("Rs. 1,299", '.', 2);
    CountPositive("Rs. 1,299", ',', 5);
  }

  lemma RupeePrefixCleaned()
    ensures KeepPriceChars("Rs. 299") == ".299"
  {
    assert KeepPriceChars(" 299") == "299";
  }

  lemma PriceAfterRupeePrefix()
    ensures ParsePrice("Rs. 299") == Some(0.299)
  {
    assert CommaToDot(KeepPriceChars("Rs. 299")) == ".299" by {
      RupeePrefixCleaned();
      CommaToDotWithoutCommas(".299");
    }
    ParsePriceOf("Rs. 299", ".299");
    PointTwoNineNine();
  }

  lemma PointTwoNineNine()
    ensures ParseDecimal(".299") == Some(0.299)
  {
    SplitOnceAt(".299", '.', 0);
    assert ".299"[..0] == "" && ".299"[1..] == "299";
    assert DigitsValue("299") == 299 by {
      assert "299"[..2] == "29" && "29"[..1] == "2";
    }
    assert Pow10(3) == 1000;
    assert DecimalValue("", "299") == 299.0 / 1000.0;
  }

  lemma PriceWithoutDigits()
    ensures ParsePrice("") == None
    ensures ParsePrice("Free") == None
  {
    ParsePriceDefined("Free");
    assert !HasDigit("Free");
  }

  // ---------------------------------------------------------------- currency (`_detect_currency`)

  const CurrencySymbols: seq<char> := ['$', '€', '£', '¥']
  const CurrencyCodes: seq<string> := ["USD", "EUR", "GBP", "JPY"]

  /** What the alternatives of `[\$\€\£\¥]|USD|EUR|GBP|JPY` match at position `i`, tried in order. */
  function CurrencyAt(s: string, i: nat): Option<string> {
    if i < |s| && s[i] in CurrencySymbols then Some([s[i]])
    else if OccursAt(s, "USD", i) then Some("USD")
    else if OccursAt(s, "EUR", i) then Some("EUR")
    else if OccursAt(s, "GBP", i) then Some("GBP")
    else if OccursAt(s, "JPY", i) then Some("JPY")
    else None
  }

  /** `i` is the leftmost position of `s` where the currency pattern matches. */
  predicate LeftmostCurrency(s: string, i: nat) {
    i < |s| && CurrencyAt(s, i).Some? && forall j :: 0 <= j < i ==> CurrencyAt(s, j).None?
  }

  function DetectCurrencyFrom(s: string, from: nat): (r: Option<string>)
    requires from <= |s|
    ensures r.Some? ==> exists i :: from <= i < |s| && CurrencyAt(s, i) == r
                                    && forall j :: from <= j < i ==> CurrencyAt(s, j).None?
    ensures r.None? ==> forall j :: from <= j <= |s| ==> CurrencyAt(s, j).None?
    decreases |s| - from
  {
    if from == |s| then None
    else if CurrencyAt(s, from).Some? then CurrencyAt(s, from)
    else DetectCurrencyFrom(s, from + 1)
  }

  /** `re.search(...)` then `.group()`, or None when nothing matches (also for empty text). */
  function DetectCurrency(text: string): (r: Option<string>)
    ensures r.Some? ==> exists i :: LeftmostCurrency(text, i) && CurrencyAt(text, i) == r
    ensures r.None? ==> forall j :: 0 <= j <= |text| ==> CurrencyAt(text, j).None?
  {
    DetectCurrencyFromStart(text);
    DetectCurrencyFrom(text, 0)
  }

  lemma DetectCurrencyFromStart(text: string)
    ensures DetectCurrencyFrom(text, 0).Some? ==>
              exists i :: LeftmostCurrency(text, i) && CurrencyAt(text, i) == DetectCurrencyFrom(text, 0)
  {
    var r := DetectCurrencyFrom(text, 0);
    if r.Some? {
      var i :| 0 <= i < |text| && CurrencyAt(text, i) == r && forall j :: 0 <= j < i ==> CurrencyAt(text, j).None?;
      assert LeftmostCurrency(text, i);
    }
  }

  /** A detected currency is one of the four symbols or one of the four codes. */
  lemma DetectCurrencyVocabulary(text: string)
    ensures DetectCurrency(text).Some? ==>
              DetectCurrency(text).value in CurrencyCodes
              || (|DetectCurrency(text).value| == 1 && DetectCurrency(text).value[0] in CurrencySymbols)
    ensures DetectCurrency("") == None
  {
    if DetectCurrency(text).Some? {
      var i :| LeftmostCurrency(text, i) && CurrencyAt(text, i) == DetectCurrency(text);
    }
    assert CurrencyAt("", 0).None?;
  }

  /** Every alternative of the currency pattern starts with one of these characters. */
  lemma CurrencyAtStart(s: string, i: nat)
    requires CurrencyAt(s, i).Some?
    ensures i < |s| && s[i] in "$€£¥UEGJ"
  {
  }

  lemma CurrencyOfDollarPrice()
    ensures DetectCurrency("$19.99") == Some("$")
  {
    assert CurrencyAt("$19.99", 0) == Some("$");
  }

  lemma CurrencyOfEuroPrice()
    ensures DetectCurrency("19.99 EUR") == Some("EUR")
  {
    var s := "19.99 EUR";
    assert OccursAt(s, "EUR", 6) && CurrencyAt(s, 6) == Some("EUR");
    forall j | 0 <= j < 6
      ensures CurrencyAt(s, j).None?
    {
      if CurrencyAt(s, j).Some? {
        CurrencyAtStart(s, j);
      }
    }
  }

  /** Rupees are not among the currencies the pattern knows. */
  lemma CurrencyOfRupeePrice()
    ensures DetectCurrency("Rs. 299") == None
  {
    var t := "Rs. 299";
    forall j | 0 <= j <= |t|
      ensures CurrencyAt(t, j).None?
    {
      if CurrencyAt(t, j).Some? {
        CurrencyAtStart(t, j);
      }
    }
  }

  // ---------------------------------------------------------------- digit runs

  /** The end of the maximal run of digits that starts at `i`. */
  function DigitRunEnd(s: string, i: nat): (j: nat)
    requires i <= |s|
    ensures i <= j <= |s| && (forall k :: i <= k < j ==> IsDigit(s[k])) && (j < |s| ==> !IsDigit(s[j]))
    decreases |s| - i
  {
    if i < |s| && IsDigit(s[i]) then DigitRunEnd(s, i + 1) else i
  }

  /** The leftmost digit at or after `from`. */
  function FirstDigitFrom(s: string, from: nat): (r: Option<nat>)
    requires from <= |s|
    ensures r.Some? ==> from <= r.value < |s| && IsDigit(s[r.value])
                        && forall k :: from <= k < r.value ==> !IsDigit(s[k])
    ensures r.None? ==> forall k :: from <= k < |s| ==> !IsDigit(s[k])
    decreases |s| - from
  {
    if from == |s| then None
    else if IsDigit(s[from]) then Some(from)
    else FirstDigitFrom(s, from + 1)
  }

  // ---------------------------------------------------------------- rating (`_extract_rating`)

  /** The text `re.search(r'\d+\.?\d*', text)` matches: the leftmost maximal digit run, followed,
      when a dot comes next, by that dot and the maximal digit run after it. */
  function RatingMatch(text: string): Option<string> {
    match FirstDigitFrom(text, 0)
    case None => None
    case Some(i) =>
      var j := DigitRunEnd(text, i);
      var k := if j < |text| && text[j] == '.' then DigitRunEnd(text, j + 1) else j;
      Some(text[i..k])
  }

  /** `text[i..k]` is what `\d+\.?\d*` matches leftmost: `text[i..j]` is the first maximal digit
      run; when a dot follows it, the match takes the dot and the maximal digit run after it,
      otherwise it ends at `j`. */
  predicate RatingSlice(text: string, i: nat, j: nat, k: nat) {
    && FirstRun(text, i, j)
    && (if j < |text| && text[j] == '.' then
          && j < k <= |text|
          && (forall x :: j < x < k ==> IsDigit(text[x]))
          && (k < |text| ==> !IsDigit(text[k]))
        else k == j)
  }

  /** The match is the leftmost greedy slice `RatingSlice` describes, and it is a decimal literal
      `float` accepts. */
  lemma RatingMatchIsDecimal(text: string)
    ensures HasDigit(text) ==> exists i: nat, j: nat, k: nat | RatingSlice(text, i, j, k) :: RatingMatch(text) == Some(text[i..k])
    ensures RatingMatch(text).Some? ==> var m := RatingMatch(text).value;
              DigitsOrDots(m) && HasDigit(m) && Count(m, '.') <= 1
  {
    match FirstDigitFrom(text, 0)
    case None =>
    case Some(i) =>
      var j := DigitRunEnd(text, i);
      var k := if j < |text| && text[j] == '.' then DigitRunEnd(text, j + 1) else j;
      var m := text[i..k];
      assert m == RatingMatch(text).value;
      assert RatingSlice(text, i, j, k);
      assert IsDigit(m[0]);
      assert DigitsOrDots(m);
      DigitsDotDigits(text, i, j, k);
  }

  /** A digit run, optionally followed by a dot and a second digit run, has at most one dot. */
  lemma DigitsDotDigits(text: string, i: nat, j: nat, k: nat)
    requires i <= j <= k <= |text|
    requires forall x :: i <= x < j ==> IsDigit(text[x])
    requires k > j ==> text[j] == '.' && forall x :: j < x < k ==> IsDigit(text[x])
    ensures Count(text[i..k], '.') <= 1
  {
    assert text[i..k] == text[i..j] + text[j..k];
    CountConcat(text[i..j], text[j..k], '.');
    CountZero(text[i..j], '.');
    if k > j {
      assert text[j..k] == "." + text[j + 1..k];
      CountConcat(".", text[j + 1..k], '.');
      CountZero(text[j + 1..k], '.');
    } else {
      assert text[j..k] == [];
    }
  }

  /** There is a match exactly when the text has a digit. */
  lemma RatingMatchExists(text: string)
    ensures RatingMatch(text).None? <==> !HasDigit(text)
  {
    match FirstDigitFrom(text, 0)
    case None =>
    case Some(i) =>
  }

  /** `_extract_rating` after the selector: `float` of the match, None when the text has no digit. */
  function ParseRating(text: string): Option<real> {
    match RatingMatch(text)
    case None => None
    case Some(m) => ParseDecimal(m)
  }

  /** The conversion never fails on a match, so a rating is found exactly when the text has a digit. */
  lemma ParseRatingDefined(text: string)
    ensures ParseRating(text).Some? <==> HasDigit(text)
    ensures ParseRating(text).Some? ==> ParseRating(text).value >= 0.0
  {
    RatingMatchIsDecimal(text);
    RatingMatchExists(text);
    if RatingMatch(text).Some? {
      ParseDecimalDefined(RatingMatch(text).value);
    }
  }

  lemma RatingOutOfFive()
    ensures ParseRating("4.5 out of 5 stars") == Some(4.5)
  {
    var s := "4.5 out of 5 stars";
    assert RatingMatch(s) == Some("4.5") by {
      assert DigitRunEnd(s, 1) == 1 && DigitRunEnd(s, 0) == 1;
      assert DigitRunEnd(s, 3) == 3 && DigitRunEnd(s, 2) == 3;
      assert s[0..3] == "4.5";
    }
    FourPointFive();
  }

  lemma FourPointFive()
    ensures ParseDecimal("4.5") == Some(4.5)
  {
    SplitOnceAt("4.5", '.', 1);
    assert "4.5"[..1] == "4" && "4.5"[2..] == "5";
  }

  /** A dot after the digits is part of the match, and `float` accepts it. */
  lemma RatingWithTrailingDot()
    ensures ParseRating("4. Good") == Some(4.0)
  {
    var t := "4. Good";
    assert FirstDigitFrom(t, 0) == Some(0);
    assert DigitRunEnd(t, 1) == 1 && DigitRunEnd(t, 0) == 1 && DigitRunEnd(t, 2) == 2;
    assert t[0..2] == "4.";
    assert RatingMatch(t) == Some("4.");
    SplitOnceAt("4.", '.', 1);
    assert "4."[..1] == "4" && "4."[2..] == "";
  }

  lemma RatingWithoutDigits()
    ensures ParseRating("No rating") == None
  {
    assert FirstDigitFrom("No rating", 0) == None;
  }

  // ---------------------------------------------------------------- review count (`_extract_reviews_count`)

  /** `_extract_reviews_count` after the selector: `int` of the first maximal digit run, 0 when the
      text has no digit. */
  function ParseReviewsCount(text: string): nat {
    match FirstDigitFrom(text, 0)
    case None => 0
    case Some(i) => DigitsValue(text[i..DigitRunEnd(text, i)])
  }

  /** The count is the value of the leftmost maximal digit run: no digit comes before `i`, the run
      `text[i..j]` is all digits and is not followed by one. */
  lemma ParseReviewsCountIsFirstRun(text: string)
    ensures !HasDigit(text) ==> ParseReviewsCount(text) == 0
    ensures HasDigit(text) ==> exists i: nat, j: nat | FirstRun(text, i, j) :: ParseReviewsCount(text) == DigitsValue(text[i..j])
  {
    match FirstDigitFrom(text, 0)
    case None =>
    case Some(i) =>
      assert FirstRun(text, i, DigitRunEnd(text, i));
  }

  /** `text[i..j]` is the leftmost maximal run of digits in `text`. */
  predicate FirstRun(text: string, i: nat, j: nat) {
    && i < j <= |text|
    && (forall k :: 0 <= k < i ==> !IsDigit(text[k]))
    && (forall k :: i <= k < j ==> IsDigit(text[k]))
    && (j < |text| ==> !IsDigit(text[j]))
  }

  /** Only the first run counts: a thousands separator cuts the number short. */
  lemma ReviewsCountStopsAtComma()
    ensures ParseReviewsCount("1,234 ratings") == 1
  {
    assert DigitRunEnd("1,234 ratings", 0) == 1;
    assert "1,234 ratings"[0..1] == "1";
  }

  lemma ReviewsCountInParentheses()
    ensures ParseReviewsCount("(87 reviews)") == 87
  {
    var s := "(87 reviews)";
    assert FirstDigitFrom(s, 0) == Some(1);
    assert DigitRunEnd(s, 1) == 3;
    assert s[1..3] == "87";
    assert DigitsValue("87") == 87 by {
      assert "87"[..1] == "8";
    }
  }

  lemma ReviewsCountWithoutDigits()
    ensures ParseReviewsCount("No reviews") == 0
  {
    assert FirstDigitFrom("No reviews", 0) == None;
  }

  // ---------------------------------------------------------------- specifications (`_extract_specifications`)

  /** The first colon of `text` is at `i`. */
  predicate FirstColonAt(text: string, i: nat) {
    i < |text| && text[i] == ':' && ':' !in text[..i]
  }

  /** One specification item: text with a colon is split at the first colon into a stripped key and
      a stripped value; text without one is skipped. */
  function SpecEntry(text: string): Option<(string, string)> {
    if ':' in text then
      var (key, value) := SplitOnce(text, ':');
      Some((Strip(key), Strip(value)))
    else None
  }

  /** An item contributes exactly when it has a colon, and then it contributes the stripped text
      before and after its first colon. */
  lemma SpecEntrySplitsAtFirstColon(text: string)
    ensures SpecEntry(text).Some? <==> ':' in text
    ensures SpecEntry(text).Some? ==>
              exists i: nat | FirstColonAt(text, i) :: SpecEntry(text).value == (Strip(text[..i]), Strip(text[i + 1..]))
  {
    if ':' in text {
      var (key, value) := SplitOnce(text, ':');
      assert FirstColonAt(text, |key|) && text[..|key|] == key && text[|key| + 1..] == value;
    }
  }

  /** Keys never contain a colon; values may. */
  lemma SpecEntryKeyHasNoColon(text: string)
    ensures SpecEntry(text).Some? ==> ':' !in SpecEntry(text).value.0
  {
    if ':' in text {
      var key := SplitOnce(text, ':').0;
      var r := Strip(key);
      var i: nat :| InfixAmidSpace(key, i, r);
    }
  }

  /** An item written `key: value`, whose key has no colon and whose parts have no surrounding
      whitespace, gives back that key and that value; colons inside the value stay in it. */
  lemma SpecEntryOfKeyValue(key: string, value: string)
    requires ':' !in key
    requires key != [] && !IsSpace(key[0]) && !IsSpace(key[|key| - 1])
    requires value != [] && !IsSpace(value[0]) && !IsSpace(value[|value| - 1])
    ensures SpecEntry(key + ": " + value) == Some((key, value))
  {
    var text := key + ": " + value;
    assert text[..|key|] == key;
    assert text[|key| + 1..] == " " + value;
    SplitOnceAt(text, ':', |key|);
    SpecEntryOfSplit(text, key, " " + value);
    StripLeadingSpace(value);
    StripNothing(key);
  }

  lemma SpecEntryOfSplit(text: string, key: string, value: string)
    requires ':' in text && SplitOnce(text, ':') == (key, value)
    ensures SpecEntry(text) == Some((Strip(key), Strip(value)))
  {
  }

  lemma StripNothing(s: string)
    requires s != [] && !IsSpace(s[0]) && !IsSpace(s[|s| - 1])
    ensures Strip(s) == s
  {
  }

  lemma StripLeadingSpace(s: string)
    requires s != [] && !IsSpace(s[0]) && !IsSpace(s[|s| - 1])
    ensures Strip(" " + s) == s
  {
    assert (" " + s)[1..] == s;
    assert TrimStart(" " + s) == s;
  }
}
