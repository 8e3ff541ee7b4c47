/** The Hanlon prioritization page: score suggestions read off the latest
    data row, and the priority score (A + B) * C. Scores are exact reals. */
module Hanlon {
  import opened Wrappers
  import opened Strings
  import opened Tables

  predicate AllDigits(s: string) {
    forall i :: 0 <= i < |s| ==> IsDigit(s[i])
  }

  function Pow10(n: nat): (p: nat)
    ensures p >= 1
  {
    if n == 0 then 1 else 10 * Pow10(n - 1)
  }

  /** Unsigned decimal digits with at most one point and at least one digit. */
  function ParseUnsigned(body: string): Option<real> {
    var parts := Split(body, '.');
    if |parts| > 2 then None
    else
      var whole := parts[0];
      var frac := if |parts| == 2 then parts[1] else "";
      if !AllDigits(whole) || !AllDigits(frac) || (whole == "" && frac == "") then None
      else Some(DigitsValue(whole) as real + DigitsValue(frac) as real / Pow10(|frac|) as real)
  }

  /** Python's `float(s)` on plain decimals: surrounding whitespace, an
      optional sign, then `ParseUnsigned`. Other spellings are treated as
      unparsable. */
  function ParseFloat(s: string): Option<real> {
    ParseSigned(Strip(s))
  }

  /** An optional sign, then `ParseUnsigned`. */
  function ParseSigned(t: string): Option<real> {
    if t != [] && (t[0] == '-' || t[0] == '+') then
      match ParseUnsigned(t[1..])
      case None => None
      case Some(v) => Some(if t[0] == '-' then -v else v)
    else ParseUnsigned(t)
  }

  lemma ParseUnsignedNat(m: nat)
    ensures ParseUnsigned(NatToString(m)) == Some(m as real)
  {
    var digits := NatToString(m);
    assert '.' !in digits by {
      forall i | 0 <= i < |digits| ensures digits[i] != '.' { assert IsDigit(digits[i]); }
    }
    SplitNoSep(digits, '.');
    var parts := Split(digits, '.');
    assert |parts| == 1 && parts[0] == digits;
    assert AllDigits(digits) && AllDigits("");
    assert DigitsValue("") == 0 && Pow10(0) == 1;
    DigitsOfNat(m);
  }

  lemma DigitNotSpace(c: char)
    requires IsDigit(c)
    ensures !IsSpace(c)
  {
  }

  /** The rendering of an integer has no surrounding whitespace. */
  lemma IntStringNoEdge(n: int)
    ensures Strip(IntToString(n)) == IntToString(n)
  {
    var m: nat := if n < 0 then -n else n;
    var digits := NatToString(m);
    DigitNotSpace(digits[0]);
    DigitNotSpace(digits[|digits| - 1]);
    if n < 0 {
      var s := "-" + digits;
      assert s[0] == '-' && s[|s| - 1] == digits[|digits| - 1];
      assert NoEdgeSpace(s);
    } else {
      assert NoEdgeSpace(digits);
    }
  }

  /** The rendering of an integer parses back to it. */
  lemma ParseIntString(n: int)
    ensures ParseFloat(IntToString(n)) == Some(n as real)
  {
    IntStringNoEdge(n);
    ParseIntSigned(n);
  }

  lemma ParseIntSigned(n: int)
    ensures ParseSigned(IntToString(n)) == Some(n as real)
  {
    if n < 0 {
      ParseNegative(n);
    } else {
      ParseNonNegative(n);
    }
  }

  lemma ParseNegative(n: int)
    requires n < 0
    ensures ParseSigned(IntToString(n)) == Some(n as real)
  {
    var m: nat := -n;
    assert IntToString(n) == "-" + NatToString(m);
    ParseUnsignedNat(m);
    ParseMinus(NatToString(m), m as real);
  }

  /** A minus sign negates what follows it. */
  lemma ParseMinus(u: string, v: real)
    requires ParseUnsigned(u) == Some(v)
    ensures ParseSigned("-" + u) == Some(-v)
  {
    var t := "-" + u;
    assert t[0] == '-' && t[1..] == u;
  }

  lemma ParseNonNegative(n: int)
    requires n >= 0
    ensures ParseSigned(IntToString(n)) == Some(n as real)
  {
    var t := IntToString(n);
    assert t == NatToString(n);
    assert IsDigit(t[0]);
    ParseUnsignedNat(n);
  }

  /** `str(v).replace(',', '')`: thousands separators removed. */
  function WithoutCommas(v: Value): string {
    ReplaceAll(Show(v), ",", "")
  }

  /** Strict thresholds on the event count. */
  function SizeForCount(x: real): (s: int)
    ensures 5 <= s <= 8
  {
    if x > 1000.0 then 8 else if x > 500.0 then 7 else if x > 100.0 then 6 else 5
  }

  /** A larger event count never lowers the size suggestion. */
  lemma SizeForCountMonotone(x: real, y: real)
    requires x <= y
    ensures SizeForCount(x) <= SizeForCount(y)
  {
  }

  /** The size suggestion: 5 unless the event count is present and parses. */
  function SizeSuggestion(count: Value): (s: int)
    ensures 5 <= s <= 8
    ensures count == Missing ==> s == 5
    ensures ParseFloat(WithoutCommas(count)).None? ==> s == 5
  {
    if count == Missing then 5
    else
      match ParseFloat(WithoutCommas(count))
      case None => 5
      case Some(x) => SizeForCount(x)
  }

  /** A numeric event count is compared as the number itself. */
  lemma SizeOfNumber(n: int)
    ensures SizeSuggestion(Num(n)) == SizeForCount(n as real)
  {
    var s := IntToString(n);
    assert ',' !in s by {
      var m: nat := if n < 0 then -n else n;
      forall i | 0 <= i < |NatToString(m)| ensures NatToString(m)[i] != ',' { assert IsDigit(NatToString(m)[i]); }
      assert s == (if n < 0 then "-" else "") + NatToString(m);
    }
    ContainsChar(s, ',');
    ReplaceAbsent(s, ",", "");
    ParseIntString(n);
  }

  /** The seriousness suggestion from the quartile text, Q4 checked first. */
  function SeriousnessFor(quartile: string): (s: int)
    ensures 1 <= s <= 10
  {
    if Contains(quartile, "Q4") then 9
    else if Contains(quartile, "Q3") then 7
    else if Contains(quartile, "Q1") || Contains(quartile, "Q2") then 4
    else 5
  }

  /** `str(latest_data.get('Quartile', ''))`; an absent or missing quartile
      ("" or "nan") mentions no quartile and yields 5. */
  function SeriousnessSuggestion(quartile: Value): (s: int)
    ensures 1 <= s <= 10
    ensures quartile == Missing ==> s == 5
  {
    if quartile == Missing then
      assert !Contains("nan", "Q4") && !Contains("nan", "Q3") && !Contains("nan", "Q1") && !Contains("nan", "Q2") by {
        NanHasNoQuartile();
      }
      SeriousnessFor(Show(quartile))
    else SeriousnessFor(Show(quartile))
  }

  lemma NanHasNoQuartile()
    ensures !Contains("nan", "Q4") && !Contains("nan", "Q3") && !Contains("nan", "Q1") && !Contains("nan", "Q2")
  {
    assert 'Q' !in "nan";
    AbsentFirstChar("nan", "Q4");
    AbsentFirstChar("nan", "Q3");
    AbsentFirstChar("nan", "Q1");
    AbsentFirstChar("nan", "Q2");
  }

  /** A text without the pattern's first character does not contain it. */
  lemma {:induction false} AbsentFirstChar(s: string, p: string)
    requires p != [] && p[0] !in s
    ensures !Contains(s, p)
    decreases |s|
  {
    if s != [] {
      assert s[0] != p[0];
      AbsentFirstChar(s[1..], p);
    }
  }

  /** A quartile text naming Q4 scores highest whatever else it names, and
      the suggestions rank Q4 > Q3 > default > Q1/Q2. */
  lemma SeriousnessRanks(q: string)
    ensures Contains(q, "Q4") ==> SeriousnessFor(q) == 9
    ensures !Contains(q, "Q4") && Contains(q, "Q3") ==> SeriousnessFor(q) == 7
    ensures SeriousnessFor(q) == 4 ==> Contains(q, "Q1") || Contains(q, "Q2")
    ensures SeriousnessFor(q) == 5 <==> !Contains(q, "Q1") && !Contains(q, "Q2") && !Contains(q, "Q3") && !Contains(q, "Q4")
  {
  }

  /** Both suggestions are valid starting values of their 1..10 sliders. */
  lemma SuggestionsInSliderRange(count: Value, quartile: Value)
    ensures 1 <= SizeSuggestion(count) <= 10
    ensures 1 <= SeriousnessSuggestion(quartile) <= 10
  {
  }

  /** (A + B) * C with A, B from 1..10 and C from 0.5..1.5. */
  function PriorityScore(a: int, b: int, c: real): (r: real)
    requires 1 <= a <= 10 && 1 <= b <= 10 && 0.5 <= c <= 1.5
    ensures 1.0 <= r <= 30.0
  {
    var sum := (a + b) as real;
    assert sum * 0.5 <= sum * c <= sum * 1.5 by { MulMonotone(sum, 0.5, c); MulMonotone(sum, c, 1.5); }
    sum * c
  }

  lemma MulMonotone(x: real, y: real, z: real)
    requires 0.0 <= x && y <= z
    ensures x * y <= x * z
  {
    assert x * z - x * y == x * (z - y);
  }

  /** Raising any component never lowers the score. */
  lemma PriorityScoreMonotone(a: int, b: int, c: real, a': int, b': int, c': real)
    requires 1 <= a <= a' <= 10 && 1 <= b <= b' <= 10 && 0.5 <= c <= c' <= 1.5
    ensures PriorityScore(a, b, c) <= PriorityScore(a', b', c')
  {
    ProductMonotone((a + b) as real, (a' + b') as real, c, c');
  }

  lemma ProductMonotone(x: real, x': real, y: real, y': real)
    requires 0.0 <= x <= x' && 0.0 <= y <= y'
    ensures x * y <= x' * y'
  {
    MulMonotone(y, x, x');
    assert x * y <= x' * y by { assert x * y == y * x && x' * y == y * x'; }
    MulMonotone(x', y, y');
  }
}
