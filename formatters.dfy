/** Amount display helpers of src/utils/formatters.js: thousands separators and their removal. */
module Formatters {
  import opened Text

  predicate IsDigitOrDot(c: char) { IsDigit(c) || c == '.' }

  predicate NotComma(c: char) { c != ',' }

  /** Number.MAX_SAFE_INTEGER: below it `parseInt` on a digit string is exact. */
  const MaxSafeInteger: nat := 9007199254740991

  /** The argument of `formatAmount`: a string, a whole number, or null/undefined. */
  datatype AmountValue = Str(s: string) | Num(n: nat) | Nothing

  /** `n.toLocaleString("en-US")` applied to the numeral `d`: groups of three digits from the right, joined by ','. */
  function GroupThousands(d: string): (r: string)
    decreases |d|
  {
    if |d| <= 3 then d else GroupThousands(d[..|d| - 3]) + ("," + d[|d| - 3..])
  }

  /** Filtering a grouped numeral with any test that keeps its digits and drops ',' gives back the numeral. */
  lemma {:induction false} KeepOfGrouped(d: string, p: char -> bool)
    requires forall i :: 0 <= i < |d| ==> p(d[i])
    requires !p(',')
    ensures Keep(GroupThousands(d), p) == d
    decreases |d|
  {
    if |d| <= 3 {
      KeepAll(d, p);
    } else {
      var head, tail := d[..|d| - 3], d[|d| - 3..];
      assert forall i :: 0 <= i < |head| ==> p(head[i]) by {
        forall i | 0 <= i < |head| ensures p(head[i]) { assert head[i] == d[i]; }
      }
      assert forall i :: 0 <= i < |tail| ==> p(tail[i]) by {
        forall i | 0 <= i < |tail| ensures p(tail[i]) { assert tail[i] == d[|d| - 3 + i]; }
      }
      KeepOfGrouped(head, p);
      var g := GroupThousands(head);
      var rest := "," + tail;
      KeepConcat(",", tail, p);
      assert Keep(",", p) == [] + Keep([], p);
      KeepAll(tail, p);
      assert Keep(rest, p) == tail;
      KeepConcat(g, rest, p);
      assert Keep(g + rest, p) == head + tail;
      assert GroupThousands(d) == g + rest;
      assert head + tail == d;
    }
  }

  /** A grouped digit string holds only digits and commas. */
  lemma {:induction false} GroupedCharacters(d: string)
    requires AllDigits(d)
    ensures forall i :: 0 <= i < |GroupThousands(d)| ==> IsDigit(GroupThousands(d)[i]) || GroupThousands(d)[i] == ','
    decreases |d|
  {
    if |d| > 3 {
      GroupedCharacters(d[..|d| - 3]);
    }
  }

  /** `value.toString().replace(/[^\d.]/g, "")`. */
  function Cleaned(s: string): (r: string)
    ensures forall i :: 0 <= i < |r| ==> IsDigitOrDot(r[i])
  {
    Keep(s, IsDigitOrDot)
  }

  lemma {:induction false} PiecesAreDigits(s: string)
    requires forall i :: 0 <= i < |s| ==> IsDigitOrDot(s[i])
    ensures forall k :: 0 <= k < |SplitOn(s, '.')| ==> AllDigits(SplitOn(s, '.')[k])
    decreases |s|
  {
    if s != [] {
      PiecesAreDigits(s[1..]);
    }
  }

  /** `parts[0]` of the cleaned text split at '.': the whole part. */
  function WholeDigits(s: string): (w: string)
    ensures AllDigits(w)
  {
    PiecesAreDigits(Cleaned(s));
    SplitOn(Cleaned(s), '.')[0]
  }

  /** `parts[1] || ""`: the text between the first and the second '.'. */
  function DecimalDigits(s: string): (d: string)
    ensures AllDigits(d)
  {
    PiecesAreDigits(Cleaned(s));
    var parts := SplitOn(Cleaned(s), '.');
    if |parts| > 1 then parts[1] else ""
  }

  /** The decimal part limited to two places by `substring(0, 2)`. */
  function TwoPlaces(d: string): (r: string)
    ensures |r| <= 2
    ensures |d| <= 2 ==> r == d
    ensures |d| > 2 ==> r == d[..2]
  {
    if |d| > 2 then d[..2] else d
  }

  /** `parseInt(wholePart, 10).toLocaleString("en-US")` when the whole part is non-empty. */
  function FormatWhole(w: string): (grouped: string)
    requires AllDigits(w)
  {
    if w != "" then GroupThousands(NatToString(DigitsValue(w))) else w
  }

  /** `formatted += "." + decimalPart` only when the decimal part is non-empty. */
  function WithDecimals(whole: string, d: string): (text: string) {
    if d != "" then whole + ("." + d) else whole
  }

  /** `formatAmount` on a string argument. */
  function FormatText(s: string): (formatted: string)
    requires DigitsValue(WholeDigits(s)) <= MaxSafeInteger
  {
    if s == "" then "" else WithDecimals(FormatWhole(WholeDigits(s)), TwoPlaces(DecimalDigits(s)))
  }

  predicate WithinSafeRange(v: AmountValue) {
    match v
    case Str(s) => DigitsValue(WholeDigits(s)) <= MaxSafeInteger
    case Num(n) => n <= MaxSafeInteger
    case Nothing => true
  }

  /** `formatAmount(value)`: falsy arguments ("", 0, null, undefined) give "". */
  function FormatAmount(v: AmountValue): (r: string)
    requires WithinSafeRange(v)
    ensures v == Str("") || v == Num(0) || v == Nothing ==> r == ""
  {
    match v
    case Str(s) => FormatText(s)
    case Num(n) =>
      if n == 0 then ""
      else
        var t := NatToString(n);
        SplitDigitsOnly(t);
        KeepAll(t, IsDigitOrDot);
        ValueOfNatToString(n);
        FormatText(t)
    case Nothing => ""
  }

  lemma SplitDigitsOnly(t: string)
    requires AllDigits(t)
    ensures SplitOn(Keep(t, IsDigitOrDot), '.') == [t]
  {
    KeepAll(t, IsDigitOrDot);
    SplitWithoutSeparator(t, '.');
  }

  /** `parseAmount(formattedValue)`: every ',' is deleted and every other character is kept. */
  function ParseAmount(s: string): (r: string)
    ensures ',' !in r
    ensures forall c :: c != ',' ==> (c in r <==> c in s)
    ensures ',' !in s ==> r == s
  {
    CommaFreeFacts(s);
    Keep(s, NotComma)
  }

  lemma CommaFreeFacts(s: string)
    ensures forall c :: c in Keep(s, NotComma) <==> c in s && NotComma(c)
    ensures ',' !in s ==> Keep(s, NotComma) == s
  {
    forall c ensures c in Keep(s, NotComma) <==> c in s && NotComma(c) {
      KeepMembers(s, NotComma, c);
    }
    if ',' !in s {
      KeepAll(s, NotComma);
    }
  }

  /** `parseAmount` works character by character: it distributes over concatenation. */
  lemma ParseAmountConcat(a: string, b: string)
    ensures ParseAmount(a + b) == ParseAmount(a) + ParseAmount(b)
  {
    KeepConcat(a, b, NotComma);
  }

  /** The canonical numeral `parseInt(w).toString()` of a digit string: leading zeros dropped, "0" if nothing is left. */
  function CanonicalDigits(w: string): (c: string)
    requires AllDigits(w)
  {
    if StripLeadingZeros(w) == "" then "0" else StripLeadingZeros(w)
  }

  /**
   * What `formatAmount` produces, stated without `parseInt`: the whole part without its leading
   * zeros, grouped in threes (empty if the input has no whole digits), then '.' and the first
   * two decimal digits, truncated and not rounded, only if there are any.
   */
  lemma FormatTextShape(s: string)
    requires DigitsValue(WholeDigits(s)) <= MaxSafeInteger
    ensures var w, d := WholeDigits(s), DecimalDigits(s);
            FormatText(s) == WithDecimals(if w == "" then "" else GroupThousands(CanonicalDigits(w)), TwoPlaces(d))
  {
    var w := WholeDigits(s);
    NatToStringOfDigits(w);
    if s == "" {
      assert Cleaned(s) == "";
    }
  }

  /** The output holds only digits and ',' and at most one '.', which is followed by one or two digits and nothing else. */
  lemma FormatTextCharacters(s: string)
    requires DigitsValue(WholeDigits(s)) <= MaxSafeInteger
    ensures var r := FormatText(s);
            forall i :: 0 <= i < |r| ==> IsDigit(r[i]) || r[i] == ',' || (r[i] == '.' && 1 <= |r| - 1 - i <= 2 && AllDigits(r[i + 1..]))
  {
    var w, d := WholeDigits(s), TwoPlaces(DecimalDigits(s));
    var W := FormatWhole(w);
    if w != "" {
      GroupedCharacters(NatToString(DigitsValue(w)));
    }
    assert forall i :: 0 <= i < |W| ==> IsDigit(W[i]) || W[i] == ',';
    if s != "" && d != "" {
      var r := W + ("." + d);
      assert forall i :: |W| < i < |r| ==> r[i] == d[i - |W| - 1];
      assert r[|W| + 1..] == d;
    }
  }

  /** Cleaning and splitting a formatted amount recovers the canonical whole digits and the kept decimals. */
  lemma PiecesOfFormatted(c: string, d: string)
    requires c == "" || IsCanonicalNumeral(c)
    requires AllDigits(d) && |d| <= 2
    ensures var r := WithDecimals(if c == "" then "" else GroupThousands(c), d);
            WholeDigits(r) == c && DecimalDigits(r) == d
  {
    var W := if c == "" then "" else GroupThousands(c);
    var r := WithDecimals(W, d);
    if c != "" {
      KeepOfGrouped(c, IsDigitOrDot);
    }
    assert Keep(W, IsDigitOrDot) == c;
    assert '.' !in c;
    if d == "" {
      SplitWithoutSeparator(c, '.');
    } else {
      KeepConcat(W, "." + d, IsDigitOrDot);
      KeepAll("." + d, IsDigitOrDot);
      assert Cleaned(r) == c + ("." + d);
      SplitAtFirst(c, d, '.');
      SplitWithoutSeparator(d, '.');
    }
  }

  lemma CanonicalDigitsOfCanonical(c: string)
    requires IsCanonicalNumeral(c)
    ensures CanonicalDigits(c) == c
  {
    if c[0] == '0' {
      assert c == "0";
      assert StripLeadingZeros(c) == StripLeadingZeros("");
    }
  }

  lemma CanonicalDigitsValue(w: string)
    requires AllDigits(w) && w != ""
    ensures IsCanonicalNumeral(CanonicalDigits(w))
    ensures DigitsValue(CanonicalDigits(w)) == DigitsValue(w)
  {
    StripLeadingZerosValue(w);
  }

  /** Formatting an already formatted amount changes nothing, because existing commas are stripped first. */
  lemma FormatTextIdempotent(s: string)
    requires DigitsValue(WholeDigits(s)) <= MaxSafeInteger
    ensures DigitsValue(WholeDigits(FormatText(s))) <= MaxSafeInteger
    ensures FormatText(FormatText(s)) == FormatText(s)
  {
    FormatTextShape(s);
    var w, d := WholeDigits(s), TwoPlaces(DecimalDigits(s));
    var c := if w == "" then "" else CanonicalDigits(w);
    if w != "" {
      CanonicalDigitsValue(w);
    }
    var r := FormatText(s);
    if s == "" {
      assert r == "";
      assert Cleaned("") == "";
    } else {
      assert r == WithDecimals(if c == "" then "" else GroupThousands(c), d);
      PiecesOfFormatted(c, d);
      if r != "" {
        FormatTextShape(r);
        if c != "" {
          CanonicalDigitsOfCanonical(c);
        }
      }
    }
  }

  /** The idempotence of `formatAmount` on every argument kind. */
  lemma FormatAmountIdempotent(v: AmountValue)
    requires WithinSafeRange(v)
    ensures WithinSafeRange(Str(FormatAmount(v)))
    ensures FormatAmount(Str(FormatAmount(v))) == FormatAmount(v)
  {
    match v
    case Str(s) => FormatTextIdempotent(s);
    case Num(n) =>
      if n != 0 {
        var t := NatToString(n);
        SplitDigitsOnly(t);
        ValueOfNatToString(n);
        FormatTextIdempotent(t);
      }
    case Nothing =>
  }

  /** A whole number is printed with its digits grouped in threes. */
  lemma FormatAmountOfNumber(n: nat)
    requires 0 < n <= MaxSafeInteger
    ensures FormatAmount(Num(n)) == GroupThousands(NatToString(n))
  {
    var t := NatToString(n);
    SplitDigitsOnly(t);
    ValueOfNatToString(n);
    CanonicalDigitsOfCanonical(t);
    FormatTextShape(t);
  }

  /** `w` followed, if `d` is non-empty, by '.' and `d`. */
  function AmountText(w: string, d: string): (text: string) { WithDecimals(w, d) }

  /** An amount written as digits, at most one '.', and digits is cleaned and split back into its two parts. */
  lemma PiecesOfAmountText(w: string, d: string)
    requires AllDigits(w) && AllDigits(d)
    ensures WholeDigits(AmountText(w, d)) == w && DecimalDigits(AmountText(w, d)) == d
  {
    var s := AmountText(w, d);
    KeepAll(s, IsDigitOrDot);
    assert '.' !in w;
    if d == "" {
      SplitWithoutSeparator(w, '.');
    } else {
      SplitAtFirst(w, d, '.');
      SplitWithoutSeparator(d, '.');
    }
  }

  /**
   * `parseAmount(formatAmount(s)) == s` for a canonical amount: a whole part without leading zeros
   * (or "0", or nothing) and at most two decimal digits.
   */
  lemma ParseFormatRoundTrip(w: string, d: string)
    requires w == "" || IsCanonicalNumeral(w)
    requires AllDigits(d) && |d| <= 2
    requires DigitsValue(w) <= MaxSafeInteger
    ensures DigitsValue(WholeDigits(AmountText(w, d))) <= MaxSafeInteger
    ensures ParseAmount(FormatText(AmountText(w, d))) == AmountText(w, d)
  {
    var s := AmountText(w, d);
    PiecesOfAmountText(w, d);
    if s != "" {
      FormatTextShape(s);
      var W := if w == "" then "" else GroupThousands(CanonicalDigits(w));
      if w != "" {
        CanonicalDigitsOfCanonical(w);
        KeepOfGrouped(w, NotComma);
      }
      assert ParseAmount(W) == w;
      if d != "" {
        ParseAmountConcat(W, "." + d);
        KeepAll("." + d, NotComma);
      }
    } else {
      assert Keep("", NotComma) == "";
    }
  }
}
