/** The Option type used wherever the source has a value that may be null or undefined. */
module Wrappers {
  datatype Option<+T> = None | Some(value: T) {
    /** JavaScript's `x || d` on a possibly absent value. */
    function GetOr(default: T): (value: T) {
      match this
      case Some(v) => v
      case None => default
    }
  }
}

/** Character classes, filters and decimal numerals shared by the validators and formatters. */
module Text {
  import opened Wrappers

  /** `\d` in a JavaScript regular expression without the `u` flag: an ASCII digit. */
  predicate IsDigit(c: char) { '0' <= c <= '9' }

  predicate AllDigits(s: string) { forall i :: 0 <= i < |s| ==> IsDigit(s[i]) }

  /** `\s` in a JavaScript regular expression: WhiteSpace and LineTerminator code points. */
  predicate IsWhitespace(c: char) {
    || c in {'\t', '\n', '\U{000B}', '\U{000C}', '\r', ' ', '\U{00A0}', '\U{1680}'}
    || ('\U{2000}' <= c <= '\U{200A}')
    || c in {'\U{2028}', '\U{2029}', '\U{202F}', '\U{205F}', '\U{3000}', '\U{FEFF}'}
  }

  predicate NotWhitespace(c: char) { !IsWhitespace(c) }

  /** JavaScript truthiness of a string that may be absent: `s || d`. */
  function OrDefault(s: Option<string>, d: string): (r: string)
    ensures s.Some? && s.value != "" ==> r == s.value
    ensures (s.None? || s.value == "") ==> r == d
  {
    if s.Some? && s.value != "" then s.value else d
  }

  /** The characters of `s` that satisfy `p`, in order: `s.replace(/[^p]/g, "")`. */
  function Keep(s: string, p: char -> bool): (r: string)
    ensures |r| <= |s|
    ensures forall i :: 0 <= i < |r| ==> p(r[i])
  {
    if s == [] then [] else (if p(s[0]) then [s[0]] else []) + Keep(s[1..], p)
  }

  lemma {:induction false} KeepConcat(a: string, b: string, p: char -> bool)
    ensures Keep(a + b, p) == Keep(a, p) + Keep(b, p)
  {
    if a == [] {
      assert a + b == b;
    } else {
      assert (a + b)[0] == a[0] && (a + b)[1..] == a[1..] + b;
      KeepConcat(a[1..], b, p);
      var head := if p(a[0]) then [a[0]] else [];
      assert Keep(a + b, p) == head + Keep(a[1..] + b, p);
      assert Keep(a, p) == head + Keep(a[1..], p);
    }
  }

  lemma {:induction false} KeepAll(s: string, p: char -> bool)
    requires forall i :: 0 <= i < |s| ==> p(s[i])
    ensures Keep(s, p) == s
  {
    if s != [] {
      KeepAll(s[1..], p);
    }
  }

  lemma {:induction false} KeepNone(s: string, p: char -> bool)
    requires forall i :: 0 <= i < |s| ==> !p(s[i])
    ensures Keep(s, p) == ""
  {
    if s != [] {
      KeepNone(s[1..], p);
    }
  }

  /** Every kept character comes from `s`, and every character of `s` satisfying `p` is kept. */
  lemma {:induction false} KeepMembers(s: string, p: char -> bool, c: char)
    ensures c in Keep(s, p) <==> c in s && p(c)
  {
    if s != [] {
      KeepMembers(s[1..], p, c);
    }
  }

  /** `s.replace(/\s/g, "")`. */
  function StripWhitespace(s: string): (stripped: string) { Keep(s, NotWhitespace) }

  /** A `substring(i, j)` call with constant `i <= j`: both ends are clamped to the length. */
  function Substring(s: string, i: nat, j: nat): (r: string)
    requires i <= j
    ensures |r| == (if j <= |s| then j - i else if i <= |s| then |s| - i else 0)
  {
    var hi := if j <= |s| then j else |s|;
    var lo := if i <= hi then i else hi;
    s[lo..hi]
  }

  /** `s.split(sep)`: the maximal separator-free pieces of `s`; there is always at least one. */
  function SplitOn(s: string, sep: char): (parts: seq<string>)
    ensures |parts| >= 1
    ensures forall k :: 0 <= k < |parts| ==> sep !in parts[k]
    ensures (sep in s) <==> |parts| > 1
    decreases |s|
  {
    if s == [] then [""]
    else
      var rest := SplitOn(s[1..], sep);
      if s[0] == sep then [""] + rest else [[s[0]] + rest[0]] + rest[1..]
  }

  lemma {:induction false} SplitWithoutSeparator(a: string, sep: char)
    requires sep !in a
    ensures SplitOn(a, sep) == [a]
  {
    if a != [] {
      SplitWithoutSeparator(a[1..], sep);
      assert [a[0]] + a[1..] == a;
    }
  }

  /** Splitting at the first separator: the piece before it, then the pieces of what follows. */
  lemma {:induction false} SplitAtFirst(a: string, b: string, sep: char)
    requires sep !in a
    ensures SplitOn(a + ([sep] + b), sep) == [a] + SplitOn(b, sep)
  {
    if a == [] {
      assert a + ([sep] + b) == [sep] + b;
      assert ([sep] + b)[1..] == b;
    } else {
      assert (a + ([sep] + b))[0] == a[0] && (a + ([sep] + b))[1..] == a[1..] + ([sep] + b);
      SplitAtFirst(a[1..], b, sep);
      assert [a[0]] + a[1..] == a;
    }
  }

  /** `parts.join(sep)`. */
  function JoinWith(parts: seq<string>, sep: char): (joined: string)
    requires |parts| >= 1
  {
    if |parts| == 1 then parts[0] else parts[0] + [sep] + JoinWith(parts[1..], sep)
  }

  /** Joining the pieces of a split with the same separator gives back the text. */
  lemma {:induction false} JoinSplit(s: string, sep: char)
    ensures JoinWith(SplitOn(s, sep), sep) == s
    decreases |s|
  {
    if s != [] {
      var rest := SplitOn(s[1..], sep);
      JoinSplit(s[1..], sep);
      if s[0] == sep {
        assert SplitOn(s, sep)[1..] == rest;
      } else {
        var parts := SplitOn(s, sep);
        assert parts[0] == [s[0]] + rest[0] && parts[1..] == rest[1..];
        if |rest| > 1 {
          assert JoinWith(rest, sep) == rest[0] + [sep] + JoinWith(rest[1..], sep);
        }
      }
      assert [s[0]] + s[1..] == s;
    }
  }

  // Decimal numerals: `toString()` of a whole number and `parseInt(s, 10)` of a digit string.

  function DigitChar(d: nat): (c: char)
    requires d < 10
    ensures IsDigit(c)
  {
    ('0' as int + d) as char
  }

  function DigitValue(c: char): (d: nat)
    requires IsDigit(c)
    ensures d < 10 && DigitChar(d) == c
  {
    c as int - '0' as int
  }

  /** A numeral without superfluous leading zeros: "0" or a digit string starting with 1-9. */
  predicate IsCanonicalNumeral(s: string) {
    AllDigits(s) && |s| >= 1 && (s[0] == '0' ==> |s| == 1)
  }

  /** `n.toString()` for a whole number. */
  function NatToString(n: nat): (r: string)
    ensures IsCanonicalNumeral(r)
    ensures r == "0" <==> n == 0
    decreases n
  {
    if n < 10 then [DigitChar(n)] else NatToString(n / 10) + [DigitChar(n % 10)]
  }

  /** The value of a digit string read as base 10; the empty string reads as 0. */
  function DigitsValue(s: string): (value: nat)
    requires AllDigits(s)
  {
    if s == [] then 0 else DigitsValue(s[..|s| - 1]) * 10 + DigitValue(s[|s| - 1])
  }

  lemma {:induction false} ValueOfNatToString(n: nat)
    ensures DigitsValue(NatToString(n)) == n
    decreases n
  {
    if n >= 10 {
      var p := NatToString(n / 10);
      assert (p + [DigitChar(n % 10)])[..|p|] == p;
      ValueOfNatToString(n / 10);
    }
  }

  lemma {:induction false} LeadingNonzeroIsPositive(s: string)
    requires AllDigits(s) && |s| >= 1 && s[0] != '0'
    ensures DigitsValue(s) >= 1
    decreases |s|
  {
    if |s| > 1 {
      LeadingNonzeroIsPositive(s[..|s| - 1]);
    }
  }

  /** Reading a canonical numeral and printing the number gives the numeral back. */
  lemma {:induction false} NatToStringOfValue(s: string)
    requires IsCanonicalNumeral(s)
    ensures NatToString(DigitsValue(s)) == s
    decreases |s|
  {
    if |s| > 1 {
      var p := s[..|s| - 1];
      LeadingNonzeroIsPositive(p);
      NatToStringOfValue(p);
      assert p + [s[|s| - 1]] == s;
    }
  }

  /** `s` with its leading '0' characters removed. */
  function StripLeadingZeros(s: string): (r: string)
    ensures |r| <= |s|
    ensures r == [] || r[0] != '0'
    ensures AllDigits(s) ==> AllDigits(r)
  {
    if s != [] && s[0] == '0' then StripLeadingZeros(s[1..]) else s
  }

  lemma {:induction false} LeadingZeroValue(s: string)
    requires AllDigits(s)
    ensures DigitsValue(['0'] + s) == DigitsValue(s)
    decreases |s|
  {
    if s != [] {
      assert (['0'] + s)[..|s|] == ['0'] + s[..|s| - 1];
      LeadingZeroValue(s[..|s| - 1]);
    }
  }

  lemma {:induction false} StripLeadingZerosValue(s: string)
    requires AllDigits(s)
    ensures DigitsValue(StripLeadingZeros(s)) == DigitsValue(s)
  {
    if s != [] && s[0] == '0' {
      StripLeadingZerosValue(s[1..]);
      assert ['0'] + s[1..] == s;
      LeadingZeroValue(s[1..]);
    }
  }

  /** `parseInt(s, 10).toString()` of a digit string: "0" when every digit is 0, else the numeral without its leading zeros. */
  lemma NatToStringOfDigits(s: string)
    requires AllDigits(s)
    ensures NatToString(DigitsValue(s)) == (if StripLeadingZeros(s) == "" then "0" else StripLeadingZeros(s))
  {
    StripLeadingZerosValue(s);
    var t := StripLeadingZeros(s);
    if t != "" {
      NatToStringOfValue(t);
    }
  }
}
