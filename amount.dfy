/**
 * The amount field that src/components/TransferFunds.jsx and src/components/FundWallet.jsx
 * share: the edit filter `/^\d*\.?\d*$/` and what `parseFloat` makes of the text it lets through.
 */
module AmountInput {
  import opened Wrappers
  import opened Text

  const AmountMessage := "Please enter a valid amount greater than 0"

  /** `^\d*\.?\d*$`: digits with at most one `.` among them. */
  predicate IsAmountText(s: string) {
    && (forall i :: 0 <= i < |s| ==> IsDigit(s[i]) || s[i] == '.')
    && (forall i, j :: 0 <= i < j < |s| && s[i] == '.' ==> s[j] != '.')
  }

  /** `value === "" || /^\d*\.?\d*$/.test(value)`: whether an edit of the field is kept. */
  predicate AcceptsEdit(value: string) {
    value == "" || IsAmountText(value)
  }

  predicate HasDigit(s: string) {
    exists i :: 0 <= i < |s| && IsDigit(s[i])
  }

  predicate HasNonzeroDigit(s: string) {
    exists i :: 0 <= i < |s| && IsDigit(s[i]) && s[i] != '0'
  }

  /** The index of the first `.`, or the length when there is none. */
  function DotIndex(s: string): (d: nat)
    ensures d <= |s|
    ensures forall i :: 0 <= i < d ==> s[i] != '.'
    ensures d < |s| ==> s[d] == '.'
  {
    if s == [] || s[0] == '.' then 0 else 1 + DotIndex(s[1..])
  }

  /** The digits before the point. */
  function Whole(s: string): (whole: string) {
    s[..DotIndex(s)]
  }

  /** The digits after the point, if there is one. */
  function Fraction(s: string): (fraction: string) {
    if DotIndex(s) < |s| then s[DotIndex(s) + 1..] else ""
  }

  lemma AmountParts(s: string)
    requires IsAmountText(s)
    ensures AllDigits(Whole(s)) && AllDigits(Fraction(s))
  {
    var d := DotIndex(s);
    assert forall i :: 0 <= i < d ==> Whole(s)[i] == s[i];
    if d < |s| {
      forall i | 0 <= i < |Fraction(s)|
        ensures IsDigit(Fraction(s)[i])
      {
        assert Fraction(s)[i] == s[d + 1 + i];
      }
    }
  }

  function Pow10(n: nat): (p: nat)
    ensures p >= 1
  {
    if n == 0 then 1 else 10 * Pow10(n - 1)
  }

  /**
   * `parseFloat(s)` on text the filter accepts, as an exact decimal: NaN, modelled as `None`,
   * when there is no digit at all.
   */
  function ParseFloat(s: string): (value: Option<real>)
    requires IsAmountText(s)
  {
    AmountParts(s);
    var w, f := Whole(s), Fraction(s);
    if w == "" && f == "" then None
    else Some(DigitsValue(w) as real + DigitsValue(f) as real / Pow10(|f|) as real)
  }

  /** `isNaN(amount) || amount <= 0`: the check both submit handlers start with. */
  predicate RejectsAmount(s: string)
    requires IsAmountText(s)
  {
    ParseFloat(s).None? || ParseFloat(s).value <= 0.0
  }

  /** `parseFloat(amount) <= 0` in the disabled rules, which is false for NaN. */
  predicate ParsesToNonPositive(s: string)
    requires IsAmountText(s)
  {
    ParseFloat(s).Some? && ParseFloat(s).value <= 0.0
  }

  /** A digit string is worth more than zero exactly when one of its digits is not `0`. */
  lemma {:induction false} DigitsValuePositive(s: string)
    requires AllDigits(s)
    ensures DigitsValue(s) > 0 <==> HasNonzeroDigit(s)
    decreases |s|
  {
    if s != [] {
      var p := s[..|s| - 1];
      assert forall i :: 0 <= i < |p| ==> p[i] == s[i];
      DigitsValuePositive(p);
      if HasNonzeroDigit(s) {
        var i :| 0 <= i < |s| && IsDigit(s[i]) && s[i] != '0';
        if i < |p| {
          assert IsDigit(p[i]) && p[i] != '0';
        }
      }
    }
  }

  /** The digits of the amount are those of its whole part and of its fraction. */
  lemma DigitsOfParts(s: string)
    requires IsAmountText(s)
    ensures HasDigit(s) <==> Whole(s) != "" || Fraction(s) != ""
    ensures HasNonzeroDigit(s) <==> HasNonzeroDigit(Whole(s)) || HasNonzeroDigit(Fraction(s))
  {
    AmountParts(s);
    var d := DotIndex(s);
    var w, f := Whole(s), Fraction(s);
    assert forall i :: 0 <= i < |w| ==> w[i] == s[i];
    assert forall i :: 0 <= i < |f| ==> f[i] == s[d + 1 + i];
    if HasDigit(s) {
      var i :| 0 <= i < |s| && IsDigit(s[i]);
      assert i < d || i > d;
      if i > d {
        assert f[i - d - 1] == s[i];
      }
    }
    if w != "" {
      assert IsDigit(s[0]);
    }
    if f != "" {
      assert IsDigit(s[d + 1]);
    }
    if HasNonzeroDigit(w) {
      var i :| 0 <= i < |w| && IsDigit(w[i]) && w[i] != '0';
      assert s[i] == w[i];
    }
    if HasNonzeroDigit(f) {
      var i :| 0 <= i < |f| && IsDigit(f[i]) && f[i] != '0';
      assert s[d + 1 + i] == f[i];
    }
    if HasNonzeroDigit(s) {
      var i :| 0 <= i < |s| && IsDigit(s[i]) && s[i] != '0';
      assert i < d || i > d;
      if i < d {
        assert IsDigit(w[i]) && w[i] != '0';
      } else {
        assert f[i - d - 1] == s[i];
        assert IsDigit(f[i - d - 1]) && f[i - d - 1] != '0';
      }
    }
  }

  /** `parseFloat` is NaN exactly on text without a digit: `""` and `"."`. */
  lemma ParseFloatNaN(s: string)
    requires IsAmountText(s)
    ensures ParseFloat(s).None? <==> !HasDigit(s)
  {
    DigitsOfParts(s);
  }

  /** The value is positive exactly when some digit, before or after the point, is not `0`. */
  lemma {:induction false} ParseFloatPositive(s: string)
    requires IsAmountText(s) && ParseFloat(s).Some?
    ensures ParseFloat(s).value > 0.0 <==> HasNonzeroDigit(s)
  {
    AmountParts(s);
    DigitsOfParts(s);
    var w, f := Whole(s), Fraction(s);
    DigitsValuePositive(w);
    DigitsValuePositive(f);
    var x, y, z := DigitsValue(w) as real, DigitsValue(f) as real, Pow10(|f|) as real;
    assert z >= 1.0;
    assert y / z >= 0.0;
    assert y > 0.0 ==> y / z > 0.0;
    assert y == 0.0 ==> y / z == 0.0;
  }

  /** The submit handlers turn an amount down exactly when it has no nonzero digit. */
  lemma RejectsAmountIff(s: string)
    requires IsAmountText(s)
    ensures RejectsAmount(s) <==> !HasNonzeroDigit(s)
  {
    ParseFloatNaN(s);
    if ParseFloat(s).Some? {
      ParseFloatPositive(s);
    } else {
      assert !HasNonzeroDigit(s);
    }
  }

  /**
   * The gap between the disabled rule and the submit check: a non-empty amount that leaves the
   * button enabled and is still turned down on submit is exactly `"."`.
   */
  lemma {:induction false} EnabledButRejected(s: string)
    requires IsAmountText(s)
    ensures (s != "" && !ParsesToNonPositive(s) && RejectsAmount(s)) <==> s == "."
  {
    ParseFloatNaN(s);
    if s != "" && !ParsesToNonPositive(s) && RejectsAmount(s) {
      assert !HasDigit(s);
      assert forall i :: 0 <= i < |s| ==> s[i] == '.';
      assert |s| == 1;
      assert s == [s[0]];
    }
    if s == "." {
      assert !HasDigit(s);
    }
  }

  /** A quick-amount button's `toString()` passes the filter and parses back to the button's number. */
  lemma QuickAmountText(n: nat)
    ensures IsAmountText(NatToString(n))
    ensures ParseFloat(NatToString(n)) == Some(n as real)
  {
    var t := NatToString(n);
    assert IsAmountText(t);
    assert DotIndex(t) == |t| by {
      assert DotIndex(t) < |t| ==> t[DotIndex(t)] == '.' && IsDigit(t[DotIndex(t)]);
    }
    assert Whole(t) == t;
    ValueOfNatToString(n);
  }
}
