/** The one-character digit boxes shared by the PIN and OTP modals. */
module DigitEntry {
  import opened Text

  /** `/^\d?$/`: what one box may hold, nothing or one ASCII digit. */
  predicate IsSlotValue(v: string) { v == "" || (|v| == 1 && IsDigit(v[0])) }

  predicate AllSlots(s: seq<string>) { forall i :: 0 <= i < |s| ==> IsSlotValue(s[i]) }

  /** `slots.every((digit) => digit !== "")`. */
  predicate AllFilled(s: seq<string>) { forall i :: 0 <= i < |s| ==> s[i] != "" }

  /** `["", "", ...]` with `n` boxes. */
  function Empties(n: nat): (s: seq<string>)
    ensures |s| == n && AllSlots(s)
    ensures forall i :: 0 <= i < n ==> s[i] == ""
  {
    seq(n, _ => "")
  }

  /** `slots.join("")`. */
  function Join(s: seq<string>): (joined: string) {
    if s == [] then "" else s[0] + Join(s[1..])
  }

  /** The joined boxes are digits, and there are as many as boxes exactly when every box is filled. */
  lemma {:induction false} JoinLength(s: seq<string>)
    requires AllSlots(s)
    ensures AllDigits(Join(s))
    ensures |Join(s)| <= |s|
    ensures |Join(s)| == |s| <==> AllFilled(s)
  {
    if s != [] {
      JoinLength(s[1..]);
      if s[0] == "" {
        assert !AllFilled(s);
      } else {
        assert AllFilled(s) <==> AllFilled(s[1..]) by {
          if AllFilled(s[1..]) {
            assert forall i :: 1 <= i < |s| ==> s[i] == s[1..][i - 1];
          }
        }
      }
    }
  }

  /** `/^\d{n}$/`: exactly `n` ASCII digits. */
  predicate IsDigitsOfLength(t: string, n: nat) { |t| == n && AllDigits(t) }

  /** `text.split("")`: one box per character. */
  function Chars(t: string): (s: seq<string>)
    ensures |s| == |t|
    ensures forall i :: 0 <= i < |t| ==> s[i] == [t[i]]
  {
    seq(|t|, i requires 0 <= i < |t| => [t[i]])
  }

  /** Splitting a text into characters and joining them again gives the text back. */
  lemma {:induction false} JoinChars(t: string)
    ensures Join(Chars(t)) == t
    decreases |t|
  {
    if t != [] {
      assert Chars(t)[1..] == Chars(t[1..]);
      JoinChars(t[1..]);
      assert [t[0]] + t[1..] == t;
    }
  }

  /** A pasted digit string fills every box with one digit. */
  lemma CharsOfDigits(t: string)
    requires AllDigits(t)
    ensures AllSlots(Chars(t)) && AllFilled(Chars(t))
  {
  }

  /** Replacing the whole array at once, as `setPin(newArray)` does. */
  method Fill(a: array<string>, v: seq<string>)
    requires a.Length == |v|
    modifies a
    ensures a[..] == v
  {
    for i := 0 to a.Length
      invariant forall j :: 0 <= j < i ==> a[j] == v[j]
    {
      a[i] := v[i];
    }
  }
}
