/** src/pages/Login.jsx: the identifier validators, the phone formatter and the sign-in form. */
module Login {
  import opened Wrappers
  import opened Text
  import opened Json
  import opened AuthContext
  import opened Forms

  const IdentifierField := "identifier"
  const PasswordField := "password"

  const IdentifierRequired := "Email or phone number is required"
  const IdentifierInvalid := "Please enter a valid email or Nigerian phone number"
  const EmailInvalid := "Email address is invalid"
  const PasswordRequired := "Password is required"
  const FixErrorsMessage := "Please fix the errors in the form"
  const OtpSentMessage := "OTP sent to your WhatsApp"
  const SuccessMessage := "Login successful!"
  const FailureMessage := "Login failed. Please try again."

  /** The ten digits after the country or trunk prefix: `[7-9][0-1]\d{8}`. */
  predicate IsSubscriberPart(r: string) {
    |r| == 10 && '7' <= r[0] <= '9' && (r[1] == '0' || r[1] == '1') && AllDigits(r)
  }

  /** `/^(\+?234|0)[7-9][0-1]\d{8}$/`; the three alternatives start with different characters. */
  predicate IsNigerianPhone(t: string) {
    || (|t| >= 4 && t[..4] == "+234" && IsSubscriberPart(t[4..]))
    || (|t| >= 3 && t[..3] == "234" && IsSubscriberPart(t[3..]))
    || (|t| >= 1 && t[0] == '0' && IsSubscriberPart(t[1..]))
  }

  /**
   * `/\S+@\S+\.\S+/`, unanchored: some `@` with a non-space character before it, then a run of
   * at least one non-space character up to a `.`, and a non-space character after that `.`.
   */
  predicate IsEmailShape(t: string) {
    exists a, d | 0 < a < |t| && 0 < d < |t| :: IsEmailAt(t, a, d)
  }

  /** The regular expression matches with its `@` at index `a` and its `.` at index `d`. */
  predicate IsEmailAt(t: string, a: int, d: int) {
    && 0 < a && a + 1 < d && d + 1 < |t| && t[a] == '@' && t[d] == '.'
    && NotWhitespace(t[a - 1]) && NotWhitespace(t[d + 1])
    && (forall m :: a < m < d ==> NotWhitespace(t[m]))
  }

  /** What the identifier field accepts: an email shape when it has an `@`, a phone number otherwise. */
  predicate IsAcceptedIdentifier(id: string) {
    id != "" && (if '@' in id then IsEmailShape(id) else IsNigerianPhone(StripWhitespace(id)))
  }

  /** The identifier's entry in `newErrors`, if any, checked in the source's order. */
  function IdentifierError(id: string): (e: Option<string>)
    ensures e.None? <==> IsAcceptedIdentifier(id)
    ensures id == "" ==> e == Some(IdentifierRequired)
    ensures id != "" && '@' !in id && !IsNigerianPhone(StripWhitespace(id)) ==> e == Some(IdentifierInvalid)
    ensures id != "" && '@' in id && !IsEmailShape(id) ==> e == Some(EmailInvalid)
  {
    if id == "" then Some(IdentifierRequired)
    else if '@' !in id && !IsNigerianPhone(StripWhitespace(id)) then Some(IdentifierInvalid)
    else if '@' in id && !IsEmailShape(id) then Some(EmailInvalid)
    else None
  }

  /** The errors `validateForm` computes; each field is judged on its own. */
  function FormErrors(formData: map<string, string>): (errs: map<string, string>)
    requires IdentifierField in formData && PasswordField in formData
    ensures errs.Keys <= {IdentifierField, PasswordField}
    ensures IdentifierField in errs <==> IdentifierError(formData[IdentifierField]).Some?
    ensures IdentifierField in errs ==> errs[IdentifierField] == IdentifierError(formData[IdentifierField]).value
    ensures PasswordField in errs <==> formData[PasswordField] == ""
    ensures PasswordField in errs ==> errs[PasswordField] == PasswordRequired
    ensures errs == map[] <==> IsAcceptedIdentifier(formData[IdentifierField]) && formData[PasswordField] != ""
  {
    var idErrs := match IdentifierError(formData[IdentifierField])
                  case Some(m) => map[IdentifierField := m]
                  case None => map[];
    if formData[PasswordField] == "" then
      assert PasswordField in idErrs[PasswordField := PasswordRequired];
      idErrs[PasswordField := PasswordRequired]
    else idErrs
  }

  /** `/^(0|\+?234)/`: what makes `handleIdentifierChange` treat the value as a phone number. */
  predicate StartsLikePhone(t: string) {
    (|t| >= 1 && t[0] == '0') || (|t| >= 3 && t[..3] == "234") || (|t| >= 4 && t[..4] == "+234")
  }

  /** A valid phone number always triggers the formatter. */
  lemma PhoneStartsLikePhone(t: string)
    requires IsNigerianPhone(t)
    ensures StartsLikePhone(t)
  {
  }

  /** `substring(i)` with no end: everything from `i`, or nothing when `i` is past the end. */
  function SubstringFrom(s: string, i: nat): (r: string)
    ensures |r| == if i <= |s| then |s| - i else 0
  {
    if i <= |s| then s[i..] else ""
  }

  /** `value.replace(/\D/g, "")`. */
  function DigitsOf(value: string): (c: string)
    ensures AllDigits(c)
  {
    Keep(value, IsDigit)
  }

  predicate HasCountryCode(c: string) { |c| >= 3 && c[..3] == "234" }

  predicate HasTrunkZero(c: string) { |c| >= 1 && c[0] == '0' }

  /** Two pieces of the layout with one space between them. */
  function Spaced(x: string, y: string): (spaced: string) { x + " " + y }

  /** The `234` layout, `+234 ddd ddd rest`. */
  function CountryLayout(c: string): (laidOut: string) {
    Spaced(Spaced(Spaced("+" + Substring(c, 0, 3), Substring(c, 3, 6)), Substring(c, 6, 9)), SubstringFrom(c, 9))
  }

  /** The `0` layout, `0ddd ddd dddd`. */
  function TrunkLayout(c: string): (laidOut: string) {
    Spaced(Spaced("0" + Substring(c, 1, 4), Substring(c, 4, 7)), Substring(c, 7, 11))
  }

  /** `formatPhoneNumber(value)`. */
  function FormatPhoneNumber(value: string): (formatted: string) {
    var c := DigitsOf(value);
    if HasCountryCode(c) then CountryLayout(c)
    else if HasTrunkZero(c) then TrunkLayout(c)
    else value
  }

  function Min(a: nat, b: nat): (least: nat) { if a <= b then a else b }

  lemma SubstringJoin(s: string, i: nat, j: nat, k: nat)
    requires i <= j <= k
    ensures Substring(s, i, j) + Substring(s, j, k) == Substring(s, i, k)
  {
  }

  /** Cutting a string short does not change a substring that ends before the cut, or one that is clamped at the end anyway. */
  lemma SubstringOfPrefix(s: string, n: nat, i: nat, j: nat)
    requires i <= j && n <= |s| && (j <= n || n == |s|)
    ensures Substring(s[..n], i, j) == Substring(s, i, j)
  {
    if n == |s| {
      assert s[..n] == s;
    }
  }

  lemma KeepKeep(s: string, p: char -> bool, q: char -> bool)
    requires forall ch :: q(ch) ==> p(ch)
    ensures Keep(Keep(s, p), q) == Keep(s, q)
  {
    if s != [] {
      KeepKeep(s[1..], p, q);
      KeepConcat(if p(s[0]) then [s[0]] else [], Keep(s[1..], p), q);
    }
  }

  lemma DigitsAreNotWhitespace()
    ensures forall ch :: IsDigit(ch) ==> NotWhitespace(ch)
  {
  }

  /** Keeping the characters of `x + " " + y` that pass `p`, when `p` rejects the space. */
  lemma KeepSpaced(x: string, y: string, p: char -> bool)
    requires !p(' ')
    ensures Keep(Spaced(x, y), p) == Keep(x, p) + Keep(y, p)
  {
    KeepConcat(x + " ", y, p);
    KeepConcat(x, " ", p);
    assert Keep(" ", p) == "" by {
      assert " "[1..] == "";
    }
  }

  lemma KeepJoin4(a: string, b: string, d: string, e: string, p: char -> bool)
    ensures Keep(a + b + d + e, p) == Keep(a, p) + Keep(b, p) + Keep(d, p) + Keep(e, p)
  {
    KeepConcat(a, b, p);
    KeepConcat(a + b, d, p);
    KeepConcat(a + b + d, e, p);
  }

  /** The four pieces of the `234` layout put back together are the digits. */
  lemma CountryPieces(c: string)
    requires HasCountryCode(c)
    ensures Substring(c, 0, 3) + Substring(c, 3, 6) + Substring(c, 6, 9) + SubstringFrom(c, 9) == c
  {
    SubstringJoin(c, 0, 3, 6);
    SubstringJoin(c, 0, 6, 9);
  }

  /** What `p` keeps of a layout `x y z w` when it drops the spaces. */
  lemma KeepSpaced4(x: string, y: string, z: string, w: string, p: char -> bool)
    requires !p(' ')
    ensures Keep(Spaced(Spaced(Spaced(x, y), z), w), p) == Keep(x, p) + Keep(y, p) + Keep(z, p) + Keep(w, p)
  {
    KeepSpaced(Spaced(Spaced(x, y), z), w, p);
    KeepSpaced(Spaced(x, y), z, p);
    KeepSpaced(x, y, p);
  }

  /** What `p` keeps of the `234` layout, when it drops both the spaces and the `+`: what it keeps of the digits. */
  lemma KeepCountryLayout(c: string, p: char -> bool)
    requires HasCountryCode(c) && !p(' ')
    ensures Keep(CountryLayout(c), p) == Keep("+", p) + Keep(c, p)
  {
    var a := Substring(c, 0, 3);
    var b := Substring(c, 3, 6);
    var d := Substring(c, 6, 9);
    var e := SubstringFrom(c, 9);
    KeepSpaced4("+" + a, b, d, e, p);
    KeepConcat("+", a, p);
    CountryPieces(c);
    KeepJoin4(a, b, d, e, p);
  }

  /** What `p` keeps of the `0` layout, when it drops the spaces: what it keeps of the first eleven digits. */
  lemma KeepTrunkLayout(c: string, p: char -> bool)
    requires HasTrunkZero(c) && !p(' ')
    ensures Keep(TrunkLayout(c), p) == Keep(c[..Min(11, |c|)], p)
  {
    var a := Substring(c, 1, 4);
    var b := Substring(c, 4, 7);
    var d := Substring(c, 7, 11);
    KeepSpaced(Spaced("0" + a, b), d, p);
    KeepSpaced("0" + a, b, p);
    assert Keep(TrunkLayout(c), p) == Keep("0" + a, p) + Keep(b, p) + Keep(d, p);
    SubstringJoin(c, 1, 4, 7);
    SubstringJoin(c, 1, 7, 11);
    assert "0" + a + b + d == c[..Min(11, |c|)];
    KeepConcat("0" + a, b, p);
    KeepConcat("0" + a + b, d, p);
  }

  lemma PrefixDigits(c: string, n: nat)
    requires AllDigits(c) && n <= |c|
    ensures AllDigits(c[..n])
  {
    assert forall i :: 0 <= i < n ==> c[..n][i] == c[i];
  }

  /**
   * With its spaces removed, the formatted number is `+` and the digits for a `234` number,
   * and the first eleven digits for a `0` number; anything else is returned as it was.
   */
  lemma {:induction false} FormattedDigits(value: string)
    ensures var c := DigitsOf(value);
            && (HasCountryCode(c) ==> StripWhitespace(FormatPhoneNumber(value)) == "+" + c)
            && (!HasCountryCode(c) && HasTrunkZero(c) ==> StripWhitespace(FormatPhoneNumber(value)) == c[..Min(11, |c|)])
            && (!HasCountryCode(c) && !HasTrunkZero(c) ==> FormatPhoneNumber(value) == value)
  {
    var c := DigitsOf(value);
    DigitsAreNotWhitespace();
    if HasCountryCode(c) {
      KeepCountryLayout(c, NotWhitespace);
      KeepAll("+", NotWhitespace);
      KeepAll(c, NotWhitespace);
    } else if HasTrunkZero(c) {
      KeepTrunkLayout(c, NotWhitespace);
      PrefixDigits(c, Min(11, |c|));
      KeepAll(c[..Min(11, |c|)], NotWhitespace);
    }
  }

  /** Formatting reads only the digits, and the formatted text has the digits it was given, so typing on reformats to the same text. */
  lemma {:induction false} FormatIdempotent(value: string)
    ensures FormatPhoneNumber(FormatPhoneNumber(value)) == FormatPhoneNumber(value)
  {
    var c := DigitsOf(value);
    if HasCountryCode(c) {
      KeepCountryLayout(c, IsDigit);
      KeepNone("+", IsDigit);
      KeepAll(c, IsDigit);
      assert DigitsOf(FormatPhoneNumber(value)) == c;
    } else if HasTrunkZero(c) {
      var n := Min(11, |c|);
      KeepTrunkLayout(c, IsDigit);
      PrefixDigits(c, n);
      KeepAll(c[..n], IsDigit);
      var c' := DigitsOf(FormatPhoneNumber(value));
      assert c' == c[..n];
      assert !HasCountryCode(c') && HasTrunkZero(c');
      SubstringOfPrefix(c, n, 1, 4);
      SubstringOfPrefix(c, n, 4, 7);
      SubstringOfPrefix(c, n, 7, 11);
      assert TrunkLayout(c') == TrunkLayout(c);
    }
  }

  /** The digits of a valid phone number, typed with any spacing. */
  lemma {:induction false} DigitsOfPhone(value: string)
    requires IsNigerianPhone(StripWhitespace(value))
    ensures var t := StripWhitespace(value);
            DigitsOf(value) == if t[0] == '+' then t[1..] else t
  {
    var t := StripWhitespace(value);
    DigitsAreNotWhitespace();
    KeepKeep(value, NotWhitespace, IsDigit);
    if t[0] == '+' {
      assert t == "+" + t[1..];
      KeepConcat("+", t[1..], IsDigit);
      KeepNone("+", IsDigit);
      assert t[1..] == "234" + t[4..];
      assert AllDigits(t[1..]);
      KeepAll(t[1..], IsDigit);
    } else {
      KeepAll(t, IsDigit);
    }
  }

  /** A valid number with the trunk `0` has eleven characters, all kept by the `0` layout. */
  lemma TrunkPhone(t: string)
    requires IsNigerianPhone(t) && t[0] == '0'
    ensures !HasCountryCode(t) && HasTrunkZero(t) && t[..Min(11, |t|)] == t
  {
    assert |t| == 11;
  }

  /** A valid number with the country code reads the same with a `+` in front of its digits. */
  lemma CountryPhone(t: string)
    requires IsNigerianPhone(t) && t[0] != '0'
    ensures var c := if t[0] == '+' then t[1..] else t;
            HasCountryCode(c) && IsNigerianPhone("+" + c)
  {
    var c := if t[0] == '+' then t[1..] else t;
    var f := "+" + c;
    assert c[..3] == "234" && IsSubscriberPart(c[3..]);
    assert f[..4] == "+234" && f[4..] == c[3..];
  }

  /** Formatting keeps the line-49 verdict on every valid phone number, whatever spacing it was typed with. */
  lemma {:induction false} FormatKeepsValidPhone(value: string)
    requires IsNigerianPhone(StripWhitespace(value))
    ensures IsNigerianPhone(StripWhitespace(FormatPhoneNumber(value)))
  {
    var t := StripWhitespace(value);
    DigitsOfPhone(value);
    FormattedDigits(value);
    if t[0] == '0' {
      TrunkPhone(t);
    } else {
      CountryPhone(t);
    }
  }

  /** What the reply to `authService.login` held, or the rejection it ended in. */
  datatype LoginReply =
    | Responded(otpRequired: bool, token: Option<string>, user: Object)
    | Rejected(userMessage: Option<string>)

  /** The sign-in page's state: the form, the shown errors and whether the OTP modal is open. */
  class Page {
    const auth: Provider
    var formData: map<string, string>
    var errors: map<string, string>
    var showOtpModal: bool

    /** Both fields of the form always exist. */
    ghost predicate Valid()
      reads this
    {
      IdentifierField in formData && PasswordField in formData
    }

    constructor (a: Provider)
      ensures Valid() && auth == a
      ensures formData == map[IdentifierField := "", PasswordField := ""]
      ensures errors == map[] && !showOtpModal
    {
      auth := a;
      formData := map[IdentifierField := "", PasswordField := ""];
      errors := map[];
      showOtpModal := false;
    }

    /** `handleChange`: the named field takes the value and its shown error is blanked. */
    method HandleChange(name: string, value: string)
      requires Valid()
      modifies this
      ensures Valid()
      ensures formData == old(formData)[name := value]
      ensures errors == Blanked(old(errors), name)
      ensures showOtpModal == old(showOtpModal)
    {
      formData := formData[name := value];
      if ShowsError(errors, name) {
        errors := errors[name := ""];
      }
    }

    /** `handleIdentifierChange`: a value that starts like a phone number is reformatted; the identifier error is blanked. */
    method HandleIdentifierChange(value: string)
      requires Valid()
      modifies this
      ensures Valid()
      ensures formData == old(formData)[IdentifierField :=
                if StartsLikePhone(StripWhitespace(value)) then FormatPhoneNumber(value) else value]
      ensures IsNigerianPhone(StripWhitespace(value)) ==> IsNigerianPhone(StripWhitespace(formData[IdentifierField]))
      ensures errors == Blanked(old(errors), IdentifierField)
      ensures showOtpModal == old(showOtpModal)
    {
      var id := value;
      if StartsLikePhone(StripWhitespace(value)) {
        id := FormatPhoneNumber(value);
      }
      if IsNigerianPhone(StripWhitespace(value)) {
        FormatKeepsValidPhone(value);
      }
      formData := formData[IdentifierField := id];
      if ShowsError(errors, IdentifierField) {
        errors := errors[IdentifierField := ""];
      }
    }

    /** `validateForm`: `newErrors` is filled one field at a time and replaces the shown errors. */
    method ValidateForm() returns (valid: bool)
      requires Valid()
      modifies this
      ensures Valid() && formData == old(formData) && showOtpModal == old(showOtpModal)
      ensures errors == FormErrors(formData)
      ensures valid <==> IsAcceptedIdentifier(formData[IdentifierField]) && formData[PasswordField] != ""
    {
      var newErrors: map<string, string> := map[];
      var id := formData[IdentifierField];
      if id == "" {
        newErrors := newErrors[IdentifierField := IdentifierRequired];
      } else if '@' !in id && !IsNigerianPhone(StripWhitespace(id)) {
        newErrors := newErrors[IdentifierField := IdentifierInvalid];
      } else if '@' in id && !IsEmailShape(id) {
        newErrors := newErrors[IdentifierField := EmailInvalid];
      }
      if formData[PasswordField] == "" {
        newErrors := newErrors[PasswordField := PasswordRequired];
      }
      errors := newErrors;
      valid := |newErrors| == 0;
    }

    /**
     * `handleSubmit`. An invalid form sends nothing and leaves the session alone. Otherwise
     * the form is sent, and the reply is read with `otpRequired` before `token`: an OTP step
     * signs in with a null token and opens the modal, a token signs in and goes to the
     * dashboard, and anything else is a failure. The form is kept in every case.
     */
    method Submit(reply: LoginReply) returns (request: Option<map<string, string>>, toast: Toast, navigate: Option<string>)
      requires Valid() && auth.Valid()
      modifies this, auth, auth.storage
      ensures Valid() && auth.Valid() && formData == old(formData)
      ensures errors == FormErrors(formData)
      ensures request.Some? <==> IsAcceptedIdentifier(formData[IdentifierField]) && formData[PasswordField] != ""
      ensures request.Some? ==> request.value == formData
      ensures request.None? ==>
                && toast == Toast(FixErrorsMessage, Error) && navigate.None?
                && showOtpModal == old(showOtpModal)
                && auth.storage.items == old(auth.storage.items)
                && auth.isAuthenticated == old(auth.isAuthenticated) && auth.user == old(auth.user)
      ensures request.Some? && reply.Responded? && reply.otpRequired ==>
                && auth.storage.items == AfterLogin(old(auth.storage.items), None, reply.user)
                && auth.isAuthenticated && auth.user == Some(PObject(reply.user))
                && showOtpModal && toast == Toast(OtpSentMessage, Success) && navigate.None?
      ensures request.Some? && reply.Responded? && !reply.otpRequired && TokenTruthy(reply.token) ==>
                && auth.storage.items == AfterLogin(old(auth.storage.items), reply.token, reply.user)
                && auth.isAuthenticated && auth.user == Some(PObject(reply.user))
                && showOtpModal == old(showOtpModal)
                && toast == Toast(SuccessMessage, Success) && navigate == Some("/dashboard")
      ensures request.Some? && !(reply.Responded? && (reply.otpRequired || TokenTruthy(reply.token))) ==>
                && auth.storage.items == old(auth.storage.items)
                && auth.isAuthenticated == old(auth.isAuthenticated) && auth.user == old(auth.user)
                && showOtpModal == old(showOtpModal) && navigate.None?
                && toast == Toast(if reply.Rejected? then OrDefault(reply.userMessage, FailureMessage) else FailureMessage, Error)
    {
      var valid := ValidateForm();
      navigate := None;
      if !valid {
        request := None;
        toast := Toast(FixErrorsMessage, Error);
        return;
      }
      request := Some(formData);
      match reply
      case Responded(otpRequired, token, user) =>
        if otpRequired {
          auth.Login(None, user);
          showOtpModal := true;
          toast := Toast(OtpSentMessage, Success);
        } else if TokenTruthy(token) {
          auth.Login(token, user);
          toast := Toast(SuccessMessage, Success);
          navigate := Some("/dashboard");
        } else {
          toast := Toast(FailureMessage, Error);
        }
      case Rejected(userMessage) =>
        toast := Toast(OrDefault(userMessage, FailureMessage), Error);
    }

    /** `handleOTPClose`: only the modal closes; the form is kept for a retry. */
    method CloseOtp()
      modifies this
      ensures !showOtpModal && formData == old(formData) && errors == old(errors)
    {
      showOtpModal := false;
    }
  }
}
