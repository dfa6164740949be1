/** src/pages/BVNVerification.jsx: the BVN and date-of-birth form. */
module BvnVerification {
  import opened Wrappers
  import opened Text
  import opened Json
  import opened Forms

  const BvnField := "bvn"
  const DobField := "dateOfBirth"

  const BvnRequired := "BVN is required"
  const BvnInvalid := "BVN must be exactly 11 digits"
  const DobRequired := "Date of birth is required"
  const VerifiedMessage := "BVN verified successfully! Your account is now active."
  const FailedMessage := "BVN verification failed"

  /** `/^\d{11}$/`. */
  predicate IsBvn(s: string) {
    |s| == 11 && AllDigits(s)
  }

  /** The errors `validateForm` computes; the two fields are judged independently. */
  function FormErrors(formData: map<string, string>): (errs: map<string, string>)
    requires BvnField in formData && DobField in formData
    ensures errs.Keys <= {BvnField, DobField}
    ensures BvnField in errs <==> !IsBvn(formData[BvnField])
    ensures BvnField in errs ==> errs[BvnField] == if formData[BvnField] == "" then BvnRequired else BvnInvalid
    ensures DobField in errs <==> formData[DobField] == ""
    ensures DobField in errs ==> errs[DobField] == DobRequired
    ensures errs == map[] <==> IsBvn(formData[BvnField]) && formData[DobField] != ""
  {
    var bvn := formData[BvnField];
    var bvnErrs: map<string, string> :=
      if bvn == "" then map[BvnField := BvnRequired]
      else if !IsBvn(bvn) then map[BvnField := BvnInvalid]
      else map[];
    if formData[DobField] == "" then
      assert DobField in bvnErrs[DobField := DobRequired];
      bvnErrs[DobField := DobRequired]
    else bvnErrs
  }

  /** `s.padStart(2, "0")`. */
  function PadStart2(s: string): (r: string)
    ensures |s| >= 2 ==> r == s
    ensures |s| < 2 ==> |r| == 2 && r[2 - |s|..] == s && forall i :: 0 <= i < 2 - |s| ==> r[i] == '0'
  {
    if |s| >= 2 then s else if |s| == 1 then "0" + s else "00"
  }

  /** `year + "-" + month + "-" + day`, or the same with day and year swapped. */
  function DateText(first: string, middle: string, last: string): (date: string) {
    first + "-" + middle + "-" + last
  }

  /**
   * `formatDateForInput(dateString)`: `D-M-Y` becomes `Y-MM-DD`. A missing third piece is
   * `undefined`, which the template literal prints; a falsy or dash-free string is returned.
   */
  function FormatDateForInput(s: string): (r: string)
    ensures '-' !in s ==> r == s
  {
    if s != "" && '-' in s then
      var p := SplitOn(s, '-');
      DateText(if |p| >= 3 then p[2] else "undefined", PadStart2(p[1]), PadStart2(p[0]))
    else s
  }

  /**
   * `formatDateForSubmit(dateString)`: `Y-M-D` becomes `DD-MM-Y`. With only two pieces the
   * day is undefined and `padStart` on it throws a TypeError, modelled as `None`.
   */
  function FormatDateForSubmit(s: string): (r: Option<string>)
    ensures '-' !in s ==> r == Some(s)
    ensures r.None? <==> |SplitOn(s, '-')| == 2
  {
    if s != "" && '-' in s then
      var p := SplitOn(s, '-');
      if |p| >= 3 then Some(DateText(PadStart2(p[2]), PadStart2(p[1]), p[0])) else None
    else Some(s)
  }

  /** The pieces of a date written with three dash-free parts. */
  lemma {:induction false} SplitDate(first: string, middle: string, last: string)
    requires '-' !in first && '-' !in middle && '-' !in last
    ensures SplitOn(DateText(first, middle, last), '-') == [first, middle, last]
  {
    assert DateText(first, middle, last) == first + (['-'] + (middle + (['-'] + last)));
    SplitAtFirst(first, middle + (['-'] + last), '-');
    SplitAtFirst(middle, last, '-');
    SplitWithoutSeparator(last, '-');
  }

  /**
   * `formatDateForSubmit` on any `Y-M-D` built from dash-free parts: the day and the month,
   * each padded to two characters, then the year, as `DD-MM-Y`.
   */
  lemma {:induction false} SubmitPads(year: string, month: string, day: string)
    requires '-' !in year && '-' !in month && '-' !in day
    ensures FormatDateForSubmit(DateText(year, month, day)) == Some(DateText(PadStart2(day), PadStart2(month), year))
  {
    SplitDate(year, month, day);
  }

  /**
   * `formatDateForInput` on any `D-M-Y` built from dash-free parts: the year, then the month
   * and the day, each padded to two characters, as `Y-MM-DD`.
   */
  lemma {:induction false} InputPads(day: string, month: string, year: string)
    requires '-' !in day && '-' !in month && '-' !in year
    ensures FormatDateForInput(DateText(day, month, year)) == DateText(year, PadStart2(month), PadStart2(day))
  {
    SplitDate(day, month, year);
  }

  /** What an `<input type="date">` holds when it is not empty: three dash-free parts, a two-character month and day. */
  predicate IsDateInputValue(v: string) {
    var p := SplitOn(v, '-');
    |p| == 3 && |p[1]| == 2 && |p[2]| == 2
  }

  /**
   * The date input shows back the value it reported: converting the input's `YYYY-MM-DD`
   * for the server and then back for display is the identity, and so is the empty value.
   */
  lemma {:induction false} SubmitThenInput(v: string)
    requires v == "" || IsDateInputValue(v)
    ensures FormatDateForSubmit(v).Some? && FormatDateForInput(FormatDateForSubmit(v).value) == v
  {
    if v != "" {
      var p := SplitOn(v, '-');
      JoinSplit(v, '-');
      assert JoinWith(p, '-') == DateText(p[0], p[1], p[2]) by {
        assert p[1..][1..] == [p[2]];
        assert JoinWith(p[1..], '-') == p[1] + "-" + p[2];
        assert JoinWith(p, '-') == p[0] + "-" + (p[1] + "-" + p[2]);
      }
      var sent := DateText(p[2], p[1], p[0]);
      assert FormatDateForSubmit(v) == Some(sent);
      SplitDate(p[2], p[1], p[0]);
    }
  }

  /** The other way round: a server date `DD-MM-Y` converted for display and back is unchanged. */
  lemma {:induction false} InputThenSubmit(day: string, month: string, year: string)
    requires '-' !in day && '-' !in month && '-' !in year && |day| == 2 && |month| == 2
    ensures FormatDateForSubmit(FormatDateForInput(DateText(day, month, year))) == Some(DateText(day, month, year))
  {
    SplitDate(day, month, year);
    SplitDate(year, month, day);
  }

  /** The success reply's `verificationStatus` and `transactionLimit`, which may each be undefined. */
  datatype VerificationResult = VerificationResult(verificationStatus: Value, transactionLimit: Value)

  /** The reply to `authService.verifyBVN`, or the rejection it ended in. */
  datatype BvnReply =
    | Replied(success: bool, message: Option<string>, result: VerificationResult)
    | Rejected(userMessage: Option<string>)

  class Form {
    var formData: map<string, string>
    var errors: map<string, string>

    ghost predicate Valid()
      reads this
    {
      BvnField in formData && DobField in formData
    }

    constructor ()
      ensures Valid()
      ensures formData == map[BvnField := "", DobField := ""] && errors == map[]
    {
      formData := map[BvnField := "", DobField := ""];
      errors := map[];
    }

    /** The text the date input shows: `formatDateForInput(formData.dateOfBirth)`. */
    function ShownDate(): (shown: string)
      reads this
      requires Valid()
    {
      FormatDateForInput(formData[DobField])
    }

    /** `handleChange`, which the BVN input uses: only the named field and its error change. */
    method HandleChange(name: string, value: string)
      requires Valid()
      modifies this
      ensures Valid()
      ensures formData == old(formData)[name := value]
      ensures errors == Blanked(old(errors), name)
    {
      formData := formData[name := value];
      if ShowsError(errors, name) {
        errors := errors[name := ""];
      }
    }

    /**
     * The date input's change handler: the value is stored in the server's format and the
     * field's error is blanked. When the conversion throws, nothing is updated. Every value
     * the date input can report is shown back unchanged.
     */
    method HandleDateChange(value: string) returns (threw: bool)
      requires Valid()
      modifies this
      ensures Valid()
      ensures threw <==> FormatDateForSubmit(value).None?
      ensures threw ==> formData == old(formData) && errors == old(errors)
      ensures !threw ==> formData == old(formData)[DobField := FormatDateForSubmit(value).value]
                         && errors == Blanked(old(errors), DobField)
      ensures (value == "" || IsDateInputValue(value)) ==> !threw && ShownDate() == value
    {
      var converted := FormatDateForSubmit(value);
      if converted.None? {
        return true;
      }
      threw := false;
      formData := formData[DobField := converted.value];
      if ShowsError(errors, DobField) {
        errors := errors[DobField := ""];
      }
      if value == "" || IsDateInputValue(value) {
        SubmitThenInput(value);
      }
    }

    /** `validateForm`: `newErrors` is filled field by field and replaces the shown errors. */
    method ValidateForm() returns (valid: bool)
      requires Valid()
      modifies this
      ensures Valid() && formData == old(formData)
      ensures errors == FormErrors(formData)
      ensures valid <==> IsBvn(formData[BvnField]) && formData[DobField] != ""
    {
      var newErrors: map<string, string> := map[];
      var bvn := formData[BvnField];
      if bvn == "" {
        newErrors := newErrors[BvnField := BvnRequired];
      } else if !IsBvn(bvn) {
        newErrors := newErrors[BvnField := BvnInvalid];
      }
      if formData[DobField] == "" {
        newErrors := newErrors[DobField := DobRequired];
      }
      errors := newErrors;
      valid := |newErrors| == 0;
    }

    /**
     * `handleSubmit`. An invalid form sends nothing and raises no toast. Otherwise the form is
     * sent, and only a reply with `success` reaches `onVerificationComplete`.
     */
    method Submit(reply: BvnReply) returns (request: Option<map<string, string>>, toast: Option<Toast>, completed: Option<VerificationResult>)
      requires Valid()
      modifies this
      ensures Valid() && formData == old(formData)
      ensures errors == FormErrors(formData)
      ensures request.Some? <==> IsBvn(formData[BvnField]) && formData[DobField] != ""
      ensures request.Some? ==> request.value == formData
      ensures request.None? ==> toast.None? && completed.None?
      ensures completed.Some? <==> request.Some? && reply.Replied? && reply.success
      ensures completed.Some? ==> completed.value == reply.result && toast == Some(Toast(VerifiedMessage, Success))
      ensures request.Some? && completed.None? ==>
                toast == Some(Toast(OrDefault(if reply.Replied? then reply.message else reply.userMessage, FailedMessage), Error))
    {
      var valid := ValidateForm();
      if !valid {
        return None, None, None;
      }
      request := Some(formData);
      match reply
      case Replied(success, message, result) =>
        if success {
          toast, completed := Some(Toast(VerifiedMessage, Success)), Some(result);
        } else {
          toast, completed := Some(Toast(OrDefault(message, FailedMessage), Error)), None;
        }
      case Rejected(userMessage) =>
        toast, completed := Some(Toast(OrDefault(userMessage, FailedMessage), Error)), None;
    }
  }
}
