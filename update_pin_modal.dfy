/**
 * src/components/shared/UpdatePinModal.jsx: the three-step wizard that changes the PIN.
 * Step 1 checks the current PIN with the server, step 2 takes the new PIN, step 3 its confirmation.
 */
module UpdatePinModal {
  import opened Wrappers
  import opened Text
  import opened DigitEntry
  import opened Forms

  const PinLength: nat := 4

  const CurrentLengthMessage := "Please enter your current 4-digit PIN"
  const CurrentInvalidMessage := "Invalid current PIN. Please try again."
  const VerifyFailedMessage := "PIN verification failed"
  const NewLengthMessage := "Please enter a valid 4-digit new PIN"
  const ConfirmLengthMessage := "Please confirm your new 4-digit PIN"
  const MismatchMessage := "New PIN and confirmation PIN do not match"
  const SameAsCurrentMessage := "New PIN cannot be the same as current PIN"
  const UpdateFailedMessage := "Failed to update PIN"
  const UpdatedMessage := "PIN updated successfully!"

  /** The `pinType` argument of the handlers: which of the three arrays an input belongs to. */
  datatype PinKind = Current | New | Confirm

  /** The step at which the inputs of a kind are shown. */
  function StepOf(k: PinKind): (step: int)
    ensures 1 <= step <= 3
  {
    match k
    case Current => 1
    case New => 2
    case Confirm => 3
  }

  /** The `disabled` rule of every PIN input. */
  predicate InputDisabled(loading: bool, step: int, k: PinKind) {
    || loading
    || (k == Current && step != 1)
    || (k == New && step != 2)
    || (k == Confirm && step != 3)
  }

  /** At every step exactly one array is editable, the one belonging to that step, and none while loading. */
  lemma OnlyStepArrayEditable(step: int, k: PinKind)
    requires 1 <= step <= 3
    ensures !InputDisabled(false, step, k) <==> StepOf(k) == step
    ensures InputDisabled(true, step, k)
  {
  }

  /** How `pinService.verifyPin` settles: it resolves with `valid`, or rejects with an optional `userMessage`. */
  datatype VerifyReply = Answered(valid: bool) | Rejected(userMessage: Option<string>)

  /** How `pinService.updatePin` settles. */
  datatype UpdateReply = Updated | UpdateRejected(userMessage: Option<string>)

  /** The server call a handler makes, if any. */
  datatype Request = NoRequest | VerifyRequest(pin: string) | UpdateRequest(newPin: string)

  /** What `handleInputChange` chains to after storing the edited array. */
  datatype Advance = Stay | VerifyCurrent(submitted: string) | SubmitUpdate(confirmed: string)

  /**
   * The wizard's state. `loading` is true only while a request is awaited; since replies are
   * handler parameters, each handler starts and ends with it false and it is not a field.
   */
  class Modal {
    const currentPin: array<string>
    const newPin: array<string>
    const confirmPin: array<string>
    var step: int
    var error: string

    /**
     * The boxes hold nothing or one digit each and `step` is 1, 2 or 3. The confirmation step
     * is only ever reached with a complete new PIN, and Back from it does not clear that PIN.
     */
    ghost predicate Valid()
      reads this, currentPin, newPin, confirmPin
    {
      && currentPin.Length == PinLength && newPin.Length == PinLength && confirmPin.Length == PinLength
      && currentPin != newPin && currentPin != confirmPin && newPin != confirmPin
      && AllSlots(currentPin[..]) && AllSlots(newPin[..]) && AllSlots(confirmPin[..])
      && 1 <= step <= 3
      && (step == 3 ==> AllFilled(newPin[..]))
    }

    /** The array an input of kind `k` edits. */
    function Slots(k: PinKind): (slots: array<string>)
      reads this
    {
      match k
      case Current => currentPin
      case New => newPin
      case Confirm => confirmPin
    }

    /** The state right after opening: three empty arrays, step 1 and no error. */
    ghost predicate IsReset()
      reads this, currentPin, newPin, confirmPin
    {
      && currentPin[..] == Empties(PinLength) && newPin[..] == Empties(PinLength)
      && confirmPin[..] == Empties(PinLength)
      && step == 1 && error == ""
    }

    constructor ()
      ensures Valid() && IsReset()
      ensures fresh(currentPin) && fresh(newPin) && fresh(confirmPin)
    {
      currentPin := new string[4](_ => "");
      newPin := new string[4](_ => "");
      confirmPin := new string[4](_ => "");
      step, error := 1, "";
      new;
      assert currentPin[..] == Empties(PinLength);
      assert newPin[..] == Empties(PinLength);
      assert confirmPin[..] == Empties(PinLength);
    }

    /** `resetForm`, also run by the effect when the modal opens. */
    method ResetForm()
      requires Valid()
      modifies this, currentPin, newPin, confirmPin
      ensures Valid() && IsReset()
    {
      Fill(currentPin, Empties(PinLength));
      Fill(newPin, Empties(PinLength));
      Fill(confirmPin, Empties(PinLength));
      step, error := 1, "";
    }

    /**
     * `handleInputChange(pinType, index, value)`. Only the inputs of the current step are
     * rendered and enabled, so the change comes from that step's array. A value other than
     * nothing or one digit is ignored; otherwise only box `index` of that array changes.
     * When the last box is edited and all four are filled, a current PIN is verified, a new
     * PIN moves the wizard to step 3, and a confirmation submits the update: the first and the
     * last are returned for `VerifyCurrentPin` and `UpdatePin` to perform.
     */
    method HandleInputChange(k: PinKind, index: nat, value: string) returns (next: Advance)
      requires Valid() && StepOf(k) == step && index < PinLength
      modifies this, Slots(k)
      ensures Valid() && error == old(error)
      ensures !IsSlotValue(value) ==> Slots(k)[..] == old(Slots(k)[..]) && step == old(step) && next == Stay
      ensures IsSlotValue(value) ==> Slots(k)[..] == old(Slots(k)[..])[index := value]
      ensures k != Current ==> currentPin[..] == old(currentPin[..])
      ensures k != New ==> newPin[..] == old(newPin[..])
      ensures k != Confirm ==> confirmPin[..] == old(confirmPin[..])
      ensures var fires := IsSlotValue(value) && index == PinLength - 1 && AllFilled(Slots(k)[..]);
              && (next.VerifyCurrent? <==> fires && k == Current)
              && (next.SubmitUpdate? <==> fires && k == Confirm)
              && step == (if fires && k == New then 3 else old(step))
      ensures next.VerifyCurrent? ==> next.submitted == Join(currentPin[..]) && |next.submitted| == PinLength
      ensures next.SubmitUpdate? ==> next.confirmed == Join(confirmPin[..]) && |next.confirmed| == PinLength
    {
      if !IsSlotValue(value) {
        return Stay;
      }
      var a := Slots(k);
      a[index] := value;
      assert a[..] == old(a[..])[index := value];
      next := Stay;
      if index == PinLength - 1 && AllFilled(a[..]) {
        JoinLength(a[..]);
        match k
        case Current => next := VerifyCurrent(Join(a[..]));
        case New => step := 3;
        case Confirm => next := SubmitUpdate(Join(a[..]));
      }
    }

    /**
     * `handleVerifyCurrentPin(submittedPin)`, from the Verify button or the auto-advance.
     * A PIN that is not four characters long sets an error and reaches no server. Otherwise
     * a valid PIN moves to step 2, and an invalid one or a failure sets the error and empties
     * the current PIN, staying where it was.
     */
    method VerifyCurrentPin(submitted: string, reply: VerifyReply) returns (request: Request)
      requires Valid()
      modifies this, currentPin
      ensures Valid()
      ensures newPin[..] == old(newPin[..]) && confirmPin[..] == old(confirmPin[..])
      ensures request == (if |submitted| == PinLength then VerifyRequest(submitted) else NoRequest)
      ensures |submitted| != PinLength ==>
                error == CurrentLengthMessage && currentPin[..] == old(currentPin[..]) && step == old(step)
      ensures |submitted| == PinLength && reply == Answered(true) ==>
                step == 2 && error == "" && currentPin[..] == old(currentPin[..])
      ensures |submitted| == PinLength && reply == Answered(false) ==>
                error == CurrentInvalidMessage && currentPin[..] == Empties(PinLength) && step == old(step)
      ensures |submitted| == PinLength && reply.Rejected? ==>
                error == OrDefault(reply.userMessage, VerifyFailedMessage)
                && currentPin[..] == Empties(PinLength) && step == old(step)
    {
      if |submitted| != PinLength {
        error := CurrentLengthMessage;
        return NoRequest;
      }
      error := "";
      request := VerifyRequest(submitted);
      match reply
      case Answered(valid) =>
        if valid {
          step, error := 2, "";
        } else {
          error := CurrentInvalidMessage;
          Fill(currentPin, Empties(PinLength));
        }
      case Rejected(message) =>
        error := OrDefault(message, VerifyFailedMessage);
        Fill(currentPin, Empties(PinLength));
    }

    /**
     * `handleUpdatePin(confirmedPin)`. The checks run in order and the first failure wins:
     * the new PIN's length, the confirmation's length, a mismatch (which empties only the
     * confirmation), and a new PIN equal to the current one (which empties the new PIN and its
     * confirmation and returns to step 2). Only when all pass is `updatePin(newPin)` called;
     * success raises a toast, calls `onSuccess` and `onClose` and resets the form, failure only
     * sets the error.
     */
    method UpdatePin(confirmed: string, reply: UpdateReply) returns (request: Request, toast: Option<Toast>, succeeded: bool)
      requires Valid()
      modifies this, currentPin, newPin, confirmPin
      ensures Valid()
      ensures toast == (if succeeded then Some(Toast(UpdatedMessage, Success)) else None)
      ensures currentPin[..] == old(currentPin[..]) || (succeeded && currentPin[..] == Empties(PinLength))
      ensures var n := Join(old(newPin[..]));
              && (request.UpdateRequest? <==>
                    |n| == PinLength && |confirmed| == PinLength && n == confirmed && n != Join(old(currentPin[..])))
              && (request.NoRequest? || request == UpdateRequest(n))
      ensures succeeded <==> request.UpdateRequest? && reply.Updated?
      ensures var n := Join(old(newPin[..]));
              if |n| != PinLength then
                error == NewLengthMessage && Unchanged(old(newPin[..]), old(confirmPin[..]), old(step))
              else if |confirmed| != PinLength then
                error == ConfirmLengthMessage && Unchanged(old(newPin[..]), old(confirmPin[..]), old(step))
              else if n != confirmed then
                && error == MismatchMessage && step == old(step)
                && newPin[..] == old(newPin[..]) && confirmPin[..] == Empties(PinLength)
              else if n == Join(old(currentPin[..])) then
                && error == SameAsCurrentMessage && step == 2
                && newPin[..] == Empties(PinLength) && confirmPin[..] == Empties(PinLength)
              else if reply.Updated? then
                IsReset()
              else
                && error == OrDefault(reply.userMessage, UpdateFailedMessage)
                && Unchanged(old(newPin[..]), old(confirmPin[..]), old(step))
      ensures old(step) == 3 ==> |Join(old(newPin[..]))| == PinLength
    {
      var n := Join(newPin[..]);
      JoinLength(newPin[..]);
      toast, succeeded := None, false;
      if |n| != PinLength {
        error := NewLengthMessage;
        return NoRequest, None, false;
      }
      if |confirmed| != PinLength {
        error := ConfirmLengthMessage;
        return NoRequest, None, false;
      }
      if n != confirmed {
        error := MismatchMessage;
        Fill(confirmPin, Empties(PinLength));
        return NoRequest, None, false;
      }
      if n == Join(currentPin[..]) {
        error := SameAsCurrentMessage;
        Fill(newPin, Empties(PinLength));
        Fill(confirmPin, Empties(PinLength));
        step := 2;
        return NoRequest, None, false;
      }
      error := "";
      request := UpdateRequest(n);
      match reply
      case Updated =>
        toast := Some(Toast(UpdatedMessage, Success));
        ResetForm();
        succeeded := true;
      case UpdateRejected(message) =>
        error := OrDefault(message, UpdateFailedMessage);
    }

    /** The new PIN, the confirmation and the step are what `was...` says. */
    ghost predicate Unchanged(wasNew: seq<string>, wasConfirm: seq<string>, wasStep: int)
      reads this, newPin, confirmPin
    {
      newPin[..] == wasNew && confirmPin[..] == wasConfirm && step == wasStep
    }

    /**
     * The Cancel/Back button. At step 1 it closes the modal and resets the form; at steps 2
     * and 3 it goes back exactly one step and clears the error, leaving all three PINs as they are.
     */
    method Back() returns (closed: bool)
      requires Valid()
      modifies this, currentPin, newPin, confirmPin
      ensures Valid()
      ensures closed <==> old(step) == 1
      ensures closed ==> IsReset()
      ensures !closed ==>
                && step == old(step) - 1 && error == ""
                && currentPin[..] == old(currentPin[..]) && newPin[..] == old(newPin[..])
                && confirmPin[..] == old(confirmPin[..])
    {
      if step == 1 {
        ResetForm();
        closed := true;
      } else {
        step, error := step - 1, "";
        closed := false;
      }
    }

    /**
     * One change event on a box, with the request it chains to carried out. Without a chained
     * request only the edited box changes, and filling the last box of the new PIN moves to
     * step 3. Filling the last box of the current PIN sends it for verification. Filling the
     * last box of the confirmation sends the update exactly when it matches the new PIN and
     * the new PIN differs from the current one.
     */
    method InputEvent(k: PinKind, index: nat, value: string, verifyReply: VerifyReply, updateReply: UpdateReply)
      returns (request: Request, toast: Option<Toast>)
      requires Valid() && StepOf(k) == step && index < PinLength
      modifies this, currentPin, newPin, confirmPin
      ensures Valid()
      ensures var edited := if IsSlotValue(value) then old(Slots(k)[..])[index := value] else old(Slots(k)[..]);
              var fires := IsSlotValue(value) && index == PinLength - 1 && AllFilled(edited);
              var n := Join(old(newPin[..]));
              && (request.VerifyRequest? <==> fires && k == Current)
              && (request.VerifyRequest? ==> request.pin == Join(edited))
              && (request.UpdateRequest? <==> fires && k == Confirm && n == Join(edited) && n != Join(old(currentPin[..])))
              && (request.UpdateRequest? ==> request.newPin == n)
              && (toast.Some? ==> request.UpdateRequest? && updateReply.Updated? && toast.value == Toast(UpdatedMessage, Success))
      ensures var edited := if IsSlotValue(value) then old(Slots(k)[..])[index := value] else old(Slots(k)[..]);
              var fires := IsSlotValue(value) && index == PinLength - 1 && AllFilled(edited);
              !fires || k == New ==>
                && Slots(k)[..] == edited && error == old(error) && toast.None?
                && step == (if fires then 3 else old(step))
                && (k != Current ==> currentPin[..] == old(currentPin[..]))
                && (k != New ==> newPin[..] == old(newPin[..]))
                && (k != Confirm ==> confirmPin[..] == old(confirmPin[..]))
      ensures var edited := if IsSlotValue(value) then old(currentPin[..])[index := value] else old(currentPin[..]);
              k == Current && IsSlotValue(value) && index == PinLength - 1 && AllFilled(edited) ==>
                && newPin[..] == old(newPin[..]) && confirmPin[..] == old(confirmPin[..]) && toast.None?
                && (verifyReply == Answered(true) ==> step == 2 && error == "" && currentPin[..] == edited)
                && (verifyReply == Answered(false) ==>
                      step == 1 && error == CurrentInvalidMessage && currentPin[..] == Empties(PinLength))
                && (verifyReply.Rejected? ==>
                      && step == 1 && error == OrDefault(verifyReply.userMessage, VerifyFailedMessage)
                      && currentPin[..] == Empties(PinLength))
      ensures var edited := if IsSlotValue(value) then old(confirmPin[..])[index := value] else old(confirmPin[..]);
              var n := Join(old(newPin[..]));
              k == Confirm && IsSlotValue(value) && index == PinLength - 1 && AllFilled(edited) ==>
                if n != Join(edited) then
                  && error == MismatchMessage && step == 3 && currentPin[..] == old(currentPin[..])
                  && newPin[..] == old(newPin[..]) && confirmPin[..] == Empties(PinLength)
                else if n == Join(old(currentPin[..])) then
                  && error == SameAsCurrentMessage && step == 2 && currentPin[..] == old(currentPin[..])
                  && newPin[..] == Empties(PinLength) && confirmPin[..] == Empties(PinLength)
                else if updateReply.Updated? then
                  IsReset()
                else
                  && error == OrDefault(updateReply.userMessage, UpdateFailedMessage) && step == 3
                  && currentPin[..] == old(currentPin[..]) && newPin[..] == old(newPin[..])
                  && confirmPin[..] == edited
    {
      var next := HandleInputChange(k, index, value);
      request, toast := NoRequest, None;
      match next
      case Stay =>
      case VerifyCurrent(submitted) =>
        request := VerifyCurrentPin(submitted, verifyReply);
      case SubmitUpdate(confirmed) =>
        var succeeded;
        request, toast, succeeded := UpdatePin(confirmed, updateReply);
    }
  }
}
