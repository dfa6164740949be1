/** src/components/shared/PinModal.jsx: the four-digit PIN gate shown before a transaction. */
module PinModal {
  import opened Wrappers
  import opened Text
  import opened DigitEntry
  import opened Forms

  const PinLength: nat := 4

  const LengthMessage := "Please enter a 4-digit PIN"
  const InvalidMessage := "Invalid PIN. Please try again."
  const FailedMessage := "PIN verification failed"
  const VerifiedMessage := "PIN verified successfully"

  /**
   * How `api.post("/wallet/verify-pin", ...)` settles: it resolves with `data.valid`, or it
   * rejects with an error whose `userMessage` may be missing or empty.
   */
  datatype VerifyReply = Answered(valid: bool) | Rejected(userMessage: Option<string>)

  /** The `disabled` rule of the Verify button. */
  predicate SubmitDisabled(loading: bool, pin: seq<string>) {
    loading || |Join(pin)| != PinLength
  }

  /** While no request is in flight, the Verify button is enabled exactly when all four boxes are filled. */
  lemma SubmitEnabledIffFilled(pin: seq<string>)
    requires |pin| == PinLength && AllSlots(pin)
    ensures !SubmitDisabled(false, pin) <==> AllFilled(pin)
    ensures SubmitDisabled(true, pin)
  {
    JoinLength(pin);
  }

  /**
   * The modal's state. `loading` is true only while the verify request is awaited; since a
   * reply is a parameter of `Submit`, every handler here starts and ends with it false.
   */
  class Modal {
    const pin: array<string>
    var error: string

    ghost predicate Valid()
      reads this, pin
    {
      pin.Length == PinLength && AllSlots(pin[..])
    }

    constructor ()
      ensures Valid() && fresh(pin)
      ensures pin[..] == Empties(PinLength) && error == ""
    {
      pin := new string[4](_ => "");
      error := "";
      new;
      assert pin[..] == Empties(PinLength);
    }

    /** The effect run when `isOpen` becomes true: empty boxes and no error. */
    method Open()
      requires Valid()
      modifies this, pin
      ensures Valid()
      ensures pin[..] == Empties(PinLength) && error == ""
    {
      Fill(pin, Empties(PinLength));
      error := "";
    }

    /**
     * `handleInputChange(index, value)`. A value other than nothing or one digit is ignored;
     * otherwise only box `index` changes. The returned PIN is the auto-submit that fires when
     * the last box is edited and every box is filled; it is what `Submit` is then called with.
     */
    method HandleInputChange(index: nat, value: string) returns (autoSubmit: Option<string>)
      requires Valid() && index < PinLength
      modifies pin
      ensures Valid()
      ensures IsSlotValue(value) ==> pin[..] == old(pin[..])[index := value]
      ensures !IsSlotValue(value) ==> pin[..] == old(pin[..])
      ensures autoSubmit.Some? <==> IsSlotValue(value) && index == PinLength - 1 && AllFilled(pin[..])
      ensures autoSubmit.Some? ==> autoSubmit.value == Join(pin[..]) && IsDigitsOfLength(autoSubmit.value, PinLength)
    {
      if !IsSlotValue(value) {
        return None;
      }
      pin[index] := value;
      assert pin[..] == old(pin[..])[index := value];
      if index == PinLength - 1 && AllFilled(pin[..]) {
        JoinLength(pin[..]);
        autoSubmit := Some(Join(pin[..]));
      } else {
        autoSubmit := None;
      }
    }

    /** `handlePaste`: exactly four digits replace all boxes; any other text leaves them as they were. Nothing is submitted. */
    method HandlePaste(text: string)
      requires Valid()
      modifies pin
      ensures Valid()
      ensures IsDigitsOfLength(text, PinLength) ==> pin[..] == Chars(text) && AllFilled(pin[..]) && Join(pin[..]) == text
      ensures !IsDigitsOfLength(text, PinLength) ==> pin[..] == old(pin[..])
    {
      if IsDigitsOfLength(text, PinLength) {
        CharsOfDigits(text);
        JoinChars(text);
        Fill(pin, Chars(text));
      }
    }

    /**
     * `handleSubmit(submittedPin)`. Returns the body of the verify request (none when the length
     * check fails), the success toast, the PIN handed to `onVerify`, and whether `onClose` was called.
     */
    method Submit(submitted: string, reply: VerifyReply)
      returns (request: Option<string>, toast: Option<Toast>, verified: Option<string>, closed: bool)
      requires Valid()
      modifies this, pin
      ensures Valid()
      ensures toast.Some? <==> verified.Some?
      ensures toast.Some? ==> toast.value == Toast(VerifiedMessage, Success)
      ensures request.Some? <==> |submitted| == PinLength
      ensures request.Some? ==> request.value == submitted
      ensures |submitted| != PinLength ==>
                error == LengthMessage && pin[..] == old(pin[..]) && verified.None? && !closed
      ensures |submitted| == PinLength && reply == Answered(true) ==>
                verified == Some(submitted) && closed && error == "" && pin[..] == old(pin[..])
      ensures |submitted| == PinLength && reply == Answered(false) ==>
                error == InvalidMessage && pin[..] == Empties(PinLength) && verified.None? && !closed
      ensures |submitted| == PinLength && reply.Rejected? ==>
                error == OrDefault(reply.userMessage, FailedMessage) && pin[..] == Empties(PinLength)
                && verified.None? && !closed
    {
      toast, verified, closed := None, None, false;
      if |submitted| != PinLength {
        error := LengthMessage;
        return None, None, None, false;
      }
      error := "";
      request := Some(submitted);
      match reply
      case Answered(valid) =>
        if valid {
          toast := Some(Toast(VerifiedMessage, Success));
          verified, closed := Some(submitted), true;
        } else {
          error := InvalidMessage;
          Fill(pin, Empties(PinLength));
        }
      case Rejected(message) =>
        error := OrDefault(message, FailedMessage);
        Fill(pin, Empties(PinLength));
    }
  }
}
