/** src/components/shared/OTPModal.jsx: six-digit one-time-password entry with a resend countdown. */
module OtpModal {
  import opened Wrappers
  import opened Text
  import opened DigitEntry
  import opened Forms
  import AuthContext

  const OtpLength: nat := 6

  /** The seconds the resend link stays hidden after the modal opens or a code is resent. */
  const ResendDelay: int := 60

  const LengthMessage := "Please enter the 6-digit OTP"
  const VerifyFailedMessage := "OTP verification failed"
  const ResendFailedMessage := "Failed to resend OTP"
  const LoginSuccessMessage := "Login successful!"
  const ResentMessage := "OTP sent successfully!"

  /** The hook the modal takes from `useAuth()` to finish the sign-in. */
  const CompleteLoginHook := "completeLogin"

  /**
   * The auth context has no such hook: destructuring it gives `undefined`, and calling that
   * throws a TypeError, which has no `userMessage`.
   */
  lemma CompleteLoginMissing()
    ensures CompleteLoginHook !in AuthContext.ContextKeys
  {
  }

  /** The updater passed to `setCountdown` once per second. */
  function Tick(prev: int): (next: int) {
    if prev <= 1 then 0 else prev - 1
  }

  /** The countdown after `k` ticks. */
  function Ticks(c: int, k: nat): (count: int) {
    if k == 0 then c else Tick(Ticks(c, k - 1))
  }

  /** A countdown never goes below 0, and once at 0 it stays there. */
  lemma TickBounds(prev: int)
    ensures Tick(prev) >= 0
    ensures prev > 0 ==> Tick(prev) < prev
    ensures prev <= 0 ==> Tick(prev) == 0
  {
  }

  /** `k` ticks take `c` down by `k`, stopping at 0. */
  lemma {:induction false} TicksValue(c: nat, k: nat)
    ensures Ticks(c, k) == if k <= c then c - k else 0
  {
    if k > 0 {
      TicksValue(c, k - 1);
    }
  }

  /** From a fresh countdown the resend link reappears after exactly sixty ticks, and not before. */
  lemma ResendAvailableAfterDelay(k: nat)
    ensures Ticks(ResendDelay, k) == 0 <==> k >= 60
  {
    TicksValue(ResendDelay, k);
  }

  /** How `authService.verifyOTP` settles: it resolves with a `token` that may be absent or empty, or rejects. */
  datatype VerifyReply = Responded(token: Option<string>) | Rejected(userMessage: Option<string>)

  /** How `authService.resendOTP` settles. */
  datatype ResendReply = Sent | ResendRejected(userMessage: Option<string>)

  /** JavaScript truthiness of `response.token`. */
  predicate HasToken(r: VerifyReply) {
    r.Responded? && r.token.Some? && r.token.value != ""
  }

  /**
   * The modal's state. `loading` is true only while a request is awaited; since replies are
   * handler parameters, each handler starts and ends with it false and it is not a field.
   */
  class Modal {
    const otp: array<string>
    var error: string
    var countdown: int

    ghost predicate Valid()
      reads this, otp
    {
      otp.Length == OtpLength && AllSlots(otp[..]) && countdown >= 0
    }

    constructor ()
      ensures Valid() && fresh(otp)
      ensures otp[..] == Empties(OtpLength) && error == "" && countdown == 0
    {
      otp := new string[6](_ => "");
      error, countdown := "", 0;
      new;
      assert otp[..] == Empties(OtpLength);
    }

    /** The effect run when `isOpen` becomes true: empty boxes, no error, and a fresh countdown. */
    method Open()
      requires Valid()
      modifies this, otp
      ensures Valid()
      ensures otp[..] == Empties(OtpLength) && error == "" && countdown == ResendDelay
    {
      Fill(otp, Empties(OtpLength));
      error, countdown := "", ResendDelay;
    }

    /** One second of the interval timer. */
    method TimerTick()
      requires Valid()
      modifies this
      ensures Valid() && error == old(error)
      ensures countdown == Tick(old(countdown))
    {
      countdown := Tick(countdown);
    }

    /**
     * `handleInputChange(index, value)`. A value other than nothing or one digit is ignored;
     * otherwise only box `index` changes. The returned code is the auto-submit that fires
     * when the last box is edited and all six are filled.
     */
    method HandleInputChange(index: nat, value: string) returns (autoSubmit: Option<string>)
      requires Valid() && index < OtpLength
      modifies otp
      ensures Valid()
      ensures IsSlotValue(value) ==> otp[..] == old(otp[..])[index := value]
      ensures !IsSlotValue(value) ==> otp[..] == old(otp[..])
      ensures autoSubmit.Some? <==> IsSlotValue(value) && index == OtpLength - 1 && AllFilled(otp[..])
      ensures autoSubmit.Some? ==> autoSubmit.value == Join(otp[..]) && IsDigitsOfLength(autoSubmit.value, OtpLength)
    {
      if !IsSlotValue(value) {
        return None;
      }
      otp[index] := value;
      assert otp[..] == old(otp[..])[index := value];
      if index == OtpLength - 1 && AllFilled(otp[..]) {
        JoinLength(otp[..]);
        autoSubmit := Some(Join(otp[..]));
      } else {
        autoSubmit := None;
      }
    }

    /** `handlePaste`: exactly six digits replace all boxes; any other text is ignored. Nothing is submitted. */
    method HandlePaste(text: string)
      requires Valid()
      modifies otp
      ensures Valid()
      ensures IsDigitsOfLength(text, OtpLength) ==> otp[..] == Chars(text) && AllFilled(otp[..]) && Join(otp[..]) == text
      ensures !IsDigitsOfLength(text, OtpLength) ==> otp[..] == old(otp[..])
    {
      if IsDigitsOfLength(text, OtpLength) {
        CharsOfDigits(text);
        JoinChars(text);
        Fill(otp, Chars(text));
      }
    }

    /**
     * `handleSubmit(submittedOtp)`, for an auth context that does or does not supply the
     * `completeLogin` hook. Returns the code sent to `verifyOTP` (none when the length check
     * fails), the success toast, the token handed to the hook, and whether `onClose` was
     * called. The toast is raised before the hook is called. With the hook, a token completes
     * the sign-in and closes the modal; without it the call throws into the same catch as a
     * rejected request. A reply without a token keeps the digits; a rejection clears them. The
     * countdown is never touched.
     */
    method Submit(submitted: string, reply: VerifyReply, hookProvided: bool)
      returns (request: Option<string>, toast: Option<Toast>, completed: Option<string>, closed: bool)
      requires Valid()
      modifies this, otp
      ensures Valid() && countdown == old(countdown)
      ensures request == (if |submitted| == OtpLength then Some(submitted) else None)
      ensures toast == (if request.Some? && HasToken(reply) then Some(Toast(LoginSuccessMessage, Success)) else None)
      ensures completed.Some? <==> request.Some? && HasToken(reply) && hookProvided
      ensures completed.Some? ==> completed.value == reply.token.value && closed && error == "" && otp[..] == old(otp[..])
      ensures !completed.Some? ==> !closed
      ensures request.None? ==> error == LengthMessage && otp[..] == old(otp[..])
      ensures request.Some? && HasToken(reply) && !hookProvided ==>
                error == VerifyFailedMessage && otp[..] == Empties(OtpLength)
      ensures request.Some? && reply.Responded? && !HasToken(reply) ==>
                error == VerifyFailedMessage && otp[..] == old(otp[..])
      ensures request.Some? && reply.Rejected? ==>
                error == OrDefault(reply.userMessage, VerifyFailedMessage) && otp[..] == Empties(OtpLength)
    {
      toast, completed, closed := None, None, false;
      if |submitted| != OtpLength {
        error := LengthMessage;
        return None, None, None, false;
      }
      error := "";
      request := Some(submitted);
      match reply
      case Responded(token) =>
        if HasToken(reply) {
          toast := Some(Toast(LoginSuccessMessage, Success));
          if hookProvided {
            completed, closed := Some(token.value), true;
          } else {
            error := OrDefault(None, VerifyFailedMessage);
            Fill(otp, Empties(OtpLength));
          }
        } else {
          error := VerifyFailedMessage;
        }
      case Rejected(message) =>
        error := OrDefault(message, VerifyFailedMessage);
        Fill(otp, Empties(OtpLength));
    }

    /**
     * `handleSubmit` inside the application's auth provider, which lacks `completeLogin`:
     * a verified code raises the success toast, then reports "OTP verification failed",
     * clears the digits and leaves the modal open. The sign-in is never completed.
     */
    method SubmitAsWritten(submitted: string, reply: VerifyReply)
      returns (request: Option<string>, toast: Option<Toast>, completed: Option<string>, closed: bool)
      requires Valid()
      modifies this, otp
      ensures Valid() && countdown == old(countdown)
      ensures request == (if |submitted| == OtpLength then Some(submitted) else None)
      ensures completed.None? && !closed
      ensures request.Some? && HasToken(reply) ==>
                && toast == Some(Toast(LoginSuccessMessage, Success))
                && error == VerifyFailedMessage && otp[..] == Empties(OtpLength)
    {
      CompleteLoginMissing();
      request, toast, completed, closed := Submit(submitted, reply, CompleteLoginHook in AuthContext.ContextKeys);
    }

    /**
     * `handleResendOTP`. While the countdown runs it does nothing. Otherwise it asks for a new
     * code: success raises a toast and restarts the countdown, failure sets the error and
     * leaves the countdown as it was. The digits are never touched.
     */
    method Resend(reply: ResendReply) returns (requested: bool, toast: Option<Toast>)
      requires Valid()
      modifies this
      ensures Valid()
      ensures requested <==> old(countdown) <= 0
      ensures toast == (if requested && reply.Sent? then Some(Toast(ResentMessage, Success)) else None)
      ensures !requested ==> error == old(error) && countdown == old(countdown)
      ensures requested && reply.Sent? ==> error == "" && countdown == ResendDelay
      ensures requested && reply.ResendRejected? ==>
                error == OrDefault(reply.userMessage, ResendFailedMessage) && countdown == old(countdown)
    {
      toast := None;
      if countdown > 0 {
        return false, None;
      }
      requested := true;
      error := "";
      match reply
      case Sent =>
        toast := Some(Toast(ResentMessage, Success));
        countdown := ResendDelay;
      case ResendRejected(message) =>
        error := OrDefault(message, ResendFailedMessage);
    }
  }
}
