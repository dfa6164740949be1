/** src/components/FundWallet.jsx: the deposit form. */
module FundWallet {
  import opened Wrappers
  import opened Text
  import opened AmountInput

  const FailedMessage := "Deposit failed"
  const RetryMessage := "Deposit failed. Please try again."

  /** The quick-amount buttons. */
  const QuickAmounts: seq<nat> := [500, 1000, 2000, 5000, 10000]

  /** The reply to `depositService.deposit`, or a rejection carrying `error.response.data.message`. */
  datatype DepositReply =
    | Replied(success: bool, message: Option<string>)
    | Failed(dataMessage: Option<string>)

  /** The success banner: the amount deposited. */
  datatype Notice = Deposited(amount: real)

  /** The submit button's `disabled` rule. */
  predicate SubmitDisabled(loading: bool, amount: string)
    requires IsAmountText(amount)
  {
    loading || amount == "" || ParsesToNonPositive(amount)
  }

  class Form {
    var amount: string
    var error: string
    var success: Option<Notice>

    /** The amount always passes the edit filter. */
    ghost predicate Valid()
      reads this
    {
      IsAmountText(amount)
    }

    constructor ()
      ensures Valid() && amount == "" && error == "" && success.None?
    {
      amount, error, success := "", "", None;
    }

    /** `handleAmountChange`: an edit the filter rejects leaves the amount as it was. */
    method HandleAmountChange(value: string)
      requires Valid()
      modifies this
      ensures Valid()
      ensures amount == if AcceptsEdit(value) then value else old(amount)
      ensures error == old(error) && success == old(success)
    {
      if value == "" || IsAmountText(value) {
        amount := value;
      }
    }

    /** A quick-amount button: the amount becomes the button's number, which enables submit. */
    method QuickAmount(i: nat)
      requires Valid() && i < |QuickAmounts|
      modifies this
      ensures Valid()
      ensures amount == NatToString(QuickAmounts[i])
      ensures ParseFloat(amount) == Some(QuickAmounts[i] as real) && !SubmitDisabled(false, amount)
      ensures error == old(error) && success == old(success)
    {
      QuickAmountText(QuickAmounts[i]);
      amount := NatToString(QuickAmounts[i]);
    }

    /**
     * `handleSubmit`. The banners are cleared first; an amount with no nonzero digit sends
     * nothing. Only a successful reply clears the amount and calls `onDepositSuccess`, when one
     * was passed.
     */
    method Submit(reply: DepositReply, hasCallback: bool) returns (request: Option<real>, notified: bool)
      requires Valid()
      modifies this
      ensures Valid()
      ensures request.Some? <==> HasNonzeroDigit(old(amount))
      ensures request.Some? ==> request.value == ParseFloat(old(amount)).value && request.value > 0.0
      ensures request.None? ==> error == AmountMessage
      ensures notified <==> request.Some? && reply.Replied? && reply.success && hasCallback
      ensures request.Some? && reply.Replied? && reply.success ==>
                success == Some(Deposited(request.value)) && error == "" && amount == ""
      ensures !(request.Some? && reply.Replied? && reply.success) ==> success.None? && amount == old(amount)
      ensures request.Some? && reply.Replied? && !reply.success ==> error == OrDefault(reply.message, FailedMessage)
      ensures request.Some? && reply.Failed? ==> error == OrDefault(reply.dataMessage, RetryMessage)
    {
      error, success := "", None;
      request, notified := None, false;
      RejectsAmountIff(amount);
      if RejectsAmount(amount) {
        error := AmountMessage;
        return;
      }
      var depositAmount := ParseFloat(amount).value;
      request := Some(depositAmount);
      match reply
      case Replied(ok, message) =>
        if ok {
          success := Some(Deposited(depositAmount));
          amount := "";
          notified := hasCallback;
        } else {
          error := OrDefault(message, FailedMessage);
        }
      case Failed(dataMessage) =>
        error := OrDefault(dataMessage, RetryMessage);
    }
  }
}
