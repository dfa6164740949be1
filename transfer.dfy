/** src/components/TransferFunds.jsx: the transfer form. */
module TransferFunds {
  import opened Wrappers
  import opened Text
  import opened AmountInput

  const AmountField := "amount"
  const RecipientField := "recipientEmail"

  const RecipientMessage := "Please enter a valid recipient email"
  const FailedMessage := "Transfer failed"
  const RetryMessage := "Transfer failed. Please try again."

  /** The quick-amount buttons. */
  const QuickAmounts: seq<nat> := [100, 500, 1000, 2000, 5000]

  /** The reply to `transferService.transfer`, or a rejection carrying `error.response.data.message`. */
  datatype TransferReply =
    | Replied(success: bool, message: Option<string>, recipientEmail: string)
    | Failed(dataMessage: Option<string>)

  /** The success banner: the amount sent and the recipient the server named. */
  datatype Notice = Transferred(amount: real, recipientEmail: string)

  /** What the recipient check accepts: a non-empty text with an `@`. */
  predicate IsRecipient(r: string) {
    r != "" && '@' in r
  }

  /** The submit button's `disabled` rule. */
  predicate SubmitDisabled(loading: bool, amount: string, recipient: string)
    requires IsAmountText(amount)
  {
    loading || amount == "" || recipient == "" || ParsesToNonPositive(amount)
  }

  class Form {
    var formData: map<string, string>
    var error: string
    var success: Option<Notice>

    /** Both fields exist, and the amount always passes the edit filter. */
    ghost predicate Valid()
      reads this
    {
      AmountField in formData && RecipientField in formData && IsAmountText(formData[AmountField])
    }

    constructor ()
      ensures Valid()
      ensures formData == map[AmountField := "", RecipientField := ""] && error == "" && success.None?
    {
      formData := map[AmountField := "", RecipientField := ""];
      error, success := "", None;
    }

    /** `handleChange`, wired to the recipient input only; the amount has a handler of its own. */
    method HandleChange(name: string, value: string)
      requires Valid() && name != AmountField
      modifies this
      ensures Valid()
      ensures formData == old(formData)[name := value]
      ensures error == old(error) && success == old(success)
    {
      formData := formData[name := value];
    }

    /** `handleAmountChange`: an edit the filter rejects leaves the form as it was. */
    method HandleAmountChange(value: string)
      requires Valid()
      modifies this
      ensures Valid()
      ensures AcceptsEdit(value) ==> formData == old(formData)[AmountField := value]
      ensures !AcceptsEdit(value) ==> formData == old(formData)
      ensures error == old(error) && success == old(success)
    {
      if value == "" || IsAmountText(value) {
        formData := formData[AmountField := value];
      }
    }

    /** A quick-amount button: the amount becomes the button's number, the recipient stays. */
    method QuickAmount(i: nat)
      requires Valid() && i < |QuickAmounts|
      modifies this
      ensures Valid()
      ensures formData == old(formData)[AmountField := NatToString(QuickAmounts[i])]
      ensures ParseFloat(formData[AmountField]) == Some(QuickAmounts[i] as real)
      ensures !SubmitDisabled(false, formData[AmountField], formData[RecipientField]) <==> formData[RecipientField] != ""
      ensures error == old(error) && success == old(success)
    {
      QuickAmountText(QuickAmounts[i]);
      formData := formData[AmountField := NatToString(QuickAmounts[i])];
    }

    /**
     * `handleSubmit`. The banners are cleared first; the amount is checked before the
     * recipient and a failed check sends nothing. Only a successful reply resets the form and
     * calls `onTransferSuccess`, when one was passed.
     */
    method Submit(reply: TransferReply, hasCallback: bool) returns (request: Option<(real, string)>, notified: bool)
      requires Valid()
      modifies this
      ensures Valid()
      ensures var amount, recipient := old(formData)[AmountField], old(formData)[RecipientField];
              && (request.Some? <==> HasNonzeroDigit(amount) && IsRecipient(recipient))
              && (request.Some? ==> request.value == (ParseFloat(amount).value, recipient))
              && (!HasNonzeroDigit(amount) ==> error == AmountMessage)
              && (HasNonzeroDigit(amount) && !IsRecipient(recipient) ==> error == RecipientMessage)
      ensures notified <==> request.Some? && reply.Replied? && reply.success && hasCallback
      ensures request.Some? && reply.Replied? && reply.success ==>
                && success == Some(Transferred(request.value.0, reply.recipientEmail)) && error == ""
                && formData == map[AmountField := "", RecipientField := ""]
      ensures !(request.Some? && reply.Replied? && reply.success) ==> success.None? && formData == old(formData)
      ensures request.Some? && reply.Replied? && !reply.success ==> error == OrDefault(reply.message, FailedMessage)
      ensures request.Some? && reply.Failed? ==> error == OrDefault(reply.dataMessage, RetryMessage)
    {
      error, success := "", None;
      request, notified := None, false;
      var amountText := formData[AmountField];
      RejectsAmountIff(amountText);
      if RejectsAmount(amountText) {
        error := AmountMessage;
        return;
      }
      var amount := ParseFloat(amountText).value;
      var recipient := formData[RecipientField];
      if !IsRecipient(recipient) {
        error := RecipientMessage;
        return;
      }
      request := Some((amount, recipient));
      match reply
      case Replied(ok, message, recipientEmail) =>
        if ok {
          success := Some(Transferred(amount, recipientEmail));
          formData := map[AmountField := "", RecipientField := ""];
          notified := hasCallback;
        } else {
          error := OrDefault(message, FailedMessage);
        }
      case Failed(dataMessage) =>
        error := OrDefault(dataMessage, RetryMessage);
    }
  }
}
