/** src/pages/BVNVerificationPage.jsx: the page around the BVN form, and the record update after verification. */
module BvnVerificationPage {
  import opened Wrappers
  import opened Text
  import opened Json
  import opened Storage
  import opened AuthService
  import opened AuthContext
  import opened Forms
  import opened BvnVerification

  const StatusKey := "verificationStatus"
  const LimitKey := "transactionLimit"

  /** The properties `...user` copies: an object's own, a string's characters under their indices, nothing for a number. */
  function Spread(p: Parsed): (copied: Object) {
    match p
    case PObject(o) => o
    case PValue(v) =>
      match v
      case JString(s) => seq(|s|, i requires 0 <= i < |s| => (NatToString(i), JString([s[i]])))
      case _ => []
  }

  /**
   * `{...user, verificationStatus, transactionLimit}`: the old record with exactly those two
   * properties taken from the reply.
   */
  function UpdatedUser(user: Parsed, r: VerificationResult): (updated: Object) {
    Set(Set(Spread(user), StatusKey, r.verificationStatus), LimitKey, r.transactionLimit)
  }

  /**
   * The updated record has the reply's status and limit, every other property of the old
   * record unchanged, and still no key twice.
   */
  lemma {:induction false} UpdatedUserFields(user: Parsed, r: VerificationResult)
    ensures var u := UpdatedUser(user, r);
            && Get(u, StatusKey) == Some(r.verificationStatus)
            && Get(u, LimitKey) == Some(r.transactionLimit)
            && (forall k :: k != StatusKey && k != LimitKey ==> Get(u, k) == Get(Spread(user), k))
            && (DistinctKeys(Spread(user)) ==> DistinctKeys(u))
  {
    var withStatus := Set(Spread(user), StatusKey, r.verificationStatus);
    var u := Set(withStatus, LimitKey, r.transactionLimit);
    forall k ensures Get(u, k) == if k == LimitKey then Some(r.transactionLimit) else Get(withStatus, k) {
      SetGet(withStatus, LimitKey, r.transactionLimit, k);
    }
    forall k ensures Get(withStatus, k) == if k == StatusKey then Some(r.verificationStatus) else Get(Spread(user), k) {
      SetGet(Spread(user), StatusKey, r.verificationStatus, k);
    }
    if DistinctKeys(Spread(user)) {
      SetKeys(Spread(user), StatusKey, r.verificationStatus);
      SetKeys(withStatus, LimitKey, r.transactionLimit);
    }
  }

  /**
   * `handleVerificationComplete(response)`. Only the `user` key of storage is written; the
   * token and the user held by the auth context stay as they were, whatever the comment above
   * the update says. The page is only shown with a user (see `Route`), hence the requires.
   */
  method HandleVerificationComplete(ctx: Provider, r: VerificationResult)
    requires ctx.user.Some?
    modifies ctx.storage
    ensures ctx.storage.items == old(ctx.storage.items)[UserKey := Stringify(UpdatedUser(ctx.user.value, r))]
  {
    ctx.storage.SetItem(UserKey, Stringify(UpdatedUser(ctx.user.value, r)));
  }

  /**
   * A submission of the embedded form with the page's handler as `onVerificationComplete`:
   * storage changes exactly when the form reports a successful verification.
   */
  method SubmitForm(form: Form, ctx: Provider, reply: BvnReply) returns (request: Option<map<string, string>>, toast: Option<Toast>)
    requires form.Valid() && ctx.user.Some?
    modifies form, ctx.storage
    ensures form.Valid() && form.formData == old(form.formData)
    ensures request.Some? <==> IsBvn(form.formData[BvnField]) && form.formData[DobField] != ""
    ensures request.Some? && reply.Replied? && reply.success ==>
              ctx.storage.items == old(ctx.storage.items)[UserKey := Stringify(UpdatedUser(ctx.user.value, reply.result))]
    ensures !(request.Some? && reply.Replied? && reply.success) ==> ctx.storage.items == old(ctx.storage.items)
  {
    var completed;
    request, toast, completed := form.Submit(reply);
    if completed.Some? {
      HandleVerificationComplete(ctx, completed.value);
    }
  }

  /** What the page does on render. */
  datatype Outcome = ToLogin | ToDashboard | ShowForm

  /** `user.verificationStatus === "VERIFIED"`: only an object can have that property. */
  predicate IsVerified(p: Parsed) {
    p.PObject? && Get(p.o, StatusKey) == Some(JString("VERIFIED"))
  }

  /** The two redirect guards in order: no user first, then an already verified one. */
  function Route(user: Option<Parsed>): (out: Outcome)
    ensures out == ToLogin <==> user.None? || !Truthy(user.value)
    ensures out == ToDashboard <==> user.Some? && Truthy(user.value) && IsVerified(user.value)
  {
    if user.None? || !Truthy(user.value) then ToLogin
    else if IsVerified(user.value) then ToDashboard
    else ShowForm
  }

  /**
   * After a verification reply with status "VERIFIED", the record read back from storage on
   * the next page load carries the new status and limit, keeps every other property, and sends
   * the page to the dashboard.
   */
  lemma {:induction false} VerifiedUserIsStored(items: map<string, string>, user: Parsed, r: VerificationResult)
    requires DistinctKeys(Spread(user))
    requires r.verificationStatus == JString("VERIFIED") && r.transactionLimit != Undefined
    ensures var stored := GetCurrentUser(items[UserKey := Stringify(UpdatedUser(user, r))]);
            && stored.Found? && stored.user.PObject?
            && Get(stored.user.o, LimitKey) == Some(r.transactionLimit)
            && (forall k :: k != StatusKey && k != LimitKey && Get(Spread(user), k) != Some(Undefined) ==>
                  Get(stored.user.o, k) == Get(Spread(user), k))
            && Route(Some(stored.user)) == ToDashboard
  {
    var u := UpdatedUser(user, r);
    UpdatedUserFields(user, r);
    GetCurrentUserAfterWrite(items, u);
    forall k ensures Get(Defined(u), k) == if Get(u, k) == Some(Undefined) then None else Get(u, k) {
      DefinedGet(u, k);
    }
  }
}
