/** What the forms and modals share: the per-field error object the forms show, and the toasts all of them raise. */
module Forms {
  datatype ToastKind = Success | Error

  /** One `addToast(message, kind)` call. */
  datatype Toast = Toast(message: string, kind: ToastKind)

  /** `errors[name]` is truthy: the field shows an error under it. */
  predicate ShowsError(errors: map<string, string>, name: string) {
    name in errors && errors[name] != ""
  }

  /** "Clear error when user starts typing": a shown error is blanked, an absent one stays absent. */
  function Blanked(errors: map<string, string>, name: string): (r: map<string, string>)
    ensures !ShowsError(r, name)
    ensures forall k :: k != name ==> (k in r <==> k in errors) && (k in r ==> r[k] == errors[k])
    ensures r.Keys == errors.Keys
  {
    if ShowsError(errors, name) then errors[name := ""] else errors
  }
}
