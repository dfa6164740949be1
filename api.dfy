/** src/services/api.js: the two axios interceptors every request and every failed response pass through. */
module Api {
  import opened Wrappers
  import opened Text
  import opened Storage
  import opened AuthService

  const AuthorizationHeader := "Authorization"
  const BearerPrefix := "Bearer "

  const DefaultServerMessage := "An error occurred"
  const NetworkMessage := "Network error. Please check your connection."
  const TimeoutMessage := "Request timeout. Please try again."
  const UnexpectedMessage := "An unexpected error occurred. Please try again."

  /** `config.headers` after the request interceptor: a truthy stored token becomes a bearer header. */
  function WithToken(headers: map<string, string>, token: Option<string>): (r: map<string, string>)
    ensures token.Some? && token.value != "" ==>
              AuthorizationHeader in r && r[AuthorizationHeader] == BearerPrefix + token.value
    ensures forall h :: h != AuthorizationHeader ==> (h in r <==> h in headers) && (h in r ==> r[h] == headers[h])
    ensures !(token.Some? && token.value != "") ==> r == headers
  {
    if token.Some? && token.value != "" then headers[AuthorizationHeader := BearerPrefix + token.value] else headers
  }

  /** The request interceptor; it reads storage and changes nothing else. */
  method InterceptRequest(storage: BrowserStorage, headers: map<string, string>) returns (r: map<string, string>)
    ensures r == WithToken(headers, storage.GetItem(TokenKey))
  {
    var token := storage.GetItem(TokenKey);
    r := WithToken(headers, token);
  }

  /** The body of an error response, when it is an object: its `message` and `error` fields. */
  datatype ErrorBody = ErrorBody(message: Option<string>, error: Option<string>)

  /** `error.response`: the status and a body that may be missing or falsy. */
  datatype Response = Response(status: int, data: Option<ErrorBody>)

  /** A rejected axios request: a response when the server answered, and the error `code`. */
  datatype RequestError = RequestError(response: Option<Response>, code: Option<string>)

  predicate HasData(e: RequestError) {
    e.response.Some? && e.response.value.data.Some?
  }

  /** `error.userMessage` as the response interceptor sets it. */
  function UserMessage(e: RequestError): (m: string)
    ensures m != ""
  {
    if HasData(e) then
      var body := e.response.value.data.value;
      OrDefault(body.message, OrDefault(body.error, DefaultServerMessage))
    else if e.code == Some("NETWORK_ERROR") then NetworkMessage
    else if e.code == Some("TIMEOUT_ERROR") then TimeoutMessage
    else UnexpectedMessage
  }

  /**
   * The decision table of `userMessage`: with a body, the server's `message`, else its
   * `error`, else the generic server message; without one, the message fixed by the error
   * code, which is then never the server's.
   */
  lemma UserMessageTable(e: RequestError)
    ensures HasData(e) && OrDefault(e.response.value.data.value.message, "") != "" ==>
              UserMessage(e) == e.response.value.data.value.message.value
    ensures HasData(e) && OrDefault(e.response.value.data.value.message, "") == "" ==>
              UserMessage(e) == OrDefault(e.response.value.data.value.error, DefaultServerMessage)
    ensures !HasData(e) ==>
              UserMessage(e) in {NetworkMessage, TimeoutMessage, UnexpectedMessage}
              && (UserMessage(e) == NetworkMessage <==> e.code == Some("NETWORK_ERROR"))
              && (UserMessage(e) == TimeoutMessage <==> e.code == Some("TIMEOUT_ERROR"))
  {
  }

  /** The failure half of the response interceptor: a 401 ends the session and sends the browser to the login page. */
  method InterceptError(storage: BrowserStorage, e: RequestError) returns (userMessage: string, redirect: Option<string>)
    modifies storage
    ensures userMessage == UserMessage(e) && userMessage != ""
    ensures var unauthorized := e.response.Some? && e.response.value.status == 401;
            && (unauthorized ==> storage.items == AfterLogout(old(storage.items)) && redirect == Some("/login"))
            && (!unauthorized ==> storage.items == old(storage.items) && redirect.None?)
  {
    redirect := None;
    if e.response.Some? && e.response.value.status == 401 {
      AuthService.Logout(storage);
      redirect := Some("/login");
    }
    userMessage := UserMessage(e);
  }
}
