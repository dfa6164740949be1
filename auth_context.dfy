/** src/context/AuthContext.jsx: the session held in memory and mirrored in browser storage. */
module AuthContext {
  import opened Wrappers
  import opened Json
  import opened Storage
  import opened AuthService

  /** JavaScript truthiness of a value `JSON.parse` returned. */
  predicate Truthy(p: Parsed) {
    match p
    case PObject(_) => true
    case PValue(v) =>
      match v
      case JString(s) => s != ""
      case JNumber(n) => n != 0
      case JNull => false
      case Undefined => false
  }

  /** JavaScript truthiness of `localStorage.getItem("token")`. */
  predicate TokenTruthy(t: Option<string>) {
    t.Some? && t.value != ""
  }

  /** What `localStorage.setItem("token", token)` stores: a null token becomes the text "null". */
  function TokenText(token: Option<string>): (r: string)
    ensures r == "" <==> token == Some("")
  {
    match token
    case Some(t) => t
    case None => "null"
  }

  /** The storage after `login(token, userData)`. */
  function AfterLogin(items: map<string, string>, token: Option<string>, u: Object): (stored: map<string, string>) {
    items[TokenKey := TokenText(token)][UserKey := Stringify(u)]
  }

  /**
   * What the next page load finds after `login`: the stored token is truthy for every token
   * but the empty string, including the null passed before an OTP step, and the user reads
   * back as written, without its undefined properties.
   */
  lemma {:induction false} LoginIsRestored(items: map<string, string>, token: Option<string>, u: Object)
    requires DistinctKeys(u)
    ensures var after := AfterLogin(items, token, u);
            && TokenKey in after && (TokenTruthy(Some(after[TokenKey])) <==> token != Some(""))
            && (token.None? ==> after[TokenKey] == "null")
            && GetCurrentUser(after) == Found(PObject(Defined(u)))
            && Truthy(PObject(Defined(u)))
  {
    var withToken := items[TokenKey := TokenText(token)];
    GetCurrentUserAfterWrite(withToken, u);
  }

  /** The names of the `value` object the provider hands to every `useAuth()` caller. */
  const ContextKeys: set<string> := {"isAuthenticated", "user", "login", "logout", "loading"}

  /**
   * The provider's state. `login`, `logout`, `isAuthenticated`, `user` and `loading` are all
   * it exposes (`ContextKeys`); there is no `completeLogin`.
   */
  class Provider {
    const storage: BrowserStorage
    var isAuthenticated: bool
    var user: Option<Parsed>
    var loading: bool

    /** `isAuthenticated` and `user` are set together and cleared together, and `user` is never falsy. */
    ghost predicate Valid()
      reads this
    {
      && (isAuthenticated <==> user.Some?)
      && (user.Some? ==> Truthy(user.value))
    }

    constructor (s: BrowserStorage)
      ensures Valid() && storage == s
      ensures !isAuthenticated && user.None? && loading
    {
      storage := s;
      isAuthenticated, user, loading := false, None, true;
    }

    /**
     * The mount effect. A session is restored only when both a truthy token and a truthy user
     * are stored; `loading` then ends false. When the stored user is not valid JSON, the
     * exception leaves the effect before `loading` is cleared.
     */
    method Init() returns (threw: bool)
      requires Valid()
      modifies this
      ensures Valid()
      ensures var cur := GetCurrentUser(storage.items);
              && (threw <==> cur.Throws?)
              && (threw ==> isAuthenticated == old(isAuthenticated) && user == old(user) && loading == old(loading))
              && (!threw && TokenTruthy(storage.GetItem(TokenKey)) && cur.Found? && Truthy(cur.user) ==>
                    isAuthenticated && user == Some(cur.user) && !loading)
              && (!threw && !(TokenTruthy(storage.GetItem(TokenKey)) && cur.Found? && Truthy(cur.user)) ==>
                    isAuthenticated == old(isAuthenticated) && user == old(user) && !loading)
    {
      var token := storage.GetItem(TokenKey);
      var cur := GetCurrentUser(storage.items);
      if cur.Throws? {
        return true;
      }
      threw := false;
      if TokenTruthy(token) && cur.Found? && Truthy(cur.user) {
        isAuthenticated, user := true, Some(cur.user);
      }
      loading := false;
    }

    /** `login(token, userData)`: both keys are written and the session is marked authenticated whatever the token. */
    method Login(token: Option<string>, userData: Object)
      requires Valid()
      modifies this, storage
      ensures Valid()
      ensures storage.items == AfterLogin(old(storage.items), token, userData)
      ensures isAuthenticated && user == Some(PObject(userData)) && loading == old(loading)
    {
      storage.SetItem(TokenKey, TokenText(token));
      storage.SetItem(UserKey, Stringify(userData));
      isAuthenticated, user := true, Some(PObject(userData));
    }

    /** `logout()`: both keys are removed and the session is cleared. */
    method Logout()
      requires Valid()
      modifies this, storage
      ensures Valid()
      ensures storage.items == AfterLogout(old(storage.items))
      ensures !isAuthenticated && user.None? && loading == old(loading)
    {
      AuthService.Logout(storage);
      isAuthenticated, user := false, None;
    }
  }
}
