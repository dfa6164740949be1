/** `window.localStorage`: a map from keys to strings. */
module Storage {
  import opened Wrappers

  class BrowserStorage {
    var items: map<string, string>

    constructor ()
      ensures items == map[]
    {
      items := map[];
    }

    /** `getItem(k)`: null when the key is absent. */
    function GetItem(k: string): (r: Option<string>)
      reads this
      ensures r.Some? <==> k in items
      ensures r.Some? ==> r.value == items[k]
    {
      if k in items then Some(items[k]) else None
    }

    method SetItem(k: string, v: string)
      modifies this
      ensures items == old(items)[k := v]
    {
      items := items[k := v];
    }

    method RemoveItem(k: string)
      modifies this
      ensures items == old(items) - {k}
    {
      items := items - {k};
    }
  }
}

/** src/services/authService.js, the two members that touch storage only. */
module AuthService {
  import opened Wrappers
  import opened Json
  import opened Storage

  const TokenKey := "token"
  const UserKey := "user"

  /** The storage after `logout`: both session keys gone, every other key as it was. */
  function AfterLogout(items: map<string, string>): (r: map<string, string>)
    ensures TokenKey !in r && UserKey !in r
    ensures forall k :: k != TokenKey && k != UserKey ==> (k in r <==> k in items)
    ensures forall k :: k in r ==> r[k] == items[k]
  {
    items - {TokenKey, UserKey}
  }

  /** Logging out twice leaves the same storage as logging out once. */
  lemma LogoutIdempotent(items: map<string, string>)
    ensures AfterLogout(AfterLogout(items)) == AfterLogout(items)
  {
    assert AfterLogout(AfterLogout(items)).Keys == AfterLogout(items).Keys;
  }

  /** `authService.logout()`. */
  method Logout(storage: BrowserStorage)
    modifies storage
    ensures storage.items == AfterLogout(old(storage.items))
  {
    storage.RemoveItem(TokenKey);
    storage.RemoveItem(UserKey);
  }

  /** The outcome of `getCurrentUser()`: null, the parsed value, or the exception `JSON.parse` throws. */
  datatype CurrentUser = NoUser | Found(user: Parsed) | Throws

  /** `getCurrentUser()`, a read of storage that changes nothing. */
  function GetCurrentUser(items: map<string, string>): (r: CurrentUser)
    ensures r.NoUser? <==> UserKey !in items || items[UserKey] == ""
    ensures r.Found? ==> Parse(items[UserKey]) == Some(r.user)
    ensures r.Throws? <==> UserKey in items && items[UserKey] != "" && Parse(items[UserKey]).None?
  {
    if UserKey !in items || items[UserKey] == "" then NoUser
    else
      match Parse(items[UserKey])
      case Some(p) => Found(p)
      case None => Throws
  }

  /** After logout there is no current user. */
  lemma NoUserAfterLogout(items: map<string, string>)
    ensures GetCurrentUser(AfterLogout(items)).NoUser?
  {
  }

  /** A user record written with `JSON.stringify` is read back, without its undefined properties. */
  lemma {:induction false} GetCurrentUserAfterWrite(items: map<string, string>, u: Object)
    requires DistinctKeys(u)
    ensures GetCurrentUser(items[UserKey := Stringify(u)]) == Found(PObject(Defined(u)))
  {
    ParseStringify(u);
    assert Stringify(u) != "" by {
      assert Stringify(u)[0] == '{';
    }
  }
}
