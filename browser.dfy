/**
 * The browser's localStorage as the frontend uses it: a string-to-string
 * store where a missing key reads as null. The login and signup pages
 * write the session under three keys; the sidebar's logout removes them.
 */
module Browser {
  import opened Wrappers

  const AccessTokenKey := "accessToken"
  const RefreshTokenKey := "refreshToken"
  const UserKey := "user"

  /** The three keys a session occupies. */
  const SessionKeys: set<string> := {AccessTokenKey, RefreshTokenKey, UserKey}

  class LocalStorage {
    var items: map<string, string>

    constructor (items: map<string, string>)
      ensures this.items == items
    {
      this.items := items;
    }

    /** getItem: the stored text, or None (null) for a missing key. */
    function GetItem(key: string): (r: Option<string>)
      reads this
      ensures r.Some? <==> key in items
      ensures r.Some? ==> r.value == items[key]
    {
      if key in items then Some(items[key]) else None
    }

    /** setItem: the key now holds the value; other keys are untouched. */
    method SetItem(key: string, value: string)
      modifies this
      ensures items == old(items)[key := value]
    {
      items := items[key := value];
    }

    /** removeItem: the key is gone; other keys are untouched. */
    method RemoveItem(key: string)
      modifies this
      ensures items == old(items) - {key}
    {
      items := items - {key};
    }

    /** What a successful login or signup stores: the two tokens and the user as JSON. */
    method StoreSession(accessToken: string, refreshToken: string, userJson: string)
      modifies this
      ensures items == old(items)[AccessTokenKey := accessToken][RefreshTokenKey := refreshToken][UserKey := userJson]
      ensures GetItem(AccessTokenKey) == Some(accessToken)
      ensures GetItem(RefreshTokenKey) == Some(refreshToken)
      ensures GetItem(UserKey) == Some(userJson)
      ensures forall k :: k !in SessionKeys ==> GetItem(k) == old(GetItem(k))
    {
      SetItem(AccessTokenKey, accessToken);
      SetItem(RefreshTokenKey, refreshToken);
      SetItem(UserKey, userJson);
    }
  }

  /** Removing the session keys after storing a session leaves exactly what was there outside them. */
  lemma {:induction false} ClearAfterStore(items: map<string, string>, a: string, r: string, u: string)
    ensures items[AccessTokenKey := a][RefreshTokenKey := r][UserKey := u] - SessionKeys == items - SessionKeys
  {
    var stored := items[AccessTokenKey := a][RefreshTokenKey := r][UserKey := u];
    assert forall k :: k in stored - SessionKeys <==> k in items - SessionKeys;
  }
}
