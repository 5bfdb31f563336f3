/**
 * frontend/components/Sidebar.jsx: the stored user it loads, the level
 * and progress bar it derives from the reputation, which links it marks
 * active or shows, and the logout that clears the session from
 * localStorage. JSON.parse is a parameter.
 */
module Sidebar {
  import opened Wrappers
  import opened Text
  import opened Browser

  /** The fields of the stored user the sidebar reads. */
  datatype SidebarUser = SidebarUser(reputation: int, isAdmin: bool)

  /** The four navigation links, in display order. */
  const NavHrefs: seq<string> := ["/feed", "/explore", "/bookmarks", "/community"]

  /** `Math.floor(reputation / 100) + 1`: one level per hundred points, starting at 1. */
  function Level(reputation: int): (level: int)
    ensures (level - 1) * 100 <= reputation < level * 100
  {
    reputation / 100 + 1
  }

  /** `reputation % 100`, the progress bar's width in percent, with JavaScript's `%`. */
  function Progress(reputation: int): (width: int)
    ensures reputation >= 0 ==> 0 <= width < 100
    ensures reputation < 0 ==> -100 < width <= 0
  {
    JsRem(reputation, 100)
  }

  /** For a non-negative reputation, level and progress together give the reputation back. */
  lemma LevelAndProgress(reputation: int)
    requires reputation >= 0
    ensures (Level(reputation) - 1) * 100 + Progress(reputation) == reputation
  {
  }

  /** More reputation never means a lower level. */
  lemma LevelMonotone(a: int, b: int)
    requires a <= b
    ensures Level(a) <= Level(b)
  {
    var la, lb := Level(a), Level(b);
    assert (la - 1) * 100 <= a && b < lb * 100;
    assert (la - 1) * 100 < lb * 100;
  }

  /** `isActive`: a link is highlighted when the path is exactly its href. */
  function IsActive(pathname: string, href: string): (active: bool)
    ensures active <==> pathname == href
  {
    pathname == href
  }

  /** The nav links are distinct, so at most one of them is active on any page. */
  lemma AtMostOneActive(pathname: string, i: nat, j: nat)
    requires i < |NavHrefs| && j < |NavHrefs|
    requires IsActive(pathname, NavHrefs[i]) && IsActive(pathname, NavHrefs[j])
    ensures i == j
  {
  }

  /** `user?.isAdmin`: the admin link shows only for a loaded user with the admin flag. */
  function ShowAdminLink(user: Option<SidebarUser>): (show: bool)
    ensures show <==> user.Some? && user.value.isAdmin
  {
    user.Some? && user.value.isAdmin
  }

  class Sidebar {
    var user: Option<SidebarUser>
    const storage: LocalStorage

    constructor (storage: LocalStorage)
      ensures this.storage == storage && user == None
    {
      this.storage := storage;
      user := None;
    }

    /** The mount effect: the stored "user" is parsed only when the key holds non-empty text. */
    method LoadUser(parse: string -> SidebarUser)
      modifies this
      ensures storage.GetItem(UserKey).None? || storage.GetItem(UserKey).value == "" ==> user == old(user)
      ensures storage.GetItem(UserKey).Some? && storage.GetItem(UserKey).value != "" ==>
        user == Some(parse(storage.GetItem(UserKey).value))
    {
      var userData := storage.GetItem(UserKey);
      if userData.Some? && userData.value != "" {
        user := Some(parse(userData.value));
      }
    }

    /** handleLogout: exactly the three session keys are removed; nothing else is touched. */
    method HandleLogout()
      modifies storage
      ensures storage.items == old(storage.items) - SessionKeys
      ensures forall k :: k in SessionKeys ==> storage.GetItem(k).None?
    {
      storage.RemoveItem(AccessTokenKey);
      storage.RemoveItem(RefreshTokenKey);
      storage.RemoveItem(UserKey);
    }
  }

  /** Logging in and then out leaves the store as it was outside the session keys. */
  method LoginThenLogout(items: map<string, string>, accessToken: string, refreshToken: string, userJson: string)
    returns (after: map<string, string>)
    ensures after == items - SessionKeys
  {
    var storage := new LocalStorage(items);
    storage.StoreSession(accessToken, refreshToken, userJson);
    var sidebar := new Sidebar(storage);
    sidebar.HandleLogout();
    ClearAfterStore(items, accessToken, refreshToken, userJson);
    after := storage.items;
  }
}
