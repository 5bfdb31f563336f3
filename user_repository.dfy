/**
 * The users collection of backend/internal/repository/user.go as an
 * in-memory table in insertion order. Users are never soft-deleted, so
 * every lookup sees every row. A GitHub ID is stored only when it is
 * non-empty (the field is `omitempty`), so a lookup by GitHub ID never
 * matches a user without one.
 */
module UserRepository {
  import opened Wrappers
  import opened ObjectIds
  import opened Models
  import opened Query

  const UserNotFound := "user not found"

  /** The fields a `$set` update of a user may carry; None leaves a field alone. */
  datatype UserPatch = UserPatch(
    username: Option<string>,
    displayName: Option<string>,
    email: Option<string>,
    avatarUrl: Option<string>,
    bio: Option<string>,
    isAdmin: Option<bool>,
    bannedUntil: Option<Option<Time>>)

  /**
   * Update's `$set`: the given fields plus `updated_at`. The identity, the
   * password hash, the reputation, the GitHub ID and the creation time never
   * change (no caller sets `github_id`, so an empty one is never stored).
   */
  function ApplyPatch(u: User, patch: UserPatch, now: Time): (v: User)
    ensures v.id == u.id && v.password == u.password && v.reputation == u.reputation && v.createdAt == u.createdAt
    ensures v.githubId == u.githubId
    ensures v.updatedAt == now
    ensures v.username == patch.username.GetOr(u.username)
    ensures v.displayName == patch.displayName.GetOr(u.displayName)
    ensures v.email == patch.email.GetOr(u.email)
    ensures v.avatarUrl == patch.avatarUrl.GetOr(u.avatarUrl)
    ensures v.bio == patch.bio.GetOr(u.bio)
    ensures v.isAdmin == patch.isAdmin.GetOr(u.isAdmin)
    ensures v.bannedUntil == patch.bannedUntil.GetOr(u.bannedUntil)
  {
    u.(username := patch.username.GetOr(u.username),
       displayName := patch.displayName.GetOr(u.displayName),
       email := patch.email.GetOr(u.email),
       avatarUrl := patch.avatarUrl.GetOr(u.avatarUrl),
       bio := patch.bio.GetOr(u.bio),
       isAdmin := patch.isAdmin.GetOr(u.isAdmin),
       bannedUntil := patch.bannedUntil.GetOr(u.bannedUntil),
       updatedAt := now)
  }

  /** `$inc` of the reputation by `delta` together with `$set` of `updated_at`. */
  function AddReputation(u: User, delta: int, now: Time): (v: User)
    ensures v.reputation - u.reputation == delta
    ensures v.updatedAt == now
    ensures v.(reputation := u.reputation, updatedAt := u.updatedAt) == u
  {
    u.(reputation := u.reputation + delta, updatedAt := now)
  }

  /** Two reputation updates add up: the deltas sum and the later clock reading wins. */
  lemma AddReputationTwice(u: User, d1: int, d2: int, t1: Time, t2: Time)
    ensures AddReputation(AddReputation(u, d1, t1), d2, t2) == AddReputation(u, d1 + d2, t2)
  {
    var v := AddReputation(AddReputation(u, d1, t1), d2, t2);
    assert v.(reputation := u.reputation, updatedAt := u.updatedAt) == u;
  }

  /** A stored GitHub ID that equals the one looked up; an empty one is never stored. */
  predicate HasGithubId(u: User, githubId: string)
  {
    u.githubId != "" && u.githubId == githubId
  }

  function NewestKey(u: User): seq<int>
  {
    [-u.createdAt]
  }

  /** A row with an ID no other row has keeps the IDs distinct and is the one found by that ID. */
  lemma AppendFreshId(rows: seq<User>, x: User)
    requires forall i, j :: 0 <= i < j < |rows| ==> rows[i].id != rows[j].id
    requires forall i :: 0 <= i < |rows| ==> rows[i].id != x.id
    ensures var r := rows + [x]; forall i, j :: 0 <= i < j < |r| ==> r[i].id != r[j].id
    ensures FindOne(rows + [x], (u: User) => u.id == x.id) == Some(x)
  {
    var r := rows + [x];
    assert forall i :: 0 <= i < |rows| ==> r[i] == rows[i];
    assert r[|rows|] == x;
    FindOneAppendNew(rows, x, (u: User) => u.id == x.id);
  }

  class UserRepository {
    var rows: seq<User>

    predicate Valid()
      reads this
    {
      forall i, j :: 0 <= i < j < |rows| ==> rows[i].id != rows[j].id
    }

    function Ids(): set<ObjectId>
      reads this
    {
      set i | 0 <= i < |rows| :: rows[i].id
    }

    constructor ()
      ensures rows == [] && Valid()
    {
      rows := [];
    }

    /**
     * Create: the fresh ID and the two clock readings, reputation zero and
     * not an admin, whatever the caller put there; appended and handed back.
     */
    method Create(user: User, id: ObjectId, createdAt: Time, updatedAt: Time) returns (stored: User)
      requires Valid() && id !in Ids()
      modifies this
      ensures Valid()
      ensures stored == user.(id := id, createdAt := createdAt, updatedAt := updatedAt, reputation := 0, isAdmin := false)
      ensures rows == old(rows) + [stored]
      ensures FindByID(id) == Success(stored)
      ensures old(FindByEmail(user.email)).Failure? ==> FindByEmail(user.email) == Success(stored)
    {
      ghost var before := rows;
      stored := user.(id := id, createdAt := createdAt, updatedAt := updatedAt, reputation := 0, isAdmin := false);
      AppendFreshId(before, stored);
      rows := rows + [stored];
      if FindOne(before, (u: User) => u.email == user.email).None? {
        FindOneAppendNew(before, stored, (u: User) => u.email == user.email);
      }
    }

    /** FindByID: the user with that ID; "user not found" when there is none. */
    function FindByID(id: ObjectId): (r: Result<User, string>)
      reads this
      ensures r.Success? <==> exists i :: 0 <= i < |rows| && rows[i].id == id
      ensures r.Success? ==> r.value in rows && r.value.id == id
      ensures r.Failure? ==> r.error == UserNotFound
    {
      match FindOne(rows, (u: User) => u.id == id)
      case Some(u) => Success(u)
      case None => Failure(UserNotFound)
    }

    /** FindByEmail: the first user stored with that email; "user not found" when there is none. */
    function FindByEmail(email: string): (r: Result<User, string>)
      reads this
      ensures r.Success? <==> exists i :: 0 <= i < |rows| && rows[i].email == email
      ensures r.Success? ==> r.value == rows[FirstIndex(rows, (u: User) => u.email == email)]
      ensures r.Success? ==> r.value in rows && r.value.email == email
      ensures r.Failure? ==> r.error == UserNotFound
    {
      match FindOne(rows, (u: User) => u.email == email)
      case Some(u) => Success(u)
      case None => Failure(UserNotFound)
    }

    /** FindByUsername: the first user stored with that username; "user not found" when there is none. */
    function FindByUsername(username: string): (r: Result<User, string>)
      reads this
      ensures r.Success? <==> exists i :: 0 <= i < |rows| && rows[i].username == username
      ensures r.Success? ==> r.value in rows && r.value.username == username
      ensures r.Failure? ==> r.error == UserNotFound
    {
      match FindOne(rows, (u: User) => u.username == username)
      case Some(u) => Success(u)
      case None => Failure(UserNotFound)
    }

    /**
     * FindByGithubID: the user linked to that GitHub account, or None with
     * no error when there is none; the empty ID matches nobody.
     */
    function FindByGithubID(githubId: string): (r: Option<User>)
      reads this
      ensures r.Some? <==> exists i :: 0 <= i < |rows| && HasGithubId(rows[i], githubId)
      ensures r.Some? ==> r.value in rows && r.value.githubId == githubId
      ensures githubId == "" ==> r == None
    {
      FindOne(rows, (u: User) => HasGithubId(u, githubId))
    }

    /** Update: the user with that ID gets the patch and `updated_at`; no other row changes. */
    method Update(id: ObjectId, patch: UserPatch, now: Time)
      requires Valid()
      modifies this
      ensures Valid()
      ensures |rows| == |old(rows)|
      ensures forall i :: 0 <= i < |rows| ==>
        rows[i] == if old(rows)[i].id == id then ApplyPatch(old(rows)[i], patch, now) else old(rows)[i]
    {
      rows := UpdateWhere(rows, (u: User) => u.id == id, (u: User) => ApplyPatch(u, patch, now));
    }

    /** UpdateReputation: that user's reputation moves by `delta`, any sign, with no floor. */
    method UpdateReputation(id: ObjectId, delta: int, now: Time)
      requires Valid()
      modifies this
      ensures Valid()
      ensures |rows| == |old(rows)|
      ensures forall i :: 0 <= i < |rows| ==>
        rows[i] == if old(rows)[i].id == id then AddReputation(old(rows)[i], delta, now) else old(rows)[i]
    {
      rows := UpdateWhere(rows, (u: User) => u.id == id, (u: User) => AddReputation(u, delta, now));
    }

    /** List: every user, newest first, then skip and limit. */
    function List(limit: int, skip: int): (r: Result<seq<User>, string>)
      reads this
      ensures r.Failure? <==> skip < 0
      ensures r.Success? ==> forall i :: 0 <= i < |r.value| ==> r.value[i] in rows
      ensures r.Success? ==> forall i, j :: 0 <= i < j < |r.value| ==> r.value[i].createdAt >= r.value[j].createdAt
      ensures r.Success? && limit > 0 ==> |r.value| <= limit
      ensures skip == 0 && limit == 0 ==> r.Success? && multiset(r.value) == multiset(rows)
    {
      FilterAll(rows, (u: User) => true);
      var r := Select(rows, (u: User) => true, NewestKey, skip, limit);
      if r.Success? then NewestFirst(r.value); r else r
    }
  }

  /** Sorted by NewestKey means non-increasing creation time. */
  lemma NewestFirst(r: seq<User>)
    requires SortedByKey(r, NewestKey)
    ensures forall i, j :: 0 <= i < j < |r| ==> r[i].createdAt >= r[j].createdAt
  {
    forall i, j | 0 <= i < j < |r| ensures r[i].createdAt >= r[j].createdAt {
      assert LexLe(NewestKey(r[i]), NewestKey(r[j]));
    }
  }
}
