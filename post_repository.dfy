/**
 * The posts collection of backend/internal/repository/post.go as an
 * in-memory table in insertion order. Fresh ObjectIDs and clock readings
 * are parameters; a fresh ID is one no stored post has.
 */
module PostRepository {
  import opened Wrappers
  import opened ObjectIds
  import opened Models
  import opened Query

  /** The counters IncrementCount and DecrementCount are called with. */
  datatype Counter = LikesCount | CommentsCount | ViewsCount | UpvotesCount

  function CountOf(p: Post, field: Counter): int
  {
    match field
    case LikesCount => p.likesCount
    case CommentsCount => p.commentsCount
    case ViewsCount => p.viewsCount
    case UpvotesCount => p.upvotesCount
  }

  /** `$inc` of one counter: that counter moves by `delta`, nothing else changes. */
  function Bump(p: Post, field: Counter, delta: int): (q: Post)
    ensures CountOf(q, field) == CountOf(p, field) + delta
    ensures forall other :: other != field ==> CountOf(q, other) == CountOf(p, other)
    ensures q.(likesCount := p.likesCount, commentsCount := p.commentsCount,
               viewsCount := p.viewsCount, upvotesCount := p.upvotesCount) == p
  {
    match field
    case LikesCount => p.(likesCount := p.likesCount + delta)
    case CommentsCount => p.(commentsCount := p.commentsCount + delta)
    case ViewsCount => p.(viewsCount := p.viewsCount + delta)
    case UpvotesCount => p.(upvotesCount := p.upvotesCount + delta)
  }

  /** The fields a `$set` update of a post may carry; None leaves a field alone. */
  datatype PostPatch = PostPatch(
    content: Option<string>,
    codeSnippet: Option<string>,
    language: Option<string>,
    tags: Option<seq<string>>,
    visibility: Option<string>,
    deleted: Option<bool>)

  /** The patch Delete sends. */
  const DeletePatch := PostPatch(None, None, None, None, None, Some(true))

  /**
   * Update's `$set`: the given fields plus `updated_at`. The identity, the
   * author, the counters and the creation time never change.
   */
  function ApplyPatch(p: Post, patch: PostPatch, now: Time): (q: Post)
    ensures q.id == p.id && q.authorId == p.authorId && q.createdAt == p.createdAt
    ensures q.likesCount == p.likesCount && q.commentsCount == p.commentsCount &&
            q.viewsCount == p.viewsCount && q.upvotesCount == p.upvotesCount
    ensures q.updatedAt == now
    ensures q.content == patch.content.GetOr(p.content)
    ensures q.codeSnippet == patch.codeSnippet.GetOr(p.codeSnippet)
    ensures q.language == patch.language.GetOr(p.language)
    ensures q.tags == patch.tags.GetOr(p.tags)
    ensures q.visibility == patch.visibility.GetOr(p.visibility)
    ensures q.deleted == patch.deleted.GetOr(p.deleted)
  {
    p.(content := patch.content.GetOr(p.content),
       codeSnippet := patch.codeSnippet.GetOr(p.codeSnippet),
       language := patch.language.GetOr(p.language),
       tags := patch.tags.GetOr(p.tags),
       visibility := patch.visibility.GetOr(p.visibility),
       deleted := patch.deleted.GetOr(p.deleted),
       updatedAt := now)
  }

  /** The rows Feed shows: not deleted and PUBLIC. */
  predicate InFeed(p: Post)
  {
    !p.deleted && p.visibility == Public
  }

  /** TRENDING order: likes, then upvotes, then comments, each descending. */
  function TrendingKey(p: Post): seq<int>
  {
    [-p.likesCount, -p.upvotesCount, -p.commentsCount]
  }

  /** LATEST order: newest first. */
  function NewestKey(p: Post): seq<int>
  {
    [-p.createdAt]
  }

  /** Feed's sort: TRENDING by engagement, any other filter newest first. */
  function FeedKey(filter: string): Post -> seq<int>
  {
    if filter == "TRENDING" then TrendingKey else NewestKey
  }

  /** A live row with an ID no other row has keeps the IDs distinct and is the one found by that ID. */
  lemma AppendFreshId(rows: seq<Post>, x: Post)
    requires forall i, j :: 0 <= i < j < |rows| ==> rows[i].id != rows[j].id
    requires forall i :: 0 <= i < |rows| ==> rows[i].id != x.id
    requires !x.deleted
    ensures var r := rows + [x]; forall i, j :: 0 <= i < j < |r| ==> r[i].id != r[j].id
    ensures FindOne(rows + [x], (p: Post) => p.id == x.id && !p.deleted) == Some(x)
  {
    var r := rows + [x];
    assert forall i :: 0 <= i < |rows| ==> r[i] == rows[i];
    assert r[|rows|] == x;
    FindOneAppendNew(rows, x, (p: Post) => p.id == x.id && !p.deleted);
  }

  class PostRepository {
    var rows: seq<Post>

    /** No two stored posts share an ID (the `_id` index is unique). */
    predicate Valid()
      reads this
    {
      forall i, j :: 0 <= i < j < |rows| ==> rows[i].id != rows[j].id
    }

    function Ids(): set<ObjectId>
      reads this
    {
      set i | 0 <= i < |rows| :: rows[i].id
    }

    constructor ()
      ensures rows == [] && Valid()
    {
      rows := [];
    }

    /**
     * Create: the post gets the fresh ID and the two clock readings, is not
     * deleted and has every counter at zero, whatever the caller put there;
     * it is appended to the table and handed back, as the caller's struct is
     * overwritten in place.
     */
    method Create(post: Post, id: ObjectId, createdAt: Time, updatedAt: Time) returns (stored: Post)
      requires Valid() && id !in Ids()
      modifies this
      ensures Valid()
      ensures stored == post.(id := id, createdAt := createdAt, updatedAt := updatedAt, deleted := false,
                              likesCount := 0, commentsCount := 0, viewsCount := 0, upvotesCount := 0)
      ensures rows == old(rows) + [stored]
      ensures FindByID(id) == Success(stored)
    {
      stored := post.(id := id, createdAt := createdAt, updatedAt := updatedAt, deleted := false,
                      likesCount := 0, commentsCount := 0, viewsCount := 0, upvotesCount := 0);
      AppendFreshId(rows, stored);
      rows := rows + [stored];
    }

    /** FindByID: the stored post with that ID unless it is deleted; "post not found" otherwise. */
    function FindByID(id: ObjectId): (r: Result<Post, string>)
      reads this
      ensures r.Success? <==> exists i :: 0 <= i < |rows| && rows[i].id == id && !rows[i].deleted
      ensures r.Success? ==> r.value in rows && r.value.id == id && !r.value.deleted
      ensures r.Failure? ==> r.error == "post not found"
    {
      match FindOne(rows, (p: Post) => p.id == id && !p.deleted)
      case Some(p) => Success(p)
      case None => Failure("post not found")
    }

    /**
     * Update: the post with that ID, deleted or not, gets the patch and the
     * new `updated_at`; no other row changes, and an unknown ID changes
     * nothing and is not an error.
     */
    method Update(id: ObjectId, patch: PostPatch, now: Time)
      requires Valid()
      modifies this
      ensures Valid()
      ensures |rows| == |old(rows)|
      ensures forall i :: 0 <= i < |rows| ==>
        rows[i] == if old(rows)[i].id == id then ApplyPatch(old(rows)[i], patch, now) else old(rows)[i]
    {
      rows := UpdateWhere(rows, (p: Post) => p.id == id, (p: Post) => ApplyPatch(p, patch, now));
    }

    /** Delete: a soft delete through Update; the row stays, hidden from FindByID. */
    method Delete(id: ObjectId, now: Time)
      requires Valid()
      modifies this
      ensures Valid()
      ensures |rows| == |old(rows)|
      ensures forall i :: 0 <= i < |rows| ==>
        rows[i] == if old(rows)[i].id == id then old(rows)[i].(deleted := true, updatedAt := now) else old(rows)[i]
      ensures FindByID(id).Failure?
    {
      Update(id, DeletePatch, now);
    }

    /** IncrementCount: the named counter of that post goes up by one, with no deleted filter. */
    method IncrementCount(id: ObjectId, field: Counter)
      requires Valid()
      modifies this
      ensures Valid()
      ensures |rows| == |old(rows)|
      ensures forall i :: 0 <= i < |rows| ==>
        rows[i] == if old(rows)[i].id == id then Bump(old(rows)[i], field, 1) else old(rows)[i]
    {
      rows := UpdateWhere(rows, (p: Post) => p.id == id, (p: Post) => Bump(p, field, 1));
    }

    /** DecrementCount: the named counter goes down by one, with no floor at zero. */
    method DecrementCount(id: ObjectId, field: Counter)
      requires Valid()
      modifies this
      ensures Valid()
      ensures |rows| == |old(rows)|
      ensures forall i :: 0 <= i < |rows| ==>
        rows[i] == if old(rows)[i].id == id then Bump(old(rows)[i], field, -1) else old(rows)[i]
    {
      rows := UpdateWhere(rows, (p: Post) => p.id == id, (p: Post) => Bump(p, field, -1));
    }

    /**
     * Feed: non-deleted PUBLIC posts, TRENDING by likes, upvotes and
     * comments (descending), any other filter newest first; then skip and
     * limit.
     */
    function Feed(filter: string, limit: int, skip: int): (r: Result<seq<Post>, string>)
      reads this
      ensures r.Failure? <==> skip < 0
      ensures r.Success? ==> forall i :: 0 <= i < |r.value| ==> r.value[i] in rows && InFeed(r.value[i])
      ensures r.Success? && filter == "TRENDING" ==> SortedByKey(r.value, TrendingKey)
      ensures r.Success? && filter != "TRENDING" ==> SortedByKey(r.value, NewestKey)
      ensures r.Success? && limit > 0 ==> |r.value| <= limit
      ensures skip == 0 && limit == 0 ==> r.Success? && multiset(r.value) == multiset(Filter(rows, InFeed))
    {
      Select(rows, InFeed, FeedKey(filter), skip, limit)
    }

    /** FindByAuthor: the author's non-deleted posts of any visibility, newest first, at most `limit`. */
    function FindByAuthor(authorId: ObjectId, limit: int): (r: seq<Post>)
      reads this
      ensures forall i :: 0 <= i < |r| ==> r[i] in rows && r[i].authorId == authorId && !r[i].deleted
      ensures SortedByKey(r, NewestKey)
      ensures limit > 0 ==> |r| <= limit
      ensures limit == 0 ==> multiset(r) == multiset(Filter(rows, (p: Post) => p.authorId == authorId && !p.deleted))
    {
      Select(rows, (p: Post) => p.authorId == authorId && !p.deleted, NewestKey, 0, limit).value
    }

    /** List: every post, deleted ones included, newest first, then skip and limit. */
    function List(limit: int, skip: int): (r: Result<seq<Post>, string>)
      reads this
      ensures r.Failure? <==> skip < 0
      ensures r.Success? ==> forall i :: 0 <= i < |r.value| ==> r.value[i] in rows
      ensures r.Success? ==> SortedByKey(r.value, NewestKey)
      ensures r.Success? && limit > 0 ==> |r.value| <= limit
      ensures skip == 0 && limit == 0 ==> r.Success? && multiset(r.value) == multiset(rows)
    {
      FilterAll(rows, (p: Post) => true);
      Select(rows, (p: Post) => true, NewestKey, skip, limit)
    }
  }

  /** A feed page never shows a post that FindByID would hide. */
  lemma FeedHidesDeleted(repo: PostRepository, filter: string, limit: int, skip: int, i: int)
    requires repo.Feed(filter, limit, skip).Success?
    requires 0 <= i < |repo.Feed(filter, limit, skip).value|
    ensures repo.FindByID(repo.Feed(filter, limit, skip).value[i].id).Success?
  {
    var p := repo.Feed(filter, limit, skip).value[i];
    var k :| 0 <= k < |repo.rows| && repo.rows[k] == p;
  }
}
