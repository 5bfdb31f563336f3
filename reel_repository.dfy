/**
 * The reels collection of backend/internal/repository/reel.go as an
 * in-memory table in insertion order. Fresh ObjectIDs and clock readings
 * are parameters.
 */
module ReelRepository {
  import opened Wrappers
  import opened ObjectIds
  import opened Models
  import opened Query

  /** The counters IncrementCount is called with. */
  datatype Counter = LikesCount | CommentsCount | ViewsCount

  function CountOf(r: Reel, field: Counter): int
  {
    match field
    case LikesCount => r.likesCount
    case CommentsCount => r.commentsCount
    case ViewsCount => r.viewsCount
  }

  /** `$inc` by one: the named counter goes up, nothing else changes. */
  function Increment(r: Reel, field: Counter): (q: Reel)
    ensures CountOf(q, field) == CountOf(r, field) + 1
    ensures forall other :: other != field ==> CountOf(q, other) == CountOf(r, other)
    ensures q.(likesCount := r.likesCount, commentsCount := r.commentsCount, viewsCount := r.viewsCount) == r
  {
    match field
    case LikesCount => r.(likesCount := r.likesCount + 1)
    case CommentsCount => r.(commentsCount := r.commentsCount + 1)
    case ViewsCount => r.(viewsCount := r.viewsCount + 1)
  }

  /** The reels List and Trending show: not deleted and PUBLIC. */
  predicate Listed(r: Reel)
  {
    !r.deleted && r.visibility == Public
  }

  function NewestKey(r: Reel): seq<int>
  {
    [-r.createdAt]
  }

  /** Trending order: likes descending, then views descending. */
  function TrendingKey(r: Reel): seq<int>
  {
    [-r.likesCount, -r.viewsCount]
  }

  class ReelRepository {
    var rows: seq<Reel>

    predicate Valid()
      reads this
    {
      forall i, j :: 0 <= i < j < |rows| ==> rows[i].id != rows[j].id
    }

    function Ids(): set<ObjectId>
      reads this
    {
      set i | 0 <= i < |rows| :: rows[i].id
    }

    constructor ()
      ensures rows == [] && Valid()
    {
      rows := [];
    }

    /**
     * Create: fresh ID, the two clock readings, not deleted, likes,
     * comments and views at zero; appended and handed back.
     */
    method Create(reel: Reel, id: ObjectId, createdAt: Time, updatedAt: Time) returns (stored: Reel)
      requires Valid() && id !in Ids()
      modifies this
      ensures Valid()
      ensures stored == reel.(id := id, createdAt := createdAt, updatedAt := updatedAt, deleted := false,
                              likesCount := 0, commentsCount := 0, viewsCount := 0)
      ensures rows == old(rows) + [stored]
      ensures FindByID(id) == Success(stored)
    {
      stored := reel.(id := id, createdAt := createdAt, updatedAt := updatedAt, deleted := false,
                      likesCount := 0, commentsCount := 0, viewsCount := 0);
      rows := rows + [stored];
      assert forall i :: 0 <= i < |old(rows)| ==> rows[i] == old(rows)[i] && rows[i].id in old(Ids());
      assert rows[|rows| - 1] == stored;
      var k :| 0 <= k < |rows| && rows[k] == FindByID(id).value;
    }

    /** FindByID: the stored reel unless it is deleted; "reel not found" otherwise. */
    function FindByID(id: ObjectId): (r: Result<Reel, string>)
      reads this
      ensures r.Success? <==> exists i :: 0 <= i < |rows| && rows[i].id == id && !rows[i].deleted
      ensures r.Success? ==> r.value in rows && r.value.id == id && !r.value.deleted
      ensures r.Failure? ==> r.error == "reel not found"
    {
      match FindOne(rows, (x: Reel) => x.id == id && !x.deleted)
      case Some(x) => Success(x)
      case None => Failure("reel not found")
    }

    /** Delete: soft; the reel is marked deleted and its `updated_at` set. */
    method Delete(id: ObjectId, now: Time)
      requires Valid()
      modifies this
      ensures Valid()
      ensures |rows| == |old(rows)|
      ensures forall i :: 0 <= i < |rows| ==>
        rows[i] == if old(rows)[i].id == id then old(rows)[i].(deleted := true, updatedAt := now) else old(rows)[i]
      ensures FindByID(id).Failure?
    {
      rows := UpdateWhere(rows, (x: Reel) => x.id == id, (x: Reel) => x.(deleted := true, updatedAt := now));
    }

    /** IncrementCount: the named counter of that reel goes up by one. */
    method IncrementCount(id: ObjectId, field: Counter)
      requires Valid()
      modifies this
      ensures Valid()
      ensures |rows| == |old(rows)|
      ensures forall i :: 0 <= i < |rows| ==>
        rows[i] == if old(rows)[i].id == id then Increment(old(rows)[i], field) else old(rows)[i]
    {
      rows := UpdateWhere(rows, (x: Reel) => x.id == id, (x: Reel) => Increment(x, field));
    }

    /** List: non-deleted PUBLIC reels, newest first, then skip and limit. */
    function List(limit: int, skip: int): (r: Result<seq<Reel>, string>)
      reads this
      ensures r.Failure? <==> skip < 0
      ensures r.Success? ==> forall i :: 0 <= i < |r.value| ==> r.value[i] in rows && Listed(r.value[i])
      ensures r.Success? ==> SortedByKey(r.value, NewestKey)
      ensures r.Success? && limit > 0 ==> |r.value| <= limit
      ensures skip == 0 && limit == 0 ==> r.Success? && multiset(r.value) == multiset(Filter(rows, Listed))
    {
      Select(rows, Listed, NewestKey, skip, limit)
    }

    /** FindByAuthor: the author's non-deleted reels of any visibility, newest first, at most `limit`. */
    function FindByAuthor(authorId: ObjectId, limit: int): (r: seq<Reel>)
      reads this
      ensures forall i :: 0 <= i < |r| ==> r[i] in rows && r[i].authorId == authorId && !r[i].deleted
      ensures SortedByKey(r, NewestKey)
      ensures limit > 0 ==> |r| <= limit
      ensures limit == 0 ==> multiset(r) == multiset(Filter(rows, (x: Reel) => x.authorId == authorId && !x.deleted))
    {
      Select(rows, (x: Reel) => x.authorId == authorId && !x.deleted, NewestKey, 0, limit).value
    }

    /** Trending: non-deleted PUBLIC reels by likes, then views, both descending; no skip. */
    function Trending(limit: int): (r: seq<Reel>)
      reads this
      ensures forall i :: 0 <= i < |r| ==> r[i] in rows && Listed(r[i])
      ensures SortedByKey(r, TrendingKey)
      ensures forall i, j :: 0 <= i < j < |r| ==>
        r[i].likesCount > r[j].likesCount ||
        (r[i].likesCount == r[j].likesCount && r[i].viewsCount >= r[j].viewsCount)
      ensures limit > 0 ==> |r| <= limit
      ensures limit == 0 ==> multiset(r) == multiset(Filter(rows, Listed))
    {
      var r := Select(rows, Listed, TrendingKey, 0, limit).value;
      TrendingOrder(r);
      r
    }
  }

  /** Sorted by the trending key means: more likes first, and among equal likes, more views first. */
  lemma TrendingOrder(r: seq<Reel>)
    requires SortedByKey(r, TrendingKey)
    ensures forall i, j :: 0 <= i < j < |r| ==>
      r[i].likesCount > r[j].likesCount ||
      (r[i].likesCount == r[j].likesCount && r[i].viewsCount >= r[j].viewsCount)
  {
    forall i, j | 0 <= i < j < |r|
      ensures r[i].likesCount > r[j].likesCount ||
              (r[i].likesCount == r[j].likesCount && r[i].viewsCount >= r[j].viewsCount)
    {
      var a, b := TrendingKey(r[i]), TrendingKey(r[j]);
      assert LexLe(a, b);
      if a[0] == b[0] {
        assert LexLe(a[1..], b[1..]);
        assert a[1..] == [-r[i].viewsCount] && b[1..] == [-r[j].viewsCount];
        assert -r[i].viewsCount <= -r[j].viewsCount;
      }
    }
  }
}
