/**
 * The comments collection of backend/internal/repository/comment.go as an
 * in-memory table in insertion order. A comment without a parent has
 * `parentCommentId == None`: the field is omitted when stored, and the
 * filter `parent_comment_id: nil` matches exactly such comments.
 */
module CommentRepository {
  import opened Wrappers
  import opened ObjectIds
  import opened Models
  import opened Query

  function NewestKey(c: Comment): seq<int>
  {
    [-c.createdAt]
  }

  function OldestKey(c: Comment): seq<int>
  {
    [c.createdAt]
  }

  /** A top-level, non-deleted comment on the given post. */
  predicate OnPost(c: Comment, postId: ObjectId)
  {
    c.postId == Some(postId) && !c.deleted && c.parentCommentId.None?
  }

  /** A top-level, non-deleted comment on the given reel. */
  predicate OnReel(c: Comment, reelId: ObjectId)
  {
    c.reelId == Some(reelId) && !c.deleted && c.parentCommentId.None?
  }

  /** A non-deleted reply to the given comment. */
  predicate ReplyTo(c: Comment, parentId: ObjectId)
  {
    c.parentCommentId == Some(parentId) && !c.deleted
  }

  /** Sorted by NewestKey means non-increasing creation time. */
  lemma NewestFirst(r: seq<Comment>)
    requires SortedByKey(r, NewestKey)
    ensures forall i, j :: 0 <= i < j < |r| ==> r[i].createdAt >= r[j].createdAt
  {
    forall i, j | 0 <= i < j < |r| ensures r[i].createdAt >= r[j].createdAt {
      assert LexLe(NewestKey(r[i]), NewestKey(r[j]));
    }
  }

  /** Sorted by OldestKey means non-decreasing creation time. */
  lemma OldestFirst(r: seq<Comment>)
    requires SortedByKey(r, OldestKey)
    ensures forall i, j :: 0 <= i < j < |r| ==> r[i].createdAt <= r[j].createdAt
  {
    forall i, j | 0 <= i < j < |r| ensures r[i].createdAt <= r[j].createdAt {
      assert LexLe(OldestKey(r[i]), OldestKey(r[j]));
    }
  }

  class CommentRepository {
    var rows: seq<Comment>

    predicate Valid()
      reads this
    {
      forall i, j :: 0 <= i < j < |rows| ==> rows[i].id != rows[j].id
    }

    function Ids(): set<ObjectId>
      reads this
    {
      set i | 0 <= i < |rows| :: rows[i].id
    }

    constructor ()
      ensures rows == [] && Valid()
    {
      rows := [];
    }

    /** Create: fresh ID, one clock reading, not deleted, no likes; appended and handed back. */
    method Create(comment: Comment, id: ObjectId, now: Time) returns (stored: Comment)
      requires Valid() && id !in Ids()
      modifies this
      ensures Valid()
      ensures stored == comment.(id := id, createdAt := now, deleted := false, likesCount := 0)
      ensures rows == old(rows) + [stored]
      ensures FindByID(id) == Success(stored)
    {
      stored := comment.(id := id, createdAt := now, deleted := false, likesCount := 0);
      rows := rows + [stored];
      assert forall i :: 0 <= i < |old(rows)| ==> rows[i] == old(rows)[i] && rows[i].id in old(Ids());
      assert rows[|rows| - 1] == stored;
      var k :| 0 <= k < |rows| && rows[k] == FindByID(id).value;
    }

    /** FindByID: the stored comment unless it is deleted; "comment not found" otherwise. */
    function FindByID(id: ObjectId): (r: Result<Comment, string>)
      reads this
      ensures r.Success? <==> exists i :: 0 <= i < |rows| && rows[i].id == id && !rows[i].deleted
      ensures r.Success? ==> r.value in rows && r.value.id == id && !r.value.deleted
      ensures r.Failure? ==> r.error == "comment not found"
    {
      match FindOne(rows, (c: Comment) => c.id == id && !c.deleted)
      case Some(c) => Success(c)
      case None => Failure("comment not found")
    }

    /** FindByPost: the post's top-level non-deleted comments, newest first, at most `limit`. */
    function FindByPost(postId: ObjectId, limit: int): (r: seq<Comment>)
      reads this
      ensures forall i :: 0 <= i < |r| ==> r[i] in rows && OnPost(r[i], postId)
      ensures forall i, j :: 0 <= i < j < |r| ==> r[i].createdAt >= r[j].createdAt
      ensures limit > 0 ==> |r| <= limit
      ensures limit == 0 ==> multiset(r) == multiset(Filter(rows, (c: Comment) => OnPost(c, postId)))
    {
      var r := Select(rows, (c: Comment) => OnPost(c, postId), NewestKey, 0, limit).value;
      NewestFirst(r);
      r
    }

    /** FindByReel: the same contract, keyed on the reel. */
    function FindByReel(reelId: ObjectId, limit: int): (r: seq<Comment>)
      reads this
      ensures forall i :: 0 <= i < |r| ==> r[i] in rows && OnReel(r[i], reelId)
      ensures forall i, j :: 0 <= i < j < |r| ==> r[i].createdAt >= r[j].createdAt
      ensures limit > 0 ==> |r| <= limit
      ensures limit == 0 ==> multiset(r) == multiset(Filter(rows, (c: Comment) => OnReel(c, reelId)))
    {
      var r := Select(rows, (c: Comment) => OnReel(c, reelId), NewestKey, 0, limit).value;
      NewestFirst(r);
      r
    }

    /** FindReplies: every non-deleted reply to the parent, oldest first, with no limit. */
    function FindReplies(parentId: ObjectId): (r: seq<Comment>)
      reads this
      ensures forall i :: 0 <= i < |r| ==> r[i] in rows && ReplyTo(r[i], parentId)
      ensures forall i, j :: 0 <= i < j < |r| ==> r[i].createdAt <= r[j].createdAt
      ensures multiset(r) == multiset(Filter(rows, (c: Comment) => ReplyTo(c, parentId)))
    {
      var r := Select(rows, (c: Comment) => ReplyTo(c, parentId), OldestKey, 0, 0).value;
      OldestFirst(r);
      r
    }

    /** Delete: soft, and only the `deleted` flag changes (no timestamp). */
    method Delete(id: ObjectId)
      requires Valid()
      modifies this
      ensures Valid()
      ensures |rows| == |old(rows)|
      ensures forall i :: 0 <= i < |rows| ==>
        rows[i] == if old(rows)[i].id == id then old(rows)[i].(deleted := true) else old(rows)[i]
      ensures FindByID(id).Failure?
    {
      rows := UpdateWhere(rows, (c: Comment) => c.id == id, (c: Comment) => c.(deleted := true));
    }

    /** IncrementLikes: that comment's likes go up by exactly one; nothing else changes. */
    method IncrementLikes(id: ObjectId)
      requires Valid()
      modifies this
      ensures Valid()
      ensures |rows| == |old(rows)|
      ensures forall i :: 0 <= i < |rows| ==>
        rows[i] == if old(rows)[i].id == id then old(rows)[i].(likesCount := old(rows)[i].likesCount + 1) else old(rows)[i]
    {
      rows := UpdateWhere(rows, (c: Comment) => c.id == id, (c: Comment) => c.(likesCount := c.likesCount + 1));
    }
  }
}
