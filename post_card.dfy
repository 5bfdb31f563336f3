/**
 * The like and upvote state of frontend/components/PostCard.jsx: four
 * state cells, two independent toggles. Whether the mutation fails is a
 * parameter of the click.
 */
module PostCard {
  import opened Wrappers
  import opened LikeToggle

  class PostCard {
    var liked: bool
    var likeCount: int
    var upvoted: bool
    var upvoteCount: int

    function Like(): Toggle
      reads this
    {
      Toggle(liked, likeCount)
    }

    function Upvote(): Toggle
      reads this
    {
      Toggle(upvoted, upvoteCount)
    }

    /** The initial state: the viewer's flags or false, the post's counts or 0. */
    constructor (viewerLiked: Option<bool>, viewerUpvoted: Option<bool>, likesCount: Option<int>, upvotesCount: Option<int>)
      ensures Like() == Toggle(viewerLiked.GetOr(false), likesCount.GetOr(0))
      ensures Upvote() == Toggle(viewerUpvoted.GetOr(false), upvotesCount.GetOr(0))
    {
      liked := viewerLiked.GetOr(false);
      upvoted := viewerUpvoted.GetOr(false);
      likeCount := likesCount.GetOr(0);
      upvoteCount := upvotesCount.GetOr(0);
    }

    /** handleLike: the like pair takes one click as written; the upvote pair is untouched. */
    method HandleLike(failed: bool)
      modifies this
      ensures Like() == ClickAsWritten(old(Like()), failed)
      ensures Upvote() == old(Upvote())
    {
      var newLiked := !liked;
      var seen := likeCount;
      liked := newLiked;
      likeCount := if newLiked then seen + 1 else seen - 1;
      if failed {
        liked := !newLiked;
        likeCount := if newLiked then seen - 1 else seen + 1;
      }
    }

    /** handleUpvote: the same rule on the upvote pair; the like pair is untouched. */
    method HandleUpvote(failed: bool)
      modifies this
      ensures Upvote() == ClickAsWritten(old(Upvote()), failed)
      ensures Like() == old(Like())
    {
      var newUpvoted := !upvoted;
      var seen := upvoteCount;
      upvoted := newUpvoted;
      upvoteCount := if newUpvoted then seen + 1 else seen - 1;
      if failed {
        upvoted := !newUpvoted;
        upvoteCount := if newUpvoted then seen - 1 else seen + 1;
      }
    }
  }

  /** A like that fails on a post with 5 likes leaves the card showing 4, not liked. */
  method FailedLikeScenario() returns (liked: bool, count: int, upvotes: int)
    ensures !liked && count == 4 && upvotes == 7
  {
    var card := new PostCard(Some(false), None, Some(5), Some(7));
    card.HandleLike(true);
    FailedLikeShowsFour();
    liked, count, upvotes := card.liked, card.likeCount, card.upvoteCount;
  }
}
