/**
 * The optimistic like/upvote toggle shared by frontend/components/PostCard.jsx
 * and frontend/components/ReelCard.jsx. A click flips the flag and moves
 * the count by one at once; when the mutation then fails, the flag is put
 * back but the count is recomputed from the count seen at click time in
 * the wrong direction, so it ends one away from where it started.
 */
module LikeToggle {
  /** One flag with its counter: liked and the like count, or upvoted and the upvote count. */
  datatype Toggle = Toggle(on: bool, count: int)

  /** The optimistic step: the flag flips and the count follows it. */
  function Optimistic(t: Toggle): (u: Toggle)
    ensures u.on == !t.on
    ensures u.count == if u.on then t.count + 1 else t.count - 1
  {
    var flipped := !t.on;
    Toggle(flipped, if flipped then t.count + 1 else t.count - 1)
  }

  /**
   * A click as the components handle it: on failure the flag returns to
   * its pre-click value and the count becomes the pre-click count minus
   * one after a failed like, plus one after a failed unlike.
   */
  function ClickAsWritten(t: Toggle, failed: bool): (u: Toggle)
    ensures !failed ==> u == Optimistic(t)
    ensures failed ==> u.on == t.on && u.count == (if t.on then t.count + 1 else t.count - 1)
  {
    var flipped := !t.on;
    if !failed then Optimistic(t)
    else Toggle(!flipped, if flipped then t.count - 1 else t.count + 1)
  }

  /** A failed click leaves the count one away from where it was: it is never restored. */
  lemma FailedClickDrifts(t: Toggle)
    ensures ClickAsWritten(t, true).on == t.on
    ensures ClickAsWritten(t, true).count != t.count
    ensures ClickAsWritten(t, true).count - t.count == (if t.on then 1 else -1)
  {
  }

  /** A concrete run: 5 likes, not liked; the like fails; the card shows 4 likes, not liked. */
  lemma FailedLikeShowsFour()
    ensures ClickAsWritten(Toggle(false, 5), true) == Toggle(false, 4)
  {
  }

  /** The revert as evidently intended: a failed click restores the pre-click state. */
  function ClickRestoring(t: Toggle, failed: bool): (u: Toggle)
    ensures !failed ==> u == Optimistic(t)
    ensures failed ==> u == t
  {
    if failed then t else Optimistic(t)
  }

  /** The intended revert agrees with the code on success and undoes the optimistic step on failure. */
  lemma {:induction false} ClickRestoringAgrees(t: Toggle)
    ensures ClickRestoring(t, false) == ClickAsWritten(t, false)
    ensures ClickRestoring(t, true) != ClickAsWritten(t, true)
  {
    FailedClickDrifts(t);
  }

  /** Two successful clicks return the card to where it was. */
  lemma TwoClicksCancel(t: Toggle)
    ensures Optimistic(Optimistic(t)) == t
  {
  }

  /**
   * After n failed clicks in a row the count has drifted by n in one
   * direction, with the flag never changing.
   */
  function RepeatFailed(t: Toggle, n: nat): (u: Toggle)
    ensures u.on == t.on
    ensures u.count == t.count + (if t.on then n as int else -(n as int))
  {
    if n == 0 then t else ClickAsWritten(RepeatFailed(t, n - 1), true)
  }
}
