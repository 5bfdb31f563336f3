/**
 * frontend/components/ReelCard.jsx: the like toggle (the same rule as the
 * post card's, on one pair of state cells) and the `m:ss` duration label.
 */
module ReelCard {
  import opened Wrappers
  import opened Text
  import opened LikeToggle

  class ReelCard {
    var liked: bool
    var likeCount: int

    function Like(): Toggle
      reads this
    {
      Toggle(liked, likeCount)
    }

    /** The initial state: the viewer's flag or false, the reel's count or 0. */
    constructor (viewerLiked: Option<bool>, likesCount: Option<int>)
      ensures Like() == Toggle(viewerLiked.GetOr(false), likesCount.GetOr(0))
    {
      liked := viewerLiked.GetOr(false);
      likeCount := likesCount.GetOr(0);
    }

    /** handleLike: one click as written, with the same off-by-one revert as the post card. */
    method HandleLike(failed: bool)
      modifies this
      ensures Like() == ClickAsWritten(old(Like()), failed)
    {
      var newLiked := !liked;
      var seen := likeCount;
      liked := newLiked;
      likeCount := if newLiked then seen + 1 else seen - 1;
      if failed {
        liked := !newLiked;
        likeCount := if newLiked then seen - 1 else seen + 1;
      }
    }
  }

  /** The seconds part: `String(d % 60).padStart(2, '0')`, with JavaScript's `%`. */
  function SecondsPart(d: int): string
  {
    PadStart(IntToString(JsRem(d, 60)), 2, '0')
  }

  /** The label `Math.floor(d / 60) + ":" + seconds`; JavaScript's floor is Dafny's `/` here. */
  function DurationLabel(d: int): (text: string)
    ensures d >= 0 ==> |text| == |IntToString(d / 60)| + 3 && text[|text| - 3] == ':' && AllDigits(text[|text| - 2..])
  {
    var text := IntToString(d / 60) + ":" + SecondsPart(d);
    if d >= 0 then
      SecondsTwoDigits(d % 60);
      assert text[|text| - 2..] == SecondsPart(d);
      text
    else text
  }

  /** A seconds value below 60 prints as exactly two digits that read back as the value. */
  lemma SecondsTwoDigits(s: nat)
    requires s < 60
    ensures var p := PadStart(IntToString(s), 2, '0');
      |p| == 2 && AllDigits(p) && DigitsValue(p) == s
  {
    var t := IntToString(s);
    var p := PadStart(t, 2, '0');
    if s < 10 {
      assert t == [DigitChar(s)];
      assert p == ['0'] + t;
      assert p[..1] == ['0'];
      assert DigitsValue(p[..1]) == DigitsValue(p[..1][..0]) * 10 + 0;
    } else {
      assert t == NatToString(s / 10) + [DigitChar(s % 10)];
      assert NatToString(s / 10) == [DigitChar(s / 10)];
      assert p == t;
      assert p[..1] == [DigitChar(s / 10)];
    }
  }

  lemma NoColonInDigits(s: string)
    requires AllDigits(s)
    ensures ':' !in s
  {
  }

  /**
   * For a non-negative duration the label reads back: minutes, a colon and
   * two digits of seconds below 60, with minutes * 60 + seconds == d.
   */
  lemma {:induction false} DurationLabelReadsBack(d: nat)
    ensures var parts := Split(DurationLabel(d), ':');
      && |parts| == 2
      && AllDigits(parts[0]) && AllDigits(parts[1]) && |parts[1]| == 2
      && DigitsValue(parts[1]) < 60
      && DigitsValue(parts[0]) * 60 + DigitsValue(parts[1]) == d
  {
    var minutes := IntToString(d / 60);
    var seconds := SecondsPart(d);
    SecondsTwoDigits(d % 60);
    assert AllDigits(minutes) && AllDigits(seconds);
    NoColonInDigits(minutes);
    NoColonInDigits(seconds);
    assert DurationLabel(d) == minutes + [':'] + seconds;
    SplitAfterWord(minutes, ':', seconds);
    SplitNoSeparator(seconds, ':');
    DigitsValueOfNatToString(d / 60);
  }
}
