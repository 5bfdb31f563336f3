/**
 * The create dialog of frontend/components/PostModal.jsx: its form state,
 * the reset on close, the submit-enabled rule, and the mutation variables
 * built from the form on submit (tags parsed from one comma-separated
 * field, empty optional text sent as null, visibility always PUBLIC).
 * The duration field holds text, as an input's value does; its initial
 * number 30 reads the same through parseInt as the text "30".
 */
module PostModal {
  import opened Wrappers
  import opened Text
  import Query

  // ----- tag parsing -----

  /** `.map((t) => t.trim())`. */
  function TrimAll(parts: seq<string>): (r: seq<string>)
    ensures |r| == |parts|
    ensures forall i :: 0 <= i < |r| ==> r[i] == Trim(parts[i])
  {
    seq(|parts|, i requires 0 <= i < |parts| => Trim(parts[i]))
  }

  /** `.filter((t) => t)`: the empty string is falsy. */
  predicate NonEmpty(t: string)
  {
    t != ""
  }

  /**
   * The tags of the comma-separated field: the pieces between commas,
   * each trimmed, empty ones dropped, in their original order. Every tag
   * is non-empty, holds no comma and is its own trim.
   */
  function ParseTags(text: string): (tags: seq<string>)
    ensures forall i :: 0 <= i < |tags| ==> tags[i] != "" && ',' !in tags[i] && Trim(tags[i]) == tags[i]
    ensures forall i :: 0 <= i < |tags| ==> tags[i] in TrimAll(Split(text, ','))
  {
    var trimmed := TrimAll(Split(text, ','));
    var tags := Query.Filter(trimmed, NonEmpty);
    TrimmedPieces(Split(text, ','), ',');
    tags
  }

  /** A trimmed piece of a split holds no separator and is its own trim. */
  lemma TrimmedPieces(pieces: seq<string>, sep: char)
    requires forall k :: 0 <= k < |pieces| ==> sep !in pieces[k]
    ensures forall t :: t in TrimAll(pieces) ==> sep !in t && Trim(t) == t
  {
    forall t | t in TrimAll(pieces) ensures sep !in t && Trim(t) == t {
      var k :| 0 <= k < |pieces| && TrimAll(pieces)[k] == t;
      TrimKeepsAbsent(pieces[k], sep);
      TrimIdempotent(pieces[k]);
    }
  }

  /** Trimming pieces one by one commutes with putting lists of pieces together. */
  lemma TrimAllConcat(x: seq<string>, y: seq<string>)
    ensures TrimAll(x + y) == TrimAll(x) + TrimAll(y)
  {
    MapConcat(Trim, x, y, TrimAll(x), TrimAll(y), TrimAll(x + y));
  }

  /** A pointwise image of a concatenation is the concatenation of the images. */
  lemma MapConcat<A, B>(f: A -> B, x: seq<A>, y: seq<A>, fx: seq<B>, fy: seq<B>, fxy: seq<B>)
    requires |fx| == |x| && forall i :: 0 <= i < |x| ==> fx[i] == f(x[i])
    requires |fy| == |y| && forall i :: 0 <= i < |y| ==> fy[i] == f(y[i])
    requires |fxy| == |x + y| && forall i :: 0 <= i < |x + y| ==> fxy[i] == f((x + y)[i])
    ensures fxy == fx + fy
  {
    forall i | 0 <= i < |fxy| ensures fxy[i] == (fx + fy)[i] {
      if i < |x| {
        assert (x + y)[i] == x[i];
      } else {
        assert (x + y)[i] == y[i - |x|];
      }
    }
  }

  /**
   * A comma splits the field in two: the tags of the whole are the tags
   * before it followed by the tags after it, each as often as it occurs.
   */
  lemma ParseTagsConcat(a: string, b: string)
    ensures ParseTags(a + [','] + b) == ParseTags(a) + ParseTags(b)
  {
    SplitConcat(a, ',', b);
    TrimAllConcat(Split(a, ','), Split(b, ','));
    Query.FilterConcat(TrimAll(Split(a, ',')), TrimAll(Split(b, ',')), NonEmpty);
  }

  /** A piece without a comma gives its trim as its one tag, or no tag when the trim is empty. */
  lemma ParseTagsPiece(a: string)
    requires ',' !in a
    ensures ParseTags(a) == if Trim(a) == "" then [] else [Trim(a)]
  {
    SplitNoSeparator(a, ',');
    assert TrimAll([a]) == [Trim(a)];
    Query.FilterSingle(Trim(a), NonEmpty);
  }

  /** A tag written without commas or outer whitespace is read back as itself. */
  predicate CleanTag(t: string)
  {
    t != "" && ',' !in t && !IsJsWhitespace(t[0]) && !IsJsWhitespace(t[|t| - 1])
  }

  /** Joining clean tags with commas and parsing the field gives the same tags back, in order. */
  lemma {:induction false} ParseTagsJoin(tags: seq<string>)
    requires forall i :: 0 <= i < |tags| ==> CleanTag(tags[i])
    ensures ParseTags(Join(tags, ',')) == tags
  {
    if |tags| == 0 {
      assert Join(tags, ',') == "";
      assert Split("", ',') == [""];
      assert TrimAll([""]) == [""];
      assert Query.Filter([""], NonEmpty) == [];
    } else {
      SplitJoin(tags, ',');
      forall i | 0 <= i < |tags| ensures Trim(tags[i]) == tags[i] {
        TrimTrimmed(tags[i]);
      }
      assert TrimAll(tags) == tags;
      Query.FilterAll(tags, NonEmpty);
    }
  }

  /** `tagsArray.length > 0 ? tagsArray : null`. */
  function TagsOrNull(tags: seq<string>): (r: Option<seq<string>>)
    ensures r.None? <==> tags == []
    ensures r.Some? ==> r.value == tags
  {
    if |tags| > 0 then Some(tags) else None
  }

  /** `text || null`: the empty string is sent as null. */
  function OrNull(text: string): (r: Option<string>)
    ensures r.None? <==> text == ""
    ensures r.Some? ==> r.value == text
  {
    if text == "" then None else Some(text)
  }

  // ----- mutation variables -----

  datatype PostVariables = PostVariables(
    content: string,
    codeSnippet: Option<string>,
    language: Option<string>,
    tags: Option<seq<string>>,
    visibility: string)

  datatype ReelVariables = ReelVariables(
    title: Option<string>,
    description: Option<string>,
    videoUrl: string,
    duration: Option<int>,   // parseInt's NaN is None
    tags: Option<seq<string>>,
    visibility: string)

  /** The mutation a submit sends. */
  datatype Submission = CreatePost(post: PostVariables) | CreateReel(reel: ReelVariables)

  const Public := "PUBLIC"

  class PostModal {
    /** The `type` prop: "post", or anything else for a reel. */
    const kind: string
    var content: string
    var codeSnippet: string
    var language: string
    var tags: string
    var showCodeBlock: bool
    var reelTitle: string
    var reelVideoUrl: string
    var reelDuration: string

    /** Every state cell holds its initial value. */
    predicate AtDefaults()
      reads this
    {
      content == "" && codeSnippet == "" && language == "javascript" && tags == "" &&
      !showCodeBlock && reelTitle == "" && reelVideoUrl == "" && reelDuration == "30"
    }

    constructor (kind: string)
      ensures this.kind == kind && AtDefaults()
    {
      this.kind := kind;
      content, codeSnippet, language, tags := "", "", "javascript", "";
      showCodeBlock := false;
      reelTitle, reelVideoUrl, reelDuration := "", "", "30";
    }

    /** handleClose: every field back to its initial value. */
    method HandleClose()
      modifies this
      ensures AtDefaults()
      ensures kind == "post" || kind == "reel" ==> forall loading :: SubmitDisabled(loading)
    {
      content := "";
      codeSnippet := "";
      language := "javascript";
      tags := "";
      showCodeBlock := false;
      reelTitle := "";
      reelVideoUrl := "";
      reelDuration := "30";
    }

    /**
     * The submit button is disabled exactly when a mutation is in flight,
     * or a post has no content, or a reel has no video URL.
     */
    function SubmitDisabled(loading: bool): (d: bool)
      reads this
      ensures d <==> loading || (kind == "post" && content == "") || (kind == "reel" && reelVideoUrl == "")
    {
      loading || (kind == "post" && content == "") || (kind == "reel" && reelVideoUrl == "")
    }

    /**
     * handleSubmit: a post carries the content, null for an empty snippet
     * or language, the parsed tags or null; any other kind sends a reel
     * with null for an empty title or description, the parsed duration and
     * the same tags. Both are PUBLIC.
     */
    function Submit(): (s: Submission)
      reads this
      ensures kind == "post" <==> s.CreatePost?
      ensures s.CreatePost? ==>
        && s.post.content == content
        && s.post.codeSnippet == OrNull(codeSnippet)
        && s.post.language == OrNull(language)
        && s.post.tags == TagsOrNull(ParseTags(tags))
        && s.post.visibility == Public
      ensures s.CreateReel? ==>
        && s.reel.title == OrNull(reelTitle)
        && s.reel.description == OrNull(content)
        && s.reel.videoUrl == reelVideoUrl
        && s.reel.duration == ParseIntJs(reelDuration)
        && s.reel.tags == TagsOrNull(ParseTags(tags))
        && s.reel.visibility == Public
    {
      var parsed := TagsOrNull(ParseTags(tags));
      if kind == "post" then
        CreatePost(PostVariables(content, OrNull(codeSnippet), OrNull(language), parsed, Public))
      else
        CreateReel(ReelVariables(OrNull(reelTitle), OrNull(content), reelVideoUrl, ParseIntJs(reelDuration), parsed, Public))
    }
  }

  /**
   * Whatever the kind, a tags field typed as clean tags joined by commas is
   * sent as exactly those tags, in order, or as null when there are none.
   */
  lemma SubmitSendsTypedTags(m: PostModal, typed: seq<string>)
    requires m.tags == Join(typed, ',')
    requires forall i :: 0 <= i < |typed| ==> CleanTag(typed[i])
    ensures var s := m.Submit();
      (s.CreatePost? ==> s.post.tags == TagsOrNull(typed)) &&
      (s.CreateReel? ==> s.reel.tags == TagsOrNull(typed))
  {
    ParseTagsJoin(typed);
  }

  /** A reel form left at its defaults sends a duration of 30. */
  lemma DefaultDuration()
    ensures ParseIntJs("30") == Some(30)
  {
    assert IntToString(30) == "30" by {
      assert NatToString(30) == NatToString(3) + [DigitChar(0)];
    }
    ParseIntJsIntToString(30);
  }
}
