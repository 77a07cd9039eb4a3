/** Curation result shaping: the record and string logic around the image search, the AI text
    call and the preview compositor, with those collaborators supplied as inputs. */
module Curator {
  import opened Wrappers
  import opened Strings
  import opened Articles

  // ---------------------------------------------------------------- image search

  datatype SearchItem = SearchItem(link: string)

  /** The custom-search response: the call throws, or returns data whose `items` may be
      missing. */
  datatype SearchResponse = SearchError | SearchData(items: Option<seq<SearchItem>>)

  /** `searchForRelevantImages`: the item links in order; `[]` when the search-engine id or the
      key is missing (empty), when there are no items, or when the call throws. */
  function SearchForRelevantImages(cx: string, apiKey: string, search: string -> SearchResponse,
                                   query: string): (urls: seq<string>)
    ensures urls != [] <==>
      cx != "" && apiKey != "" && search(query).SearchData?
      && search(query).items.Some? && search(query).items.value != []
    ensures urls != [] ==>
      var items := search(query).items.value;
      |urls| == |items| && forall i :: 0 <= i < |items| ==> urls[i] == items[i].link
  {
    if cx == "" || apiKey == "" then []
    else match search(query)
      case SearchError => []
      case SearchData(None) => []
      case SearchData(Some(items)) =>
        if |items| == 0 then [] else seq(|items|, i requires 0 <= i < |items| => items[i].link)
  }

  /** The query sent to the image search: the title, one space, the source. */
  function SearchQuery(article: Article): (q: string)
    ensures |q| == |article.title| + 1 + |article.source|
    ensures q[..|article.title|] == article.title
    ensures q[|article.title|] == ' '
    ensures q[|article.title| + 1..] == article.source
  {
    article.title + " " + article.source
  }

  // ---------------------------------------------------------------- AI text

  const Fence := "```"
  const JsonFence := "```json"

  /** The AI text with every "```json", then every "```", removed, then trimmed. */
  function StripFences(text: string): string {
    Trim(RemoveAll(RemoveAll(text, JsonFence), Fence))
  }

  predicate FenceAt(s: string, i: int)
    requires 0 <= i && i + 3 <= |s|
  {
    s[i] == '`' && s[i + 1] == '`' && s[i + 2] == '`'
  }

  predicate HasFence(s: string) {
    exists i :: 0 <= i <= |s| - 3 && FenceAt(s, i)
  }

  lemma KeepsLeadingNonBacktick(t: string)
    requires |t| > 0 && t[0] != '`'
    ensures |RemoveAll(t, Fence)| > 0 && RemoveAll(t, Fence)[0] == t[0]
  {
    if |t| >= 3 {
      assert t[..3] != Fence by { assert t[..3][0] == t[0]; }
    }
  }

  /** Removing "```" leaves no "```": runs of backticks are consumed three at a time from the
      left, so at most two of each run survive. */
  lemma {:induction false} NoFenceAfterRemoval(s: string)
    ensures !HasFence(RemoveAll(s, Fence))
    decreases |s|
  {
    if |s| < 3 {
    } else if s[..3] == Fence {
      NoFenceAfterRemoval(s[3..]);
    } else {
      var tail := RemoveAll(s[1..], Fence);
      NoFenceAfterRemoval(s[1..]);
      var r := [s[0]] + tail;
      assert RemoveAll(s, Fence) == r;
      if HasFence(r) {
        var i :| 0 <= i <= |r| - 3 && FenceAt(r, i);
        if i > 0 {
          assert FenceAt(tail, i - 1);
          assert false;
        } else if s[1] != '`' {
          KeepsLeadingNonBacktick(s[1..]);
          assert false;
        } else {
          assert s[2] != '`' by { assert s[..3] == [s[0], s[1], s[2]]; }
          if |s[1..]| >= 3 {
            assert s[1..][..3] != Fence by { assert s[1..][..3][1] == s[2]; }
            KeepsLeadingNonBacktick(s[2..]);
          }
          assert false;
        }
      }
    }
  }

  lemma NoFenceInInfix(s: string, a: nat, r: string)
    requires a + |r| <= |s| && r == s[a..a + |r|]
    requires !HasFence(s)
    ensures !HasFence(r)
  {
    if HasFence(r) {
      var i :| 0 <= i <= |r| - 3 && FenceAt(r, i);
      assert FenceAt(s, a + i);
    }
  }

  /** The cleaned AI text contains no code-fence marker at all. */
  lemma StrippedTextHasNoFence(text: string)
    ensures !HasFence(StripFences(text))
  {
    var removed := RemoveAll(RemoveAll(text, JsonFence), Fence);
    NoFenceAfterRemoval(RemoveAll(text, JsonFence));
    NoFenceInInfix(removed, LeadingWhitespace(removed), Trim(removed));
  }

  lemma {:induction false} RemoveAllWithoutPattern(s: string, p: string)
    requires |p| > 0 && forall i :: 0 <= i < |s| ==> s[i] != p[0]
    ensures RemoveAll(s, p) == s
    decreases |s|
  {
    if |s| >= |p| {
      assert s[..|p|][0] != p[0];
      RemoveAllWithoutPattern(s[1..], p);
    }
  }

  /** Text that holds no backtick and has no surrounding whitespace passes through unchanged. */
  lemma CleanTextUnchanged(text: string)
    requires forall i :: 0 <= i < |text| ==> text[i] != '`'
    requires text == [] || (!IsJsWhitespace(text[0]) && !IsJsWhitespace(text[|text| - 1]))
    ensures StripFences(text) == text
  {
    RemoveAllWithoutPattern(text, JsonFence);
    RemoveAllWithoutPattern(text, Fence);
    assert TrimStart(text) == text;
    assert TrimEnd(text) == text;
  }

  /** A reply fenced as a JSON code block gives back its body, trimmed, when the body holds no
      backtick. */
  lemma StripFencesOfFenced(t: string)
    requires forall i :: 0 <= i < |t| ==> t[i] != '`'
    ensures StripFences(JsonFence + t + Fence) == Trim(t)
  {
    var s := JsonFence + t + Fence;
    assert s[..|JsonFence|] == JsonFence;
    assert s[|JsonFence|..] == t + Fence;
    RemoveAllKeepsPrefix(t, Fence, JsonFence);
    assert RemoveAll(Fence, JsonFence) == Fence;
    assert RemoveAll(s, JsonFence) == t + Fence;
    RemoveAllKeepsPrefix(t, Fence, Fence);
    assert RemoveAll(Fence, Fence) == [] by {
      assert Fence[..3] == Fence && Fence[3..] == [];
    }
    assert t + [] == t;
  }

  /** What `generateContent` yields: it throws, or returns the response text ("" if empty). */
  datatype AiReply = AiThrew | AiText(text: string)

  /** The object `JSON.parse` builds from the cleaned text; a missing field is `None`. */
  datatype AiFields = AiFields(headline: Option<string>, description: Option<string>,
                               caption: Option<string>)

  /** The content returned to the client. The placeholder has no `originalSource`. */
  datatype CuratedContent = CuratedContent(
    headline: Option<string>,
    description: Option<string>,
    caption: Option<string>,
    images: seq<string>,
    originalSource: Option<string>)

  const FailedHeadline := "AI Failed"

  function Placeholder(images: seq<string>): CuratedContent {
    CuratedContent(Some(FailedHeadline), Some("Try again."), Some("Error."), images, None)
  }

  /** The AI step succeeds when a non-empty text parses (after cleaning) to an object. */
  predicate AiSucceeds(reply: AiReply, parse: string -> Option<AiFields>) {
    reply.AiText? && reply.text != "" && parse(StripFences(reply.text)).Some?
  }

  /** `curateArticle`: the search result always travels as `images`; a successful AI step adds
      its fields and `originalSource`, any failure yields the fixed placeholder. */
  function CurateArticle(article: Article, cx: string, apiKey: string,
                         search: string -> SearchResponse, reply: AiReply,
                         parse: string -> Option<AiFields>): (c: CuratedContent)
    ensures c.images == SearchForRelevantImages(cx, apiKey, search, SearchQuery(article))
    ensures c.originalSource.Some? <==> AiSucceeds(reply, parse)
    ensures AiSucceeds(reply, parse) ==>
      var fields := parse(StripFences(reply.text)).value;
      && c.originalSource == Some(article.source)
      && c.headline == fields.headline
      && c.description == fields.description
      && c.caption == fields.caption
    ensures !AiSucceeds(reply, parse) ==> c == Placeholder(c.images)
  {
    var images := SearchForRelevantImages(cx, apiKey, search, SearchQuery(article));
    match reply
    case AiThrew => Placeholder(images)
    case AiText(text) =>
      if text == "" then Placeholder(images)
      else match parse(StripFences(text))
        case None => Placeholder(images)
        case Some(f) => CuratedContent(f.headline, f.description, f.caption, images, Some(article.source))
  }

  // ---------------------------------------------------------------- preview text

  predicate IsTerminator(c: char) {
    c == '.' || c == '!' || c == '?'
  }

  /** `split(/[.!?]/)[0]`: the text before the first terminator. */
  function BeforeTerminator(s: string): (r: string)
    ensures |r| <= |s| && r == s[..|r|]
    ensures forall i :: 0 <= i < |r| ==> !IsTerminator(r[i])
    ensures |r| < |s| ==> IsTerminator(s[|r|])
  {
    if |s| == 0 || IsTerminator(s[0]) then [] else [s[0]] + BeforeTerminator(s[1..])
  }

  /** The first sentence of the description, closed with a period. */
  function FirstSentence(description: string): (r: string)
    ensures |r| >= 1 && r[|r| - 1] == '.'
    ensures |r| - 1 <= |description| && r[..|r| - 1] == description[..|r| - 1]
    ensures forall i :: 0 <= i < |r| - 1 ==> !IsTerminator(r[i])
    ensures |r| - 1 < |description| ==> IsTerminator(description[|r| - 1])
  {
    BeforeTerminator(description) + "."
  }

  /** `replace(/^\*\*|\*\*$/g, '')`: one leading "**" and one trailing "**" that does not
      overlap it are removed. */
  function StripBold(h: string): (r: string)
    ensures |h| - 4 <= |r| <= |h|
    ensures StartsWith(h, "**") ==> r == (if EndsWith(h[2..], "**") then h[2..|h| - 2] else h[2..])
    ensures !StartsWith(h, "**") ==> r == (if EndsWith(h, "**") then h[..|h| - 2] else h)
  {
    var start := if StartsWith(h, "**") then 2 else 0;
    var end := if |h| - 2 >= start && h[|h| - 2..] == "**" then |h| - 2 else |h|;
    h[start..end]
  }

  /** Wrapping text in bold markers and stripping them gives the text back. */
  lemma StripBoldOfBold(t: string)
    ensures StripBold("**" + t + "**") == t
  {
    var h := "**" + t + "**";
    assert h[..2] == "**";
    assert h[|h| - 2..] == "**";
    assert h[2..|h| - 2] == t;
  }

  /** A headline that neither starts nor ends with "**" is left as it is. */
  lemma StripBoldPlain(h: string)
    requires !StartsWith(h, "**") && !EndsWith(h, "**")
    ensures StripBold(h) == h
  {
  }

  // ---------------------------------------------------------------- preview overlay

  const CanvasSize := 800
  const OverlayHeight := 90
  const BottomMargin := 20

  /** The overlay handed to the compositor: a band of fixed size with two text lines placed
      at fixed positions. The texts go in as they are: no wrapping, scaling or escaping. */
  datatype Overlay = Overlay(
    canvasWidth: int, canvasHeight: int,
    bandTop: int, bandLeft: int, bandWidth: int, bandHeight: int,
    headlineX: int, headlineY: int, headlineFontSize: int, headlineText: string,
    bodyX: int, bodyY: int, bodyFontSize: int, bodyText: string)

  function BuildOverlay(headline: string, description: string): (o: Overlay)
    ensures o.canvasWidth == CanvasSize && o.canvasHeight == CanvasSize
    ensures o.bandWidth == o.canvasWidth && o.bandHeight == OverlayHeight
    ensures 0 <= o.bandLeft && 0 <= o.bandTop && o.bandTop + o.bandHeight <= o.canvasHeight
    ensures o.bandTop == 690
    ensures 0 < o.headlineY < o.bodyY < o.bandHeight
    ensures o.headlineText == StripBold(headline) && o.bodyText == FirstSentence(description)
  {
    Overlay(CanvasSize, CanvasSize,
            CanvasSize - OverlayHeight - BottomMargin, 0, CanvasSize, OverlayHeight,
            15, 35, 22, StripBold(headline),
            15, 65, 14, FirstSentence(description))
  }

  const FallbackPath := "/fallback.png"

  /** The public path of a written preview: "/preview_<stamp>.png", never the fallback. */
  function PreviewPath(stamp: nat): (path: string)
    ensures |path| >= 14 && StartsWith(path, "/preview_") && EndsWith(path, ".png")
    ensures path[9..|path| - 4] == Decimal(stamp)
    ensures path != FallbackPath
  {
    var p := "/preview_" + Decimal(stamp) + ".png";
    assert p[1] == 'p' && FallbackPath[1] == 'f';
    assert p[..9] == "/preview_";
    assert p[|p| - 4..] == ".png";
    assert p[9..|p| - 4] == Decimal(stamp);
    p
  }

  /** Previews written at different stamps get different paths. */
  lemma PreviewPathInjective(a: nat, b: nat)
    requires a != b
    ensures PreviewPath(a) != PreviewPath(b)
  {
  }

  /** `generateSimplePreviewImage`: the image fetch (`fetchOk` per URL), the composition of the
      overlay and the file write are the collaborators; any failure gives the fallback path. */
  function GenerateSimplePreviewImage(imageUrl: string, headline: string, description: string,
                                      fetchOk: string -> bool, composeOk: Overlay -> bool,
                                      writeOk: bool, stamp: nat): (path: string)
    ensures path == FallbackPath <==>
      !(fetchOk(imageUrl) && composeOk(BuildOverlay(headline, description)) && writeOk)
    ensures path != FallbackPath ==> path == PreviewPath(stamp)
  {
    if fetchOk(imageUrl) && composeOk(BuildOverlay(headline, description)) && writeOk then
      PreviewPath(stamp)
    else FallbackPath
  }
}
