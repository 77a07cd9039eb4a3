/** The browser client's state: which of the three views is visible, the curated content it
    holds, the paged image grid, the preview path, and the download file name. */
module Client {
  import opened Wrappers
  import opened Strings
  import Articles
  import Curator

  const ImagesPerPage := 3
  /** The headline the client treats as an AI failure (the server's placeholder differs). */
  const CheckedFailureHeadline := "AI Generation Failed"
  const DefaultFileStem := "phaseloop-post"

  /** A JavaScript value that is a non-empty string. */
  predicate Truthy(s: Option<string>) {
    s.Some? && s.value != ""
  }

  /** `s || fallback` for an optional string. */
  function OrElse(s: Option<string>, fallback: string): (r: string)
    ensures Truthy(s) ==> r == s.value
    ensures !Truthy(s) ==> r == fallback
  {
    if Truthy(s) then s.value else fallback
  }

  // ---------------------------------------------------------------- views

  datatype Visibility = Visibility(list: bool, select: bool, preview: bool)

  /** `setView`: all three views are hidden, then the named one is shown. */
  function ViewsFor(viewId: string): (v: Visibility)
    ensures v.list <==> viewId == "list"
    ensures v.select <==> viewId == "select"
    ensures v.preview <==> viewId == "simple-preview"
    ensures !(v.list && v.select) && !(v.list && v.preview) && !(v.select && v.preview)
  {
    Visibility(viewId == "list", viewId == "select", viewId == "simple-preview")
  }

  // ---------------------------------------------------------------- image paging

  /** `allRelevantImages.slice(3 * page, 3 * page + 3)`. */
  function PageSlice(images: seq<string>, page: nat): (shown: seq<string>)
    ensures |shown| <= ImagesPerPage
    ensures shown == [] <==> ImagesPerPage * page >= |images|
    ensures shown != [] ==> ImagesPerPage * page + |shown| <= |images|
    ensures forall k :: 0 <= k < |shown| ==> shown[k] == images[ImagesPerPage * page + k]
  {
    var start := ImagesPerPage * page;
    if start >= |images| then []
    else if start + ImagesPerPage <= |images| then images[start..start + ImagesPerPage]
    else images[start..]
  }

  /** The page left in `currentImagePage` after drawing: an empty page wraps to page 0. */
  function ShownPage(images: seq<string>, page: nat): (shown: nat)
    ensures shown == page || shown == 0
    ensures shown == page <==> (PageSlice(images, page) != [] || page == 0)
    ensures images != [] ==> PageSlice(images, shown) != []
  {
    if PageSlice(images, page) != [] then page else 0
  }

  datatype Area = Initial | NoImagesMessage | Thumbnails(urls: seq<string>)

  /** What the image area holds after drawing at `page`. */
  function AreaFor(images: seq<string>, page: nat): (area: Area)
    ensures area != Initial
    ensures area == NoImagesMessage <==> images == []
    ensures area.Thumbnails? ==> 1 <= |area.urls| <= ImagesPerPage
  {
    if images == [] then NoImagesMessage else Thumbnails(PageSlice(images, ShownPage(images, page)))
  }

  function PageCount(images: seq<string>): nat {
    (|images| + ImagesPerPage - 1) / ImagesPerPage
  }

  /** Refresh moves to the next page and wraps to the first after the last. */
  lemma RefreshWrapsAround(images: seq<string>, page: nat)
    requires images != [] && page < PageCount(images)
    ensures ShownPage(images, page + 1) == if page + 1 < PageCount(images) then page + 1 else 0
  {
    var n := PageCount(images);
    if page + 1 < n {
      assert ImagesPerPage * (page + 1) < |images|;
    } else {
      assert ImagesPerPage * (page + 1) >= |images|;
    }
  }

  /** Every image is shown on page `i / 3`, at position `i % 3`. */
  lemma EveryImageHasAPage(images: seq<string>, i: nat)
    requires i < |images|
    ensures ShownPage(images, i / ImagesPerPage) == i / ImagesPerPage
    ensures images[i] == PageSlice(images, i / ImagesPerPage)[i % ImagesPerPage]
  {
  }

  /** The page shown after `k` presses of Refresh, starting from a freshly tapped article. */
  function PageAfterRefreshes(images: seq<string>, k: nat): nat {
    if k == 0 then 0 else ShownPage(images, PageAfterRefreshes(images, k - 1) + 1)
  }

  lemma {:induction false} ProductAtLeast(n: nat, d: nat)
    requires d >= 1
    ensures n * d >= n
  {
    if d > 1 {
      ProductAtLeast(n, d - 1);
      assert n * d == n * (d - 1) + n;
    }
  }

  lemma ModuloUnique(k: int, n: int, q: int, r: int)
    requires n > 0 && 0 <= r < n && k == n * q + r
    ensures k % n == r
  {
    var q', r' := k / n, k % n;
    assert k == n * q' + r';
    if q < q' {
      ProductAtLeast(n, q' - q);
      assert false;
    } else if q > q' {
      ProductAtLeast(n, q - q');
      assert false;
    }
  }

  lemma NextModulo(k: nat, n: nat)
    requires n > 0 && k > 0
    ensures (if (k - 1) % n + 1 < n then (k - 1) % n + 1 else 0) == k % n
  {
    var q, r := (k - 1) / n, (k - 1) % n;
    assert k - 1 == n * q + r;
    if r + 1 < n {
      ModuloUnique(k, n, q, r + 1);
    } else {
      assert k == n * (q + 1);
      ModuloUnique(k, n, q + 1, 0);
    }
  }

  /** Pressing Refresh cycles through the pages in order: after `k` presses the page is
      `k` modulo the number of pages. */
  lemma {:induction false} RefreshCycles(images: seq<string>, k: nat)
    requires images != []
    ensures PageAfterRefreshes(images, k) == k % PageCount(images)
  {
    if k > 0 {
      var n := PageCount(images);
      RefreshCycles(images, k - 1);
      RefreshWrapsAround(images, (k - 1) % n);
      NextModulo(k, n);
    }
  }

  // ---------------------------------------------------------------- curated data

  /** The content as the client receives it from /api/curate; an error body has none of the
      fields. */
  datatype CuratedData = CuratedData(
    headline: Option<string>,
    description: Option<string>,
    caption: Option<string>,
    images: Option<seq<string>>,
    originalSource: Option<string>)

  function Received(c: Curator.CuratedContent): CuratedData {
    CuratedData(c.headline, c.description, c.caption, Some(c.images), c.originalSource)
  }

  const ErrorBody := CuratedData(None, None, None, None, None)

  datatype CurateResponse = CurateConnectionError | CurateBody(data: CuratedData)

  /** The client's failure check never matches the server's placeholder: its alert fires only
      when the AI text itself carries the checked headline. */
  lemma FailureAlertNeverFiresForPlaceholder(article: Articles.Article, cx: string, apiKey: string,
                                            search: string -> Curator.SearchResponse,
                                            reply: Curator.AiReply,
                                            parse: string -> Option<Curator.AiFields>)
    ensures var c := Curator.CurateArticle(article, cx, apiKey, search, reply, parse);
      Received(c).headline == Some(CheckedFailureHeadline) ==>
        && Curator.AiSucceeds(reply, parse)
        && parse(Curator.StripFences(reply.text)).value.headline == Some(CheckedFailureHeadline)
  {
    assert Curator.FailedHeadline != CheckedFailureHeadline by {
      assert |Curator.FailedHeadline| != |CheckedFailureHeadline|;
    }
  }

  // ---------------------------------------------------------------- preview and download

  datatype PreviewRequest = PreviewRequest(imageUrl: string, headline: string,
                                           description: Option<string>)

  datatype PreviewResponse =
    | PreviewConnectionError
    | PreviewBody(error: Option<string>, previewImagePath: Option<string>)

  /** The response carries a usable image: no error and not the fallback path. */
  predicate PreviewAccepted(response: PreviewResponse) {
    response.PreviewBody? && !Truthy(response.error)
    && response.previewImagePath != Some(Curator.FallbackPath)
  }

  /** `replace(/[^a-z0-9]/gi, '_')`: every character other than an ASCII letter or digit
      becomes an underscore. */
  function ReplaceNonAlnum(s: string): (r: string)
    ensures |r| == |s|
    ensures forall i :: 0 <= i < |s| ==> r[i] == (if IsAsciiAlnum(s[i]) then s[i] else '_')
  {
    if s == [] then [] else [if IsAsciiAlnum(s[0]) then s[0] else '_'] + ReplaceNonAlnum(s[1..])
  }

  /** `toLowerCase` on a string of ASCII letters, digits and underscores. */
  function LowerAll(s: string): (r: string)
    ensures |r| == |s|
    ensures forall i :: 0 <= i < |s| ==> r[i] == AsciiLower(s[i])
  {
    if s == [] then [] else [AsciiLower(s[0])] + LowerAll(s[1..])
  }

  predicate IsFileNameChar(c: char) {
    ('a' <= c <= 'z') || ('0' <= c <= '9') || c == '_'
  }

  /** What the replace-then-lowercase chain makes of one character. */
  function CleanChar(c: char): (r: char)
    ensures IsFileNameChar(r)
    ensures IsAsciiAlnum(c) ==> r == AsciiLower(c)
    ensures !IsAsciiAlnum(c) ==> r == '_'
  {
    AsciiLower(if IsAsciiAlnum(c) then c else '_')
  }

  /** `.replace(/[^a-z0-9]/gi, '_').toLowerCase()`: same length, only `[a-z0-9_]`. */
  function FileStem(s: string): (stem: string)
    ensures |stem| == |s|
    ensures forall i :: 0 <= i < |s| ==> stem[i] == CleanChar(s[i]) && IsFileNameChar(stem[i])
  {
    LowerAll(ReplaceNonAlnum(s))
  }

  /** The download name: the headline (or the default stem) without surrounding "**", every
      character other than a letter or digit made '_', lower-cased, with ".png" appended. */
  function DownloadFileName(headline: Option<string>): (name: string)
    ensures var stripped := Curator.StripBold(OrElse(headline, DefaultFileStem));
      && |name| == |stripped| + 4
      && EndsWith(name, ".png")
      && (forall i :: 0 <= i < |stripped| ==> IsFileNameChar(name[i]) && name[i] == CleanChar(stripped[i]))
  {
    var stem := FileStem(Curator.StripBold(OrElse(headline, DefaultFileStem)));
    assert (stem + ".png")[|stem|..] == ".png";
    stem + ".png"
  }

  // ---------------------------------------------------------------- the page's global state

  class ClientState {
    var views: Visibility
    var currentArticleData: Option<Articles.Article>
    var currentCuratedData: Option<CuratedData>
    var allRelevantImages: seq<string>
    var currentImagePage: nat
    var simplePreviewImagePath: Option<string>
    var imageArea: Area
    var originalImage: Option<string>   // the original-image container, shown with this URL

    /** The page as loaded: the news list visible, the other views hidden, nothing selected. */
    constructor ()
      ensures views == Visibility(true, false, false)
      ensures currentArticleData == None && currentCuratedData == None
      ensures allRelevantImages == [] && currentImagePage == 0
      ensures simplePreviewImagePath == None && imageArea == Initial && originalImage == None
    {
      views := Visibility(true, false, false);
      currentArticleData, currentCuratedData := None, None;
      allRelevantImages, currentImagePage := [], 0;
      simplePreviewImagePath, imageArea, originalImage := None, Initial, None;
    }

    method SetView(viewId: string)
      modifies this`views
      ensures views == ViewsFor(viewId)
    {
      views := Visibility(false, false, false);
      if viewId == "list" {
        views := views.(list := true);
      } else if viewId == "select" {
        views := views.(select := true);
      } else if viewId == "simple-preview" {
        views := views.(preview := true);
      }
    }

    /** `showImageSelectionUI`: shows the selection view, the original image when the article
        has one, and the current page of images; an empty page other than the empty first page
        resets to page 0 and draws again. */
    method ShowImageSelectionUI()
      requires currentCuratedData.Some? && currentArticleData.Some?
      modifies this`views, this`currentImagePage, this`imageArea, this`originalImage
      ensures views == ViewsFor("select")
      ensures currentImagePage == ShownPage(allRelevantImages, old(currentImagePage))
      ensures imageArea == AreaFor(allRelevantImages, old(currentImagePage))
      ensures var url := currentArticleData.value.originalImageUrl;
        originalImage == if Truthy(url) then url else None
      decreases if currentImagePage == 0 then 0 else 1
    {
      SetView("select");
      var url := currentArticleData.value.originalImageUrl;
      originalImage := if Truthy(url) then url else None;
      var startIndex := currentImagePage * ImagesPerPage;
      var imagesToShow := if startIndex >= |allRelevantImages| then []
                          else if startIndex + ImagesPerPage <= |allRelevantImages|
                          then allRelevantImages[startIndex..startIndex + ImagesPerPage]
                          else allRelevantImages[startIndex..];
      if |imagesToShow| == 0 {
        if currentImagePage == 0 && |allRelevantImages| == 0 {
          imageArea := NoImagesMessage;
        } else {
          currentImagePage := 0;
          ShowImageSelectionUI();
        }
        return;
      }
      imageArea := Thumbnails(imagesToShow);
    }

    /** Tapping an article: its curation response replaces the curated data and the images,
        the page resets to 0 and the selection view is drawn; a connection error changes
        nothing but the current article. The result says whether the failure alert fired. */
    method HandleArticleTap(article: Articles.Article, response: CurateResponse)
      returns (failureAlert: bool)
      modifies this
      ensures currentArticleData == Some(article)
      ensures simplePreviewImagePath == old(simplePreviewImagePath)
      ensures response.CurateConnectionError? ==>
        && !failureAlert
        && currentCuratedData == old(currentCuratedData) && views == old(views)
        && allRelevantImages == old(allRelevantImages) && currentImagePage == old(currentImagePage)
        && imageArea == old(imageArea) && originalImage == old(originalImage)
      ensures response.CurateBody? ==>
        && currentCuratedData == Some(response.data)
        && failureAlert == (response.data.headline == Some(CheckedFailureHeadline))
        && allRelevantImages == response.data.images.GetOr([])
        && currentImagePage == 0
        && views == ViewsFor("select")
        && imageArea == AreaFor(allRelevantImages, 0)
        && originalImage == (if Truthy(article.originalImageUrl) then article.originalImageUrl else None)
    {
      currentArticleData := Some(article);
      failureAlert := false;
      match response
      case CurateConnectionError =>
      case CurateBody(data) =>
        currentCuratedData := Some(data);
        failureAlert := data.headline == Some(CheckedFailureHeadline);
        allRelevantImages := data.images.GetOr([]);
        currentImagePage := 0;
        ShowImageSelectionUI();
    }

    /** The Refresh button: the next page, wrapping to the first after the last. */
    method Refresh()
      requires currentCuratedData.Some? && currentArticleData.Some?
      modifies this`views, this`currentImagePage, this`imageArea, this`originalImage
      ensures views == ViewsFor("select")
      ensures currentImagePage == ShownPage(allRelevantImages, old(currentImagePage) + 1)
      ensures imageArea == AreaFor(allRelevantImages, old(currentImagePage) + 1)
      ensures var url := currentArticleData.value.originalImageUrl;
        originalImage == if Truthy(url) then url else None
    {
      currentImagePage := currentImagePage + 1;
      ShowImageSelectionUI();
    }

    /** `startSimplePreviewPipeline`: sends the image URL, the headline without "**" and the
        description; an accepted response records the path and shows the preview view, any
        other response changes nothing. */
    method StartSimplePreviewPipeline(imageUrl: string, response: PreviewResponse)
      returns (request: PreviewRequest)
      requires currentCuratedData.Some?
      modifies this`simplePreviewImagePath, this`views
      ensures request == PreviewRequest(
        imageUrl,
        Curator.StripBold(OrElse(currentCuratedData.value.headline, "Headline N/A")),
        currentCuratedData.value.description)
      ensures PreviewAccepted(response) ==>
        simplePreviewImagePath == response.previewImagePath && views == ViewsFor("simple-preview")
      ensures !PreviewAccepted(response) ==>
        simplePreviewImagePath == old(simplePreviewImagePath) && views == old(views)
    {
      var headline := Curator.StripBold(OrElse(currentCuratedData.value.headline, "Headline N/A"));
      request := PreviewRequest(imageUrl, headline, currentCuratedData.value.description);
      match response
      case PreviewConnectionError =>
      case PreviewBody(error, path) =>
        if Truthy(error) || path == Some(Curator.FallbackPath) {
          return;
        }
        simplePreviewImagePath := path;
        SetView("simple-preview");
    }

    /** `handleDownload`: no file without a preview; otherwise the cleaned headline name. */
    method HandleDownload() returns (fileName: Option<string>)
      ensures fileName.None? <==> !Truthy(simplePreviewImagePath)
      ensures fileName.Some? ==>
        var headline := if currentCuratedData.Some? then currentCuratedData.value.headline else None;
        fileName.value == DownloadFileName(headline)
    {
      if !Truthy(simplePreviewImagePath) {
        return None;
      }
      var headline := if currentCuratedData.Some? then currentCuratedData.value.headline else None;
      fileName := Some(DownloadFileName(headline));
    }

    /** The guard of `handleShare`: sharing proceeds only once a preview exists. */
    method HandleShare() returns (proceeds: bool)
      ensures proceeds <==> Truthy(simplePreviewImagePath)
    {
      proceeds := Truthy(simplePreviewImagePath);
    }
  }
}
