# Music-news curator: a Dafny model of its core

The system is a small Node service. It fetches music-news RSS feeds, stores the articles in
MongoDB, and lets a browser client pick an article. For the chosen article it asks an AI model
for a headline, a description and a caption, searches for related images, and composes an
800×800 preview image with a caption band. This project models the deterministic core of that
service. The feeds, the database driver, the AI model, the image search, the image fetch, the
compositor, the file system and the clock all become inputs of the model.

Each module follows one file of the program:

- `aggregator.dfy` (`Aggregator`) covers one ingestion run of `fetchAndProcessNews`.
  - Each raw item is normalised into an article: the image URL follows a first-match rule, and a
    missing date becomes "now".
  - A feed contributes the first five normalised items.
  - A feed whose fetch, parse or normaliser throws contributes nothing, and the run continues
    with the next feed.
  - The contributions are concatenated and sorted newest first.
  - The batch is written to the store only when it is non-empty.
  - The per-feed loop is a method proved against the specification functions `Collected` and
    `Batch`.
- `ordering.dfy` (`Ordering`) models `Array.prototype.sort` with the comparator
  `(a, b) => b - a` on `pubDate`, which is a stable sort. It also models the `pubDate: -1`
  sort of the database read. The sort is written as an insertion sort. Its lemmas prove that
  the result is a permutation of the input, that it is ordered newest first, and that equal
  keys keep their input order.
- `database.dfy` (`Database`) models the articles collection as a class with two fields:
  - a map from `link` to stored record;
  - the `connected` flag that stands for the module-level `db` handle.

  `insertArticles` is an upsert per article, applied in array order. `getAllArticles` reads
  every record, newest first. Both throw `"Database not connected."` without a connection.
- `curator.dfy` (`Curator`) covers the string and record logic of `curator.js`:
  - the image-search result shaping and the search query;
  - the code-fence cleaning of the AI text;
  - the success record versus the fixed `"AI Failed"` placeholder;
  - the first sentence of the description and the `**` headline strip;
  - the fixed overlay geometry;
  - the preview path, or `/fallback.png` when any step fails.
- `client.dfy` (`Client`) covers the global state of the page script in `public/index.js`, as
  the class `ClientState`:
  - the three-view visibility;
  - image paging, three per page, wrapping to page 0;
  - the article-tap reset;
  - the preview-response check;
  - the download-file-name cleaning;
  - the guards of download and share.
- `strings.dfy`, `articles.dfy` and `wrappers.dfy` hold the shared pieces:
  - the JavaScript string operations used: `startsWith`, a global literal `replace`, `trim`,
    ASCII lower-casing and decimal rendering;
  - the article record;
  - `Option` and `Result`.

Conventions:

- A JavaScript value that is tested for truthiness is modelled as an `Option<string>`, and the
  empty string counts as falsy.
- Timestamps are integers (milliseconds).
- `generateSimplePreviewImage` places the headline and the first sentence unchanged in a fixed
  90-pixel band at top 690 of an 800×800 canvas. It does no word wrapping, no font scaling by
  width and no escaping of markup characters, and the model has none of these either.
- A failed bulk write is caught and logged by `insertArticles`. The model treats it as
  writing nothing.

## Model

| member | source | states |
|---|---|---|
| Aggregator.ResolveImage | aggregator.js:31-36 | an image enclosure (url present, type starting with "image") wins; otherwise `media:content.$.url`; otherwise null. The normaliser throws exactly when an enclosure has a url but no type, or when no image enclosure exists and the media element has no `$`. A resolved URL is never empty and comes from one of the two places |
| Aggregator.NormaliseItem | aggregator.js:30-44 | no article exactly when image resolution throws. Otherwise `source` is the feed name, `title` and `link` are copied, `pubDate` is the item's date when present and `now` otherwise, and the image URL is the resolved one |
| Aggregator.NormaliseAll | aggregator.js:30-45 | the map over all items succeeds exactly when no item throws. It then has one article per item, in order, each equal to that item's normalisation |
| Aggregator.FeedContribution | aggregator.js:30-50 | one feed's share of the batch: at most 5 articles, and none for a failed feed. Its full shape is stated by `FeedContributionShape` |
| Aggregator.Collected | aggregator.js:24-50 | the articles the feed loop collects. Its properties are stated by `CollectedStep`, `CollectedBound` and `FailedFeedIsSkipped`, and the loop is tied to it by `CollectAndSort` |
| Aggregator.Batch | aggregator.js:53 | the collected articles sorted newest first. `BatchIsStableSort` states that this is a stable permutation |
| Aggregator.FeedContributionShape | aggregator.js:30-50 | a failed feed, or one with a throwing item anywhere in the list, adds nothing. Otherwise it adds exactly min(5, item count) articles, which are the normalisations of its first items in feed order. Every article it adds names the feed |
| Aggregator.ConcatAppend | aggregator.js:47 | pushing the parts of two feed lists in turn equals concatenating the two results |
| Aggregator.ContributionsOfFailed | aggregator.js:48-50 | a failed feed's slot in the contributions is empty |
| Aggregator.FailedFeedIsSkipped | aggregator.js:26-50 | removing a failed feed from the feed list leaves the collected articles unchanged: it adds nothing and later feeds are still processed |
| Aggregator.CollectedBound | aggregator.js:26-47 | at most 5 articles per feed are collected, and every collected article names one of the feeds |
| Aggregator.CollectedStep | aggregator.js:26-47 | one loop turn appends the next feed's contribution to what was collected before |
| Aggregator.BatchIsStableSort | aggregator.js:53 | the batch is a permutation of the collected articles, ordered by `pubDate` descending. Articles with equal `pubDate` keep collection order |
| Aggregator.CollectAndSort | aggregator.js:24-53 | the feed loop followed by the sort yields exactly `Batch`, the stable newest-first sort of the concatenated contributions |
| Aggregator.FetchAndProcessNews | aggregator.js:22-63 | an empty batch returns `[]` and leaves the store as it was. A non-empty batch without a connection fails with "Database not connected." and changes nothing. Otherwise the batch is returned, and the store holds the upsert of the batch when the write succeeds or is unchanged when it fails. The store keeps one record per link |
| Ordering.InsertNewestFirst | aggregator.js:53 | one insertion step of the stable sort. Its properties are stated by `InsertPermutes`, `InsertKeepsOrder` and `InsertKeepsTies` |
| Ordering.SortNewestFirst | aggregator.js:53 | the stable newest-first sort. Its properties are stated by `SortPermutes`, `SortOrders`, `SortIsStable` and `SortLength` |
| Ordering.InsertPermutes | aggregator.js:53 | inserting adds exactly the inserted element to the multiset |
| Ordering.InsertKeepsOrder | aggregator.js:53 | inserting into a newest-first sequence keeps it newest first |
| Ordering.InsertKeepsTies | aggregator.js:53 | the inserted element goes after every element that has its key |
| Ordering.SortPermutes | aggregator.js:53 | the sorted sequence is a permutation of the input |
| Ordering.SortOrders | aggregator.js:53 | the sorted sequence has non-increasing `pubDate` |
| Ordering.SortIsStable | aggregator.js:53 | for every key value, the elements with that key appear in input order |
| Ordering.SortLength | aggregator.js:53 | sorting keeps the length |
| Database.Links | database.js:40-46 | the links of a batch: every article's link is in it, and each member is some article's link |
| Database.Upsert | database.js:41-45 | one `updateOne` with `upsert: true`: the article and the write time are stored under its link, and no other record is touched |
| Database.UpsertAll | database.js:40-50 | the bulk write, applied in array order. Its properties are stated by `UpsertAllKeys`, `UpsertAllOverlays`, `UpsertAllKeyed`, `UpsertAllLastWins`, `UpsertAllFrame` and `UpsertAllIdempotent` |
| Database.UpsertAllKeys | database.js:40-50 | after the bulk upsert the stored links are the old links plus the batch's links |
| Database.BatchRecords | database.js:40-46 | the records a batch writes on its own are keyed by exactly the batch's links |
| Database.UpsertAllOverlays | database.js:40-50 | the bulk upsert equals the old records overridden by the batch's own records |
| Database.UpsertAllKeyed | database.js:40-46 | every record stays stored under its own link, so no link has two records |
| Database.UpsertAllLastWins | database.js:40-50 | the last batch entry with a link is stored under that link, with `fetchedAt` equal to the write time |
| Database.UpsertAllFrame | database.js:40-46 | records whose link the batch does not mention are unchanged. The record count grows by the number of previously unseen distinct links |
| Database.UpsertAllIdempotent | database.js:43-44 | writing a batch twice equals writing it once at the later time: the same links and the same article fields, with only `fetchedAt` refreshed |
| Database.BatchRecordsArticles | database.js:43 | the article fields a batch writes do not depend on the write time |
| Database.ArticleStore.constructor | database.js:14-15 | the collection exists and `db` is unset when the module loads |
| Database.ArticleStore.Connect | database.js:18-29 | a successful `connectDB` sets the handle and keeps the records |
| Database.ArticleStore.InsertArticles | database.js:34-56 | without a connection it throws "Database not connected." and writes nothing. Otherwise the records become the upsert of the articles in array order when the bulk write succeeds, and stay unchanged when it fails, since the error is swallowed. An empty batch writes nothing. One record per link is kept |
| Database.ArticleStore.GetAllArticles | database.js:59-65 | without a connection it throws "Database not connected.". Otherwise it returns every stored record exactly once, newest `pubDate` first, and nothing else |
| Strings.RemoveAll | curator.js:53 | a global literal `replace` with `''` never lengthens the text. `RemoveAllKeepsPrefix` states that text before any occurrence is kept, and `NoFenceAfterRemoval` that no "```" survives |
| Strings.RemoveAllKeepsPrefix | curator.js:53 | text with no occurrence of the pattern's first code unit is kept unchanged in front of whatever the removal makes of the rest |
| Strings.Trim | curator.js:53 | `trim` returns an infix of the text that neither starts nor ends with whitespace. Everything dropped in front of it and behind it is whitespace |
| Strings.Decimal | curator.js:83 | `Date.now()` renders as a non-empty string of decimal digits without a leading zero (unless it is 0), whose value is the number |
| Curator.SearchForRelevantImages | curator.js:17-27 | the result is non-empty exactly when the engine id and the key are present, the call does not throw, and items are present and non-empty. It is then the items' links, in order |
| Curator.SearchQuery | curator.js:30 | the query is the title, one space, then the source |
| Curator.StripFences | curator.js:53 | every "```json", then every "```", removed, then trimmed. Its properties are stated by `StrippedTextHasNoFence`, `StripFencesOfFenced` and `CleanTextUnchanged` |
| Curator.NoFenceAfterRemoval | curator.js:53 | after every "```" is removed, the text contains no "```" |
| Curator.StrippedTextHasNoFence | curator.js:53 | the cleaned AI text contains no code-fence marker |
| Curator.StripFencesOfFenced | curator.js:53 | a reply written as a JSON code block ("```json", a body without backticks, "```") cleans to the trimmed body |
| Curator.CleanTextUnchanged | curator.js:53 | text with no backtick and no surrounding whitespace is left unchanged by the cleaning |
| Curator.Placeholder | curator.js:64 | the fixed failure record. `CurateArticle` states when it is returned |
| Curator.CurateArticle | curator.js:29-66 | the search result is always returned as `images`. `originalSource` is present exactly when a non-empty AI text parses after cleaning. It is then the article's source, and the headline, description and caption are the parsed ones. Every other outcome is the fixed "AI Failed" / "Try again." / "Error." placeholder without `originalSource` |
| Curator.BeforeTerminator | curator.js:74 | `split(/[.!?]/)[0]`: the longest prefix without '.', '!' or '?', followed by a terminator or the end |
| Curator.FirstSentence | curator.js:74 | the text before the first terminator, followed by '.'; with no terminator, the whole description plus '.' |
| Curator.StripBold | curator.js:75 | one leading "**" and one trailing, non-overlapping "**" are removed, and nothing else |
| Curator.StripBoldOfBold | curator.js:75 | stripping `"**" + t + "**"` gives `t` back |
| Curator.StripBoldPlain | curator.js:75 | a headline that neither starts nor ends with "**" is unchanged |
| Curator.BuildOverlay | curator.js:76-80 | the canvas is 800×800 and the band spans the full width with height 90 at top 690, inside the canvas. The headline line is above the body line within the band. The texts are the stripped headline and the first sentence, unchanged |
| Curator.PreviewPath | curator.js:83-88 | "/preview_" + the decimal stamp + ".png", which never equals the fallback path |
| Curator.PreviewPathInjective | curator.js:83 | previews written at different stamps get different paths |
| Curator.GenerateSimplePreviewImage | curator.js:68-93 | "/fallback.png" exactly when the fetch, the composition or the write fails. Otherwise the result is the preview path for the stamp |
| Client.ViewsFor | public/index.js:101-110 | each view is visible exactly when its id is named. Any other id hides all three, and at most one view is visible |
| Client.PageSlice | public/index.js:189-190 | at most 3 images, empty exactly when `3*page` is past the end. Otherwise the images are the consecutive ones from index `3*page` |
| Client.ShownPage | public/index.js:189-193 | the page left after drawing is the requested page or 0. It is kept exactly when its slice is non-empty or it is page 0, and with any images the page drawn is non-empty |
| Client.AreaFor | public/index.js:187-205 | after drawing, the area holds the "no images" message exactly when there are no images, and otherwise 1 to 3 thumbnails |
| Client.RefreshWrapsAround | public/index.js:191-193 | from a valid page, Refresh shows the next page, or page 0 after the last page |
| Client.EveryImageHasAPage | public/index.js:189-190 | image `i` is shown on page `i / 3` at position `i % 3` |
| Client.RefreshCycles | public/index.js:94 | after `k` presses of Refresh from a freshly tapped article, the page is `k` modulo the number of pages |
| Client.FailureAlertNeverFiresForPlaceholder | public/index.js:167 | the "AI Generation Failed" check matches only when the parsed AI text itself carries that headline. It never matches the server's "AI Failed" placeholder |
| Client.ReplaceNonAlnum | public/index.js:247 | `replace(/[^a-z0-9]/gi, '_')`: same length, ASCII letters and digits kept, everything else becomes '_' |
| Client.LowerAll | public/index.js:247 | `toLowerCase` on the cleaned stem: same length, each character lower-cased |
| Client.CleanChar | public/index.js:247 | one character of the cleaning chain: a letter or digit lower-cased, anything else '_' |
| Client.FileStem | public/index.js:247 | the cleaned stem has the input's length and only `[a-z0-9_]` |
| Client.DownloadFileName | public/index.js:247-248 | the headline (default "phaseloop-post") has its "**" stripped, and each character is cleaned. The name is that stem, of the same length, followed by ".png" |
| Client.ClientState.constructor | public/index.js:83-87 | the page starts on the news list with no article, no curated data, no images, page 0 and no preview |
| Client.ClientState.SetView | public/index.js:101-110 | the visibility becomes exactly that of the named view |
| Client.ClientState.ShowImageSelectionUI | public/index.js:175-206 | the selection view is shown, with the original image when the article has one. An empty page other than the empty first page resets to page 0 and is drawn again. With no images the "no images" message is shown |
| Client.ClientState.HandleArticleTap | public/index.js:161-172 | the article is recorded. A received body replaces the curated data, sets the images to the received list (empty when absent), resets the page to 0 and draws the selection view; the failure alert fires exactly for "AI Generation Failed". A connection error changes nothing else |
| Client.ClientState.Refresh | public/index.js:94 | the page advances by one and is redrawn, wrapping to page 0. The selection view and the original image are shown again from the current article |
| Client.ClientState.StartSimplePreviewPipeline | public/index.js:209-223 | the request carries the image URL, the stripped headline (default "Headline N/A") and the description. A response with an error or the fallback path, or a connection error, leaves the path and the view unchanged. Otherwise the path is recorded and the preview view is shown |
| Client.ClientState.HandleDownload | public/index.js:243-250 | there is no file exactly when no preview path exists. Otherwise the file name is the cleaned headline plus ".png" |
| Client.ClientState.HandleShare | public/index.js:226-227 | sharing proceeds exactly when a preview path exists |

## Left out

- `server.js` is not part of this model: Express routing, body checks, static files and the mock share endpoint.
- Scheduling is not modelled: the cron job, the start-up `setTimeout`, and runs that overlap.
- Log output is not modelled.
- Foreign calls are inputs, not models:
  - `rss-parser.parseURL`;
  - the custom-search call;
  - the AI model call;
  - `JSON.parse`;
  - `node-fetch`;
  - `sharp`;
  - `fs.writeFile`;
  - `Date.now()` and `new Date()`.
- Aggregator.NormaliseItem: a single `now` stands for the whole run, whereas the source reads the clock again for each undated item.
- Aggregator.NormaliseItem: date strings are not parsed. A present date is an integer timestamp, so Invalid Date and NaN ordering do not arise.
- Aggregator.FetchAndProcessNews: the function's console messages and the rejection an awaiting caller would see are not modelled. A thrown store error is returned as `Failure`.
- Ordering.SortNewestFirst: the engine's sorting algorithm is not modelled. The model is the stable result that the language requires.
- Database.ArticleStore.InsertArticles: one write time `now` stamps the whole bulk write, whereas the source calls `new Date()` once per article while it builds the operations.
- Database.ArticleStore.InsertArticles: partial success of a bulk write is not modelled. A failed write leaves every record as it was.
- Database.ArticleStore.InsertArticles: MongoDB's `_id` field and the upserted/modified counts are not modelled.
- Database.ArticleStore.GetAllArticles: the order among records with equal `pubDate` is whatever the method picks, as in MongoDB, where it is unspecified.
- Database.ArticleStore.Connect: a failed connection ends the process (`process.exit`), which is not modelled.
- Curator.CurateArticle: the prompt text is not modelled.
- Curator.CurateArticle: `JSON.parse` yielding a non-object (a number, a string, `null`) is treated as a parse failure.
- Curator.CurateArticle: fields of the AI object beyond headline, description and caption are dropped.
- Curator.GenerateSimplePreviewImage: pixel work (the resize, the SVG rendering, PNG encoding) is not modelled. The collaborators only succeed or fail, and the absolute file path is not modelled.
- DOM rendering is not modelled, nor `alert` and `prompt`, the headline, description and caption text boxes, the cache-busting query string, or the article list rendered by `fetchNews`.
- Client.ClientState.HandleShare: only the guard is modelled. The platform prompt, the request and the result alerts are elided in the source.
- Client.ReplaceNonAlnum: a Dafny `char` is a Unicode scalar value, whereas the source's regular expression works on UTF-16 code units. A character outside the Basic Multilingual Plane becomes two '_' in the source and one in the model, so the "same length" claims of `ReplaceNonAlnum`, `FileStem` and `DownloadFileName` count characters, not code units. Case-insensitive matching beyond ASCII is not needed, because only ASCII letters and digits survive.
