/** Feed ingestion: each configured feed is fetched and parsed, its items are normalised into
    article records, the first five are kept, a failing feed is skipped, and the survivors are
    sorted newest first and handed to the store. */
module Aggregator {
  import opened Wrappers
  import opened Strings
  import opened Articles
  import Ordering
  import Database

  datatype Feed = Feed(name: string, url: string)

  /** `item.enclosure`: a `url` attribute ("" when absent) and a `type`, which may be missing. */
  datatype Enclosure = Enclosure(url: string, mimeType: Option<string>)

  /** `item['media:content']`: with an attribute object `$` (its `url`, "" when absent), or
      without one. */
  datatype MediaContent = WithAttributes(url: string) | WithoutAttributes

  /** One parsed item; `pubDate` is the parsed timestamp when the item carries a non-empty
      date string. */
  datatype RawItem = RawItem(
    title: string,
    link: string,
    pubDate: Option<Timestamp>,
    enclosure: Option<Enclosure>,
    media: Option<MediaContent>)

  /** What `parser.parseURL` yields for a feed: it throws, or it returns the feed's items. */
  datatype FeedOutcome = Failed | Items(items: seq<RawItem>)

  /** The image URL chosen for an item, or the TypeError the normaliser throws. */
  datatype ImageResolution = Resolved(url: Option<string>) | Throws

  const PerFeedLimit := 5

  const RssFeeds := [
    Feed("Pitchfork News", "https://pitchfork.com/rss/news/"),
    Feed("Pitchfork Reviews", "https://pitchfork.com/rss/reviews/albums/"),
    Feed("Resident Advisor", "https://ra.co/news.rss")
  ]

  predicate HasEnclosureUrl(item: RawItem) {
    item.enclosure.Some? && item.enclosure.value.url != ""
  }

  /** The enclosure is an image: it has a url and a type starting with "image". */
  predicate EnclosureIsImage(item: RawItem) {
    HasEnclosureUrl(item) && item.enclosure.value.mimeType.Some?
    && StartsWith(item.enclosure.value.mimeType.value, "image")
  }

  /** An enclosure with a url but no type: reading its type throws. */
  predicate EnclosureLacksType(item: RawItem) {
    HasEnclosureUrl(item) && item.enclosure.value.mimeType.None?
  }

  /** The first-match rule: an image enclosure, else `media:content.$.url`, else null.
      Reading `type` of an enclosure that has a url but no type throws, and so does reading
      `$.url` of a media element without attributes. */
  function ResolveImage(item: RawItem): (r: ImageResolution)
    ensures EnclosureIsImage(item) ==> r == Resolved(Some(item.enclosure.value.url))
    ensures r == Throws <==>
      EnclosureLacksType(item) || (!EnclosureIsImage(item) && item.media == Some(WithoutAttributes))
    ensures r.Resolved? && r.url.Some? ==>
      && r.url.value != ""
      && ((EnclosureIsImage(item) && r.url.value == item.enclosure.value.url)
          || item.media == Some(WithAttributes(r.url.value)))
    ensures r == Resolved(None) <==>
      && !EnclosureIsImage(item)
      && !EnclosureLacksType(item)
      && (item.media.None? || item.media == Some(WithAttributes("")))
  {
    if EnclosureLacksType(item) then Throws
    else if EnclosureIsImage(item) then Resolved(Some(item.enclosure.value.url))
    else match item.media
      case None => Resolved(None)
      case Some(WithoutAttributes) => Throws
      case Some(WithAttributes(u)) => if u != "" then Resolved(Some(u)) else Resolved(None)
  }

  /** The item normaliser: `None` when it throws. A missing date becomes `now`; a present one
      is kept whatever it says. */
  function NormaliseItem(feed: Feed, now: Timestamp, item: RawItem): (r: Option<Article>)
    ensures r.None? <==> ResolveImage(item) == Throws
    ensures r.Some? ==>
      && r.value.source == feed.name
      && r.value.title == item.title
      && r.value.link == item.link
      && r.value.pubDate == item.pubDate.GetOr(now)
      && r.value.originalImageUrl == ResolveImage(item).url
  {
    match ResolveImage(item)
    case Throws => None
    case Resolved(url) => Some(Article(feed.name, item.title, item.link, item.pubDate.GetOr(now), url))
  }

  /** `rss.items.map(normalise)`: every item is normalised, and one throw aborts the map. */
  function NormaliseAll(feed: Feed, now: Timestamp, items: seq<RawItem>): (r: Option<seq<Article>>)
    ensures r.Some? <==> forall i :: 0 <= i < |items| ==> ResolveImage(items[i]) != Throws
    ensures r.Some? ==>
      && |r.value| == |items|
      && forall i :: 0 <= i < |items| ==> Some(r.value[i]) == NormaliseItem(feed, now, items[i])
  {
    if |items| == 0 then Some([])
    else match NormaliseItem(feed, now, items[0])
      case None => None
      case Some(a) =>
        match NormaliseAll(feed, now, items[1..])
        case None => None
        case Some(rest) => Some([a] + rest)
  }

  /** What one feed adds to the batch: the first five normalised items, or nothing when the
      fetch, the parse or the normaliser throws. */
  function FeedContribution(feed: Feed, outcome: FeedOutcome, now: Timestamp): (c: seq<Article>)
    ensures |c| <= PerFeedLimit
    ensures outcome.Failed? ==> c == []
  {
    match outcome
    case Failed => []
    case Items(items) =>
      match NormaliseAll(feed, now, items)
      case None => []
      case Some(articles) => if |articles| <= PerFeedLimit then articles else articles[..PerFeedLimit]
  }

  /** The contribution of each feed, in feed order. */
  function Contributions(feeds: seq<Feed>, parse: string -> FeedOutcome, now: Timestamp)
    : (parts: seq<seq<Article>>)
    ensures |parts| == |feeds|
    ensures forall i :: 0 <= i < |feeds| ==> parts[i] == FeedContribution(feeds[i], parse(feeds[i].url), now)
  {
    seq(|feeds|, i requires 0 <= i < |feeds| => FeedContribution(feeds[i], parse(feeds[i].url), now))
  }

  /** The parts joined end to end, as repeated `push(...parts[i])` builds them. */
  function Concat<T>(parts: seq<seq<T>>): seq<T>
  {
    if |parts| == 0 then [] else Concat(parts[..|parts| - 1]) + parts[|parts| - 1]
  }

  /** `collectedArticles` after the loop over `feeds`. */
  function Collected(feeds: seq<Feed>, parse: string -> FeedOutcome, now: Timestamp): seq<Article>
  {
    Concat(Contributions(feeds, parse, now))
  }

  /** The batch that `fetchAndProcessNews` returns. */
  function Batch(feeds: seq<Feed>, parse: string -> FeedOutcome, now: Timestamp): seq<Article>
  {
    Ordering.SortNewestFirst(Collected(feeds, parse, now), PubDate)
  }

  /** A successful feed adds exactly min(5, item count) articles: its first items, in feed order,
      each carrying the feed's name; a failed or throwing feed adds none. */
  lemma FeedContributionShape(feed: Feed, outcome: FeedOutcome, now: Timestamp)
    ensures outcome.Failed? ==> FeedContribution(feed, outcome, now) == []
    ensures outcome.Items? && (exists i :: 0 <= i < |outcome.items| && ResolveImage(outcome.items[i]) == Throws)
            ==> FeedContribution(feed, outcome, now) == []
    ensures outcome.Items? && (forall i :: 0 <= i < |outcome.items| ==> ResolveImage(outcome.items[i]) != Throws)
            ==> var c := FeedContribution(feed, outcome, now);
                && |c| == (if |outcome.items| < PerFeedLimit then |outcome.items| else PerFeedLimit)
                && forall k :: 0 <= k < |c| ==> Some(c[k]) == NormaliseItem(feed, now, outcome.items[k])
    ensures forall a :: a in FeedContribution(feed, outcome, now) ==> a.source == feed.name
  {
    if outcome.Items? {
      var r := NormaliseAll(feed, now, outcome.items);
      if r.Some? {
        forall a | a in FeedContribution(feed, outcome, now) ensures a.source == feed.name {
          var k :| 0 <= k < |r.value| && r.value[k] == a;
          assert Some(a) == NormaliseItem(feed, now, outcome.items[k]);
        }
      }
    }
  }

  lemma {:induction false} ConcatAppend<T>(p: seq<seq<T>>, q: seq<seq<T>>)
    ensures Concat(p + q) == Concat(p) + Concat(q)
  {
    if |q| == 0 {
      assert p + q == p;
    } else {
      var init, last := q[..|q| - 1], q[|q| - 1];
      assert (p + q)[..|p + q| - 1] == p + init;
      ConcatAppend(p, init);
    }
  }

  lemma ContributionsAppend(a: seq<Feed>, b: seq<Feed>, parse: string -> FeedOutcome, now: Timestamp)
    ensures Contributions(a + b, parse, now) == Contributions(a, parse, now) + Contributions(b, parse, now)
  {
  }

  /** An empty part adds nothing to a concatenation. */
  lemma ConcatSkipsEmpty<T>(p: seq<seq<T>>, q: seq<seq<T>>)
    ensures Concat(p + [[]] + q) == Concat(p + q)
  {
    var none: seq<seq<T>> := [[]];
    ConcatAppend(p + none, q);
    ConcatAppend(p, none);
    ConcatAppend(p, q);
    assert Concat(none) == [] by {
      assert none[..0] == [];
    }
  }

  /** A failed feed's entry in the per-feed contributions is the empty sequence. */
  lemma ContributionsOfFailed(before: seq<Feed>, failed: Feed, after: seq<Feed>,
                              parse: string -> FeedOutcome, now: Timestamp)
    requires parse(failed.url) == Failed
    ensures Contributions(before + [failed] + after, parse, now)
            == Contributions(before, parse, now) + [[]] + Contributions(after, parse, now)
  {
    ContributionsAppend(before + [failed], after, parse, now);
    ContributionsAppend(before, [failed], parse, now);
  }

  /** A feed that fails contributes nothing and does not stop the feeds after it: removing it
      from the list leaves the collected articles unchanged. */
  lemma FailedFeedIsSkipped(before: seq<Feed>, failed: Feed, after: seq<Feed>,
                            parse: string -> FeedOutcome, now: Timestamp)
    requires parse(failed.url) == Failed
    ensures Collected(before + [failed] + after, parse, now) == Collected(before + after, parse, now)
  {
    ContributionsOfFailed(before, failed, after, parse, now);
    ContributionsAppend(before, after, parse, now);
    ConcatSkipsEmpty(Contributions(before, parse, now), Contributions(after, parse, now));
  }

  lemma {:induction false} ConcatBound<T>(parts: seq<seq<T>>, limit: nat)
    requires forall i :: 0 <= i < |parts| ==> |parts[i]| <= limit
    ensures |Concat(parts)| <= limit * |parts|
    ensures forall x :: x in Concat(parts) ==> exists i :: 0 <= i < |parts| && x in parts[i]
  {
    if |parts| > 0 {
      var init := parts[..|parts| - 1];
      ConcatBound(init, limit);
      forall x | x in Concat(parts) ensures exists i :: 0 <= i < |parts| && x in parts[i] {
        if x in Concat(init) {
          var i :| 0 <= i < |init| && x in init[i];
          assert x in parts[i];
        }
      }
    }
  }

  /** Each feed adds at most five articles, and every collected article names its feed. */
  lemma CollectedBound(feeds: seq<Feed>, parse: string -> FeedOutcome, now: Timestamp)
    ensures |Collected(feeds, parse, now)| <= PerFeedLimit * |feeds|
    ensures forall a :: a in Collected(feeds, parse, now) ==> exists f :: f in feeds && a.source == f.name
  {
    var parts := Contributions(feeds, parse, now);
    forall i | 0 <= i < |parts| ensures |parts[i]| <= PerFeedLimit {
      FeedContributionShape(feeds[i], parse(feeds[i].url), now);
    }
    ConcatBound(parts, PerFeedLimit);
    forall a | a in Collected(feeds, parse, now) ensures exists f :: f in feeds && a.source == f.name {
      var i :| 0 <= i < |parts| && a in parts[i];
      FeedContributionShape(feeds[i], parse(feeds[i].url), now);
      assert feeds[i] in feeds;
    }
  }

  /** One more turn of the loop appends the next feed's contribution. */
  lemma CollectedStep(feeds: seq<Feed>, i: nat, parse: string -> FeedOutcome, now: Timestamp)
    requires i < |feeds|
    ensures Collected(feeds[..i + 1], parse, now)
         == Collected(feeds[..i], parse, now) + FeedContribution(feeds[i], parse(feeds[i].url), now)
  {
    assert Contributions(feeds[..i + 1], parse, now)[..i] == Contributions(feeds[..i], parse, now);
  }

  /** The batch is the collected articles reordered newest first; articles with equal
      timestamps keep collection order. */
  lemma BatchIsStableSort(feeds: seq<Feed>, parse: string -> FeedOutcome, now: Timestamp)
    ensures multiset(Batch(feeds, parse, now)) == multiset(Collected(feeds, parse, now))
    ensures Ordering.NewestFirst(Batch(feeds, parse, now), PubDate)
    ensures forall t :: Ordering.WithKey(Batch(feeds, parse, now), PubDate, t)
                     == Ordering.WithKey(Collected(feeds, parse, now), PubDate, t)
  {
    Ordering.SortPermutes(Collected(feeds, parse, now), PubDate);
    Ordering.SortOrders(Collected(feeds, parse, now), PubDate);
    forall t ensures Ordering.WithKey(Batch(feeds, parse, now), PubDate, t)
                  == Ordering.WithKey(Collected(feeds, parse, now), PubDate, t) {
      Ordering.SortIsStable(Collected(feeds, parse, now), PubDate, t);
    }
  }

  /** The loop of `fetchAndProcessNews` followed by its sort: each feed's outcome is pushed in
      turn, a failure is caught and skipped. */
  method CollectAndSort(feeds: seq<Feed>, parse: string -> FeedOutcome, now: Timestamp)
    returns (collectedArticles: seq<Article>)
    ensures collectedArticles == Batch(feeds, parse, now)
  {
    collectedArticles := [];
    for i := 0 to |feeds|
      invariant collectedArticles == Collected(feeds[..i], parse, now)
    {
      CollectedStep(feeds, i, parse, now);
      var feed := feeds[i];
      match parse(feed.url) {
        case Failed =>
        case Items(items) =>
          var processed := NormaliseAll(feed, now, items);
          if processed.Some? {
            var firstFive := if |processed.value| <= PerFeedLimit then processed.value
                             else processed.value[..PerFeedLimit];
            collectedArticles := collectedArticles + firstFive;
          }
      }
    }
    assert feeds[..|feeds|] == feeds;
    collectedArticles := Ordering.SortNewestFirst(collectedArticles, PubDate);
  }

  /** `fetchAndProcessNews` over the configured feeds: the store is written exactly when the
      batch is non-empty, and a store without a connection makes the whole call throw. */
  method FetchAndProcessNews(store: Database.ArticleStore, parse: string -> FeedOutcome,
                             now: Timestamp, writeTime: Timestamp, writeSucceeds: bool)
    returns (result: Result<seq<Article>>)
    requires store.Valid()
    modifies store`records
    ensures store.Valid()
    ensures var batch := Batch(RssFeeds, parse, now);
      && (batch == [] ==> result == Success([]) && store.records == old(store.records))
      && (batch != [] && !store.connected ==>
            result == Failure(Database.NotConnected) && store.records == old(store.records))
      && (batch != [] && store.connected ==>
            result == Success(batch)
            && store.records == if writeSucceeds then Database.UpsertAll(old(store.records), batch, writeTime)
                                 else old(store.records))
  {
    var collectedArticles := CollectAndSort(RssFeeds, parse, now);
    if |collectedArticles| > 0 {
      var outcome := store.InsertArticles(collectedArticles, writeTime, writeSucceeds);
      if outcome.Fail? {
        return Failure(outcome.message);
      }
    }
    result := Success(collectedArticles);
  }
}
