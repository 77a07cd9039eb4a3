/** The article store: a MongoDB collection keyed by `link`, seen at the level of its records. */
module Database {
  import opened Wrappers
  import opened Articles
  import Ordering

  const NotConnected := "Database not connected."

  /** A stored document: the article's fields written by `$set`, plus the write time. */
  datatype StoredArticle = StoredArticle(article: Article, fetchedAt: Timestamp)

  type Records = map<string, StoredArticle>

  function StoredPubDate(r: StoredArticle): Timestamp {
    r.article.pubDate
  }

  /** Every record sits under its own link, so no link has two records. */
  ghost predicate KeyedByLink(m: Records) {
    forall l :: l in m ==> m[l].article.link == l
  }

  /** The set of links a batch mentions. */
  function Links(batch: seq<Article>): (ls: set<string>)
    ensures forall i :: 0 <= i < |batch| ==> batch[i].link in ls
    ensures forall l :: l in ls ==> exists i :: 0 <= i < |batch| && batch[i].link == l
  {
    if |batch| == 0 then {} else Links(batch[..|batch| - 1]) + {batch[|batch| - 1].link}
  }

  /** One `updateOne` with `upsert: true`: find by link, set every field and `fetchedAt`. */
  function Upsert(m: Records, a: Article, now: Timestamp): Records {
    m[a.link := StoredArticle(a, now)]
  }

  /** The bulk write: the operations applied in array order. */
  function UpsertAll(m: Records, batch: seq<Article>, now: Timestamp): Records
  {
    if |batch| == 0 then m
    else Upsert(UpsertAll(m, batch[..|batch| - 1], now), batch[|batch| - 1], now)
  }

  lemma {:induction false} UpsertAllKeys(m: Records, batch: seq<Article>, now: Timestamp)
    ensures UpsertAll(m, batch, now).Keys == m.Keys + Links(batch)
  {
    if |batch| > 0 {
      UpsertAllKeys(m, batch[..|batch| - 1], now);
    }
  }

  /** The records that a batch alone would produce in an empty collection. */
  function BatchRecords(batch: seq<Article>, now: Timestamp): (b: Records)
    ensures b.Keys == Links(batch)
  {
    UpsertAllKeys(map[], batch, now);
    UpsertAll(map[], batch, now)
  }

  lemma {:induction false} UpsertAllOverlays(m: Records, batch: seq<Article>, now: Timestamp)
    ensures UpsertAll(m, batch, now) == m + BatchRecords(batch, now)
  {
    if |batch| > 0 {
      UpsertAllOverlays(m, batch[..|batch| - 1], now);
      UpsertAllOverlays(map[], batch[..|batch| - 1], now);
    }
  }

  /** Each link ends up with exactly one record, stored under it. */
  lemma {:induction false} UpsertAllKeyed(m: Records, batch: seq<Article>, now: Timestamp)
    requires KeyedByLink(m)
    ensures KeyedByLink(UpsertAll(m, batch, now))
  {
    if |batch| > 0 {
      UpsertAllKeyed(m, batch[..|batch| - 1], now);
    }
  }

  /** The last entry of the batch with a given link wins, stamped with the write time. */
  lemma {:induction false} UpsertAllLastWins(m: Records, batch: seq<Article>, now: Timestamp, i: nat)
    requires i < |batch|
    requires forall j :: i < j < |batch| ==> batch[j].link != batch[i].link
    ensures batch[i].link in UpsertAll(m, batch, now)
    ensures UpsertAll(m, batch, now)[batch[i].link] == StoredArticle(batch[i], now)
  {
    if i < |batch| - 1 {
      UpsertAllLastWins(m, batch[..|batch| - 1], now, i);
    }
  }

  /** Links the batch does not mention keep their records; the collection gains exactly the
      previously unseen links of the batch. */
  lemma UpsertAllFrame(m: Records, batch: seq<Article>, now: Timestamp)
    ensures UpsertAll(m, batch, now).Keys == m.Keys + Links(batch)
    ensures forall l :: l in m && l !in Links(batch) ==> UpsertAll(m, batch, now)[l] == m[l]
    ensures |UpsertAll(m, batch, now)| == |m| + |Links(batch) - m.Keys|
  {
    UpsertAllOverlays(m, batch, now);
    var unseen := Links(batch) - m.Keys;
    assert m.Keys + Links(batch) == m.Keys + unseen;
    assert m.Keys !! unseen;
  }

  /** Writing the same batch again changes nothing but `fetchedAt`: the result is the one a
      single write at the later time produces, and its articles are those of the first write. */
  lemma UpsertAllIdempotent(m: Records, batch: seq<Article>, t1: Timestamp, t2: Timestamp)
    ensures UpsertAll(UpsertAll(m, batch, t1), batch, t2) == UpsertAll(m, batch, t2)
    ensures var once, twice := UpsertAll(m, batch, t1), UpsertAll(UpsertAll(m, batch, t1), batch, t2);
            once.Keys == twice.Keys
            && forall l :: l in once ==> twice[l].article == once[l].article
  {
    UpsertAllOverlays(m, batch, t1);
    UpsertAllOverlays(m, batch, t2);
    UpsertAllOverlays(UpsertAll(m, batch, t1), batch, t2);
    var b1, b2 := BatchRecords(batch, t1), BatchRecords(batch, t2);
    assert (m + b1) + b2 == m + b2;
    forall l | l in b1 ensures b2[l].article == b1[l].article {
      BatchRecordsArticles(batch, t1, t2, l);
    }
  }

  lemma {:induction false} BatchRecordsArticles(batch: seq<Article>, t1: Timestamp, t2: Timestamp, l: string)
    requires l in Links(batch)
    ensures BatchRecords(batch, t2)[l].article == BatchRecords(batch, t1)[l].article
  {
    if |batch| > 0 && batch[|batch| - 1].link != l {
      var init := batch[..|batch| - 1];
      assert l in Links(init);
      BatchRecordsArticles(init, t1, t2, l);
    }
  }

  class ArticleStore {
    var connected: bool    // the module-level `db` handle is set
    var records: Records   // the `articles` collection

    ghost predicate Valid()
      reads this
    {
      KeyedByLink(records)
    }

    /** The module is loaded before `connectDB` runs: the collection exists, `db` does not. */
    constructor (existing: Records)
      requires KeyedByLink(existing)
      ensures Valid() && !connected && records == existing
    {
      connected := false;
      records := existing;
    }

    /** A successful `connectDB`; a failed one ends the process, which is not modelled. */
    method Connect()
      requires Valid()
      modifies this`connected
      ensures Valid() && connected
    {
      connected := true;
    }

    /** `insertArticles`: without a connection it throws; otherwise the batch is upserted by
        link in array order. A failed bulk write (`writeSucceeds` false) is logged and
        swallowed, leaving the records as they were; an empty batch performs no write. */
    method InsertArticles(articles: seq<Article>, now: Timestamp, writeSucceeds: bool)
      returns (outcome: Outcome)
      requires Valid()
      modifies this`records
      ensures Valid()
      ensures outcome == if connected then Pass else Fail(NotConnected)
      ensures records == if connected && writeSucceeds then UpsertAll(old(records), articles, now)
                         else old(records)
    {
      if !connected {
        return Fail(NotConnected);
      }
      if |articles| > 0 && writeSucceeds {
        ghost var before := records;
        for i := 0 to |articles|
          invariant records == UpsertAll(before, articles[..i], now)
          invariant KeyedByLink(records)
        {
          assert articles[..i + 1][..i] == articles[..i];
          records := Upsert(records, articles[i], now);
        }
        assert articles[..|articles|] == articles;
      }
      outcome := Pass;
    }

    /** `getAllArticles`: without a connection it throws; otherwise every stored record once,
        newest `pubDate` first. */
    method GetAllArticles() returns (result: Result<seq<StoredArticle>>)
      requires Valid()
      ensures !connected ==> result == Failure(NotConnected)
      ensures connected ==> result.Success?
      ensures result.Success? ==>
        var all := result.value;
        && Ordering.NewestFirst(all, StoredPubDate)
        && |all| == |records|
        && (forall l :: l in records ==> records[l] in all)
        && (forall r :: r in all ==> r.article.link in records && records[r.article.link] == r)
    {
      if !connected {
        return Failure(NotConnected);
      }
      var remaining := records.Keys;
      var all: seq<StoredArticle> := [];
      while remaining != {}
        invariant remaining <= records.Keys
        invariant |all| + |remaining| == |records|
        invariant Ordering.NewestFirst(all, StoredPubDate)
        invariant forall l :: l in records && l !in remaining ==> records[l] in all
        invariant forall r :: r in all ==>
          r.article.link in records && r.article.link !in remaining && records[r.article.link] == r
        decreases remaining
      {
        var l :| l in remaining;
        Ordering.InsertKeepsOrder(all, records[l], StoredPubDate);
        Ordering.InsertPermutes(all, records[l], StoredPubDate);
        var next := Ordering.InsertNewestFirst(all, records[l], StoredPubDate);
        forall r | r in next
          ensures r.article.link in records && r.article.link !in remaining - {l}
          ensures records[r.article.link] == r
        {
          assert r in multiset(next);
        }
        forall k | k in records && k !in remaining - {l} ensures records[k] in next {
          if k != l {
            assert records[k] in multiset(all);
          }
          assert records[k] in multiset(next);
        }
        all := next;
        remaining := remaining - {l};
      }
      result := Success(all);
    }
  }
}
