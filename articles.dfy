/** The normalised article record that ingestion produces and the store persists. */
module Articles {
  import opened Wrappers

  /** Timestamps are milliseconds since the epoch, as `Date.getTime()` returns them. */
  type Timestamp = int

  datatype Article = Article(
    source: string,
    title: string,
    link: string,              // identity key of the store
    pubDate: Timestamp,
    originalImageUrl: Option<string>)

  /** The sort key used for newest-first ordering. */
  function PubDate(a: Article): Timestamp {
    a.pubDate
  }
}
