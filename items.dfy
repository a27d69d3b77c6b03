/** The record shapes the pipeline passes around: a feed entry as the RSS
    parser hands it over, and the normalised article the cache holds
    (api/newsFetcher.js). */
module Items {
  import opened Js
  import opened Enrichment

  /** A local hour of the day, what `Date.prototype.getHours` returns. */
  type Hour = h: int | 0 <= h < 24

  /** What `new Date(text)` makes of a date string that parses: epoch
      milliseconds and the hour of the day in the server's time zone. */
  datatype Instant = Instant(millis: int, hour: Hour)

  /** A date string exactly as the feed gave it, with what `new Date` makes
      of it; `parsed == None` is an Invalid Date. */
  datatype Stamp = Stamp(text: string, parsed: Option<Instant>)

  /** A date-valued property that is present and non-empty, i.e. truthy. */
  predicate Dated(o: Option<Stamp>) {
    o.Some? && o.value.text != ""
  }

  /** One entry of `parsed.items`: every field may be missing. */
  datatype RawItem = RawItem(
    guid: Option<string>,
    id: Option<string>,
    title: Option<string>,
    link: Option<string>,
    contentSnippet: Option<string>,
    description: Option<string>,
    isoDate: Option<Stamp>,
    pubDate: Option<Stamp>)

  /** The normalised article; `id` is `undefined` when the entry had no guid, id or link. */
  datatype NewsItem = NewsItem(
    id: Option<string>,
    title: string,
    link: Option<string>,
    source: string,
    published: Option<Stamp>,
    summary: string,
    sentiment: Sentiment,
    categories: seq<string>)

  /** `title + ' ' + summary`, the text every keyword rule reads. */
  function Text(item: NewsItem): string {
    item.title + " " + item.summary
  }
}
