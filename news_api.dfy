/** The serverless news endpoint (api/news.js): fetch five feeds directly,
    keep the first ten entries of each, drop untitled entries, sort newest
    first and answer with at most fifty. It has no cache, no deduplication
    and no enrichment. */
module NewsApi {
  import opened Js
  import Seqs
  import opened Items
  import opened Http

  /** `RSS_FEEDS`. */
  const RssFeeds: seq<string> := [
    "https://cointelegraph.com/rss",
    "https://decrypt.co/feed",
    "https://www.coindesk.com/arc/outboundfeeds/rss/",
    "https://bitcoinmagazine.com/.rss/full/",
    "https://cryptonews.com/news/feed/"
  ]

  /** How many entries of each feed are used. */
  const PerFeed: nat := 10

  /** How many articles the answer holds at most. */
  const MaxNews: nat := 50

  /** A parsed feed: its channel title and its entries. */
  datatype ParsedFeed = ParsedFeed(title: Option<string>, items: seq<RawItem>)

  /** What `parser.parseURL(url)` came to. */
  datatype FeedResult = Unreachable | Fetched(feed: ParsedFeed)

  /** The article shape this endpoint answers with. */
  datatype ApiItem = ApiItem(
    title: Option<string>,
    link: Option<string>,
    description: Option<string>,
    publishDate: Option<Stamp>,
    source: Option<string>)

  function ToApiItem(item: RawItem, source: Option<string>): ApiItem {
    ApiItem(item.title, item.link, Or(item.contentSnippet, item.description), item.pubDate, source)
  }

  /** `fetchFromFeed(url)`: the first ten entries, reshaped and labelled
      with the feed's title; nothing when the feed failed. */
  function FromFeed(result: FeedResult): (r: seq<ApiItem>)
    ensures result.Unreachable? ==> r == []
    ensures result.Fetched? ==> |r| == if |result.feed.items| < PerFeed then |result.feed.items| else PerFeed
    ensures result.Fetched? ==> forall i :: 0 <= i < |r| ==>
      var item := result.feed.items[i];
      && r[i].title == item.title && r[i].link == item.link && r[i].publishDate == item.pubDate
      && r[i].description == (if Truthy(item.contentSnippet) then item.contentSnippet else item.description)
      && r[i].source == result.feed.title
  {
    match result
    case Unreachable => []
    case Fetched(feed) =>
      var kept := Seqs.Take(feed.items, PerFeed);
      seq(|kept|, i requires 0 <= i < |kept| => ToApiItem(kept[i], feed.title))
  }

  /** `results`: `fetchFromFeed` of each feed, once every promise has settled. */
  function FromFeeds(results: seq<FeedResult>): (rs: seq<seq<ApiItem>>)
    ensures |rs| == |results|
    ensures forall i :: 0 <= i < |results| ==> rs[i] == FromFeed(results[i])
  {
    seq(|results|, i requires 0 <= i < |results| => FromFeed(results[i]))
  }

  /** `results.flat()`. */
  function AllItems(results: seq<FeedResult>): (r: seq<ApiItem>)
    ensures |r| <= PerFeed * |results|
    ensures forall x :: x in r <==> exists i :: 0 <= i < |results| && x in FromFeed(results[i])
  {
    Seqs.FlattenBounded(FromFeeds(results), PerFeed);
    forall x ensures x in Seqs.Flatten(FromFeeds(results)) <==> exists i :: 0 <= i < |results| && x in FromFeed(results[i]) {
      Seqs.FlattenMembers(FromFeeds(results), x);
    }
    Seqs.Flatten(FromFeeds(results))
  }

  predicate Titled(a: ApiItem) {
    Truthy(a.title)
  }

  /** `new Date(publishDate)` in milliseconds, an Invalid Date counted as 0. */
  function PublishKey(a: ApiItem): int {
    if a.publishDate.Some? && a.publishDate.value.parsed.Some? then a.publishDate.value.parsed.value.millis else 0
  }

  /** `allNews`: titled entries, newest first, the first fifty. */
  function NewsList(results: seq<FeedResult>): seq<ApiItem> {
    Seqs.Take(Seqs.SortDesc(Seqs.Filter(AllItems(results), Titled), PublishKey), MaxNews)
  }

  /** Every entry of a sorted prefix of `s` is an entry of `s`. */
  lemma SortedPrefixFrom(s: seq<ApiItem>, k: nat)
    requires k < |Seqs.Take(Seqs.SortDesc(s, PublishKey), MaxNews)|
    ensures Seqs.Take(Seqs.SortDesc(s, PublishKey), MaxNews)[k] in s
  {
    var sorted := Seqs.SortDesc(s, PublishKey);
    assert Seqs.Take(sorted, MaxNews)[k] == sorted[k];
    assert sorted[k] in multiset(s);
  }

  /** No entry the cut leaves out is newer than one it keeps. */
  lemma CutKeepsNewest(s: seq<ApiItem>)
    ensures forall x, y ::
      x in Seqs.Take(Seqs.SortDesc(s, PublishKey), MaxNews) && y in s && y !in Seqs.Take(Seqs.SortDesc(s, PublishKey), MaxNews) ==>
        PublishKey(y) <= PublishKey(x)
  {
    var sorted := Seqs.SortDesc(s, PublishKey);
    var r := Seqs.Take(sorted, MaxNews);
    forall x, y | x in r && y in s && y !in r ensures PublishKey(y) <= PublishKey(x) {
      assert y in multiset(sorted);
      Seqs.TakeSortedIsTop(sorted, PublishKey, MaxNews, x, y);
    }
  }

  /** The answer: at most fifty titled entries, newest first, each from the
      fetched entries and as often as it occurs there (nothing is merged or
      deduplicated); when there are no more than fifty titled entries, all
      of them; otherwise no entry left out is newer than one kept. */
  lemma NewsListSpec(results: seq<FeedResult>)
    ensures |NewsList(results)| <= MaxNews
    ensures forall k :: 0 <= k < |NewsList(results)| ==> Titled(NewsList(results)[k])
    ensures Seqs.SortedDesc(NewsList(results), PublishKey)
    ensures multiset(NewsList(results)) <= multiset(Seqs.Filter(AllItems(results), Titled))
    ensures |Seqs.Filter(AllItems(results), Titled)| <= MaxNews ==>
      multiset(NewsList(results)) == multiset(Seqs.Filter(AllItems(results), Titled))
    ensures forall x, y ::
      x in NewsList(results) && y in Seqs.Filter(AllItems(results), Titled) && y !in NewsList(results) ==>
        PublishKey(y) <= PublishKey(x)
  {
    NewestTitled(AllItems(results));
  }

  /** `NewsList`'s filter, sort and cut on an arbitrary list of entries. */
  lemma NewestTitled(all: seq<ApiItem>)
    ensures |Seqs.Take(Seqs.SortDesc(Seqs.Filter(all, Titled), PublishKey), MaxNews)| <= MaxNews
    ensures forall k :: 0 <= k < |Seqs.Take(Seqs.SortDesc(Seqs.Filter(all, Titled), PublishKey), MaxNews)| ==>
      Titled(Seqs.Take(Seqs.SortDesc(Seqs.Filter(all, Titled), PublishKey), MaxNews)[k])
    ensures Seqs.SortedDesc(Seqs.Take(Seqs.SortDesc(Seqs.Filter(all, Titled), PublishKey), MaxNews), PublishKey)
    ensures multiset(Seqs.Take(Seqs.SortDesc(Seqs.Filter(all, Titled), PublishKey), MaxNews)) <= multiset(Seqs.Filter(all, Titled))
    ensures |Seqs.Filter(all, Titled)| <= MaxNews ==>
      multiset(Seqs.Take(Seqs.SortDesc(Seqs.Filter(all, Titled), PublishKey), MaxNews)) == multiset(Seqs.Filter(all, Titled))
    ensures forall x, y ::
      x in Seqs.Take(Seqs.SortDesc(Seqs.Filter(all, Titled), PublishKey), MaxNews) && y in Seqs.Filter(all, Titled)
        && y !in Seqs.Take(Seqs.SortDesc(Seqs.Filter(all, Titled), PublishKey), MaxNews) ==>
        PublishKey(y) <= PublishKey(x)
  {
    var titled := Seqs.Filter(all, Titled);
    var r := Seqs.Take(Seqs.SortDesc(titled, PublishKey), MaxNews);
    Seqs.TakeMultiset(Seqs.SortDesc(titled, PublishKey), MaxNews);
    forall k | 0 <= k < |r| ensures Titled(r[k]) {
      SortedPrefixFrom(titled, k);
    }
    CutKeepsNewest(titled);
  }

  /** With five feeds of at most ten entries each there are never more than
      fifty, so the cut to fifty never drops an entry. */
  lemma CutNeverBites(results: seq<FeedResult>)
    requires |results| == |RssFeeds|
    ensures multiset(NewsList(results)) == multiset(Seqs.Filter(AllItems(results), Titled))
  {
    NewsListSpec(results);
  }

  datatype Summary = Summary(total: nat, lastUpdated: string, sources: nat)

  datatype Answer = Answer(success: bool, news: seq<ApiItem>, meta: Summary)

  /** `handler(req, res)` for a request with method `verb`; `results[i]` is
      what fetching `RssFeeds[i]` came to and `now` the ISO time of the answer. */
  function Handle(verb: string, results: seq<FeedResult>, now: string): (r: Response<Answer>)
    requires |results| == |RssFeeds|
    ensures verb == "OPTIONS" ==> r == Response(200, NoContent)
    ensures verb != "OPTIONS" && verb != "GET" ==> r == Response(405, Error("Method not allowed"))
    ensures verb == "GET" ==> r.status == 200 && r.body.Json? && r.body.value.success
    ensures verb == "GET" ==> r.body.value.news == NewsList(results)
    ensures verb == "GET" ==> r.body.value.meta == Summary(|r.body.value.news|, now, 5)
  {
    if verb == "OPTIONS" then Response(200, NoContent)
    else if verb != "GET" then Response(405, Error("Method not allowed"))
    else
      var news := NewsList(results);
      Response(200, Json(Answer(true, news, Summary(|news|, now, |RssFeeds|))))
  }
}
