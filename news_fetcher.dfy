/** The aggregation core (api/newsFetcher.js): normalising feed entries,
    per-feed failure isolation, the poll cycle that merges new articles into
    a bounded, duplicate-free cache, the statistics recomputed from the cache
    on every cycle, and the two read accessors. */
module NewsFetcher {
  import opened Js
  import Seqs
  import opened Tallies
  import opened Enrichment
  import opened Items
  import Trends

  datatype Feed = Feed(name: string, url: string)

  /** `FEEDS`. */
  const Feeds: seq<Feed> := [
    Feed("CoinDesk", "https://www.coindesk.com/arc/outboundfeeds/rss/"),
    Feed("CoinTelegraph", "https://cointelegraph.com/rss"),
    Feed("Bitcoin.com", "https://news.bitcoin.com/feed/"),
    Feed("Decrypt", "https://decrypt.co/feed"),
    Feed("CryptoSlate", "https://cryptoslate.com/feed/"),
    Feed("Bitcoinist", "https://bitcoinist.com/feed/"),
    Feed("NewsBTC", "https://www.newsbtc.com/feed/"),
    Feed("BeInCrypto", "https://beincrypto.com/feed/"),
    Feed("CryptoPotato", "https://cryptopotato.com/feed/"),
    Feed("CoinGape", "https://coingape.com/feed/"),
    Feed("UToday", "https://u.today/rss"),
    Feed("Blockworks", "https://blockworks.co/feed"),
    Feed("The Block", "https://www.theblockcrypto.com/rss.xml"),
    Feed("CryptoBriefing", "https://cryptobriefing.com/feed/")
  ]

  /** The cache keeps the last this many insertions. */
  const Capacity: nat := 300

  const TrendingLimit: nat := 12

  /** The stop set of `computeMeta`. */
  const StopWords: set<string> := {"the", "a", "an", "and", "or", "but", "is", "in", "on", "at", "to", "for",
    "of", "with", "by", "from", "as", "this", "that", "it", "are", "was", "be", "been", "has", "have", "will",
    "can", "news", "crypto", "cryptocurrency"}

  // ---------------------------------------------------------------------------
  // Normalisation and fetching

  /** `normalizeItem(sourceName, item)`. */
  function Normalize(sourceName: string, item: RawItem): (r: NewsItem)
    ensures Truthy(item.guid) ==> r.id == item.guid
    ensures !Truthy(item.guid) && Truthy(item.id) ==> r.id == item.id
    ensures !Truthy(item.guid) && !Truthy(item.id) ==> r.id == item.link
    ensures Truthy(item.title) ==> r.title == item.title.value
    ensures !Truthy(item.title) ==> r.title == ""
    ensures Truthy(item.contentSnippet) ==> r.summary == item.contentSnippet.value
    ensures !Truthy(item.contentSnippet) ==> r.summary == ""
    ensures Dated(item.isoDate) ==> r.published == item.isoDate
    ensures !Dated(item.isoDate) && Dated(item.pubDate) ==> r.published == item.pubDate
    ensures !Dated(item.isoDate) && !Dated(item.pubDate) ==> r.published == None
    ensures r.published == None || Dated(r.published)
    ensures r.link == item.link && r.source == sourceName
    ensures r.sentiment == SentimentOf(Text(r)) && r.categories == CategoriesOf(Text(r))
  {
    var title := OrEmpty(item.title);
    var summary := OrEmpty(item.contentSnippet);
    var text := title + " " + summary;
    NewsItem(
      Or(item.guid, Or(item.id, item.link)),
      title,
      item.link,
      sourceName,
      if Dated(item.isoDate) then item.isoDate else if Dated(item.pubDate) then item.pubDate else None,
      summary,
      SentimentOf(text),
      CategoriesOf(text))
  }

  /** What retrieving and parsing one feed came to. */
  datatype FeedOutcome = Failed | Parsed(items: seq<RawItem>)

  /** `fetchFeed(feed)`: every entry normalised under the feed's name, or nothing when the feed failed. */
  function FetchFeed(feed: Feed, outcome: FeedOutcome): (r: seq<NewsItem>)
    ensures outcome.Failed? ==> r == []
    ensures outcome.Parsed? ==> |r| == |outcome.items|
    ensures outcome.Parsed? ==> forall i :: 0 <= i < |r| ==> r[i] == Normalize(feed.name, outcome.items[i])
  {
    match outcome
    case Failed => []
    case Parsed(items) => seq(|items|, i requires 0 <= i < |items| => Normalize(feed.name, items[i]))
  }

  /** `feeds.map(fetchFeed)`, once every promise has settled; `outcomes[i]` is what feed `i` came to. */
  function FetchAll(feeds: seq<Feed>, outcomes: seq<FeedOutcome>): (rs: seq<seq<NewsItem>>)
    requires |outcomes| == |feeds|
    ensures |rs| == |feeds|
    ensures forall i :: 0 <= i < |feeds| ==> rs[i] == FetchFeed(feeds[i], outcomes[i])
  {
    seq(|feeds|, i requires 0 <= i < |feeds| => FetchFeed(feeds[i], outcomes[i]))
  }

  /** `(await Promise.all(feeds.map(fetchFeed))).flat()`: the items come
      feed by feed, in feed order. */
  function Collect(feeds: seq<Feed>, outcomes: seq<FeedOutcome>): (r: seq<NewsItem>)
    requires |outcomes| == |feeds|
    ensures |r| == TotalItems(outcomes)
    ensures forall x :: x in r <==> exists i :: 0 <= i < |feeds| && x in FetchFeed(feeds[i], outcomes[i])
  {
    CollectLength(feeds, outcomes);
    forall x ensures x in Seqs.Flatten(FetchAll(feeds, outcomes)) <==>
      exists i :: 0 <= i < |feeds| && x in FetchFeed(feeds[i], outcomes[i])
    {
      Seqs.FlattenMembers(FetchAll(feeds, outcomes), x);
    }
    Seqs.Flatten(FetchAll(feeds, outcomes))
  }

  lemma {:induction false} CollectLength(feeds: seq<Feed>, outcomes: seq<FeedOutcome>)
    requires |outcomes| == |feeds|
    ensures |Seqs.Flatten(FetchAll(feeds, outcomes))| == TotalItems(outcomes)
  {
    if feeds != [] {
      CollectLength(feeds[1..], outcomes[1..]);
      assert FetchAll(feeds, outcomes)[1..] == FetchAll(feeds[1..], outcomes[1..]);
    }
  }

  /** How many entries the feeds that parsed delivered. */
  function TotalItems(outcomes: seq<FeedOutcome>): nat {
    if outcomes == [] then 0
    else (if outcomes[0].Parsed? then |outcomes[0].items| else 0) + TotalItems(outcomes[1..])
  }

  // ---------------------------------------------------------------------------
  // Statistics

  datatype Meta = Meta(
    trending: seq<Entry>,
    categories: seq<Entry>,
    sourceStats: seq<Entry>,
    hours: seq<nat>,
    generatedAt: int)

  /** The value `lastMeta` starts with, before any poll. */
  function InitialMeta(now: int): Meta {
    Meta([], [], [], [], now)
  }

  function SourcesOf(cache: seq<NewsItem>): seq<string> {
    seq(|cache|, i requires 0 <= i < |cache| => cache[i].source)
  }

  /** Every tag of every article, article by article. */
  function AllCategories(cache: seq<NewsItem>): seq<string> {
    if cache == [] then [] else AllCategories(cache[..|cache| - 1]) + cache[|cache| - 1].categories
  }

  /** The bucket an article lands in: none when it has no date or the date does not parse. */
  function HourOf(item: NewsItem): Option<Hour> {
    if Dated(item.published) && item.published.value.parsed.Some? then Some(item.published.value.parsed.value.hour)
    else None
  }

  function Zeros(n: nat): (z: seq<nat>)
    ensures |z| == n && forall h :: 0 <= h < n ==> z[h] == 0
  {
    seq(n, h => 0)
  }

  /** The histogram after counting the articles of `cache` in turn. */
  function HoursOf(cache: seq<NewsItem>): seq<nat> {
    if cache == [] then Zeros(24)
    else
      var hs := HoursOf(cache[..|cache| - 1]);
      var h := HourOf(cache[|cache| - 1]);
      if h.Some? && |hs| == 24 then hs[h.value := hs[h.value] + 1] else hs
  }

  /** `computeMeta()` over `cache`, at time `now`. */
  function MetaOf(cache: seq<NewsItem>, now: int): Meta {
    Meta(
      Trends.Trending(cache, StopWords, TrendingLimit),
      Seqs.SortDesc(Tally(AllCategories(cache)), Trends.CountOf),
      Tally(SourcesOf(cache)),
      HoursOf(cache),
      now)
  }

  /** `xs.forEach(x => freq[x] = (freq[x] || 0) + 1)`, on counts so far of `seen`. */
  method CountAll(freq: seq<Entry>, ghost seen: seq<string>, xs: seq<string>) returns (r: seq<Entry>)
    requires freq == Tally(seen)
    ensures r == Tally(seen + xs)
  {
    r := freq;
    assert seen + xs[..0] == seen;
    for j := 0 to |xs|
      invariant r == Tally(seen + xs[..j])
    {
      assert seen + xs[..j + 1] == (seen + xs[..j]) + [xs[j]];
      TallySnoc(seen + xs[..j], xs[j]);
      r := Bump(r, xs[j]);
    }
    assert xs[..|xs|] == xs;
  }

  /** `Array(24).fill(0)` and one increment per article with a usable date. */
  method CountHours(cache: seq<NewsItem>) returns (r: seq<nat>)
    ensures r == HoursOf(cache)
  {
    var hours := new nat[24](h => 0);
    assert hours[..] == Zeros(24);
    for i := 0 to |cache|
      invariant hours[..] == HoursOf(cache[..i])
    {
      assert cache[..i + 1][..i] == cache[..i];
      var item := cache[i];
      if Dated(item.published) && item.published.value.parsed.Some? {
        var h := item.published.value.parsed.value.hour;
        hours[h] := hours[h] + 1;
      }
    }
    assert cache[..|cache|] == cache;
    r := hours[..];
  }

  lemma PrefixStep(cache: seq<NewsItem>, i: nat)
    requires i < |cache|
    ensures SourcesOf(cache[..i + 1]) == SourcesOf(cache[..i]) + [cache[i].source]
    ensures AllCategories(cache[..i + 1]) == AllCategories(cache[..i]) + cache[i].categories
    ensures Trends.KeptWords(cache[..i + 1], StopWords) == Trends.KeptWords(cache[..i], StopWords)
      + Seqs.Filter(Tokens(Lower(cache[i].title + " " + cache[i].summary)), Trends.NotStop(StopWords))
  {
    assert cache[..i + 1][..i] == cache[..i];
  }

  /** `computeMeta`: one pass over the cache filling the three counting
      objects, then the hour buckets. */
  method ComputeMeta(cache: seq<NewsItem>, now: int) returns (m: Meta)
    ensures m == MetaOf(cache, now)
  {
    var wordFreq: seq<Entry> := [];
    var categoryFreq: seq<Entry> := [];
    var sourceStats: seq<Entry> := [];
    for i := 0 to |cache|
      invariant sourceStats == Tally(SourcesOf(cache[..i]))
      invariant categoryFreq == Tally(AllCategories(cache[..i]))
      invariant wordFreq == Tally(Trends.KeptWords(cache[..i], StopWords))
    {
      var item := cache[i];
      PrefixStep(cache, i);
      TallySnoc(SourcesOf(cache[..i]), item.source);
      sourceStats := Bump(sourceStats, item.source);
      categoryFreq := CountAll(categoryFreq, AllCategories(cache[..i]), item.categories);
      var text := Tokens(Lower(item.title + " " + item.summary));
      wordFreq := Trends.CountWords(wordFreq, Trends.KeptWords(cache[..i], StopWords), text, StopWords);
    }
    assert cache[..|cache|] == cache;
    var trending := Seqs.Take(Seqs.SortDesc(wordFreq, Trends.CountOf), TrendingLimit);
    var categories := Seqs.SortDesc(categoryFreq, Trends.CountOf);
    var hours := CountHours(cache);
    m := Meta(trending, categories, sourceStats, hours, now);
  }

  /** How many articles of `cache` fall in hour `h`. */
  function HoursCount(cache: seq<NewsItem>, h: Hour): nat {
    if cache == [] then 0
    else HoursCount(cache[..|cache| - 1], h) + if HourOf(cache[|cache| - 1]) == Some(h) then 1 else 0
  }

  /** How many articles of `cache` have a date that parses. */
  function DatedCount(cache: seq<NewsItem>): nat {
    if cache == [] then 0
    else DatedCount(cache[..|cache| - 1]) + if HourOf(cache[|cache| - 1]).Some? then 1 else 0
  }

  function Total(s: seq<nat>): nat {
    if s == [] then 0 else Total(s[..|s| - 1]) + s[|s| - 1]
  }

  lemma {:induction false} TotalBump(s: seq<nat>, i: nat)
    requires i < |s|
    ensures Total(s[i := s[i] + 1]) == Total(s) + 1
  {
    var t := s[i := s[i] + 1];
    if i < |s| - 1 {
      assert t[..|t| - 1] == s[..|s| - 1][i := s[i] + 1];
      TotalBump(s[..|s| - 1], i);
    } else {
      assert t[..|t| - 1] == s[..|s| - 1];
    }
  }

  lemma {:induction false} TotalZeros(n: nat)
    ensures Total(Zeros(n)) == 0
  {
    if n > 0 {
      assert Zeros(n)[..n - 1] == Zeros(n - 1);
      TotalZeros(n - 1);
    }
  }

  /** The histogram has 24 buckets; bucket `h` counts the articles dated in
      hour `h`; and the buckets add up to the number of articles with a
      usable date, which is at most the cache size. */
  lemma {:induction false} HoursSpec(cache: seq<NewsItem>)
    ensures |HoursOf(cache)| == 24
    ensures forall h: Hour :: HoursOf(cache)[h] == HoursCount(cache, h)
    ensures Total(HoursOf(cache)) == DatedCount(cache) <= |cache|
  {
    if cache == [] {
      TotalZeros(24);
    } else {
      var p := cache[..|cache| - 1];
      HoursSpec(p);
      var h := HourOf(cache[|cache| - 1]);
      if h.Some? {
        TotalBump(HoursOf(p), h.value);
      }
    }
  }

  /** `sourceStats` and `categories`: each pair counts how often its name
      occurs, every name occurring is counted, and the source counts add up
      to the cache size; `categories` comes largest count first. */
  lemma MetaCountsSpec(cache: seq<NewsItem>, now: int)
    ensures Sum(MetaOf(cache, now).sourceStats) == |cache|
    ensures forall i :: 0 <= i < |MetaOf(cache, now).sourceStats| ==>
      MetaOf(cache, now).sourceStats[i].count == multiset(SourcesOf(cache))[MetaOf(cache, now).sourceStats[i].key]
    ensures forall j :: 0 <= j < |cache| ==> cache[j].source in Keys(MetaOf(cache, now).sourceStats)
    ensures Seqs.SortedDesc(MetaOf(cache, now).categories, Trends.CountOf)
    ensures multiset(MetaOf(cache, now).categories) == multiset(Tally(AllCategories(cache)))
    ensures forall i :: 0 <= i < |MetaOf(cache, now).categories| ==>
      MetaOf(cache, now).categories[i].count == multiset(AllCategories(cache))[MetaOf(cache, now).categories[i].key]
    ensures Sum(Tally(AllCategories(cache))) == |AllCategories(cache)|
  {
    var m := MetaOf(cache, now);
    assert m.sourceStats == Tally(SourcesOf(cache));
    assert m.categories == Seqs.SortDesc(Tally(AllCategories(cache)), Trends.CountOf);
    SourceCounts(cache);
    CategoryCounts(AllCategories(cache));
  }

  lemma SourceCounts(cache: seq<NewsItem>)
    ensures Sum(Tally(SourcesOf(cache))) == |cache|
    ensures forall i :: 0 <= i < |Tally(SourcesOf(cache))| ==>
      Tally(SourcesOf(cache))[i].count == multiset(SourcesOf(cache))[Tally(SourcesOf(cache))[i].key]
    ensures forall j :: 0 <= j < |cache| ==> cache[j].source in Keys(Tally(SourcesOf(cache)))
  {
    TallyEntries(SourcesOf(cache));
    forall j | 0 <= j < |cache| ensures cache[j].source in Keys(Tally(SourcesOf(cache))) {
      assert SourcesOf(cache)[j] == cache[j].source;
    }
  }

  lemma CategoryCounts(xs: seq<string>)
    ensures Seqs.SortedDesc(Seqs.SortDesc(Tally(xs), Trends.CountOf), Trends.CountOf)
    ensures multiset(Seqs.SortDesc(Tally(xs), Trends.CountOf)) == multiset(Tally(xs))
    ensures forall i :: 0 <= i < |Seqs.SortDesc(Tally(xs), Trends.CountOf)| ==>
      Seqs.SortDesc(Tally(xs), Trends.CountOf)[i].count == multiset(xs)[Seqs.SortDesc(Tally(xs), Trends.CountOf)[i].key]
    ensures Sum(Tally(xs)) == |xs|
  {
    var t := Tally(xs);
    var c := Seqs.SortDesc(t, Trends.CountOf);
    TallyEntries(xs);
    forall i | 0 <= i < |c| ensures c[i].count == multiset(xs)[c[i].key] {
      assert c[i] in multiset(t);
    }
  }

  /** What `computeMeta` promises: source counts add up to the cache size;
      at most 12 trending words, largest count first, each three or more
      letters a-z and no stop word; exactly 24 hour buckets; category counts
      largest first. */
  lemma MetaSpec(cache: seq<NewsItem>, now: int)
    ensures Sum(MetaOf(cache, now).sourceStats) == |cache|
    ensures |MetaOf(cache, now).trending| <= TrendingLimit
    ensures Seqs.SortedDesc(MetaOf(cache, now).trending, Trends.CountOf)
    ensures forall i :: 0 <= i < |MetaOf(cache, now).trending| ==>
      IsToken(MetaOf(cache, now).trending[i].key) && MetaOf(cache, now).trending[i].key !in StopWords
    ensures |MetaOf(cache, now).hours| == 24
    ensures Seqs.SortedDesc(MetaOf(cache, now).categories, Trends.CountOf)
    ensures MetaOf(cache, now).generatedAt == now
  {
    MetaCountsSpec(cache, now);
    Trends.TrendingSpec(cache, StopWords, TrendingLimit);
    HoursSpec(cache);
  }

  // ---------------------------------------------------------------------------
  // Merging

  function IdSet(items: seq<NewsItem>): set<Option<string>> {
    if items == [] then {} else IdSet(items[..|items| - 1]) + {items[|items| - 1].id}
  }

  ghost predicate DistinctIds(items: seq<NewsItem>) {
    forall i, j :: 0 <= i < j < |items| ==> items[i].id != items[j].id
  }

  /** `newOnes`: each item whose id was not yet known when the loop reached
      it, where the known ids are `known` plus those of the items before it. */
  function Admitted(known: set<Option<string>>, items: seq<NewsItem>): (r: seq<NewsItem>)
    ensures |r| <= |items|
  {
    if items == [] then []
    else
      var prefix, x := items[..|items| - 1], items[|items| - 1];
      if x.id in known + IdSet(prefix) then Admitted(known, prefix) else Admitted(known, prefix) + [x]
  }

  /** `cache.slice(-300)` when the cache has grown past capacity. */
  function KeepNewest(s: seq<NewsItem>): (r: seq<NewsItem>)
    ensures |r| == if |s| > Capacity then Capacity else |s|
    ensures r == s[|s| - |r|..]
  {
    if |s| > Capacity then s[|s| - Capacity..] else s
  }

  /** The invariant of the cache: bounded, duplicate-free, every id known. */
  ghost predicate Consistent(cache: seq<NewsItem>, known: set<Option<string>>) {
    && |cache| <= Capacity
    && DistinctIds(cache)
    && (forall i :: 0 <= i < |cache| ==> cache[i].id in known)
  }

  /** The statistics describe the cache, or are the start value and nothing was cached yet. */
  ghost predicate Describes(meta: Meta, cache: seq<NewsItem>) {
    meta == MetaOf(cache, meta.generatedAt) || (cache == [] && meta == InitialMeta(meta.generatedAt))
  }

  datatype Event = NewItems(items: seq<NewsItem>) | MetaUpdated(meta: Meta)

  /** The module state of api/newsFetcher.js: `cache`, `guidSet`, `lastMeta`. */
  class Fetcher {
    /** `FEEDS`, the configured feed list. */
    const feeds: seq<Feed>
    var cache: seq<NewsItem>
    var guidSet: set<Option<string>>
    var lastMeta: Meta

    ghost predicate Valid()
      reads this
    {
      Consistent(cache, guidSet)
    }

    ghost predicate MetaCurrent()
      reads this
    {
      Describes(lastMeta, cache)
    }

    constructor (now: int)
      ensures Valid() && MetaCurrent()
      ensures feeds == Feeds
      ensures cache == [] && guidSet == {} && lastMeta == InitialMeta(now)
    {
      feeds := Feeds;
      cache := [];
      guidSet := {};
      lastMeta := InitialMeta(now);
    }

    /** The loop of `pollOnce`: admit each fetched item whose id is not yet
        known, remembering its id and appending it to the cache. */
    method Merge(all: seq<NewsItem>) returns (newOnes: seq<NewsItem>)
      modifies this`cache, this`guidSet
      ensures newOnes == Admitted(old(guidSet), all)
      ensures guidSet == old(guidSet) + IdSet(all)
      ensures cache == old(cache) + newOnes
    {
      newOnes := [];
      for i := 0 to |all|
        invariant newOnes == Admitted(old(guidSet), all[..i])
        invariant guidSet == old(guidSet) + IdSet(all[..i])
        invariant cache == old(cache) + newOnes
      {
        var item := all[i];
        MergeStep(old(guidSet), all, i);
        if item.id !in guidSet {
          guidSet := guidSet + {item.id};
          newOnes := newOnes + [item];
          cache := cache + [item];
        }
      }
      assert all[..|all|] == all;
    }

    /** `pollOnce(onNewItems, onMeta)`: `outcomes[i]` is what fetching `feeds[i]`
        came to; `events` lists the callbacks made, in order. */
    method PollOnce(outcomes: seq<FeedOutcome>, now: int) returns (newOnes: seq<NewsItem>, meta: Meta, events: seq<Event>)
      requires Valid()
      requires |outcomes| == |feeds|
      modifies this
      ensures Valid() && MetaCurrent()
      ensures newOnes == Admitted(old(guidSet), Collect(feeds, outcomes))
      ensures guidSet == old(guidSet) + IdSet(Collect(feeds, outcomes))
      ensures cache == KeepNewest(old(cache) + newOnes)
      ensures meta == lastMeta == MetaOf(cache, now)
      ensures events == (if newOnes == [] then [] else [NewItems(newOnes)]) + [MetaUpdated(meta)]
    {
      ghost var before, known := cache, guidSet;
      var all := Collect(feeds, outcomes);
      newOnes := Merge(all);
      ghost var merged := cache;
      if |cache| > Capacity {
        cache := cache[|cache| - Capacity..];
      }
      assert cache == KeepNewest(merged);
      events := if newOnes == [] then [] else [NewItems(newOnes)];
      meta := ComputeMeta(cache, now);
      lastMeta := meta;
      events := events + [MetaUpdated(meta)];
      PollKeepsConsistent(before, known, all, cache, guidSet);
    }

    /** `getNews()`: a copy of the cache, newest first. */
    function GetNews(): (r: seq<NewsItem>)
      reads this
      ensures multiset(r) == multiset(cache)
      ensures Seqs.SortedDesc(r, PublishedKey)
    {
      Seqs.SortDesc(cache, PublishedKey)
    }

    /** `getMeta()`: the last statistics computed. */
    function GetMeta(): (m: Meta)
      reads this
      requires MetaCurrent()
      ensures Sum(m.sourceStats) == |cache|
      ensures |m.hours| == 24 || (cache == [] && m.hours == [])
      ensures |m.trending| <= TrendingLimit
    {
      if lastMeta == MetaOf(cache, lastMeta.generatedAt) then
        MetaSpec(cache, lastMeta.generatedAt);
        lastMeta
      else
        lastMeta
    }
  }

  /** The sort key of `getNews`: `new Date(published || 0)` in milliseconds. */
  function PublishedKey(item: NewsItem): int {
    if Dated(item.published) && item.published.value.parsed.Some? then item.published.value.parsed.value.millis
    else 0
  }

  // ---------------------------------------------------------------------------
  // Properties of the merge

  lemma IdSetSnoc(items: seq<NewsItem>, x: NewsItem)
    ensures IdSet(items + [x]) == IdSet(items) + {x.id}
  {
    assert (items + [x])[..|items|] == items;
  }

  /** The known ids of a list are the ids its items carry. */
  lemma {:induction false} IdSetMembers(items: seq<NewsItem>)
    ensures forall o :: o in IdSet(items) <==> exists i :: 0 <= i < |items| && items[i].id == o
  {
    if items != [] {
      var p := items[..|items| - 1];
      IdSetMembers(p);
      assert forall i | 0 <= i < |p| :: p[i] == items[i];
    }
  }

  /** Admitted items are new: their ids were unknown, differ from one another,
      and come from the input, in input order. */
  lemma {:induction false} AdmittedIds(known: set<Option<string>>, items: seq<NewsItem>)
    ensures forall k :: 0 <= k < |Admitted(known, items)| ==> Admitted(known, items)[k].id !in known
    ensures IdSet(Admitted(known, items)) <= IdSet(items)
  {
    if items != [] {
      var prefix, x := items[..|items| - 1], items[|items| - 1];
      var a := Admitted(known, prefix);
      AdmittedIds(known, prefix);
      assert IdSet(items) == IdSet(prefix) + {x.id};
      if x.id !in known + IdSet(prefix) {
        assert Admitted(known, items) == a + [x];
        IdSetSnoc(a, x);
        assert forall k | 0 <= k < |a| :: (a + [x])[k] == a[k];
      } else {
        assert Admitted(known, items) == a;
      }
    }
  }

  lemma {:induction false} AdmittedDistinct(known: set<Option<string>>, items: seq<NewsItem>)
    ensures DistinctIds(Admitted(known, items))
  {
    if items != [] {
      var prefix, x := items[..|items| - 1], items[|items| - 1];
      var a := Admitted(known, prefix);
      AdmittedDistinct(known, prefix);
      if x.id !in known + IdSet(prefix) {
        AdmittedIds(known, prefix);
        IdSetMembers(a);
        forall k | 0 <= k < |a| ensures a[k].id != x.id {
          assert a[k].id in IdSet(a);
        }
      }
    }
  }

  lemma {:induction false} AdmittedInOrder(known: set<Option<string>>, items: seq<NewsItem>)
    ensures Seqs.Subsequence(Admitted(known, items), items)
  {
    if items != [] {
      var prefix, x := items[..|items| - 1], items[|items| - 1];
      AdmittedInOrder(known, prefix);
      assert items == prefix + [x];
      Seqs.SubsequenceSnoc(Admitted(known, prefix), prefix, x);
    }
  }

  /** Admitted items are new: their ids were unknown, differ from one another,
      and come from the input, in input order. */
  lemma AdmittedSpec(known: set<Option<string>>, items: seq<NewsItem>)
    ensures forall k :: 0 <= k < |Admitted(known, items)| ==> Admitted(known, items)[k].id !in known
    ensures DistinctIds(Admitted(known, items))
    ensures IdSet(Admitted(known, items)) <= IdSet(items)
    ensures Seqs.Subsequence(Admitted(known, items), items)
  {
    AdmittedIds(known, items);
    AdmittedDistinct(known, items);
    AdmittedInOrder(known, items);
  }

  /** Appending the admitted items to a cache whose ids are all known keeps
      the ids distinct and known. */
  lemma MergeKeepsInvariant(cache: seq<NewsItem>, known: set<Option<string>>, items: seq<NewsItem>)
    requires DistinctIds(cache) && forall i :: 0 <= i < |cache| ==> cache[i].id in known
    ensures DistinctIds(cache + Admitted(known, items))
    ensures forall i :: 0 <= i < |cache + Admitted(known, items)| ==>
      (cache + Admitted(known, items))[i].id in known + IdSet(items)
  {
    var a := Admitted(known, items);
    AdmittedSpec(known, items);
    IdSetMembers(a);
    var s := cache + a;
    forall i | 0 <= i < |s| ensures s[i].id in known + IdSet(items) {
      if i >= |cache| {
        assert s[i] == a[i - |cache|];
        assert s[i].id in IdSet(a);
      }
    }
    forall i, j | 0 <= i < j < |s| ensures s[i].id != s[j].id {
      if j >= |cache| && i < |cache| {
        assert s[j] == a[j - |cache|];
      } else if i >= |cache| {
        assert s[i] == a[i - |cache|] && s[j] == a[j - |cache|];
      }
    }
  }

  lemma MergeStep(known: set<Option<string>>, all: seq<NewsItem>, i: nat)
    requires i < |all|
    ensures Admitted(known, all[..i + 1]) ==
      if all[i].id in known + IdSet(all[..i]) then Admitted(known, all[..i]) else Admitted(known, all[..i]) + [all[i]]
    ensures IdSet(all[..i + 1]) == IdSet(all[..i]) + {all[i].id}
  {
    assert all[..i + 1] == all[..i] + [all[i]];
    AdmittedSnoc(known, all[..i], all[i]);
    IdSetSnoc(all[..i], all[i]);
  }

  /** Keeping the newest entries keeps them duplicate-free and known. */
  lemma KeepNewestKeepsIds(s: seq<NewsItem>, known: set<Option<string>>)
    requires DistinctIds(s) && forall i :: 0 <= i < |s| ==> s[i].id in known
    ensures DistinctIds(KeepNewest(s)) && forall i :: 0 <= i < |KeepNewest(s)| ==> KeepNewest(s)[i].id in known
  {
    var r := KeepNewest(s);
    var d := |s| - |r|;
    assert forall i | 0 <= i < |r| :: r[i] == s[i + d];
  }

  /** One poll cycle keeps the invariant of the module state. */
  lemma PollKeepsConsistent(cache: seq<NewsItem>, known: set<Option<string>>, all: seq<NewsItem>,
                             cache': seq<NewsItem>, known': set<Option<string>>)
    requires Consistent(cache, known)
    requires cache' == KeepNewest(cache + Admitted(known, all))
    requires known' == known + IdSet(all)
    ensures Consistent(cache', known')
  {
    MergeKeepsInvariant(cache, known, all);
    KeepNewestKeepsIds(cache + Admitted(known, all), known + IdSet(all));
  }

  /** `guidSet` only grows: an item admitted by one poll, whether or not it
      has since been evicted from the cache, is never admitted by a later one. */
  lemma NeverReadmitted(known: set<Option<string>>, first: seq<NewsItem>, later: seq<NewsItem>)
    ensures forall i, j :: 0 <= i < |Admitted(known, first)| && 0 <= j < |Admitted(known + IdSet(first), later)| ==>
      Admitted(known, first)[i].id != Admitted(known + IdSet(first), later)[j].id
  {
    var a, b := Admitted(known, first), Admitted(known + IdSet(first), later);
    AdmittedIds(known, first);
    AdmittedIds(known + IdSet(first), later);
    IdSetMembers(a);
    forall i | 0 <= i < |a| ensures a[i].id in IdSet(first) {
      assert a[i].id in IdSet(a);
    }
  }

  /** The same reference read the other way round: walk the items from the
      front, admitting an item when its id is unknown and then knowing it. */
  function FirstNew(known: set<Option<string>>, items: seq<NewsItem>): seq<NewsItem>
    decreases |items|
  {
    if items == [] then []
    else if items[0].id in known then FirstNew(known, items[1..])
    else [items[0]] + FirstNew(known + {items[0].id}, items[1..])
  }

  lemma IdSetCons(x: NewsItem, p: seq<NewsItem>)
    ensures IdSet([x] + p) == {x.id} + IdSet(p)
  {
    var xp := [x] + p;
    IdSetMembers(xp);
    IdSetMembers(p);
    forall o | o in IdSet(xp) ensures o in {x.id} + IdSet(p) {
      var i :| 0 <= i < |xp| && xp[i].id == o;
      if i > 0 {
        assert xp[i] == p[i - 1];
      }
    }
    forall o | o in IdSet(p) ensures o in IdSet(xp) {
      var i :| 0 <= i < |p| && p[i].id == o;
      assert xp[i + 1] == p[i];
    }
    assert xp[0] == x;
  }

  lemma AdmittedSnoc(known: set<Option<string>>, p: seq<NewsItem>, y: NewsItem)
    ensures Admitted(known, p + [y]) ==
      if y.id in known + IdSet(p) then Admitted(known, p) else Admitted(known, p) + [y]
  {
    assert (p + [y])[..|p|] == p;
  }

  /** One more item behind a known head: the head changes nothing. */
  lemma KnownHeadStep(known: set<Option<string>>, x: NewsItem, p: seq<NewsItem>, y: NewsItem)
    requires x.id in known
    requires Admitted(known, [x] + p) == Admitted(known, p)
    ensures Admitted(known, ([x] + p) + [y]) == Admitted(known, p + [y])
  {
    AdmittedSnoc(known, [x] + p, y);
    AdmittedSnoc(known, p, y);
    IdSetCons(x, p);
    assert known + IdSet([x] + p) == known + IdSet(p);
  }

  /** One more item behind a new head: the head is admitted and known from then on. */
  lemma NewHeadStep(known: set<Option<string>>, x: NewsItem, p: seq<NewsItem>, y: NewsItem)
    requires x.id !in known
    requires Admitted(known, [x] + p) == [x] + Admitted(known + {x.id}, p)
    ensures Admitted(known, ([x] + p) + [y]) == [x] + Admitted(known + {x.id}, p + [y])
  {
    AdmittedSnoc(known, [x] + p, y);
    AdmittedSnoc(known + {x.id}, p, y);
    IdSetCons(x, p);
    assert known + IdSet([x] + p) == (known + {x.id}) + IdSet(p);
  }

  lemma {:induction false} AdmittedCons(known: set<Option<string>>, x: NewsItem, ys: seq<NewsItem>)
    ensures Admitted(known, [x] + ys) ==
      if x.id in known then Admitted(known, ys) else [x] + Admitted(known + {x.id}, ys)
    decreases |ys|
  {
    if ys == [] {
      AdmittedSnoc(known, [], x);
    } else {
      var p, y := ys[..|ys| - 1], ys[|ys| - 1];
      AdmittedCons(known, x, p);
      ConsStep(known, x, p, y);
      assert ys == p + [y];
    }
  }

  /** The step of `AdmittedCons`: from `p` to `p + [y]`. */
  lemma ConsStep(known: set<Option<string>>, x: NewsItem, p: seq<NewsItem>, y: NewsItem)
    requires Admitted(known, [x] + p) ==
      if x.id in known then Admitted(known, p) else [x] + Admitted(known + {x.id}, p)
    ensures Admitted(known, [x] + (p + [y])) ==
      if x.id in known then Admitted(known, p + [y]) else [x] + Admitted(known + {x.id}, p + [y])
  {
    assert [x] + (p + [y]) == ([x] + p) + [y];
    if x.id in known {
      KnownHeadStep(known, x, p, y);
    } else {
      NewHeadStep(known, x, p, y);
    }
  }

  /** `newOnes` is exactly the items whose id was unknown when the loop reached them. */
  lemma {:induction false} AdmittedIsFirstNew(known: set<Option<string>>, items: seq<NewsItem>)
    ensures Admitted(known, items) == FirstNew(known, items)
    decreases |items|
  {
    if items != [] {
      assert items == [items[0]] + items[1..];
      AdmittedCons(known, items[0], items[1..]);
      AdmittedIsFirstNew(known, items[1..]);
      AdmittedIsFirstNew(known + {items[0].id}, items[1..]);
    }
  }

  /** Polling the same entries again admits nothing: the ids are known now. */
  lemma {:induction false} DedupIdempotent(known: set<Option<string>>, items: seq<NewsItem>)
    ensures Admitted(known + IdSet(items), items) == []
    decreases |items|
  {
    if items != [] {
      var prefix, x := items[..|items| - 1], items[|items| - 1];
      IdSetSnoc(prefix, x);
      assert items == prefix + [x];
      assert known + IdSet(items) == (known + {x.id}) + IdSet(prefix);
      DedupIdempotent(known + {x.id}, prefix);
    }
  }
}
