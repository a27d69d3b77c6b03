# Crypto news aggregator: a Dafny model of its core

The system polls a fixed list of crypto-news RSS feeds. It normalises every
entry into an article, tagging it with a keyword-based sentiment label
(bullish, bearish or neutral) and topic categories. It merges the articles
into a bounded, duplicate-free in-memory cache and recomputes statistics
from the cache on every cycle: trending words, category counts, per-source
counts and a 24-bucket hour histogram. An Express server serves the cache and
a naive article summary over HTTP, and relays new articles and statistics
over a WebSocket. Two serverless handlers offer a cache-less news list and
the summary endpoint again. A browser client keeps the articles it was sent,
queues new ones behind a banner, and filters, groups and colours them.

The model has one Dafny module per concern:

- `Js`: JavaScript value rules the code relies on. These are optional
  strings and their truthiness, `||`, ASCII `toLowerCase`, `includes`, and
  the word matcher `/\b[a-z]{3,}\b/g`.
- `Seqs`: the array built-ins `filter`, `flat`, `slice(0, n)` and a stable
  descending `sort`.
- `Tallies`: counting objects built by `obj[k] = (obj[k] || 0) + 1` and read
  back with `Object.entries`, in insertion order.
- `Enrichment`: `computeSentiment` and `computeCategories`.
- `Items`: the raw feed entry and the normalised article.
- `Trends`: the trending-word count that server and client share.
- `NewsFetcher`: api/newsFetcher.js. It holds `normalizeItem`,
  `fetchFeed` and `computeMeta`. The class `Fetcher` holds the module state
  `cache`, `guidSet` and `lastMeta`, with `pollOnce`, `getNews` and `getMeta`.
- `Http`: status codes and response bodies.
- `Summaries`: the lookup by id and the naive summary string.
- `Server`: server/server.js, meaning the preflight answer, the two routes
  and the WebSocket messages.
- `SummaryApi`: api/summary.js, with its one-time initialisation flag.
- `NewsApi`: api/news.js.
- `WebApp`: web/app.js. The class `Client` holds the page state and its
  handlers. The class `Connection` holds the reconnect counter. The pure
  rules of `render` are functions.

Loops that build values step by step are methods proved equal to a
specification function. These are `ComputeSentiment`, `ComputeCategories`,
`ComputeMeta`, `CountHours`, `CountWords` and `GetTrendingTopics`. The
properties are proved about those functions.

Where the description of the system and the code disagree, the model follows
the code:

- `pollOnce` does not drop articles without a title.
- A date string that does not parse is stored as it came. It is not
  replaced by `null`.
- A feed entry without guid, id and link gets an undefined id. All such
  entries share that one id, so only the first one is ever admitted.

server/server.js imports `./newsFetcher`, and server/newsFetcher.js is not
part of this model. The server is modelled against api/newsFetcher.js.

## Model

| member | source | states |
|---|---|---|
| Js.Or | api/newsFetcher.js:66 | the JavaScript or-operator on optional strings gives the first when it is truthy (present and non-empty) and the second otherwise |
| Js.OrEmpty | api/newsFetcher.js:62-63 | defaulting with `''` gives the string when it is truthy and `''` otherwise |
| Js.Lower | api/newsFetcher.js:43 | `toLowerCase` keeps the length and maps every character through the ASCII lower-case map |
| Js.Includes | api/newsFetcher.js:45 | `includes(k)` holds exactly when `k` occurs as a contiguous substring at some position |
| Js.UpperNeverIncluded | api/newsFetcher.js:34 | a keyword with an upper-case letter is never found in lower-cased text |
| Js.Tokens | api/newsFetcher.js:97 | every match of `\b[a-z]{3,}\b` is three or more letters a-z |
| Seqs.Filter | web/app.js:297-299 | `filter` keeps only passing elements, all of them, and never grows the list |
| Seqs.FilterKeepsOrderAndCount | web/app.js:297-299 | `filter` keeps the order and each passing element's number of occurrences, and drops every failing one |
| Seqs.SortDesc | api/newsFetcher.js:100-101 | sorting by a descending comparator gives a permutation, sorted largest key first |
| Seqs.Take | api/newsFetcher.js:100 | `slice(0, n)` is a prefix of length `min(n, length)` |
| Seqs.FlattenMembers | api/newsFetcher.js:111 | `flat()` keeps every element of every list and adds none |
| Seqs.FlattenBounded | api/news.js:54 | flattening lists of at most `n` elements gives at most `n` per list |
| Seqs.TakeSortedIsTop | api/newsFetcher.js:100 | the first `n` of a sorted list are the `n` largest: nothing left out has a larger key than anything kept |
| Tallies.BumpSpec | api/newsFetcher.js:95 | one counting step raises `k`'s count by one, leaves every other count alone, appends a new key last, and keeps keys distinct and counts positive |
| Tallies.TallySpec | api/newsFetcher.js:95-98 | the counting object holds for every key its number of occurrences, and the counts add up to the number of keys counted |
| Tallies.TallyEntries | api/newsFetcher.js:100-101 | `Object.entries` of a counting object has one pair per distinct key counted, each with that key's number of occurrences |
| Enrichment.ComputeSentiment | api/newsFetcher.js:42-50 | the two scoring loops end at the label of +1 per positive and -1 per negative keyword present |
| Enrichment.AddHits | api/newsFetcher.js:45-46 | one `forEach` over a keyword list moves the score by the number of listed keywords present, up for the positive list and down for the negative one |
| Enrichment.HitsCountsFound | api/newsFetcher.js:45-46 | over a keyword list without repeats the running score counts each present keyword once, however often it occurs |
| Enrichment.KeywordsDistinct | api/newsFetcher.js:26-27 | neither keyword list repeats an entry |
| Enrichment.SentimentByFoundKeywords | api/newsFetcher.js:42-50 | bullish iff more distinct positive than negative keywords occur, bearish iff fewer, neutral iff as many |
| Enrichment.SentimentIgnoresRepetition | api/newsFetcher.js:45-46 | texts with the same keywords present get the same label |
| Enrichment.GainsHitsTwice | api/newsFetcher.js:26 | overlapping keywords both count: "gains" scores 2 |
| Enrichment.AnyIncluded | api/newsFetcher.js:56 | `words.some(w => lower.includes(w))` holds iff some keyword occurs |
| Enrichment.ComputeCategories | api/newsFetcher.js:52-59 | the loop pushing matching names ends at the table-order selection |
| Enrichment.SelectedSpec | api/newsFetcher.js:55-56 | a name is selected iff a category of that name has a keyword in the text, and selected names keep table order |
| Enrichment.SelectedExactly | api/newsFetcher.js:55-56 | when category names do not repeat, a category's name is selected iff one of its own keywords occurs |
| Enrichment.TableNamesDistinct | api/newsFetcher.js:29-40 | the category table has no repeated name |
| Enrichment.CategoriesSpec | api/newsFetcher.js:52-59 | the tags come in table order without repeats, and a category is tagged iff one of its keywords occurs in the lower-cased text |
| Enrichment.ZkSyncNeverMatches | api/newsFetcher.js:34 | the mixed-case keyword `zkSync` never matches |
| Trends.CountWords | api/newsFetcher.js:98 | counting the words of one article that are not stop words extends the tally by exactly those words |
| Trends.ItemWordsAreTokens | api/newsFetcher.js:97-98 | every counted word of an article is three or more letters a-z and not a stop word |
| Trends.KeptWordsAreTokens | api/newsFetcher.js:94-98 | the same holds for the counted words of the whole cache |
| Trends.TrendingSpec | api/newsFetcher.js:97-100 | trending holds at most `limit` pairs, largest count first; each word is a non-stop token counted as often as it occurs; no word left out occurs more often than a kept one |
| NewsFetcher.Normalize | api/newsFetcher.js:61-75 | id is the first truthy of guid, id, link; title and summary default to `''`; published is isoDate, else pubDate, else null; link and source copied; sentiment and categories computed from `title + ' ' + summary` |
| NewsFetcher.FetchFeed | api/newsFetcher.js:77-85 | a failed feed gives nothing; a parsed one gives each entry normalised under the feed's name, in order |
| NewsFetcher.FetchAll | api/newsFetcher.js:111 | `FEEDS.map(fetchFeed)`: one settled result per feed, in feed order |
| NewsFetcher.Collect | api/newsFetcher.js:111 | the flattened results hold as many articles as the parsed feeds delivered, and an article is among them iff some feed delivered it |
| NewsFetcher.KeepNewest | api/newsFetcher.js:120 | the cut keeps `min(300, length)` articles, the last ones of the list |
| NewsFetcher.CountAll | api/newsFetcher.js:96 | counting an article's categories extends the category tally by exactly those categories |
| NewsFetcher.CountHours | api/newsFetcher.js:103-104 | the histogram loop ends at the per-hour count of articles with a usable date |
| NewsFetcher.ComputeMeta | api/newsFetcher.js:87-106 | the loop over the cache and the sorts end at the statistics function of the cache |
| NewsFetcher.HoursSpec | api/newsFetcher.js:103-104 | 24 buckets; bucket `h` counts the articles dated in hour `h`; the buckets add up to the number of dated articles, at most the cache size |
| NewsFetcher.MetaCountsSpec | api/newsFetcher.js:92-101 | each source count is that source's number of articles, every source is present, the counts add up to the cache size; categories are sorted largest first, each with its number of occurrences |
| NewsFetcher.MetaSpec | api/newsFetcher.js:87-106 | source counts add up to the cache size; at most 12 trending words, largest first, each a non-stop token; exactly 24 hours; categories largest first |
| NewsFetcher.Fetcher.constructor | api/newsFetcher.js:22-23 | the module starts with an empty cache and id set and the initial statistics |
| NewsFetcher.Fetcher.Merge | api/newsFetcher.js:112-119 | the loop returns the admitted articles, adds every seen id to `guidSet`, and appends exactly the admitted articles to the cache |
| NewsFetcher.Fetcher.PollOnce | api/newsFetcher.js:110-128 | one cycle admits the new articles, keeps the last 300, recomputes the statistics into `lastMeta`, reports new articles only when there are some and the statistics every time, and keeps the cache duplicate-free with every id known |
| NewsFetcher.Fetcher.GetNews | api/newsFetcher.js:138-140 | a permutation of the cache sorted by publication time, newest first; reading it changes nothing |
| NewsFetcher.Fetcher.GetMeta | api/newsFetcher.js:142-144 | the last statistics: source counts add up to the cache size, 24 hours once a poll ran, at most 12 trending words |
| NewsFetcher.IdSetMembers | api/newsFetcher.js:115 | the ids known after a batch are exactly the ids its articles carry |
| NewsFetcher.Admitted | api/newsFetcher.js:113-119 | the loop's `newOnes` is never longer than the batch; what it admits is stated by the lemmas below |
| NewsFetcher.AdmittedIds | api/newsFetcher.js:114-116 | an admitted article's id was unknown before the batch, and its id comes from the batch |
| NewsFetcher.AdmittedDistinct | api/newsFetcher.js:114-117 | no two admitted articles share an id, even when the batch repeats one |
| NewsFetcher.AdmittedInOrder | api/newsFetcher.js:113-117 | the admitted articles keep batch order |
| NewsFetcher.AdmittedSpec | api/newsFetcher.js:113-119 | `newOnes` holds articles with ids new to `guidSet`, pairwise distinct, taken from the batch in order |
| NewsFetcher.AdmittedIsFirstNew | api/newsFetcher.js:113-119 | `newOnes` is exactly the articles whose id was unknown when the loop reached them: a repeated id is admitted at its first occurrence only |
| NewsFetcher.MergeKeepsInvariant | api/newsFetcher.js:113-119 | appending the admitted articles keeps the cache's ids distinct and all in `guidSet` |
| NewsFetcher.KeepNewestKeepsIds | api/newsFetcher.js:120 | cutting the cache keeps its ids distinct and known |
| NewsFetcher.PollKeepsConsistent | api/newsFetcher.js:113-120 | a whole cycle keeps the cache at most 300 long, duplicate-free, and every cached id in `guidSet` |
| NewsFetcher.NeverReadmitted | api/newsFetcher.js:113-120 | since `guidSet` only grows, an article admitted once, even if since evicted, is never admitted by a later poll |
| NewsFetcher.DedupIdempotent | api/newsFetcher.js:114 | polling the same entries again admits nothing |
| Summaries.FindById | server/server.js:35 | `find(n => n.id === id)` is none iff no article has the id, else the first article with it |
| Summaries.FirstIndex | server/server.js:35 | the position of the first article with the id: none before it has the id |
| Summaries.LookUp | server/server.js:33-36 | a falsy id is missing; a truthy id no article has is not found; otherwise the first article with it is found |
| Summaries.Head | server/server.js:38 | `slice(0,160)` of the summary is a prefix of length `min(160, length)` |
| Summaries.NaiveSummary | server/server.js:38 | the summary begins with `title - ` and is as long as the title, the separator and the kept part of the summary, plus the suffix when cut |
| Summaries.NaiveSummarySpec | server/server.js:38 | the summary starts with `title - `; a summary of at most 160 characters follows whole, a longer one as its first 160 characters plus the suffix |
| Summaries.SuffixOnlyDiffers | server/server.js:38 | summaries built with different suffixes agree up to the suffix, and are equal when nothing was cut |
| Server.Preflight | server/server.js:11-20 | an OPTIONS request is answered 200 and goes no further; every other request is passed on |
| Server.NewsRoute | server/server.js:27-29 | `/api/news` answers 200 with the cache sorted newest first and the last statistics |
| Server.SummaryRoute | server/server.js:32-40 | no id gives 400 `id required`; an unknown id gives 404 `not found`; 200 iff some article has the id, then with the naive summary and `…` of the first such article |
| Server.RouteMatchesSpec | server/server.js:27-32 | a path reaches a lower-case route iff it equals the route up to ASCII case, with at most one trailing slash |
| Server.RouteVariants | server/server.js:27-32 | `/API/Summary` and `/api/news/` reach their routes; `/api/news//` does not |
| Server.Serve | server/server.js:11-40 | OPTIONS short-circuits with 200; a GET whose path matches one of the two API routes under Express's matching reaches that route; every other request gets no route answer |
| Server.Welcome | server/server.js:54-57 | a new socket is sent the whole cache and the last statistics |
| Server.Broadcasts | server/server.js:60-67 | one message per callback, except an empty batch of new articles, which sends none |
| Server.PollBroadcasts | server/server.js:60-67 | a cycle broadcasts its new articles when there are some, then its statistics |
| SummaryApi.Handler.constructor | api/summary.js:4 | the flag starts false and the aggregator has not been started |
| SummaryApi.Handler.Handle | api/summary.js:8-48 | OPTIONS gives 200; other non-GET methods give 405; GET without an id gives 400 and does not initialise; the first GET with an id starts the aggregator once and sets the flag for good; an unknown id gives 404; a GET with an id answers 200 iff some article has the id, and then with the naive summary of the first such article and the three-character suffix |
| SummaryApi.SameSummaryButSuffix | api/summary.js:39 | equal to the server's summary when nothing was cut, otherwise different and two characters longer |
| NewsApi.FromFeed | api/news.js:18-32 | a failed feed gives nothing; otherwise the first ten entries, each with title, link, pubDate, contentSnippet-else-description and the feed's title |
| NewsApi.FromFeeds | api/news.js:51-52 | `RSS_FEEDS.map(fetchFromFeed)`: one settled result per feed, in feed order |
| NewsApi.AllItems | api/news.js:54 | the flattened results hold at most ten entries per feed, and an entry is among them iff some feed delivered it |
| NewsApi.NewsListSpec | api/news.js:54-57 | at most 50 entries, all titled, newest first, taken from the fetched entries without merging; all titled entries when there are at most 50; none left out is newer than one kept |
| NewsApi.CutNeverBites | api/news.js:10-16 | with five feeds of at most ten entries the cut to 50 never drops an entry |
| NewsApi.Handle | api/news.js:40-67 | OPTIONS gives 200 and no body; other non-GET methods 405; GET gives 200 with the list, `total` its length and `sources` 5 |
| WebApp.GetTrendingTopics | web/app.js:171-184 | the counting loop ends at the top ten words under the client's stop set |
| WebApp.TopicsSpec | web/app.js:171-184 | at most ten topics, most frequent first; each a token that is neither a server stop word nor a coin name, counted as often as it occurs; no word left out occurs more often |
| WebApp.VisibleIsOneFilter | web/app.js:294-299 | the three conditional filters are one filter by their conjunction |
| WebApp.VisibleSpec | web/app.js:294-299 | the list is a subsequence of the articles and holds each one, as often, exactly when it passes the source, bookmark and search filters |
| WebApp.AddToGroupSpec | web/app.js:306-308 | pushing an article adds it last to its group, leaves the other groups alone, and opens a group at the end for a new key |
| WebApp.CollateSpec | web/app.js:305-309 | the groups have distinct keys, each group holds exactly the articles with its key in list order, and every article's key has a group |
| WebApp.GroupedSpec | web/app.js:305-313 | groups come largest first and each article lands in exactly the group of its first category, or `other` |
| WebApp.HeatClassAsWritten | web/app.js:261-262 | the chain as written: `cat-low` for 1-2, `cat-med` for 0 and below and for 3-5, `cat-high` for 6-10, `cat-extreme` above 10, never `cat-none` |
| WebApp.EmptyHourIsMedium | web/app.js:261-262 | as written, an hour with no articles gets `cat-med`, and no count ever gets `cat-none` |
| WebApp.HeatClass | web/app.js:265 | the legend's classes: none for 0, low for 1-2, med for 3-5, high for 6-10, extreme above 10 |
| WebApp.HeatClassAgreesButZero | web/app.js:261-265 | the chain as written and the legend agree on every count except 0 |
| WebApp.IndexOf | web/app.js:355 | `indexOf` is -1 iff the theme is not listed, else its first position |
| WebApp.NextTheme | web/app.js:353-356 | default goes to magenta, magenta to matrix, matrix to default, and an unknown theme to default |
| WebApp.ThemeCycle | web/app.js:353-356 | three clicks restore a known theme, and after one click the cycle has period three |
| WebApp.Toggled | web/app.js:336 | the clicked id's membership flips and every other id keeps its own |
| WebApp.BookmarkClick | web/app.js:233-234 | two clicks restore the bookmarks; a click flips whether bookmark view shows an article with an id; one without an id is never shown there |
| WebApp.BackoffGrows | web/app.js:423 | `min(10000, 1000 * retry)` grows by a second per failure up to ten seconds, then stays |
| WebApp.Connection.constructor | web/app.js:397 | a new connection starts its counter at 0 |
| WebApp.Connection.Closed | web/app.js:420-424 | a close raises the counter by one and waits `min(10000, 1000 * retry)` |
| WebApp.ReconnectDelays | web/app.js:394-424 | as written, every reconnection waits exactly 1000 ms, however many failed before |
| WebApp.BackoffDelays | web/app.js:423 | with one counter kept across reconnections, the k-th delay is `min(10000, 1000 * k)` |
| WebApp.Client.constructor | web/app.js:153-161 | the page starts with no articles, no queue, placeholder statistics, all switches off, the stored bookmarks and the stored theme or `default` |
| WebApp.Client.Receive | web/app.js:402-419 | `init` replaces the list and the statistics if sent; `news` puts its articles in front of the unseen queue; `meta` replaces the statistics; nothing else changes |
| WebApp.Client.ClickBanner | web/app.js:431-438 | the banner moves the queued articles in front of the list and empties the queue; with an empty queue nothing changes |
| WebApp.Client.StartFallback | web/app.js:446-447 | the timer sends the REST request iff the list is empty when it fires |
| WebApp.Client.RestFallback | web/app.js:448-449 | the answer of a sent request replaces the list when it holds one, without checking the list again, and the statistics when sent; nothing changes otherwise |
| WebApp.InitDuringFallback | web/app.js:446-450 | an `init` that arrives while the request is in flight is replaced by the REST answer when that holds a list |
| WebApp.Client.ToggleBookmark | web/app.js:336 | the click toggles the id in the bookmarks |
| WebApp.Client.SelectSource | web/app.js:222-223 | a chip selects its source, the empty one for all |
| WebApp.Client.ToggleGrouped | web/app.js:347-349 | the group button flips grouping |
| WebApp.Client.ToggleBookmarkView | web/app.js:350-352 | the bookmark button flips bookmark view |
| WebApp.Client.CycleTheme | web/app.js:353-359 | the theme button moves to the next theme in the cycle |
| WebApp.Client.ToggleHeatmapMode | web/app.js:362-374 | the mode button switches between log scale and thresholds |
| WebApp.Client.Listed | web/app.js:294-299 | the listed articles are a subsequence of `allItems`, and an article is listed iff it passes the three filters |

## Left out

- Network retrieval and RSS parsing (`parseURL`) are not modelled. Each feed's outcome is a parameter: its parsed entries, or a failure. `Promise.all` concurrency is not modelled either.
- Timers are not modelled: `setInterval` in `initNewsFetcher`, the client's `setTimeout` delays, and the 2 s sleep in api/summary.js. Overlapping poll cycles are a concurrency matter and are left out too.
- Date parsing, local hours and clocks are parameters. `new Date(text)`, `getHours`, `Date.now()` and `toISOString()` become an abstract `Instant` (milliseconds and hour) per date string, and an abstract current time.
- NewsFetcher.PublishedKey: a date string that does not parse gives `NaN` in the `getNews` comparator. The order an engine then produces is not defined, and the model counts such a date as time 0.
- NewsApi.PublishKey: a missing or unparsable `publishDate` gives `NaN` in the comparator. The model counts it as time 0.
- Js.Lower: lower-cases ASCII letters only. Unicode case mapping and UTF-16 code units are not modelled; strings are sequences of characters.
- Tallies.Bump: a word equal to an `Object.prototype` property name, in practice `constructor`, inherits a function value in a plain `{}`. There `(obj[k] || 0) + 1` concatenates strings. The model counts it like any other word.
- Tie order among equal counts: the model fixes the stable order that insertion order gives, and no contract states it.
- The HTML the client renders is not modelled. This covers the DOM, event wiring, the 220-character card summary, the source-chip list, the particle canvas, the typewriter and scrolling effects, and the log-intensity heatmap (floating point).
- The heatmap's early return for empty hours is not modelled, and neither is `renderPanels`' cut of the source and category lists to 12.
- `localStorage` writes, the clipboard, the Binance price socket, the service worker (sw.js) and test-local.js are not modelled.
- CORS headers, `express.static`, the `/stocks` mount and HEAD requests are not modelled.
- Server.Serve: `express.static` runs before the routes, and a file under web/ at an API path would be served instead; the model assumes there is none.
- The 500 branches of api/news.js and api/summary.js are not modelled: nothing in the modelled code throws.
- Array-valued `id` query parameters are not modelled. The query id is one optional string.
- The `VERCEL` branch of server/server.js starts a second fetcher and is not modelled, and neither is `server.listen`.
- The WebSocket `readyState` filter of `broadcast` and the JSON encoding of messages are not modelled.
- The client state's `heatmapExpanded` flag is not modelled. Its `meta` holds what the server sent, unchecked.

## Findings

| source | as written | input that shows it | evidently intended | confidence | as-written member | corrected member |
|---|---|---|---|---|---|---|
| web/app.js:262 | `if (v>0 && v<=2) cls='cat-low'; else if (v<=5) cls='cat-med'; ...` starts from `cat-none` but the chain reaches `v<=5` for `v == 0` | an hour with 0 articles gets `cat-med` | 0 gets `cat-none`, as the legend at web/app.js:265 says | not executed | WebApp.EmptyHourIsMedium | WebApp.HeatClassAgreesButZero |
| web/app.js:397 | `let retry = 0` is declared inside `connect()`, so each reconnection starts a fresh counter | three closes in a row wait 1000, 1000, 1000 ms | back-off of 1000, 2000, 3000 ms up to the 10000 cap at web/app.js:423 | not executed | WebApp.ReconnectDelays | WebApp.BackoffDelays |
| api/summary.js:39 | the suffix literal is `'â€¦'`, the UTF-8 bytes of `…` decoded as Windows-1252 | any article whose summary is longer than 160 characters | the single character `…` that server/server.js:38 appends | not executed | SummaryApi.SameSummaryButSuffix | Server.SummaryRoute |
