/** The Express server (server/server.js): a CORS middleware that answers
    preflight requests itself, the two JSON routes over the aggregator's
    module state, and the WebSocket messages built from the poll cycle's
    callbacks. */
module Server {
  import opened Js
  import Seqs
  import opened Items
  import opened Http
  import opened Summaries
  import opened NewsFetcher

  datatype Reply =
    | Listing(news: seq<NewsItem>, meta: Meta)   // `{ news, meta }`
    | Summary(id: string, summary: string)       // `{ id, summary }`

  /** The CORS middleware: an `OPTIONS` request is answered with
      `sendStatus(200)` and goes no further; anything else calls `next()`. */
  function Preflight(verb: string): (r: Option<Response<Reply>>)
    ensures r.Some? <==> verb == "OPTIONS"
    ensures r.Some? ==> r.value == Response(200, Text("OK"))
  {
    if verb == "OPTIONS" then Some(Response(200, Text("OK"))) else None
  }

  /** `GET /api/news`. */
  function NewsRoute(f: Fetcher): (r: Response<Reply>)
    reads f
    requires f.MetaCurrent()
    ensures r.status == 200 && r.body.Json? && r.body.value.Listing?
    ensures multiset(r.body.value.news) == multiset(f.cache)
    ensures Seqs.SortedDesc(r.body.value.news, PublishedKey)
    ensures r.body.value.meta == f.lastMeta
  {
    Response(200, Json(Listing(f.GetNews(), f.GetMeta())))
  }

  /** `GET /api/summary?id=...` over the articles `news`, as `getNews()` lists them. */
  function SummaryRoute(id: Option<string>, news: seq<NewsItem>): (r: Response<Reply>)
    ensures !Truthy(id) ==> r == Response(400, Error("id required"))
    ensures Truthy(id) && (forall i :: 0 <= i < |news| ==> news[i].id != id) ==> r == Response(404, Error("not found"))
    ensures r.status == 200 <==> Truthy(id) && exists i :: 0 <= i < |news| && news[i].id == id
    ensures r.status == 200 ==>
      var item := news[FirstIndex(news, id.value)];
      r.body == Json(Summary(id.value, NaiveSummary(item.title, item.summary, Ellipsis)))
  {
    match LookUp(id, news)
    case MissingId => Response(400, Error("id required"))
    case NotFound => Response(404, Error("not found"))
    case Found(key, item) => Response(200, Json(Summary(key, NaiveSummary(item.title, item.summary, Ellipsis))))
  }

  /** Express's default route matching on the request path: ASCII letters
      compare without regard to case, and one trailing slash is allowed. */
  predicate RouteMatches(path: string, route: string) {
    Lower(path) == route || Lower(path) == route + "/"
  }

  /** A path matches a lower-case route exactly when the route equals the
      path lower-cased, less one trailing slash if there is one. */
  lemma RouteMatchesSpec(path: string, route: string)
    requires route == Lower(route)
    ensures RouteMatches(path, route) <==>
      (Lower(path) == route || (path != [] && path[|path| - 1] == '/' && Lower(path[..|path| - 1]) == route))
    ensures RouteMatches(path, route) ==> RouteMatches(Lower(path), route)
  {
    if path != [] && path[|path| - 1] == '/' {
      assert Lower(path) == Lower(path[..|path| - 1]) + "/";
    }
    assert Lower(Lower(path)) == Lower(path);
  }

  /** Upper-case letters and one trailing slash still reach a route; a second slash does not. */
  lemma RouteVariants()
    ensures RouteMatches("/API/Summary", "/api/summary")
    ensures RouteMatches("/api/news/", "/api/news")
    ensures !RouteMatches("/api/news//", "/api/news")
  {
    assert Lower("/API/Summary") == "/api/summary";
    assert Lower("/api/news/") == "/api/news/";
  }

  /** The middleware chain as it concerns the two API paths: the preflight
      answer, then the two routes. `express.static` sits in between and is
      not modelled: the model takes it to hold no file at an API path.
      `None` means no route answered. */
  function Serve(verb: string, path: string, id: Option<string>, f: Fetcher): (r: Option<Response<Reply>>)
    reads f
    requires f.MetaCurrent()
    ensures verb == "OPTIONS" ==> r == Some(Response(200, Text("OK")))
    ensures verb == "GET" && RouteMatches(path, "/api/news") ==> r == Some(NewsRoute(f))
    ensures verb == "GET" && RouteMatches(path, "/api/summary") ==> r == Some(SummaryRoute(id, f.GetNews()))
    ensures r.None? <==>
      (verb != "OPTIONS" && !(verb == "GET" && (RouteMatches(path, "/api/news") || RouteMatches(path, "/api/summary"))))
  {
    if verb == "OPTIONS" then Preflight(verb)
    else if verb == "GET" && RouteMatches(path, "/api/news") then Some(NewsRoute(f))
    else if verb == "GET" && RouteMatches(path, "/api/summary") then Some(SummaryRoute(id, f.GetNews()))
    else None
  }

  /** A WebSocket message, `{ type, payload }`. */
  datatype Message =
    | Init(news: seq<NewsItem>, meta: Meta)
    | News(items: seq<NewsItem>)
    | MetaUpdate(meta: Meta)

  /** What a client receives when it connects. */
  function Welcome(f: Fetcher): (m: Message)
    reads f
    requires f.MetaCurrent()
    ensures m.Init? && multiset(m.news) == multiset(f.cache) && m.meta == f.lastMeta
  {
    Init(f.GetNews(), f.GetMeta())
  }

  /** The broadcasts the two callbacks of `initNewsFetcher` make: `news`
      only for a non-empty batch, `meta` every time. */
  function Broadcasts(events: seq<Event>): (ms: seq<Message>)
    ensures |ms| == |events| - |Seqs.Filter(events, IsEmptyBatch)|
  {
    if events == [] then []
    else
      (match events[0]
       case NewItems(items) => if |items| > 0 then [News(items)] else []
       case MetaUpdated(meta) => [MetaUpdate(meta)])
      + Broadcasts(events[1..])
  }

  predicate IsEmptyBatch(e: Event) {
    e.NewItems? && e.items == []
  }

  /** One poll cycle sends its new articles, if any, then the statistics it
      computed; the articles sent are exactly the ones admitted. */
  lemma PollBroadcasts(newOnes: seq<NewsItem>, meta: Meta)
    ensures Broadcasts((if newOnes == [] then [] else [NewItems(newOnes)]) + [MetaUpdated(meta)]) ==
      (if newOnes == [] then [] else [News(newOnes)]) + [MetaUpdate(meta)]
  {
    var events := (if newOnes == [] then [] else [NewItems(newOnes)]) + [MetaUpdated(meta)];
    if newOnes != [] {
      assert events[1..] == [MetaUpdated(meta)];
    }
  }
}
