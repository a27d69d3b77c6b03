/** The serverless summary endpoint (api/summary.js): the same lookup and
    naive summary as the Express route, behind a module-level flag that
    starts the aggregator on the first request that needs it. */
module SummaryApi {
  import opened Js
  import opened Items
  import opened Http
  import opened Summaries

  /** The suffix the handler appends: the UTF-8 bytes of the ellipsis read
      back as Windows-1252, three characters. */
  const Mojibake: string := "\U{E2}\U{20AC}\U{A6}"

  datatype Reply = Summary(id: string, summary: string)

  /** The module state of api/summary.js. */
  class Handler {
    var isInitialized: bool
    /** How often `initNewsFetcher` has been called. */
    ghost var initCalls: nat

    ghost predicate Valid()
      reads this
    {
      initCalls == if isInitialized then 1 else 0
    }

    constructor ()
      ensures Valid() && !isInitialized
    {
      isInitialized := false;
      initCalls := 0;
    }

    /** `handler(req, res)` for a request with method `verb` and query `id`;
        `news` is what `getNews()` returns once the handler looks the article
        up. `started` says whether this request started the aggregator. */
    method Handle(verb: string, id: Option<string>, news: seq<NewsItem>) returns (r: Response<Reply>, started: bool)
      requires Valid()
      modifies this
      ensures Valid()
      ensures started <==> verb == "GET" && Truthy(id) && !old(isInitialized)
      ensures isInitialized <==> old(isInitialized) || started
      ensures verb == "OPTIONS" ==> r == Response(200, NoContent)
      ensures verb != "OPTIONS" && verb != "GET" ==> r == Response(405, Error("Method not allowed"))
      ensures verb == "GET" && !Truthy(id) ==> r == Response(400, Error("id required"))
      ensures verb == "GET" && Truthy(id) && (forall i :: 0 <= i < |news| ==> news[i].id != id) ==>
        r == Response(404, Error("not found"))
      ensures verb == "GET" && Truthy(id) ==>
        (r.status == 200 <==> exists i :: 0 <= i < |news| && news[i].id == id)
      ensures verb == "GET" && Truthy(id) && FirstIndex(news, id.value) < |news| ==>
        var item := news[FirstIndex(news, id.value)];
        r == Response(200, Json(Summary(id.value, NaiveSummary(item.title, item.summary, Mojibake))))
    {
      started := false;
      if verb == "OPTIONS" {
        return Response(200, NoContent), false;
      }
      if verb == "GET" {
        if !Truthy(id) {
          return Response(400, Error("id required")), false;
        }
        if !isInitialized {
          initCalls := initCalls + 1;
          isInitialized := true;
          started := true;
        }
        var found := FindById(news, id.value);
        if found.None? {
          return Response(404, Error("not found")), started;
        }
        var item := found.value;
        r := Response(200, Json(Summary(id.value, NaiveSummary(item.title, item.summary, Mojibake))));
        return;
      }
      r := Response(405, Error("Method not allowed"));
    }
  }

  /** The handler and the Express route build the same summary except for the
      suffix: equal when the article summary fits, and otherwise agreeing on
      everything before the suffix, which here is three characters instead
      of one. */
  lemma SameSummaryButSuffix(title: string, summary: string)
    ensures |summary| <= PreviewLength ==> NaiveSummary(title, summary, Mojibake) == NaiveSummary(title, summary, Ellipsis)
    ensures |summary| > PreviewLength ==>
      NaiveSummary(title, summary, Mojibake) != NaiveSummary(title, summary, Ellipsis) &&
      |NaiveSummary(title, summary, Mojibake)| == |NaiveSummary(title, summary, Ellipsis)| + 2
  {
    SuffixOnlyDiffers(title, summary, Mojibake, Ellipsis);
  }
}
