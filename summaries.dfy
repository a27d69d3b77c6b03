/** The article summary endpoint's logic, shared by server/server.js and
    api/summary.js: look the article up by id in the cache, then build the
    naive summary `title - first 160 characters of the summary`, with a
    suffix when the summary was cut. */
module Summaries {
  import opened Js
  import opened Items

  /** How much of the article summary the naive summary keeps. */
  const PreviewLength: nat := 160

  /** The ellipsis character server/server.js appends. */
  const Ellipsis: string := "\U{2026}"

  /** Outcome of `if (!id) ...; const item = news.find(n => n.id === id); if (!item) ...`. */
  datatype Lookup = MissingId | NotFound | Found(id: string, item: NewsItem)

  /** The first article of `news` with the given id. */
  function FindById(news: seq<NewsItem>, id: string): (r: Option<NewsItem>)
    ensures r.None? <==> forall i :: 0 <= i < |news| ==> news[i].id != Some(id)
    ensures r.Some? ==> r.value.id == Some(id) && r.value == news[FirstIndex(news, id)]
  {
    if news == [] then None
    else if news[0].id == Some(id) then Some(news[0])
    else FindById(news[1..], id)
  }

  /** Position of the first article with the given id, or `|news|` when none has it. */
  function FirstIndex(news: seq<NewsItem>, id: string): (k: nat)
    ensures k <= |news|
    ensures forall j :: 0 <= j < k ==> news[j].id != Some(id)
    ensures k < |news| ==> news[k].id == Some(id)
  {
    if news == [] then 0
    else if news[0].id == Some(id) then 0
    else 1 + FirstIndex(news[1..], id)
  }

  /** Validate the query's `id` and find the article. */
  function LookUp(id: Option<string>, news: seq<NewsItem>): (r: Lookup)
    ensures r == MissingId <==> !Truthy(id)
    ensures r == NotFound <==> Truthy(id) && forall i :: 0 <= i < |news| ==> news[i].id != id
    ensures r.Found? ==> id == Some(r.id) && r.item == news[FirstIndex(news, r.id)]
  {
    if !Truthy(id) then MissingId
    else
      match FindById(news, id.value)
      case None => NotFound
      case Some(item) => Found(id.value, item)
  }

  /** `(s || '').slice(0, 160)` on a string-valued summary. */
  function Head(summary: string): (h: string)
    ensures h <= summary
    ensures |h| == if |summary| < PreviewLength then |summary| else PreviewLength
  {
    if |summary| <= PreviewLength then summary else summary[..PreviewLength]
  }

  /** `${title} - ${head}${cut ? suffix : ''}`. */
  function NaiveSummary(title: string, summary: string, suffix: string): (s: string)
    ensures title + " - " <= s
    ensures |s| == |title| + 3 + (if |summary| > PreviewLength then PreviewLength + |suffix| else |summary|)
  {
    title + " - " + Head(summary) + if |summary| > PreviewLength then suffix else ""
  }

  /** The naive summary is the title, a separator, then the start of the
      summary; a summary of at most 160 characters comes back whole and can
      be read off again, a longer one is cut to 160 characters and marked
      with the suffix. */
  lemma NaiveSummarySpec(title: string, summary: string, suffix: string)
    ensures NaiveSummary(title, summary, suffix)[..|title| + 3] == title + " - "
    ensures |summary| <= PreviewLength ==>
      NaiveSummary(title, summary, suffix)[|title| + 3..] == summary
    ensures |summary| > PreviewLength ==>
      NaiveSummary(title, summary, suffix)[|title| + 3..] == summary[..PreviewLength] + suffix
    ensures |NaiveSummary(title, summary, suffix)| <= |title| + 3 + PreviewLength + |suffix|
  {
    var head := Head(summary);
    var tail := if |summary| > PreviewLength then suffix else "";
    assert NaiveSummary(title, summary, suffix) == (title + " - ") + (head + tail);
  }

  /** Two summaries of the same article built with different suffixes agree
      up to the end of the kept text, and are equal when nothing was cut. */
  lemma SuffixOnlyDiffers(title: string, summary: string, s1: string, s2: string)
    ensures var n := |title| + 3 + |Head(summary)|;
      n <= |NaiveSummary(title, summary, s1)| && n <= |NaiveSummary(title, summary, s2)| &&
      NaiveSummary(title, summary, s1)[..n] == NaiveSummary(title, summary, s2)[..n]
    ensures |summary| <= PreviewLength ==> NaiveSummary(title, summary, s1) == NaiveSummary(title, summary, s2)
  {
    var n := |title| + 3 + |Head(summary)|;
    var pre := title + " - " + Head(summary);
    assert NaiveSummary(title, summary, s1) == pre + (if |summary| > PreviewLength then s1 else "");
    assert NaiveSummary(title, summary, s2) == pre + (if |summary| > PreviewLength then s2 else "");
  }
}
