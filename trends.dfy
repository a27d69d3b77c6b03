/** Trending words, as both the server's statistics (api/newsFetcher.js) and
    the browser client (web/app.js) compute them: tokenise every article's
    lower-cased text, drop stop words, count, sort by count, keep the top few. */
module Trends {
  import opened Js
  import Seqs
  import opened Tallies
  import opened Items

  function NotStop(stop: set<string>): string -> bool {
    w => w !in stop
  }

  function CountOf(e: Entry): int {
    e.count
  }

  /** The counted words of one article, in text order. */
  function ItemWords(item: NewsItem, stop: set<string>): seq<string> {
    Seqs.Filter(Tokens(Lower(Text(item))), NotStop(stop))
  }

  /** The counted words of all articles, article by article. */
  function KeptWords(items: seq<NewsItem>, stop: set<string>): seq<string> {
    if items == [] then []
    else KeptWords(items[..|items| - 1], stop) + ItemWords(items[|items| - 1], stop)
  }

  /** `Object.entries(freq).sort((a, b) => b[1] - a[1]).slice(0, limit)`. */
  function Trending(items: seq<NewsItem>, stop: set<string>, limit: nat): seq<Entry> {
    Seqs.Take(Seqs.SortDesc(Tally(KeptWords(items, stop)), CountOf), limit)
  }

  lemma KeptStep(seen: seq<string>, words: seq<string>, j: nat, stop: set<string>)
    requires j < |words|
    ensures seen + Seqs.Filter(words[..j + 1], NotStop(stop)) ==
      (seen + Seqs.Filter(words[..j], NotStop(stop))) + if words[j] in stop then [] else [words[j]]
  {
    assert words[..j + 1] == words[..j] + [words[j]];
    Seqs.FilterSnoc(words[..j], words[j], NotStop(stop));
  }

  /** `words.forEach(w => { if (!stop.has(w)) freq[w] = (freq[w] || 0) + 1; })`. */
  method CountWords(freq: seq<Entry>, ghost seen: seq<string>, words: seq<string>, stop: set<string>) returns (r: seq<Entry>)
    requires freq == Tally(seen)
    ensures r == Tally(seen + Seqs.Filter(words, NotStop(stop)))
  {
    r := freq;
    assert seen + Seqs.Filter(words[..0], NotStop(stop)) == seen;
    for j := 0 to |words|
      invariant r == Tally(seen + Seqs.Filter(words[..j], NotStop(stop)))
    {
      ghost var kept := seen + Seqs.Filter(words[..j], NotStop(stop));
      KeptStep(seen, words, j, stop);
      if words[j] !in stop {
        TallySnoc(kept, words[j]);
        r := Bump(r, words[j]);
      } else {
        assert kept + [] == kept;
      }
    }
    assert words[..|words|] == words;
  }

  lemma ItemWordsAreTokens(item: NewsItem, stop: set<string>)
    ensures forall k :: 0 <= k < |ItemWords(item, stop)| ==>
      IsToken(ItemWords(item, stop)[k]) && ItemWords(item, stop)[k] !in stop
  {
    var ts := Tokens(Lower(Text(item)));
    var b := ItemWords(item, stop);
    forall k | 0 <= k < |b| ensures IsToken(b[k]) && b[k] !in stop {
      assert b[k] in ts && NotStop(stop)(b[k]);
      var j :| 0 <= j < |ts| && ts[j] == b[k];
    }
  }

  lemma {:induction false} KeptWordsAreTokens(items: seq<NewsItem>, stop: set<string>)
    ensures forall k :: 0 <= k < |KeptWords(items, stop)| ==>
      IsToken(KeptWords(items, stop)[k]) && KeptWords(items, stop)[k] !in stop
  {
    if items != [] {
      var p := items[..|items| - 1];
      KeptWordsAreTokens(p, stop);
      ItemWordsAreTokens(items[|items| - 1], stop);
      var a, b := KeptWords(p, stop), ItemWords(items[|items| - 1], stop);
      assert KeptWords(items, stop) == a + b;
      forall k | 0 <= k < |a + b| ensures IsToken((a + b)[k]) && (a + b)[k] !in stop {
        if k < |a| {
          assert (a + b)[k] == a[k];
        } else {
          assert (a + b)[k] == b[k - |a|];
        }
      }
    }
  }

  /** The trending list: at most `limit` pairs, largest count first; each word
      is three or more letters a-z and not a stop word; each count is the
      number of times the word occurs over all articles; and no word left out
      occurs more often than any word kept. */
  lemma TrendingSpec(items: seq<NewsItem>, stop: set<string>, limit: nat)
    ensures |Trending(items, stop, limit)| <= limit
    ensures Seqs.SortedDesc(Trending(items, stop, limit), CountOf)
    ensures forall i :: 0 <= i < |Trending(items, stop, limit)| ==>
      var e := Trending(items, stop, limit)[i];
      IsToken(e.key) && e.key !in stop && e.count == multiset(KeptWords(items, stop))[e.key] && e.count >= 1
    ensures forall i, w ::
      (0 <= i < |Trending(items, stop, limit)| && w in KeptWords(items, stop) && w !in Keys(Trending(items, stop, limit)))
      ==> multiset(KeptWords(items, stop))[w] <= Trending(items, stop, limit)[i].count
  {
    var ws := KeptWords(items, stop);
    KeptWordsAreTokens(items, stop);
    TopEntries(ws, stop, limit);
    TopLeavesOutLower(ws, limit);
  }

  lemma TopEntries(ws: seq<string>, stop: set<string>, limit: nat)
    requires forall k :: 0 <= k < |ws| ==> IsToken(ws[k]) && ws[k] !in stop
    ensures |Seqs.Take(Seqs.SortDesc(Tally(ws), CountOf), limit)| <= limit
    ensures Seqs.SortedDesc(Seqs.Take(Seqs.SortDesc(Tally(ws), CountOf), limit), CountOf)
    ensures forall i :: 0 <= i < |Seqs.Take(Seqs.SortDesc(Tally(ws), CountOf), limit)| ==>
      var e := Seqs.Take(Seqs.SortDesc(Tally(ws), CountOf), limit)[i];
      IsToken(e.key) && e.key !in stop && e.count == multiset(ws)[e.key] && e.count >= 1
  {
    var t := Tally(ws);
    var s := Seqs.SortDesc(t, CountOf);
    var r := Seqs.Take(s, limit);
    TallyEntries(ws);
    assert forall i | 0 <= i < |r| :: r[i] == s[i];
    forall i | 0 <= i < |r|
      ensures IsToken(r[i].key) && r[i].key !in stop && r[i].count == multiset(ws)[r[i].key] && r[i].count >= 1
    {
      assert r[i] in multiset(t);
      var j :| 0 <= j < |t| && t[j] == r[i];
      assert r[i].key in Keys(t);
    }
  }

  lemma TopLeavesOutLower(ws: seq<string>, limit: nat)
    ensures forall i, w ::
      (0 <= i < |Seqs.Take(Seqs.SortDesc(Tally(ws), CountOf), limit)| && w in ws
        && w !in Keys(Seqs.Take(Seqs.SortDesc(Tally(ws), CountOf), limit)))
      ==> multiset(ws)[w] <= Seqs.Take(Seqs.SortDesc(Tally(ws), CountOf), limit)[i].count
  {
    var t := Tally(ws);
    var s := Seqs.SortDesc(t, CountOf);
    var r := Seqs.Take(s, limit);
    TallyEntries(ws);
    forall i, w | 0 <= i < |r| && w in ws && w !in Keys(r) ensures multiset(ws)[w] <= r[i].count {
      assert w in Keys(t);
      var j :| 0 <= j < |t| && t[j].key == w;
      assert t[j] in multiset(s);
      assert t[j] !in r;
      Seqs.TakeSortedIsTop(s, CountOf, limit, r[i], t[j]);
    }
  }
}
