/** The browser client (web/app.js): its state (the article list, the queue
    of articles not yet shown, the statistics, bookmarks, theme and view
    switches), the messages and clicks that change it, and the pure rules
    `render` applies: trending topics, the three list filters, grouping by
    category, the heatmap's count classes, theme cycling and the reconnect
    delay. */
module WebApp {
  import opened Js
  import Seqs
  import opened Tallies
  import opened Items
  import Trends
  import NewsFetcher

  // ---------------------------------------------------------------------------
  // Trending topics

  /** How many topics the client shows. */
  const TopicLimit: nat := 10

  /** Coin names the client leaves out on top of the server's stop words. */
  const CoinNames: set<string> := {"bitcoin", "btc", "eth", "ethereum"}

  /** The stop set of `getTrendingTopics`: the server's 31 words and the coin names. */
  const ClientStopWords: set<string> := NewsFetcher.StopWords + CoinNames

  /** `getTrendingTopics(items)`: count the non-stop words of every article,
      sort by count, keep ten. */
  method GetTrendingTopics(items: seq<NewsItem>) returns (topics: seq<Entry>)
    ensures topics == Trends.Trending(items, ClientStopWords, TopicLimit)
  {
    var wordCount: seq<Entry> := [];
    for i := 0 to |items|
      invariant wordCount == Tally(Trends.KeptWords(items[..i], ClientStopWords))
    {
      assert items[..i + 1][..i] == items[..i];
      var words := Tokens(Lower(items[i].title + " " + items[i].summary));
      wordCount := Trends.CountWords(wordCount, Trends.KeptWords(items[..i], ClientStopWords), words, ClientStopWords);
    }
    assert items[..|items|] == items;
    topics := Seqs.Take(Seqs.SortDesc(wordCount, Trends.CountOf), TopicLimit);
  }

  /** At most ten topics, most frequent first; each is a word of three or
      more letters a-z that is neither a server stop word nor a coin name,
      counted as often as it occurs; no word left out occurs more often. */
  lemma TopicsSpec(items: seq<NewsItem>)
    ensures |Trends.Trending(items, ClientStopWords, TopicLimit)| <= TopicLimit
    ensures Seqs.SortedDesc(Trends.Trending(items, ClientStopWords, TopicLimit), Trends.CountOf)
    ensures forall i :: 0 <= i < |Trends.Trending(items, ClientStopWords, TopicLimit)| ==>
      var e := Trends.Trending(items, ClientStopWords, TopicLimit)[i];
      && IsToken(e.key) && e.key !in NewsFetcher.StopWords && e.key !in CoinNames
      && e.count == multiset(Trends.KeptWords(items, ClientStopWords))[e.key]
    ensures forall i, w ::
      0 <= i < |Trends.Trending(items, ClientStopWords, TopicLimit)| && w in Trends.KeptWords(items, ClientStopWords) &&
      w !in Keys(Trends.Trending(items, ClientStopWords, TopicLimit)) ==>
        multiset(Trends.KeptWords(items, ClientStopWords))[w] <= Trends.Trending(items, ClientStopWords, TopicLimit)[i].count
  {
    Trends.TrendingSpec(items, ClientStopWords, TopicLimit);
  }

  // ---------------------------------------------------------------------------
  // The list `render` shows

  /** `bookmarks.has(i.id)`: the set holds strings, so an article without an id is never bookmarked. */
  predicate Bookmarked(item: NewsItem, bookmarks: set<string>) {
    item.id.Some? && item.id.value in bookmarks
  }

  /** `i.title.toLowerCase().includes(q) || i.summary.toLowerCase().includes(q)`. */
  predicate Matches(item: NewsItem, q: string) {
    Includes(Lower(item.title), q) || Includes(Lower(item.summary), q)
  }

  /** An article passes the three filters of `render`, with the query `q` already lower-cased. */
  predicate Shown(item: NewsItem, activeSource: string, bookmarkView: bool, bookmarks: set<string>, q: string) {
    && (activeSource != "" ==> item.source == activeSource)
    && (bookmarkView ==> Bookmarked(item, bookmarks))
    && (q != "" ==> Matches(item, q))
  }

  /** The article list of `render`: filter by source when one is selected,
      by bookmark in bookmark view, and by the lower-cased search text when
      it is not empty. */
  function Visible(items: seq<NewsItem>, activeSource: string, bookmarkView: bool, bookmarks: set<string>, search: string): seq<NewsItem> {
    var q := Lower(search);
    var a := if activeSource != "" then Seqs.Filter(items, (i: NewsItem) => i.source == activeSource) else items;
    var b := if bookmarkView then Seqs.Filter(a, (i: NewsItem) => Bookmarked(i, bookmarks)) else a;
    if q != "" then Seqs.Filter(b, (i: NewsItem) => Matches(i, q)) else b
  }

  /** The filter of `render` that keeps what `Shown` accepts. */
  function ShownBy(activeSource: string, bookmarkView: bool, bookmarks: set<string>, q: string): NewsItem -> bool {
    (i: NewsItem) => Shown(i, activeSource, bookmarkView, bookmarks, q)
  }

  /** The three filters in a row are one filter by their conjunction. */
  lemma VisibleIsOneFilter(items: seq<NewsItem>, activeSource: string, bookmarkView: bool, bookmarks: set<string>, search: string)
    ensures Visible(items, activeSource, bookmarkView, bookmarks, search) ==
      Seqs.Filter(items, ShownBy(activeSource, bookmarkView, bookmarks, Lower(search)))
  {
    Seqs.FilterWhenThree(items,
      activeSource != "", (i: NewsItem) => i.source == activeSource,
      bookmarkView, (i: NewsItem) => Bookmarked(i, bookmarks),
      Lower(search) != "", (i: NewsItem) => Matches(i, Lower(search)),
      ShownBy(activeSource, bookmarkView, bookmarks, Lower(search)));
  }

  /** The list keeps the order of `items`, and holds an article, as often as
      `items` does, exactly when it passes all three filters. */
  lemma VisibleSpec(items: seq<NewsItem>, activeSource: string, bookmarkView: bool, bookmarks: set<string>, search: string)
    ensures Seqs.Subsequence(Visible(items, activeSource, bookmarkView, bookmarks, search), items)
    ensures forall x ::
      multiset(Visible(items, activeSource, bookmarkView, bookmarks, search))[x] ==
        if Shown(x, activeSource, bookmarkView, bookmarks, Lower(search)) then multiset(items)[x] else 0
  {
    var shown := ShownBy(activeSource, bookmarkView, bookmarks, Lower(search));
    VisibleIsOneFilter(items, activeSource, bookmarkView, bookmarks, search);
    Seqs.FilterKeepsOrderAndCount(items, shown);
  }

  // ---------------------------------------------------------------------------
  // Grouping

  /** One block of the grouped view: a category and its articles. */
  datatype Group = Group(key: string, members: seq<NewsItem>)

  /** `it.categories.length ? it.categories[0] : 'other'`. */
  function GroupKey(item: NewsItem): string {
    if |item.categories| > 0 then item.categories[0] else "other"
  }

  function HasKey(k: string): NewsItem -> bool {
    item => GroupKey(item) == k
  }

  function Size(g: Group): int {
    |g.members|
  }

  function GroupKeys(gs: seq<Group>): (ks: seq<string>)
    ensures |ks| == |gs| && forall i :: 0 <= i < |gs| ==> ks[i] == gs[i].key
  {
    seq(|gs|, i requires 0 <= i < |gs| => gs[i].key)
  }

  /** `(groups[key] = groups[key] || []).push(item)`: a known key's array
      grows in place, a new key goes last. */
  function AddToGroup(gs: seq<Group>, key: string, item: NewsItem): seq<Group> {
    if gs == [] then [Group(key, [item])]
    else if gs[0].key == key then [Group(key, gs[0].members + [item])] + gs[1..]
    else [gs[0]] + AddToGroup(gs[1..], key, item)
  }

  /** The `groups` object after every article of `items`, read back with `Object.entries`. */
  function Collate(items: seq<NewsItem>): seq<Group> {
    if items == [] then []
    else AddToGroup(Collate(items[..|items| - 1]), GroupKey(items[|items| - 1]), items[|items| - 1])
  }

  /** The grouped view: the groups, largest first. */
  function Grouped(items: seq<NewsItem>): seq<Group> {
    Seqs.SortDesc(Collate(items), Size)
  }

  lemma GroupKeysCons(g: Group, gs: seq<Group>)
    ensures GroupKeys([g] + gs) == [g.key] + GroupKeys(gs)
  {
  }

  lemma {:induction false} AddToGroupKeys(gs: seq<Group>, key: string, item: NewsItem)
    ensures GroupKeys(AddToGroup(gs, key, item)) == if key in GroupKeys(gs) then GroupKeys(gs) else GroupKeys(gs) + [key]
  {
    if gs != [] {
      var rest := gs[1..];
      assert gs == [gs[0]] + rest;
      GroupKeysCons(gs[0], rest);
      assert key in GroupKeys(gs) <==> gs[0].key == key || key in GroupKeys(rest);
      if gs[0].key == key {
        var g := Group(key, gs[0].members + [item]);
        assert AddToGroup(gs, key, item) == [g] + rest;
        GroupKeysCons(g, rest);
      } else {
        var r := AddToGroup(rest, key, item);
        assert AddToGroup(gs, key, item) == [gs[0]] + r;
        AddToGroupKeys(rest, key, item);
        GroupKeysCons(gs[0], r);
        if key !in GroupKeys(rest) {
          assert [gs[0].key] + (GroupKeys(rest) + [key]) == ([gs[0].key] + GroupKeys(rest)) + [key];
        }
      }
    }
  }

  lemma {:induction false} AddToGroupMembers(gs: seq<Group>, key: string, item: NewsItem)
    requires Seqs.Distinct(GroupKeys(gs))
    ensures |AddToGroup(gs, key, item)| >= |gs|
    ensures forall i :: 0 <= i < |gs| ==>
      AddToGroup(gs, key, item)[i].members == gs[i].members + if gs[i].key == key then [item] else []
  {
    if gs != [] {
      var rest := gs[1..];
      if gs[0].key == key {
        var g := Group(key, gs[0].members + [item]);
        assert AddToGroup(gs, key, item) == [g] + rest;
        forall i | 0 < i < |gs| ensures ([g] + rest)[i] == gs[i] && gs[i].key != key {
          assert GroupKeys(gs)[i] != GroupKeys(gs)[0];
        }
      } else {
        var r := AddToGroup(rest, key, item);
        assert AddToGroup(gs, key, item) == [gs[0]] + r;
        assert forall i :: 0 <= i < |rest| ==> GroupKeys(rest)[i] == GroupKeys(gs)[i + 1];
        AddToGroupMembers(rest, key, item);
        forall i | 0 < i < |gs| ensures ([gs[0]] + r)[i].members == gs[i].members + if gs[i].key == key then [item] else [] {
          assert ([gs[0]] + r)[i] == r[i - 1] && gs[i] == rest[i - 1];
        }
      }
    }
  }

  lemma {:induction false} AddToGroupNew(gs: seq<Group>, key: string, item: NewsItem)
    requires key !in GroupKeys(gs)
    ensures |AddToGroup(gs, key, item)| == |gs| + 1
    ensures AddToGroup(gs, key, item)[|gs|] == Group(key, [item])
  {
    if gs != [] {
      var rest := gs[1..];
      assert GroupKeys(gs)[0] == gs[0].key;
      assert forall i :: 0 <= i < |rest| ==> GroupKeys(rest)[i] == GroupKeys(gs)[i + 1];
      AddToGroupNew(rest, key, item);
    }
  }

  /** Adding an article to its group: that group's array gains it at the
      end, the others stay as they were, and a new key gets a new group last. */
  lemma AddToGroupSpec(gs: seq<Group>, key: string, item: NewsItem)
    requires Seqs.Distinct(GroupKeys(gs))
    ensures GroupKeys(AddToGroup(gs, key, item)) == if key in GroupKeys(gs) then GroupKeys(gs) else GroupKeys(gs) + [key]
    ensures forall i :: 0 <= i < |gs| ==>
      AddToGroup(gs, key, item)[i].members == gs[i].members + if gs[i].key == key then [item] else []
    ensures key !in GroupKeys(gs) ==> AddToGroup(gs, key, item)[|gs|] == Group(key, [item])
  {
    AddToGroupKeys(gs, key, item);
    AddToGroupMembers(gs, key, item);
    if key !in GroupKeys(gs) {
      AddToGroupNew(gs, key, item);
    }
  }

  /** Nothing passes a filter by a key no article has. */
  lemma NoneHasKey(items: seq<NewsItem>, k: string)
    requires forall x :: x in items ==> GroupKey(x) != k
    ensures Seqs.Filter(items, HasKey(k)) == []
  {
  }

  /** What `CollateSpec` states of the groups of `items`. */
  ghost predicate GroupsOf(gs: seq<Group>, items: seq<NewsItem>) {
    && Seqs.Distinct(GroupKeys(gs))
    && (forall i :: 0 <= i < |gs| ==> gs[i].members == Seqs.Filter(items, HasKey(gs[i].key)) && |gs[i].members| >= 1)
    && (forall x :: x in items ==> GroupKey(x) in GroupKeys(gs))
  }

  /** A group that held the articles of `p` with its key holds those of `p + [x]` once `x` is added when it matches. */
  lemma KeptGroupStep(g: Group, p: seq<NewsItem>, x: NewsItem)
    requires g.members == Seqs.Filter(p, HasKey(g.key))
    ensures g.members + (if g.key == GroupKey(x) then [x] else []) == Seqs.Filter(p + [x], HasKey(g.key))
  {
    Seqs.FilterSnoc(p, x, HasKey(g.key));
  }

  /** The first article with a new key starts a group of its own. */
  lemma NewGroupStep(p: seq<NewsItem>, x: NewsItem)
    requires forall y :: y in p ==> GroupKey(y) != GroupKey(x)
    ensures [x] == Seqs.Filter(p + [x], HasKey(GroupKey(x)))
  {
    Seqs.FilterSnoc(p, x, HasKey(GroupKey(x)));
    NoneHasKey(p, GroupKey(x));
  }

  /** An existing group `i` after adding `x`. */
  lemma OldGroupStepAt(gs: seq<Group>, p: seq<NewsItem>, x: NewsItem, i: nat)
    requires Seqs.Distinct(GroupKeys(gs))
    requires i < |gs| && gs[i].members == Seqs.Filter(p, HasKey(gs[i].key)) && |gs[i].members| >= 1
    ensures i < |AddToGroup(gs, GroupKey(x), x)|
    ensures AddToGroup(gs, GroupKey(x), x)[i].members == Seqs.Filter(p + [x], HasKey(AddToGroup(gs, GroupKey(x), x)[i].key))
    ensures |AddToGroup(gs, GroupKey(x), x)[i].members| >= 1
  {
    var r := AddToGroup(gs, GroupKey(x), x);
    AddToGroupKeys(gs, GroupKey(x), x);
    AddToGroupMembers(gs, GroupKey(x), x);
    assert r[i].key == gs[i].key by {
      assert GroupKeys(r)[i] == GroupKeys(gs)[i];
    }
    KeptGroupStep(gs[i], p, x);
  }

  /** The group past the old ones after adding `x`, if there is one. */
  lemma NewGroupStepAt(gs: seq<Group>, p: seq<NewsItem>, x: NewsItem)
    requires forall y :: y in p ==> GroupKey(y) in GroupKeys(gs)
    requires |gs| < |AddToGroup(gs, GroupKey(x), x)|
    ensures AddToGroup(gs, GroupKey(x), x)[|gs|].members == Seqs.Filter(p + [x], HasKey(AddToGroup(gs, GroupKey(x), x)[|gs|].key))
    ensures |AddToGroup(gs, GroupKey(x), x)[|gs|].members| >= 1
  {
    var k := GroupKey(x);
    AddToGroupKeys(gs, k, x);
    assert k !in GroupKeys(gs);
    AddToGroupNew(gs, k, x);
    NewGroupStep(p, x);
  }

  /** Group `i` after adding `x`. */
  lemma GroupStepAt(gs: seq<Group>, p: seq<NewsItem>, x: NewsItem, i: nat)
    requires Seqs.Distinct(GroupKeys(gs))
    requires forall y :: y in p ==> GroupKey(y) in GroupKeys(gs)
    requires i < |gs| ==> gs[i].members == Seqs.Filter(p, HasKey(gs[i].key)) && |gs[i].members| >= 1
    requires i < |AddToGroup(gs, GroupKey(x), x)|
    ensures AddToGroup(gs, GroupKey(x), x)[i].members == Seqs.Filter(p + [x], HasKey(AddToGroup(gs, GroupKey(x), x)[i].key))
    ensures |AddToGroup(gs, GroupKey(x), x)[i].members| >= 1
  {
    if i < |gs| {
      OldGroupStepAt(gs, p, x, i);
    } else {
      AddToGroupKeys(gs, GroupKey(x), x);
      assert i == |gs|;
      NewGroupStepAt(gs, p, x);
    }
  }

  lemma MembersSnoc(gs: seq<Group>, p: seq<NewsItem>, x: NewsItem)
    requires GroupsOf(gs, p)
    ensures forall i :: 0 <= i < |AddToGroup(gs, GroupKey(x), x)| ==>
      AddToGroup(gs, GroupKey(x), x)[i].members == Seqs.Filter(p + [x], HasKey(AddToGroup(gs, GroupKey(x), x)[i].key))
      && |AddToGroup(gs, GroupKey(x), x)[i].members| >= 1
  {
    var r := AddToGroup(gs, GroupKey(x), x);
    forall i | 0 <= i < |r| ensures r[i].members == Seqs.Filter(p + [x], HasKey(r[i].key)) && |r[i].members| >= 1 {
      GroupStepAt(gs, p, x, i);
    }
  }

  lemma KeysSnoc(gs: seq<Group>, p: seq<NewsItem>, x: NewsItem)
    requires Seqs.Distinct(GroupKeys(gs))
    requires forall y :: y in p ==> GroupKey(y) in GroupKeys(gs)
    ensures Seqs.Distinct(GroupKeys(AddToGroup(gs, GroupKey(x), x)))
    ensures forall y :: y in p + [x] ==> GroupKey(y) in GroupKeys(AddToGroup(gs, GroupKey(x), x))
  {
    var k := GroupKey(x);
    AddToGroupKeys(gs, k, x);
    forall y | y in p + [x] ensures GroupKey(y) in GroupKeys(AddToGroup(gs, k, x)) {
      if y in p {
        assert GroupKey(y) in GroupKeys(gs);
      }
    }
  }

  lemma GroupsSnoc(gs: seq<Group>, p: seq<NewsItem>, x: NewsItem)
    requires GroupsOf(gs, p)
    ensures GroupsOf(AddToGroup(gs, GroupKey(x), x), p + [x])
  {
    MembersSnoc(gs, p, x);
    KeysSnoc(gs, p, x);
  }

  /** The `groups` object: one group per key that occurs, each key once;
      each group holds exactly the articles with its key, in list order. */
  lemma {:induction false} CollateSpec(items: seq<NewsItem>)
    ensures GroupsOf(Collate(items), items)
  {
    if items != [] {
      var p, x := items[..|items| - 1], items[|items| - 1];
      assert items == p + [x];
      assert Collate(items) == AddToGroup(Collate(p), GroupKey(x), x);
      CollateSpec(p);
      GroupsSnoc(Collate(p), p, x);
    }
  }

  lemma PermutedGroupsDistinct(c: seq<Group>, g: seq<Group>)
    requires Seqs.Distinct(GroupKeys(c)) && multiset(g) == multiset(c)
    ensures Seqs.Distinct(GroupKeys(g))
  {
    assert Seqs.Distinct(c);
    Seqs.PermutationDistinct(g, c);
    forall i, j | 0 <= i < j < |g| ensures g[i].key != g[j].key {
      assert g[i] in multiset(c) && g[j] in multiset(c);
      var a :| 0 <= a < |c| && c[a] == g[i];
      var b :| 0 <= b < |c| && c[b] == g[j];
      assert GroupKeys(c)[a] == c[a].key && GroupKeys(c)[b] == c[b].key;
    }
  }

  /** Reordering the groups keeps what they say about the articles. */
  lemma PermutedGroups(c: seq<Group>, g: seq<Group>, items: seq<NewsItem>)
    requires GroupsOf(c, items) && multiset(g) == multiset(c)
    ensures GroupsOf(g, items)
  {
    PermutedGroupsDistinct(c, g);
    forall i | 0 <= i < |g| ensures g[i].members == Seqs.Filter(items, HasKey(g[i].key)) && |g[i].members| >= 1 {
      assert g[i] in multiset(c);
      var a :| 0 <= a < |c| && c[a] == g[i];
    }
    forall x | x in items ensures GroupKey(x) in GroupKeys(g) {
      var a :| 0 <= a < |c| && GroupKeys(c)[a] == GroupKey(x);
      assert c[a] in multiset(g);
      var i :| 0 <= i < |g| && g[i] == c[a];
      assert GroupKeys(g)[i] == GroupKey(x);
    }
  }

  /** The grouped view: groups largest first; one group per category that
      occurs, each key once; each article lands in exactly one group, the
      one of its first category or `other`; each group holds its articles
      in list order. */
  lemma GroupedSpec(items: seq<NewsItem>)
    ensures Seqs.SortedDesc(Grouped(items), Size)
    ensures GroupsOf(Grouped(items), items)
    ensures forall i, x :: 0 <= i < |Grouped(items)| && x in items ==>
      (x in Grouped(items)[i].members <==> Grouped(items)[i].key == GroupKey(x))
  {
    var g := Grouped(items);
    CollateSpec(items);
    PermutedGroups(Collate(items), g, items);
    forall i, x | 0 <= i < |g| && x in items ensures x in g[i].members <==> g[i].key == GroupKey(x) {
      if g[i].key == GroupKey(x) {
        var j :| 0 <= j < |items| && items[j] == x;
        assert HasKey(g[i].key)(items[j]);
      }
    }
  }

  // ---------------------------------------------------------------------------
  // Heatmap classes

  /** The colour classes of the heatmap's category mode; the legend labels
      them `0`, `1-2`, `3-5`, `6-10` and `11+`. */
  datatype Heat = CatNone | CatLow | CatMed | CatHigh | CatExtreme

  /** The threshold chain as web/app.js writes it: the first test asks for
      `v > 0`, so a zero falls through to the `v <= 5` test. */
  function HeatClassAsWritten(v: int): (c: Heat)
    ensures c != CatNone
    ensures c == CatLow <==> 1 <= v <= 2
    ensures c == CatMed <==> v <= 0 || 3 <= v <= 5
    ensures c == CatHigh <==> 6 <= v <= 10
    ensures c == CatExtreme <==> v > 10
  {
    if v > 0 && v <= 2 then CatLow
    else if v <= 5 then CatMed
    else if v <= 10 then CatHigh
    else if v > 10 then CatExtreme
    else CatNone
  }

  /** An hour without articles is coloured like one with three to five. */
  lemma EmptyHourIsMedium()
    ensures HeatClassAsWritten(0) == CatMed
    ensures forall v: int :: HeatClassAsWritten(v) != CatNone
  {
  }

  /** The class the legend promises for a count of `v` articles. */
  function HeatClass(v: nat): (c: Heat)
    ensures c == CatNone <==> v == 0
    ensures c == CatLow <==> 1 <= v <= 2
    ensures c == CatMed <==> 3 <= v <= 5
    ensures c == CatHigh <==> 6 <= v <= 10
    ensures c == CatExtreme <==> v > 10
  {
    if v == 0 then CatNone
    else if v <= 2 then CatLow
    else if v <= 5 then CatMed
    else if v <= 10 then CatHigh
    else CatExtreme
  }

  /** The chain as written and the legend agree on every count but zero. */
  lemma HeatClassAgreesButZero(v: nat)
    ensures HeatClassAsWritten(v) == HeatClass(v) <==> v != 0
  {
  }

  // ---------------------------------------------------------------------------
  // Themes

  const ThemeOrder: seq<string> := ["default", "magenta", "matrix"]

  /** `order.indexOf(x)`: the first position of `x`, or -1. */
  function IndexOf(order: seq<string>, x: string): (i: int)
    ensures -1 <= i < |order|
    ensures i == -1 <==> x !in order
    ensures 0 <= i ==> order[i] == x && x !in order[..i]
  {
    if order == [] then -1
    else if order[0] == x then 0
    else
      var j := IndexOf(order[1..], x);
      if j == -1 then -1
      else
        assert order[..j + 1] == [order[0]] + order[1..][..j];
        j + 1
  }

  /** The theme button: `order[(order.indexOf(currentTheme) + 1) % order.length]`. */
  function NextTheme(theme: string): (next: string)
    ensures next in ThemeOrder
    ensures theme !in ThemeOrder ==> next == "default"
    ensures theme == "default" ==> next == "magenta"
    ensures theme == "magenta" ==> next == "matrix"
    ensures theme == "matrix" ==> next == "default"
  {
    ThemeOrder[(IndexOf(ThemeOrder, theme) + 1) % |ThemeOrder|]
  }

  /** Three clicks bring any known theme back, and after the first click
      the theme is always a known one. */
  lemma ThemeCycle(theme: string)
    ensures theme in ThemeOrder ==> NextTheme(NextTheme(NextTheme(theme))) == theme
    ensures NextTheme(NextTheme(NextTheme(NextTheme(theme)))) == NextTheme(theme)
  {
  }

  // ---------------------------------------------------------------------------
  // Bookmarks

  /** `data-id="${item.id}"`: an article without an id renders as the string `undefined`. */
  function DataId(item: NewsItem): string {
    if item.id.Some? then item.id.value else "undefined"
  }

  /** `if (bookmarks.has(id)) bookmarks.delete(id); else bookmarks.add(id)`. */
  function Toggled(bookmarks: set<string>, id: string): (r: set<string>)
    ensures id in r <==> id !in bookmarks
    ensures forall x :: x != id ==> (x in r <==> x in bookmarks)
  {
    if id in bookmarks then bookmarks - {id} else bookmarks + {id}
  }

  /** Clicking the star of an article flips whether bookmark view shows it,
      and clicking twice restores the set; an article without an id stays
      out of bookmark view however often its star is clicked. */
  lemma BookmarkClick(bookmarks: set<string>, item: NewsItem)
    ensures Toggled(Toggled(bookmarks, DataId(item)), DataId(item)) == bookmarks
    ensures item.id.Some? ==> (Bookmarked(item, Toggled(bookmarks, DataId(item))) <==> !Bookmarked(item, bookmarks))
    ensures item.id.None? ==> !Bookmarked(item, Toggled(bookmarks, DataId(item)))
  {
  }

  // ---------------------------------------------------------------------------
  // Reconnecting

  /** `Math.min(10000, 1000 * retry)`. */
  function Backoff(retry: nat): nat {
    if 1000 * retry < 10000 then 1000 * retry else 10000
  }

  /** The socket one `connect()` call opens, with the `retry` counter that
      call declares. */
  class Connection {
    var retry: nat

    constructor ()
      ensures retry == 0
    {
      retry := 0;
    }

    /** `ws.onclose`: count the failure and wait before connecting anew. */
    method Closed() returns (delay: nat)
      modifies this
      ensures retry == old(retry) + 1
      ensures delay == Backoff(retry)
    {
      retry := retry + 1;
      delay := Backoff(retry);
    }
  }

  /** The delays of `failures` reconnections in a row as web/app.js runs
      them: each `connect()` opens a new socket with a fresh counter. */
  method ReconnectDelays(failures: nat) returns (delays: seq<nat>)
    ensures |delays| == failures
    ensures forall k :: 0 <= k < failures ==> delays[k] == 1000
  {
    delays := [];
    for k := 0 to failures
      invariant |delays| == k
      invariant forall j :: 0 <= j < k ==> delays[j] == 1000
    {
      var socket := new Connection();
      var d := socket.Closed();
      delays := delays + [d];
    }
  }

  /** The delays when one counter is kept across reconnections, as the
      `Math.min(10000, ...)` cap intends. */
  method BackoffDelays(failures: nat) returns (delays: seq<nat>)
    ensures |delays| == failures
    ensures forall k :: 0 <= k < failures ==> delays[k] == Backoff(k + 1)
  {
    delays := [];
    var counter := new Connection();
    for k := 0 to failures
      invariant |delays| == k && counter.retry == k
      invariant forall j :: 0 <= j < k ==> delays[j] == Backoff(j + 1)
    {
      var d := counter.Closed();
      delays := delays + [d];
    }
  }

  /** With a kept counter the delay grows by a second per failure up to ten seconds, then stays. */
  lemma BackoffGrows(k: nat)
    ensures Backoff(k) <= Backoff(k + 1) <= 10000
    ensures k <= 10 ==> Backoff(k) == 1000 * k
    ensures k >= 10 ==> Backoff(k) == 10000
  {
  }

  // ---------------------------------------------------------------------------
  // Client state

  datatype HeatmapMode = LogScale | Thresholds

  /** `meta`: the placeholder the page starts with, or statistics the server sent. */
  datatype Stats = Placeholder | Received(meta: NewsFetcher.Meta)

  /** A parsed WebSocket message; `init` fields may be missing. */
  datatype Message =
    | Init(news: Option<seq<NewsItem>>, meta: Option<NewsFetcher.Meta>)
    | News(items: seq<NewsItem>)
    | MetaUpdate(update: NewsFetcher.Meta)
    | Other

  /** The parsed body of `GET /api/news`; either field may be missing. */
  datatype RestAnswer = RestAnswer(news: Option<seq<NewsItem>>, meta: Option<NewsFetcher.Meta>)

  /** The page's module state. */
  class Client {
    var allItems: seq<NewsItem>
    var unseenQueue: seq<NewsItem>
    var stats: Stats
    var activeSource: string
    var grouped: bool
    var bookmarkView: bool
    var bookmarks: set<string>
    var currentTheme: string
    var heatmapMode: HeatmapMode
    /** The REST fallback's `fetch('/api/news')` was sent and has not answered yet. */
    var fetchInFlight: bool

    /** Page load, with what local storage holds under `bookmarks` and `theme`. */
    constructor (storedBookmarks: seq<string>, storedTheme: Option<string>)
      ensures allItems == [] && unseenQueue == [] && stats == Placeholder
      ensures activeSource == "" && !grouped && !bookmarkView && heatmapMode == LogScale && !fetchInFlight
      ensures forall b :: b in bookmarks <==> b in storedBookmarks
      ensures currentTheme == if Truthy(storedTheme) then storedTheme.value else "default"
    {
      allItems := [];
      unseenQueue := [];
      stats := Placeholder;
      activeSource := "";
      grouped := false;
      bookmarkView := false;
      bookmarks := set b | b in storedBookmarks;
      currentTheme := if Truthy(storedTheme) then storedTheme.value else "default";
      heatmapMode := LogScale;
      fetchInFlight := false;
    }

    /** `ws.onmessage`: `init` replaces the list, `news` queues the new
        articles in front of the unseen ones, `meta` replaces the statistics. */
    method Receive(msg: Message)
      modifies this`allItems, this`unseenQueue, this`stats
      ensures msg.Init? ==> allItems == msg.news.GetOr([]) && unseenQueue == old(unseenQueue)
      ensures msg.Init? ==> stats == if msg.meta.Some? then Received(msg.meta.value) else old(stats)
      ensures msg.News? ==> unseenQueue == msg.items + old(unseenQueue) && allItems == old(allItems) && stats == old(stats)
      ensures msg.MetaUpdate? ==> stats == Received(msg.update) && allItems == old(allItems) && unseenQueue == old(unseenQueue)
      ensures msg.Other? ==> allItems == old(allItems) && unseenQueue == old(unseenQueue) && stats == old(stats)
    {
      match msg
      case Init(news, meta) =>
        allItems := news.GetOr([]);
        if meta.Some? {
          stats := Received(meta.value);
        }
      case News(items) =>
        unseenQueue := items + unseenQueue;
      case MetaUpdate(update) =>
        stats := Received(update);
      case Other =>
    }

    /** The "new articles" banner: show the queued articles above the rest. */
    method ClickBanner()
      modifies this`allItems, this`unseenQueue
      ensures unseenQueue == []
      ensures allItems == old(unseenQueue) + old(allItems)
    {
      if |unseenQueue| > 0 {
        allItems := unseenQueue + allItems;
        unseenQueue := [];
      }
    }

    /** The fallback timer, three seconds after load: the REST request is
        sent only when the list is still empty at that moment. */
    method StartFallback()
      modifies this`fetchInFlight
      ensures fetchInFlight <==> allItems == []
    {
      fetchInFlight := |allItems| == 0;
    }

    /** The REST answer arriving: when the request was sent and the answer
        holds a list, it replaces the list, whatever arrived over the
        WebSocket in the meantime; the statistics are replaced when sent. */
    method RestFallback(answer: RestAnswer)
      modifies this`allItems, this`stats, this`fetchInFlight
      ensures !fetchInFlight
      ensures old(fetchInFlight) && answer.news.Some? ==> allItems == answer.news.value
      ensures old(fetchInFlight) && answer.news.Some? && answer.meta.Some? ==> stats == Received(answer.meta.value)
      ensures !(old(fetchInFlight) && answer.news.Some? && answer.meta.Some?) ==> stats == old(stats)
      ensures !(old(fetchInFlight) && answer.news.Some?) ==> allItems == old(allItems)
    {
      if fetchInFlight && answer.news.Some? {
        allItems := answer.news.value;
        if answer.meta.Some? {
          stats := Received(answer.meta.value);
        }
      }
      fetchInFlight := false;
    }

    /** The star of an article card, whose `data-id` is `id`. */
    method ToggleBookmark(id: string)
      modifies this`bookmarks
      ensures bookmarks == Toggled(old(bookmarks), id)
    {
      if id in bookmarks {
        bookmarks := bookmarks - {id};
      } else {
        bookmarks := bookmarks + {id};
      }
    }

    /** A source chip; `src` is its `data-src`, empty for "All". */
    method SelectSource(src: string)
      modifies this`activeSource
      ensures activeSource == src
    {
      activeSource := src;
    }

    method ToggleGrouped()
      modifies this`grouped
      ensures grouped == !old(grouped)
    {
      grouped := !grouped;
    }

    method ToggleBookmarkView()
      modifies this`bookmarkView
      ensures bookmarkView == !old(bookmarkView)
    {
      bookmarkView := !bookmarkView;
    }

    method CycleTheme()
      modifies this`currentTheme
      ensures currentTheme == NextTheme(old(currentTheme))
    {
      var order := ThemeOrder;
      var idx := IndexOf(order, currentTheme);
      currentTheme := order[(idx + 1) % |order|];
    }

    method ToggleHeatmapMode()
      modifies this`heatmapMode
      ensures heatmapMode == if old(heatmapMode) == LogScale then Thresholds else LogScale
    {
      heatmapMode := if heatmapMode == LogScale then Thresholds else LogScale;
    }

    /** The articles `render` lists for the search text `search`. */
    function Listed(search: string): (r: seq<NewsItem>)
      reads this
      ensures Seqs.Subsequence(r, allItems)
      ensures forall x :: x in r <==> x in allItems && Shown(x, activeSource, bookmarkView, bookmarks, Lower(search))
    {
      VisibleSpec(allItems, activeSource, bookmarkView, bookmarks, search);
      var r := Visible(allItems, activeSource, bookmarkView, bookmarks, search);
      assert forall x :: x in r <==> multiset(r)[x] > 0;
      r
    }
  }

  /** The race of the fallback: the list is empty when the timer fires, an
      `init` fills it while the request is in flight, and the REST answer
      then replaces what `init` delivered. */
  method InitDuringFallback(c: Client, pushed: seq<NewsItem>, answer: RestAnswer)
    requires c.allItems == []
    modifies c
    ensures answer.news.Some? ==> c.allItems == answer.news.value
    ensures answer.news.None? ==> c.allItems == pushed
  {
    c.StartFallback();
    c.Receive(Init(Some(pushed), None));
    c.RestFallback(answer);
  }
}
