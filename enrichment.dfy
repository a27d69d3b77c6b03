/** Keyword enrichment of an article's text (api/newsFetcher.js): a polarity
    label from two fixed keyword lists, and topic tags from a fixed
    category table. Both test keywords as substrings of the lower-cased text. */
module Enrichment {
  import opened Js
  import Seqs

  const Positive: seq<string> := ["surge", "rally", "gain", "gains", "bullish", "adoption", "upgrade",
    "institutional", "etf approval", "breakout", "record", "all-time high", "partnership", "integration"]

  const Negative: seq<string> := ["hack", "exploit", "exploded", "drop", "crash", "plunge", "bearish",
    "lawsuit", "ban", "regulation", "regulatory crackdown", "fraud", "liquidation", "liquidations", "attack"]

  datatype Sentiment = Bullish | Bearish | Neutral

  /** How many keywords of `keys` occur in `lower`: one each, however often it occurs. */
  function Hits(keys: seq<string>, lower: string): nat {
    if keys == [] then 0
    else Hits(keys[..|keys| - 1], lower) + if Includes(lower, keys[|keys| - 1]) then 1 else 0
  }

  /** The set of keywords of `keys` found in `lower`. */
  function Found(keys: seq<string>, lower: string): set<string> {
    set k | k in keys && Includes(lower, k)
  }

  /** The running score: +1 per positive keyword present, -1 per negative one. */
  function Score(text: string): int {
    var lower := Lower(text);
    Hits(Positive, lower) - Hits(Negative, lower)
  }

  function Classify(score: int): Sentiment {
    if score > 0 then Bullish else if score < 0 then Bearish else Neutral
  }

  /** `computeSentiment(text)`. */
  function SentimentOf(text: string): Sentiment {
    Classify(Score(text))
  }

  /** `keys.forEach(k => { if (lower.includes(k)) score += 1; })`, or `-= 1`
      when `positive` is false. */
  method AddHits(score: int, keys: seq<string>, lower: string, positive: bool) returns (r: int)
    ensures r == score + if positive then Hits(keys, lower) else -(Hits(keys, lower) as int)
  {
    r := score;
    for i := 0 to |keys|
      invariant r == score + if positive then Hits(keys[..i], lower) else -(Hits(keys[..i], lower) as int)
    {
      assert keys[..i + 1][..i] == keys[..i];
      if Includes(lower, keys[i]) {
        r := if positive then r + 1 else r - 1;
      }
    }
    assert keys[..|keys|] == keys;
  }

  /** `computeSentiment`: two passes over the keyword lists updating a score. */
  method ComputeSentiment(text: string) returns (s: Sentiment)
    ensures s == SentimentOf(text)
  {
    var lower := Lower(text);
    var score := AddHits(0, Positive, lower, true);
    score := AddHits(score, Negative, lower, false);
    if score > 0 {
      s := Bullish;
    } else if score < 0 {
      s := Bearish;
    } else {
      s := Neutral;
    }
  }

  /** Over a list without repeats, the running count is the number of distinct keywords present. */
  lemma {:induction false} HitsCountsFound(keys: seq<string>, lower: string)
    requires Seqs.Distinct(keys)
    ensures Hits(keys, lower) == |Found(keys, lower)|
  {
    if keys != [] {
      var p, last := keys[..|keys| - 1], keys[|keys| - 1];
      assert keys == p + [last];
      assert Seqs.Distinct(p);
      HitsCountsFound(p, lower);
      assert last !in p;
      forall w ensures w in Found(keys, lower) <==> w in Found(p, lower) || (w == last && Includes(lower, last)) {
        assert w in keys <==> w in p || w == last;
      }
      if Includes(lower, last) {
        assert Found(keys, lower) == Found(p, lower) + {last};
      } else {
        assert Found(keys, lower) == Found(p, lower);
      }
    }
  }

  lemma KeywordsDistinct()
    ensures Seqs.Distinct(Positive) && Seqs.Distinct(Negative)
  {
  }

  /** The label compares the number of distinct positive keywords present
      with the number of distinct negative ones. */
  lemma SentimentByFoundKeywords(text: string)
    ensures SentimentOf(text) == Bullish <==> |Found(Positive, Lower(text))| > |Found(Negative, Lower(text))|
    ensures SentimentOf(text) == Bearish <==> |Found(Positive, Lower(text))| < |Found(Negative, Lower(text))|
    ensures SentimentOf(text) == Neutral <==> |Found(Positive, Lower(text))| == |Found(Negative, Lower(text))|
  {
    KeywordsDistinct();
    HitsCountsFound(Positive, Lower(text));
    HitsCountsFound(Negative, Lower(text));
  }

  /** Repeating a keyword adds nothing: texts with the same keywords present get the same label. */
  lemma SentimentIgnoresRepetition(a: string, b: string)
    requires Found(Positive, Lower(a)) == Found(Positive, Lower(b))
    requires Found(Negative, Lower(a)) == Found(Negative, Lower(b))
    ensures SentimentOf(a) == SentimentOf(b)
  {
    SentimentByFoundKeywords(a);
    SentimentByFoundKeywords(b);
  }

  /** Overlapping keywords both count: "gains" contains both `gain` and `gains`. */
  lemma GainsHitsTwice()
    ensures Hits(Positive, "gains") == 2
  {
    assert OccursAt("gains", "gain", 0);
    assert OccursAt("gains", "gains", 0);
    forall k | k in Positive && k != "gain" && k != "gains" ensures !Includes("gains", k) {
    }
    assert Found(Positive, "gains") == {"gain", "gains"};
    KeywordsDistinct();
    HitsCountsFound(Positive, "gains");
  }

  datatype Category = Category(name: string, keywords: seq<string>)

  /** `CATEGORY_KEYWORDS`, in the order `Object.entries` lists it. */
  const CategoryTable: seq<Category> := [
    Category("regulation", ["sec", "regulation", "regulatory", "law", "compliance", "license", "ban"]),
    Category("hack", ["hack", "exploit", "attack", "breach", "drain"]),
    Category("defi", ["defi", "dex", "liquidity pool", "yield", "staking", "amm"]),
    Category("nft", ["nft", "nfts", "metaverse", "collectible", "opensea"]),
    Category("layer2", ["layer2", "optimistic", "zk", "rollup", "arbitrum", "optimism", "polygon", "zkSync", "starknet"]),
    Category("etf", ["etf", "exchange-traded fund"]),
    Category("adoption", ["adoption", "integration", "payment", "merchant", "onboard"]),
    Category("mining", ["mining", "hashrate", "miner", "difficulty"]),
    Category("stablecoin", ["stablecoin", "usdt", "usdc", "algorithmic"]),
    Category("exchange", ["exchange", "listing", "delist", "cz", "coinbase", "binance", "kraken"])
  ]

  function Names(table: seq<Category>): (ns: seq<string>)
    ensures |ns| == |table|
    ensures forall j :: 0 <= j < |table| ==> ns[j] == table[j].name
  {
    seq(|table|, j requires 0 <= j < |table| => table[j].name)
  }

  /** `words.some(w => lower.includes(w))`. */
  function AnyIncluded(words: seq<string>, lower: string): (b: bool)
    ensures b <==> exists j :: 0 <= j < |words| && Includes(lower, words[j])
  {
    if words == [] then false
    else Includes(lower, words[0]) || AnyIncluded(words[1..], lower)
  }

  /** The names of the categories of `table` one of whose keywords occurs in `lower`, in table order. */
  function Selected(table: seq<Category>, lower: string): seq<string> {
    if table == [] then []
    else
      var c := table[|table| - 1];
      Selected(table[..|table| - 1], lower) + if AnyIncluded(c.keywords, lower) then [c.name] else []
  }

  /** `computeCategories(text)`. */
  function CategoriesOf(text: string): seq<string> {
    Selected(CategoryTable, Lower(text))
  }

  /** `computeCategories`: one pass over the table pushing matching names. */
  method ComputeCategories(text: string) returns (cats: seq<string>)
    ensures cats == CategoriesOf(text)
  {
    var lower := Lower(text);
    cats := [];
    for i := 0 to |CategoryTable|
      invariant cats == Selected(CategoryTable[..i], lower)
    {
      assert CategoryTable[..i + 1][..i] == CategoryTable[..i];
      if AnyIncluded(CategoryTable[i].keywords, lower) {
        cats := cats + [CategoryTable[i].name];
      }
    }
    assert CategoryTable[..|CategoryTable|] == CategoryTable;
  }

  lemma {:induction false} SelectedInOrder(table: seq<Category>, lower: string)
    ensures Seqs.Subsequence(Selected(table, lower), Names(table))
  {
    if table != [] {
      var p, c := table[..|table| - 1], table[|table| - 1];
      SelectedInOrder(p, lower);
      assert Names(table) == Names(p) + [c.name];
      Seqs.SubsequenceSnoc(Selected(p, lower), Names(p), c.name);
      if AnyIncluded(c.keywords, lower) {
        assert Selected(table, lower) == Selected(p, lower) + [c.name];
      } else {
        assert Selected(table, lower) == Selected(p, lower);
      }
    }
  }

  /** `table[j]` picks `x`: it is named `x` and one of its keywords occurs. */
  predicate Picks(table: seq<Category>, j: int, x: string, lower: string) {
    0 <= j < |table| && table[j].name == x && AnyIncluded(table[j].keywords, lower)
  }

  lemma PicksSnoc(table: seq<Category>, p: seq<Category>, x: string, lower: string)
    requires table != [] && p == table[..|table| - 1]
    ensures (exists j :: Picks(table, j, x, lower)) <==>
      (exists j :: Picks(p, j, x, lower)) || Picks(table, |table| - 1, x, lower)
  {
    if exists j :: Picks(table, j, x, lower) {
      var j :| Picks(table, j, x, lower);
      if j < |p| {
        assert Picks(p, j, x, lower);
      }
    }
    if exists j :: Picks(p, j, x, lower) {
      var j :| Picks(p, j, x, lower);
      assert Picks(table, j, x, lower);
    }
  }

  lemma {:induction false} SelectedMembers(table: seq<Category>, lower: string, x: string)
    ensures x in Selected(table, lower) <==> exists j :: Picks(table, j, x, lower)
  {
    if table != [] {
      var p, c := table[..|table| - 1], table[|table| - 1];
      SelectedMembers(p, lower, x);
      PicksSnoc(table, p, x, lower);
      assert Selected(table, lower) == Selected(p, lower) + if AnyIncluded(c.keywords, lower) then [c.name] else [];
    }
  }

  /** A name is selected exactly when some category of that name has a keyword
      in the text, and the selection keeps the table's order. */
  lemma SelectedSpec(table: seq<Category>, lower: string)
    ensures Seqs.Subsequence(Selected(table, lower), Names(table))
    ensures forall x :: x in Selected(table, lower) <==> exists j :: Picks(table, j, x, lower)
  {
    SelectedInOrder(table, lower);
    forall x ensures x in Selected(table, lower) <==> exists j :: Picks(table, j, x, lower) {
      SelectedMembers(table, lower, x);
    }
  }

  lemma TableNamesDistinct()
    ensures Seqs.Distinct(Names(CategoryTable))
  {
  }

  /** With distinct names, a category's name is selected exactly when one of its own keywords occurs. */
  lemma SelectedExactly(table: seq<Category>, lower: string, j: int)
    requires Seqs.Distinct(Names(table)) && 0 <= j < |table|
    ensures table[j].name in Selected(table, lower) <==> AnyIncluded(table[j].keywords, lower)
  {
    var x := table[j].name;
    SelectedMembers(table, lower, x);
    if AnyIncluded(table[j].keywords, lower) {
      assert Picks(table, j, x, lower);
    }
  }

  /** The tags of a text: a category is tagged exactly when one of its keywords
      occurs in the lower-cased text; tags come in table order, each at most once. */
  lemma CategoriesSpec(text: string)
    ensures Seqs.Subsequence(CategoriesOf(text), Names(CategoryTable))
    ensures Seqs.Distinct(CategoriesOf(text))
    ensures forall j :: 0 <= j < |CategoryTable| ==>
      (CategoryTable[j].name in CategoriesOf(text) <==> AnyIncluded(CategoryTable[j].keywords, Lower(text)))
  {
    var lower := Lower(text);
    SelectedInOrder(CategoryTable, lower);
    TableNamesDistinct();
    Seqs.SubsequenceDistinct(CategoriesOf(text), Names(CategoryTable));
    forall j | 0 <= j < |CategoryTable|
      ensures CategoryTable[j].name in CategoriesOf(text) <==> AnyIncluded(CategoryTable[j].keywords, lower)
    {
      SelectedExactly(CategoryTable, lower, j);
    }
  }

  /** The table's `zkSync` has an upper-case letter and is tested against
      lower-cased text, so it never matches. */
  lemma ZkSyncNeverMatches(text: string)
    ensures !Includes(Lower(text), "zkSync")
  {
    UpperNeverIncluded(text, "zkSync", 2);
  }
}
