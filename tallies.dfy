/** Counting objects: `obj[k] = (obj[k] || 0) + 1` over a sequence of keys,
    read back with `Object.entries(obj)`, whose pairs come in the order the
    keys were first inserted. */
module Tallies {

  /** One `[key, count]` pair of `Object.entries`. */
  datatype Entry = Entry(key: string, count: nat)

  function Keys(t: seq<Entry>): (ks: seq<string>)
    ensures |ks| == |t|
    ensures forall i :: 0 <= i < |t| ==> ks[i] == t[i].key
  {
    seq(|t|, i requires 0 <= i < |t| => t[i].key)
  }

  function Sum(t: seq<Entry>): nat {
    if t == [] then 0 else t[0].count + Sum(t[1..])
  }

  /** Distinct keys, every count positive: what an object built by counting looks like. */
  ghost predicate WellFormed(t: seq<Entry>) {
    && (forall i, j :: 0 <= i < j < |t| ==> t[i].key != t[j].key)
    && (forall i :: 0 <= i < |t| ==> t[i].count >= 1)
  }

  /** `obj[k] || 0`. */
  function Lookup(t: seq<Entry>, k: string): nat {
    if t == [] then 0 else if t[0].key == k then t[0].count else Lookup(t[1..], k)
  }

  /** `obj[k] = (obj[k] || 0) + 1`: a known key counts up in place, a new key goes last. */
  function Bump(t: seq<Entry>, k: string): seq<Entry> {
    if t == [] then [Entry(k, 1)]
    else if t[0].key == k then [Entry(k, t[0].count + 1)] + t[1..]
    else [t[0]] + Bump(t[1..], k)
  }

  /** The counting object after counting every key of `xs`, left to right. */
  function Tally(xs: seq<string>): seq<Entry> {
    if xs == [] then [] else Bump(Tally(xs[..|xs| - 1]), xs[|xs| - 1])
  }

  lemma {:induction false} LookupEntry(t: seq<Entry>, i: nat)
    requires WellFormed(t) && i < |t|
    ensures Lookup(t, t[i].key) == t[i].count
  {
    if i > 0 {
      LookupEntry(t[1..], i - 1);
    }
  }

  lemma {:induction false} LookupPositive(t: seq<Entry>, k: string)
    requires WellFormed(t)
    ensures k in Keys(t) <==> Lookup(t, k) > 0
  {
    if t != [] {
      LookupPositive(t[1..], k);
      assert Keys(t) == [t[0].key] + Keys(t[1..]);
    }
  }

  lemma KeysCons(e: Entry, t: seq<Entry>)
    ensures Keys([e] + t) == [e.key] + Keys(t)
  {
  }

  lemma {:induction false} BumpKeys(t: seq<Entry>, k: string)
    ensures Keys(Bump(t, k)) == if k in Keys(t) then Keys(t) else Keys(t) + [k]
  {
    if t != [] {
      var rest := t[1..];
      assert t == [t[0]] + rest;
      KeysCons(t[0], rest);
      assert k in Keys(t) <==> t[0].key == k || k in Keys(rest);
      if t[0].key == k {
        assert Bump(t, k) == [Entry(k, t[0].count + 1)] + rest;
        KeysCons(Entry(k, t[0].count + 1), rest);
      } else {
        assert Bump(t, k) == [t[0]] + Bump(rest, k);
        BumpKeys(rest, k);
        KeysCons(t[0], Bump(rest, k));
        if k !in Keys(rest) {
          assert [t[0].key] + (Keys(rest) + [k]) == ([t[0].key] + Keys(rest)) + [k];
        }
      }
    }
  }

  lemma {:induction false} BumpLookup(t: seq<Entry>, k: string, x: string)
    ensures Lookup(Bump(t, k), x) == Lookup(t, x) + if x == k then 1 else 0
  {
    if t != [] && t[0].key != k {
      BumpLookup(t[1..], k, x);
    }
  }

  lemma {:induction false} BumpSum(t: seq<Entry>, k: string)
    ensures Sum(Bump(t, k)) == Sum(t) + 1
  {
    if t != [] && t[0].key != k {
      BumpSum(t[1..], k);
    }
  }

  lemma {:induction false} BumpPositive(t: seq<Entry>, k: string)
    requires forall i :: 0 <= i < |t| ==> t[i].count >= 1
    ensures forall i :: 0 <= i < |Bump(t, k)| ==> Bump(t, k)[i].count >= 1
  {
    if t != [] && t[0].key != k {
      var rest := t[1..];
      BumpPositive(rest, k);
      assert Bump(t, k) == [t[0]] + Bump(rest, k);
    }
  }

  lemma BumpWellFormed(t: seq<Entry>, k: string)
    requires WellFormed(t)
    ensures WellFormed(Bump(t, k))
  {
    var b := Bump(t, k);
    BumpKeys(t, k);
    BumpPositive(t, k);
    forall i, j | 0 <= i < j < |b| ensures b[i].key != b[j].key {
      assert b[i].key == Keys(b)[i] && b[j].key == Keys(b)[j];
      if j < |t| {
        assert Keys(t)[i] == t[i].key && Keys(t)[j] == t[j].key;
      }
    }
  }

  /** Counting one more key: its count goes up by one, nothing else changes,
      and the key is appended when it is new. */
  lemma BumpSpec(t: seq<Entry>, k: string)
    requires WellFormed(t)
    ensures WellFormed(Bump(t, k))
    ensures Sum(Bump(t, k)) == Sum(t) + 1
    ensures forall x :: Lookup(Bump(t, k), x) == Lookup(t, x) + if x == k then 1 else 0
    ensures Keys(Bump(t, k)) == if k in Keys(t) then Keys(t) else Keys(t) + [k]
  {
    BumpWellFormed(t, k);
    BumpSum(t, k);
    BumpKeys(t, k);
    forall x ensures Lookup(Bump(t, k), x) == Lookup(t, x) + if x == k then 1 else 0 {
      BumpLookup(t, k, x);
    }
  }

  /** The counting object holds, for every key, exactly the number of times
      it occurs in `xs`; the counts add up to `|xs|`. */
  lemma {:induction false} TallySpec(xs: seq<string>)
    ensures WellFormed(Tally(xs))
    ensures Sum(Tally(xs)) == |xs|
    ensures forall x :: Lookup(Tally(xs), x) == multiset(xs)[x]
  {
    if xs != [] {
      var p, last := xs[..|xs| - 1], xs[|xs| - 1];
      assert xs == p + [last];
      assert Tally(xs) == Bump(Tally(p), last);
      assert multiset(xs) == multiset(p) + multiset{last};
      TallySpec(p);
      BumpSpec(Tally(p), last);
    }
  }

  /** Read entry by entry: each pair's count is the key's number of
      occurrences, and a key has a pair exactly when it occurs. */
  lemma TallyEntries(xs: seq<string>)
    ensures WellFormed(Tally(xs))
    ensures Sum(Tally(xs)) == |xs|
    ensures forall i :: 0 <= i < |Tally(xs)| ==> Tally(xs)[i].count == multiset(xs)[Tally(xs)[i].key]
    ensures forall x :: x in Keys(Tally(xs)) <==> x in xs
  {
    TallySpec(xs);
    forall i | 0 <= i < |Tally(xs)| ensures Tally(xs)[i].count == multiset(xs)[Tally(xs)[i].key] {
      LookupEntry(Tally(xs), i);
    }
    forall x ensures x in Keys(Tally(xs)) <==> x in xs {
      LookupPositive(Tally(xs), x);
    }
  }

  lemma TallySnoc(xs: seq<string>, x: string)
    ensures Tally(xs + [x]) == Bump(Tally(xs), x)
  {
    assert (xs + [x])[..|xs|] == xs;
  }
}
