/** The array built-ins the pipeline chains together: `filter`, `flat`,
    `slice(0, n)` and a stable `sort` with a descending numeric comparator
    (`(a, b) => key(b) - key(a)`). */
module Seqs {

  /** `s.filter(p)`. */
  function Filter<T>(s: seq<T>, p: T -> bool): (r: seq<T>)
    ensures |r| <= |s|
    ensures forall k :: 0 <= k < |r| ==> r[k] in s && p(r[k])
    ensures forall k :: 0 <= k < |s| && p(s[k]) ==> s[k] in r
  {
    if s == [] then []
    else if p(s[0]) then [s[0]] + Filter(s[1..], p)
    else Filter(s[1..], p)
  }

  lemma {:induction false} FilterSnoc<T>(s: seq<T>, x: T, p: T -> bool)
    ensures Filter(s + [x], p) == Filter(s, p) + if p(x) then [x] else []
  {
    if s != [] {
      assert (s + [x])[1..] == s[1..] + [x];
      FilterSnoc(s[1..], x, p);
    }
  }

  /** `a` is `b` with some elements left out and the rest kept in order. */
  ghost predicate Subsequence<T>(a: seq<T>, b: seq<T>)
    decreases |b|
  {
    if a == [] then true
    else if b == [] then false
    else (a[0] == b[0] && Subsequence(a[1..], b[1..])) || Subsequence(a, b[1..])
  }

  ghost predicate Distinct<T>(s: seq<T>) {
    forall i, j :: 0 <= i < j < |s| ==> s[i] != s[j]
  }

  lemma {:induction false} SubsequenceSnoc<T>(a: seq<T>, b: seq<T>, x: T)
    requires Subsequence(a, b)
    ensures Subsequence(a + [x], b + [x])
    ensures Subsequence(a, b + [x])
    decreases |b|
  {
    if a == [] {
      if b != [] {
        assert (b + [x])[1..] == b[1..] + [x];
        SubsequenceSnoc(a, b[1..], x);
      } else {
        assert Subsequence(([x] + a)[1..], b);
      }
    } else {
      assert (a + [x])[0] == a[0] && (a + [x])[1..] == a[1..] + [x];
      assert (b + [x])[0] == b[0] && (b + [x])[1..] == b[1..] + [x];
      if a[0] == b[0] && Subsequence(a[1..], b[1..]) {
        SubsequenceSnoc(a[1..], b[1..], x);
      } else {
        SubsequenceSnoc(a, b[1..], x);
      }
    }
  }

  lemma {:induction false} SubsequenceDistinct<T>(a: seq<T>, b: seq<T>)
    requires Subsequence(a, b) && Distinct(b)
    ensures Distinct(a)
    ensures forall k :: 0 <= k < |a| ==> a[k] in b
    decreases |b|
  {
    if a != [] {
      if a[0] == b[0] && Subsequence(a[1..], b[1..]) {
        SubsequenceDistinct(a[1..], b[1..]);
        forall k | 0 < k < |a| ensures a[k] != a[0] {
          assert a[k] == a[1..][k - 1];
          var m :| 0 <= m < |b[1..]| && b[1..][m] == a[k];
          assert b[m + 1] == a[k];
        }
      } else {
        SubsequenceDistinct(a, b[1..]);
      }
    }
  }

  /** Filtering keeps exactly the elements that pass, with their multiplicities, in their order. */
  lemma {:induction false} FilterKeepsOrderAndCount<T>(s: seq<T>, p: T -> bool)
    ensures Subsequence(Filter(s, p), s)
    ensures forall x :: multiset(Filter(s, p))[x] == if p(x) then multiset(s)[x] else 0
  {
    if s != [] {
      FilterKeepsOrderAndCount(s[1..], p);
      assert s == [s[0]] + s[1..];
    }
  }

  /** Two filters in a row are one filter by the conjunction. */
  lemma {:induction false} FilterFilter<T>(s: seq<T>, p: T -> bool, q: T -> bool, both: T -> bool)
    requires forall x :: both(x) == (p(x) && q(x))
    ensures Filter(Filter(s, p), q) == Filter(s, both)
  {
    if s != [] {
      FilterFilter(s[1..], p, q, both);
    }
  }

  /** Filters by predicates that agree on every element give the same result. */
  lemma {:induction false} FilterCongruent<T>(s: seq<T>, p: T -> bool, q: T -> bool)
    requires forall x :: x in s ==> p(x) == q(x)
    ensures Filter(s, p) == Filter(s, q)
  {
    if s != [] {
      assert forall x :: x in s[1..] ==> x in s;
      FilterCongruent(s[1..], p, q);
    }
  }

  /** A filter every element passes keeps everything. */
  lemma {:induction false} FilterAll<T>(s: seq<T>, p: T -> bool)
    requires forall x :: x in s ==> p(x)
    ensures Filter(s, p) == s
  {
    if s != [] {
      assert forall x :: x in s[1..] ==> x in s;
      FilterAll(s[1..], p);
      assert s == [s[0]] + s[1..];
    }
  }

  /** `if (cond) s = s.filter(p)` is one filter by `cond ==> p`. */
  lemma FilterWhen<T>(s: seq<T>, cond: bool, p: T -> bool, guarded: T -> bool)
    requires forall x :: guarded(x) == (cond ==> p(x))
    ensures (if cond then Filter(s, p) else s) == Filter(s, guarded)
  {
    if cond {
      FilterCongruent(s, p, guarded);
    } else {
      FilterAll(s, guarded);
    }
  }

  /** Three guarded filters in a row are one filter by the conjunction of the guarded predicates. */
  lemma FilterWhenThree<T>(s: seq<T>, c1: bool, p1: T -> bool, c2: bool, p2: T -> bool, c3: bool, p3: T -> bool, all: T -> bool)
    requires forall x :: all(x) == ((c1 ==> p1(x)) && (c2 ==> p2(x)) && (c3 ==> p3(x)))
    ensures (var a := if c1 then Filter(s, p1) else s;
             var b := if c2 then Filter(a, p2) else a;
             if c3 then Filter(b, p3) else b) == Filter(s, all)
  {
    var g1: T -> bool := x => c1 ==> p1(x);
    var g2: T -> bool := x => c2 ==> p2(x);
    var g3: T -> bool := x => c3 ==> p3(x);
    var g12: T -> bool := x => g1(x) && g2(x);
    var a := if c1 then Filter(s, p1) else s;
    var b := if c2 then Filter(a, p2) else a;
    FilterWhen(s, c1, p1, g1);
    FilterWhen(a, c2, p2, g2);
    FilterWhen(b, c3, p3, g3);
    FilterFilter(s, g1, g2, g12);
    FilterFilter(s, g12, g3, all);
  }

  lemma {:induction false} DistinctCount<T>(s: seq<T>)
    requires Distinct(s)
    ensures forall x :: multiset(s)[x] <= 1
  {
    if s != [] {
      assert Distinct(s[1..]);
      DistinctCount(s[1..]);
      assert s == [s[0]] + s[1..];
      assert s[0] !in s[1..];
    }
  }

  lemma RepeatCount<T>(s: seq<T>, i: nat, j: nat)
    requires i < j < |s| && s[i] == s[j]
    ensures multiset(s)[s[i]] >= 2
  {
    assert s == s[..j] + s[j..];
    assert s[i] in s[..j];
    assert s[j..][0] == s[j];
  }

  /** A rearrangement of a list without repeats has none either. */
  lemma PermutationDistinct<T>(s: seq<T>, t: seq<T>)
    requires multiset(s) == multiset(t) && Distinct(t)
    ensures Distinct(s)
  {
    DistinctCount(t);
    forall i, j | 0 <= i < j < |s| ensures s[i] != s[j] {
      if s[i] == s[j] {
        RepeatCount(s, i, j);
      }
    }
  }

  /** `ss.flat()`. */
  function Flatten<T>(ss: seq<seq<T>>): seq<T> {
    if ss == [] then [] else ss[0] + Flatten(ss[1..])
  }

  /** Flattening lists of at most `n` elements each gives at most `n` per list. */
  lemma {:induction false} FlattenBounded<T>(ss: seq<seq<T>>, n: nat)
    requires forall i :: 0 <= i < |ss| ==> |ss[i]| <= n
    ensures |Flatten(ss)| <= n * |ss|
  {
    if ss != [] {
      FlattenBounded(ss[1..], n);
      assert n * |ss| == n + n * |ss[1..]|;
    }
  }

  /** Every element of a flattened list comes from one of the lists, and every element of a list is kept. */
  lemma {:induction false} FlattenMembers<T>(ss: seq<seq<T>>, x: T)
    ensures x in Flatten(ss) <==> exists i :: 0 <= i < |ss| && x in ss[i]
  {
    if ss != [] {
      FlattenMembers(ss[1..], x);
      if exists i :: 0 <= i < |ss| && x in ss[i] {
        var i :| 0 <= i < |ss| && x in ss[i];
        if i > 0 {
          assert x in ss[1..][i - 1];
        }
      }
      if exists i :: 0 <= i < |ss[1..]| && x in ss[1..][i] {
        var i :| 0 <= i < |ss[1..]| && x in ss[1..][i];
        assert x in ss[i + 1];
      }
    }
  }

  /** `s.slice(0, n)`. */
  function Take<T>(s: seq<T>, n: nat): (r: seq<T>)
    ensures |r| == if |s| < n then |s| else n
    ensures r <= s
  {
    if |s| <= n then s else s[..n]
  }

  /** A prefix holds no element more often than the whole, and a prefix at least as long as the whole is the whole. */
  lemma TakeMultiset<T>(s: seq<T>, n: nat)
    ensures multiset(Take(s, n)) <= multiset(s)
    ensures |s| <= n ==> Take(s, n) == s
  {
    if |s| > n {
      assert s == s[..n] + s[n..];
    }
  }

  ghost predicate SortedDesc<T>(s: seq<T>, key: T -> int) {
    forall i, j :: 0 <= i < j < |s| ==> key(s[i]) >= key(s[j])
  }

  /** Places `x` into `s` after every element of strictly larger key. */
  function Insert<T>(x: T, s: seq<T>, key: T -> int): seq<T> {
    if s == [] then [x]
    else if key(s[0]) > key(x) then [s[0]] + Insert(x, s[1..], key)
    else [x] + s
  }

  lemma {:induction false} InsertCount<T>(x: T, s: seq<T>, key: T -> int)
    ensures multiset(Insert(x, s, key)) == multiset(s) + multiset{x}
    ensures |Insert(x, s, key)| == |s| + 1
    ensures Insert(x, s, key)[0] == x || (|s| > 0 && Insert(x, s, key)[0] == s[0])
  {
    if s != [] && key(s[0]) > key(x) {
      InsertCount(x, s[1..], key);
      assert s == [s[0]] + s[1..];
    }
  }

  lemma {:induction false} InsertSorted<T>(x: T, s: seq<T>, key: T -> int)
    requires SortedDesc(s, key)
    ensures SortedDesc(Insert(x, s, key), key)
  {
    if s != [] && key(s[0]) > key(x) {
      var t := Insert(x, s[1..], key);
      InsertSorted(x, s[1..], key);
      InsertCount(x, s[1..], key);
      ConsSorted(s[0], t, key);
    }
  }

  /** Putting an element of key at least the first in front of a sorted list keeps it sorted. */
  lemma ConsSorted<T>(h: T, t: seq<T>, key: T -> int)
    requires SortedDesc(t, key) && (t != [] ==> key(h) >= key(t[0]))
    ensures SortedDesc([h] + t, key)
  {
    var r := [h] + t;
    forall i, j | 0 <= i < j < |r| ensures key(r[i]) >= key(r[j]) {
      if i == 0 {
        assert r[j] == t[j - 1];
      } else {
        assert r[i] == t[i - 1] && r[j] == t[j - 1];
      }
    }
  }

  /** `s.slice().sort((a, b) => key(b) - key(a))`: a stable insertion sort, largest key first. */
  function SortDesc<T>(s: seq<T>, key: T -> int): (r: seq<T>)
    ensures SortedDesc(r, key)
    ensures multiset(r) == multiset(s)
    ensures |r| == |s|
  {
    if s == [] then []
    else
      var t := SortDesc(s[1..], key);
      InsertFirst(s, t, key);
      Insert(s[0], t, key)
  }

  /** Inserting the head of `s` into a sorted rearrangement of its tail sorts `s`. */
  lemma InsertFirst<T>(s: seq<T>, t: seq<T>, key: T -> int)
    requires s != [] && SortedDesc(t, key) && multiset(t) == multiset(s[1..]) && |t| == |s| - 1
    ensures SortedDesc(Insert(s[0], t, key), key)
    ensures multiset(Insert(s[0], t, key)) == multiset(s)
    ensures |Insert(s[0], t, key)| == |s|
  {
    InsertCount(s[0], t, key);
    InsertSorted(s[0], t, key);
    assert s == [s[0]] + s[1..];
  }

  /** What a sorted prefix leaves out ranks no higher than anything it keeps:
      the first `n` of a sort are the `n` largest. */
  lemma TakeSortedIsTop<T>(s: seq<T>, key: T -> int, n: nat, x: T, y: T)
    requires SortedDesc(s, key)
    requires x in Take(s, n)
    requires y in s && y !in Take(s, n)
    ensures key(y) <= key(x)
  {
    var i :| 0 <= i < |Take(s, n)| && Take(s, n)[i] == x;
    var j :| 0 <= j < |s| && s[j] == y;
  }
}
