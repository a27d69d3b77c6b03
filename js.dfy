/** The few JavaScript value rules the news pipeline leans on: optional
    strings and their truthiness, `||` on them, ASCII `toLowerCase`,
    `String.prototype.includes`, and the word matcher `/\b[a-z]{3,}\b/g`. */
module Js {
  import Seqs

  datatype Option<T> = None | Some(value: T) {
    function GetOr(default: T): T {
      match this
      case Some(v) => v
      case None => default
    }
  }

  /** A string-valued property that may be `undefined`: truthy when present and non-empty. */
  predicate Truthy(o: Option<string>) {
    o.Some? && o.value != ""
  }

  /** `a || b` on two optional strings. */
  function Or(a: Option<string>, b: Option<string>): (r: Option<string>)
    ensures Truthy(a) ==> r == a
    ensures !Truthy(a) ==> r == b
  {
    if Truthy(a) then a else b
  }

  /** `s || ''` */
  function OrEmpty(a: Option<string>): (r: string)
    ensures Truthy(a) ==> r == a.value
    ensures !Truthy(a) ==> r == ""
  {
    if Truthy(a) then a.value else ""
  }

  predicate IsUpper(c: char) {
    'A' <= c <= 'Z'
  }

  function LowerChar(c: char): (r: char)
    ensures !IsUpper(r)
    ensures !IsUpper(c) ==> r == c
  {
    if IsUpper(c) then (c as int - 'A' as int + 'a' as int) as char else c
  }

  /** `toLowerCase`, on the ASCII letters. */
  function Lower(s: string): (r: string)
    ensures |r| == |s|
    ensures forall i :: 0 <= i < |s| ==> r[i] == LowerChar(s[i])
  {
    seq(|s|, i requires 0 <= i < |s| => LowerChar(s[i]))
  }

  /** `k` occurs in `s` at position `i`. */
  predicate OccursAt(s: string, k: string, i: int) {
    0 <= i && i + |k| <= |s| && s[i..i + |k|] == k
  }

  /** `s.includes(k)`: `k` occurs somewhere in `s` as a contiguous substring. */
  function Includes(s: string, k: string): (b: bool)
    ensures b <==> exists i :: OccursAt(s, k, i)
    decreases |s|
  {
    if |k| > |s| then
      false
    else if k <= s then
      assert OccursAt(s, k, 0);
      true
    else
      var b := Includes(s[1..], k);
      if b then
        var i :| OccursAt(s[1..], k, i);
        OccursAfterFirst(s, k, i);
        true
      else
        NotAtStart(s, k);
        forall i | OccursAt(s, k, i) ensures OccursAt(s[1..], k, i - 1) {
          OccursPastFirst(s, k, i);
        }
        false
  }

  lemma NotAtStart(s: string, k: string)
    requires !(k <= s)
    ensures !OccursAt(s, k, 0)
  {
  }

  lemma OccursAfterFirst(s: string, k: string, i: int)
    requires s != [] && OccursAt(s[1..], k, i)
    ensures OccursAt(s, k, i + 1)
  {
    assert s[i + 1..i + 1 + |k|] == s[1..][i..i + |k|];
  }

  lemma OccursPastFirst(s: string, k: string, i: int)
    requires 0 < i && OccursAt(s, k, i)
    ensures OccursAt(s[1..], k, i - 1)
  {
    assert s[1..][i - 1..i - 1 + |k|] == s[i..i + |k|];
  }

  /** A keyword containing an upper-case letter is never found in lower-cased text. */
  lemma UpperNeverIncluded(text: string, k: string, j: nat)
    requires j < |k| && IsUpper(k[j])
    ensures !Includes(Lower(text), k)
  {
  }

  /** `\w` of a regular expression without the `u` flag. */
  predicate IsWordChar(c: char) {
    'a' <= c <= 'z' || 'A' <= c <= 'Z' || '0' <= c <= '9' || c == '_'
  }

  predicate IsLetter(c: char) {
    'a' <= c <= 'z'
  }

  /** What `\b[a-z]{3,}\b` can match: three or more letters a-z. */
  predicate IsToken(w: string) {
    |w| >= 3 && forall i :: 0 <= i < |w| ==> IsLetter(w[i])
  }

  /** Length of the run of word characters that starts `s`. */
  function RunLength(s: string): (n: nat)
    ensures n <= |s|
    ensures forall i :: 0 <= i < n ==> IsWordChar(s[i])
    ensures n == |s| || !IsWordChar(s[n])
  {
    if s == [] || !IsWordChar(s[0]) then 0 else 1 + RunLength(s[1..])
  }

  /** The maximal runs of word characters of `s`, left to right. */
  function Words(s: string): (ws: seq<string>)
    ensures forall k :: 0 <= k < |ws| ==> |ws[k]| > 0 && forall i :: 0 <= i < |ws[k]| ==> IsWordChar(ws[k][i])
    decreases |s|
  {
    if s == [] then []
    else if !IsWordChar(s[0]) then Words(s[1..])
    else
      var n := RunLength(s);
      [s[..n]] + Words(s[n..])
  }

  /** `s.match(/\b[a-z]{3,}\b/g) || []`. Matching starts and ends at a word
      boundary, so a match is a whole run of word characters; the run must
      consist of three or more letters a-z. */
  function Tokens(s: string): (ts: seq<string>)
    ensures forall k :: 0 <= k < |ts| ==> IsToken(ts[k])
  {
    Seqs.Filter(Words(s), IsToken)
  }
}
