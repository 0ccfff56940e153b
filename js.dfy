/** The fragment of the JavaScript runtime that the kanji service relies on:
    optional values and their truthiness, `String.prototype.trim`, and the
    array operations `filter`, `map` and `slice(0, end)` on sequences. */
module Js {

  /** `undefined` or `null` (None) versus a present value. */
  datatype Option<+T> = None | Some(value: T)

  /** `s || fallback` for a possibly absent string: absent and "" are falsy. */
  function StrOr(o: Option<string>, fallback: string): string
  {
    if o.Some? && o.value != "" then o.value else fallback
  }

  /** `s || null` for a possibly absent string. */
  function StrOrNull(o: Option<string>): Option<string>
  {
    if o.Some? && o.value != "" then o else None
  }

  /** `n || null` for a possibly absent number: absent and 0 are falsy. */
  function IntOrNull(o: Option<int>): Option<int>
  {
    if o.Some? && o.value != 0 then o else None
  }

  /** `a || []` for a possibly absent array: every array, even an empty one, is truthy. */
  function ListOrEmpty<T>(o: Option<seq<T>>): seq<T>
  {
    if o.Some? then o.value else []
  }

  function Min(a: int, b: int): int
  {
    if a <= b then a else b
  }

  function Max(a: int, b: int): int
  {
    if a >= b then a else b
  }

  /** The characters `String.prototype.trim` removes: the ECMAScript
      WhiteSpace set (TAB, VT, FF, SP, NBSP, ZWNBSP and every Zs code point)
      and the LineTerminator set (LF, CR, LS, PS). */
  const Whitespace: set<char> := {'\t', '\n', '\U{0B}', '\U{0C}', '\r', ' ', '\U{A0}', '\U{1680}', '\U{2000}', '\U{2001}', '\U{2002}', '\U{2003}', '\U{2004}', '\U{2005}', '\U{2006}', '\U{2007}', '\U{2008}', '\U{2009}', '\U{200A}', '\U{2028}', '\U{2029}', '\U{202F}', '\U{205F}', '\U{3000}', '\U{FEFF}'}

  predicate IsWhitespace(c: char)
  {
    c in Whitespace
  }

  predicate AllWhitespace(s: string)
  {
    AllSatisfy(s, IsWhitespace)
  }

  /** Every character of `s` satisfies `ws`. */
  predicate AllSatisfy(s: string, ws: char -> bool)
  {
    forall i :: 0 <= i < |s| ==> ws(s[i])
  }

  /** The number of characters satisfying `ws` that `s` starts with. */
  function LeadingSpace(s: string, ws: char -> bool): (n: nat)
    ensures n <= |s|
    ensures forall i :: 0 <= i < n ==> ws(s[i])
    ensures n < |s| ==> !ws(s[n])
    decreases |s|
  {
    if |s| > 0 && ws(s[0]) then
      var m := LeadingSpace(s[1..], ws);
      assert forall i :: 1 <= i < m + 1 ==> s[i] == s[1..][i - 1];
      m + 1
    else 0
  }

  /** The number of characters satisfying `ws` that `s` ends with. */
  function TrailingSpace(s: string, ws: char -> bool): (n: nat)
    ensures n <= |s|
    ensures forall i :: |s| - n <= i < |s| ==> ws(s[i])
    ensures n < |s| ==> !ws(s[|s| - 1 - n])
    decreases |s|
  {
    if |s| > 0 && ws(s[|s| - 1]) then
      TrailingSpace(s[..|s| - 1], ws) + 1
    else 0
  }

  /** `s.trim()`: the result neither starts nor ends with whitespace, and it
      is empty exactly when `s` is all whitespace. */
  function Trim(s: string): (r: string)
    ensures r == [] || (!IsWhitespace(r[0]) && !IsWhitespace(r[|r| - 1]))
    ensures r == [] <==> AllWhitespace(s)
  {
    var a := LeadingSpace(s, IsWhitespace);
    var b := TrailingSpace(s[a..], IsWhitespace);
    SuffixTrailingSpace(s, a, IsWhitespace);
    SliceEnds(s, a, b, IsWhitespace);
    s[a..|s| - b]
  }

  /** The trailing `ws` run of `s[a..]`, read as positions of `s`: when
      `s[a]` does not satisfy `ws`, the run stops short of it. */
  lemma SuffixTrailingSpace(s: string, a: nat, ws: char -> bool)
    requires a <= |s| && (a < |s| ==> !ws(s[a]))
    ensures TrailingSpace(s[a..], ws) <= |s| - a
    ensures a < |s| ==>
              TrailingSpace(s[a..], ws) < |s| - a
              && !ws(s[|s| - 1 - TrailingSpace(s[a..], ws)])
  {
    var t := s[a..];
    if a < |s| {
      var b := TrailingSpace(t, ws);
      assert t[0] == s[a];
      TrailingSpaceOfText(t, ws);
      assert s[|s| - 1 - b] == t[|t| - 1 - b];
    }
  }

  /** Given the leading run `a` and the trailing run `b` of what remains,
      the slice `s[a..|s| - b]` is empty exactly when every character of `s`
      satisfies `ws`, and otherwise has ends that do not. */
  lemma SliceEnds(s: string, a: nat, b: nat, ws: char -> bool)
    requires a <= |s| && b <= |s| - a
    requires forall i :: 0 <= i < a ==> ws(s[i])
    requires a < |s| ==> !ws(s[a]) && b < |s| - a && !ws(s[|s| - 1 - b])
    ensures a < |s| - b ==> !ws(s[a]) && !ws(s[|s| - b - 1])
    ensures a == |s| - b <==> AllSatisfy(s, ws)
  {
    if a == |s| - b {
      assert a == |s|;
    } else {
      assert !ws(s[a]);
    }
  }

  /** A string that starts with a character not satisfying `ws` does not
      consist of trailing `ws` characters only. */
  lemma TrailingSpaceOfText(t: string, ws: char -> bool)
    requires t != [] && !ws(t[0])
    ensures TrailingSpace(t, ws) < |t|
  {
  }

  /** What `s.trim()` cuts off is whitespace on both sides of a slice of `s`. */
  lemma TrimIsSlice(s: string) returns (a: nat)
    ensures a + |Trim(s)| <= |s| && Trim(s) == s[a..a + |Trim(s)|]
    ensures AllWhitespace(s[..a]) && AllWhitespace(s[a + |Trim(s)|..])
  {
    a := LeadingSpace(s, IsWhitespace);
    var b := TrailingSpace(s[a..], IsWhitespace);
    SpaceRuns(s, a, b, IsWhitespace);
    assert Trim(s) == s[a..|s| - b];
  }

  /** The two runs `Trim` cuts, read as slices of `s`. */
  lemma SpaceRuns(s: string, a: nat, b: nat, ws: char -> bool)
    requires a == LeadingSpace(s, ws) && b == TrailingSpace(s[a..], ws)
    ensures a + b <= |s|
    ensures AllSatisfy(s[..a], ws) && AllSatisfy(s[|s| - b..], ws)
  {
    var t := s[a..];
    PrefixRun(s, a, ws);
    SuffixRun(t, b, ws);
    assert s[|s| - b..] == t[|t| - b..];
  }

  /** A run of `ws` characters at the front of `s`, as a slice. */
  lemma PrefixRun(s: string, a: nat, ws: char -> bool)
    requires a <= |s| && forall i :: 0 <= i < a ==> ws(s[i])
    ensures AllSatisfy(s[..a], ws)
  {
    assert forall i :: 0 <= i < a ==> s[..a][i] == s[i];
  }

  /** A run of `ws` characters at the end of `t`, as a slice. */
  lemma SuffixRun(t: string, b: nat, ws: char -> bool)
    requires b <= |t| && forall i :: |t| - b <= i < |t| ==> ws(t[i])
    ensures AllSatisfy(t[|t| - b..], ws)
  {
    var u := t[|t| - b..];
    forall i | 0 <= i < |u|
      ensures ws(u[i])
    {
      assert u[i] == t[|t| - b + i];
    }
  }

  /** `a.filter(p)`: exactly the elements of `s` that satisfy `p`, each as
      often as in `s`, in their order in `s`. */
  function Filter<T(==)>(s: seq<T>, p: T -> bool): (r: seq<T>)
    ensures |r| <= |s|
    ensures forall i :: 0 <= i < |r| ==> p(r[i])
    ensures multiset(r) <= multiset(s)
    ensures forall i :: 0 <= i < |s| && p(s[i]) ==> multiset(r)[s[i]] == multiset(s)[s[i]]
    ensures IsSubsequence(r, s)
  {
    if s == [] then []
    else
      var rest := Filter(s[1..], p);
      assert s == [s[0]] + s[1..];
      var r := if p(s[0]) then [s[0]] + rest else rest;
      assert p(s[0]) ==> r[1..] == rest;
      r
  }

  /** An element of `s` that passes `p` contributes `f` of it to the mapped
      filter. */
  lemma FilterMapKeeps<T, U>(s: seq<T>, p: T -> bool, f: T -> U, i: nat)
    requires i < |s| && p(s[i])
    ensures f(s[i]) in Map(Filter(s, p), f)
  {
    var r := Filter(s, p);
    assert multiset(r)[s[i]] == multiset(s)[s[i]] > 0;
    var j :| 0 <= j < |r| && r[j] == s[i];
    assert Map(r, f)[j] == f(s[i]);
  }

  /** `a.map(f)`. */
  function Map<T, U>(s: seq<T>, f: T -> U): (r: seq<U>)
    ensures |r| == |s|
    ensures forall i :: 0 <= i < |s| ==> r[i] == f(s[i])
  {
    seq(|s|, i requires 0 <= i < |s| => f(s[i]))
  }

  /** The length of `a.slice(0, end)` on an array of length `n`: a negative
      `end` counts from the back. */
  function SliceLength(end: int, n: nat): (k: nat)
    ensures k <= n
    ensures end >= 0 ==> k == Min(end, n)
    ensures end < 0 ==> k == Max(n + end, 0)
  {
    if end < 0 then (if n + end < 0 then 0 else n + end)
    else if end < n then end else n
  }

  /** `a.slice(0, end)`. */
  function SliceTo<T>(s: seq<T>, end: int): (r: seq<T>)
    ensures |r| == SliceLength(end, |s|)
    ensures r == s[..|r|]
  {
    s[..SliceLength(end, |s|)]
  }

  /** `r` keeps some of the elements of `s`, in the same order. */
  predicate IsSubsequence<T(==)>(r: seq<T>, s: seq<T>)
    decreases |s|
  {
    if r == [] then true
    else if s == [] then false
    else (r[0] == s[0] && IsSubsequence(r[1..], s[1..])) || IsSubsequence(r, s[1..])
  }

  /** No two positions of `s` carry the same key. */
  predicate DistinctBy<T, K(==)>(s: seq<T>, key: T -> K)
  {
    forall i, j :: 0 <= i < |s| && 0 <= j < |s| && i != j ==> key(s[i]) != key(s[j])
  }

  /** A sub-multiset of a sequence with distinct keys has distinct keys too;
      in particular so has any subsequence, prefix or permutation of it. */
  lemma {:induction false} SubMultisetDistinct<T, K>(r: seq<T>, s: seq<T>, key: T -> K)
    requires multiset(r) <= multiset(s)
    requires DistinctBy(s, key)
    ensures DistinctBy(r, key)
  {
    forall i, j | 0 <= i < |r| && 0 <= j < |r| && i != j
      ensures key(r[i]) != key(r[j])
    {
      assert r[i] in multiset(s) && r[j] in multiset(s);
      var a :| 0 <= a < |s| && s[a] == r[i];
      var b :| 0 <= b < |s| && s[b] == r[j];
      if a == b {
        TwiceInMultiset(r, i, j);
        assert multiset(s)[s[a]] >= 2;
        var b' := OtherOccurrence(s, a);
        assert false;
      }
    }
  }

  /** An element found at two positions occurs at least twice. */
  lemma {:induction false} TwiceInMultiset<T>(r: seq<T>, i: nat, j: nat)
    requires i < |r| && j < |r| && i != j && r[i] == r[j]
    ensures multiset(r)[r[i]] >= 2
  {
    var lo, hi := if i < j then i else j, if i < j then j else i;
    var x := r[i];
    assert r == r[..lo] + [r[lo]] + r[lo + 1..hi] + [r[hi]] + r[hi + 1..];
    assert multiset(r) == multiset(r[..lo]) + multiset{x} + multiset(r[lo + 1..hi])
                          + multiset{x} + multiset(r[hi + 1..]);
  }

  /** An element occurring at least twice has a second position. */
  lemma {:induction false} OtherOccurrence<T>(s: seq<T>, a: nat) returns (b: nat)
    requires a < |s| && multiset(s)[s[a]] >= 2
    ensures b < |s| && b != a && s[b] == s[a]
  {
    var x := s[a];
    assert s == s[..a] + [x] + s[a + 1..];
    assert multiset(s) == multiset(s[..a]) + multiset{x} + multiset(s[a + 1..]);
    if x in multiset(s[..a]) {
      var k :| 0 <= k < a && s[..a][k] == x;
      b := k;
    } else {
      assert x in multiset(s[a + 1..]);
      var k :| 0 <= k < |s| - a - 1 && s[a + 1..][k] == x;
      b := a + 1 + k;
    }
  }

  /** An element of a sub-multiset of `s` is at some position of `s`. */
  lemma IndexIn<T>(x: T, r: seq<T>, s: seq<T>) returns (j: nat)
    requires x in r && multiset(r) <= multiset(s)
    ensures j < |s| && s[j] == x
  {
    assert x in multiset(r);
    assert x in multiset(s);
    j :| 0 <= j < |s| && s[j] == x;
  }

  /** A prefix keeps a sub-multiset of the elements. */
  lemma PrefixSubMultiset<T>(s: seq<T>, n: nat)
    requires n <= |s|
    ensures multiset(s[..n]) <= multiset(s)
  {
    assert s == s[..n] + s[n..];
  }

  /** Filtering with a predicate every element satisfies changes nothing. */
  lemma {:induction false} FilterKeepsAll<T>(s: seq<T>, p: T -> bool)
    requires forall i :: 0 <= i < |s| ==> p(s[i])
    ensures Filter(s, p) == s
  {
    if s != [] {
      FilterKeepsAll(s[1..], p);
    }
  }

  /** Two predicates that agree on every element of `s` filter it alike. */
  lemma {:induction false} FilterAgree<T>(s: seq<T>, p: T -> bool, q: T -> bool)
    requires forall i :: 0 <= i < |s| ==> p(s[i]) == q(s[i])
    ensures Filter(s, p) == Filter(s, q)
  {
    if s != [] {
      FilterAgree(s[1..], p, q);
    }
  }

  /** Two sequences whose positions agree on two predicates give filters of
      the same length. */
  lemma {:induction false} FilterLengthsAgree<T, U>(a: seq<T>, p: T -> bool, b: seq<U>, q: U -> bool)
    requires |a| == |b|
    requires forall i :: 0 <= i < |a| ==> p(a[i]) == q(b[i])
    ensures |Filter(a, p)| == |Filter(b, q)|
  {
    if a != [] {
      FilterLengthsAgree(a[1..], p, b[1..], q);
    }
  }

  /** A filter is empty exactly when no element satisfies the predicate. */
  lemma FilterEmpty<T>(s: seq<T>, p: T -> bool)
    ensures Filter(s, p) == [] <==> forall i :: 0 <= i < |s| ==> !p(s[i])
  {
    if i :| 0 <= i < |s| && p(s[i]) {
      assert multiset(Filter(s, p))[s[i]] == multiset(s)[s[i]];
    }
  }
}
