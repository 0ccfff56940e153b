/** The service's `shuffle`: a Fisher-Yates pass over a copy of its input,
    with `Math.random()` replaced by an injected stream of draws. */
module Shuffle {
  import opened Js

  /** A value `Math.random()` can return: a number in [0, 1). */
  type RandomDraw = r: real | 0.0 <= r < 1.0

  /** An injected random source: the k-th call of `Math.random()` returns
      `draws(k)`. A caller threads a cursor through the calls it makes. */
  type Random = nat -> RandomDraw

  /** `Math.floor(u * (i + 1))`, the index the loop swaps with position `i`. */
  function DrawIndex(u: RandomDraw, i: nat): (j: nat)
    ensures j <= i
  {
    ScaleIsProduct(u, i + 1);
    Scale(u, i + 1).Floor
  }

  /** `DrawIndex(u, i)` is the floor of `u * (i + 1)`. */
  lemma DrawIndexIsFloor(u: RandomDraw, i: nat)
    ensures DrawIndex(u, i) as real <= u * (i + 1) as real < (DrawIndex(u, i) + 1) as real
  {
    ScaleIsProduct(u, i + 1);
  }

  /** `u * m`, written as `m` additions of `u` so that each unfolding stays
      linear; `ScaleIsProduct` shows it is the product. */
  function Scale(u: RandomDraw, m: nat): (x: real)
    ensures 0.0 <= x && (m > 0 ==> x < m as real)
  {
    if m == 0 then 0.0 else Scale(u, m - 1) + u
  }

  lemma {:induction false} ScaleIsProduct(u: RandomDraw, m: nat)
    ensures Scale(u, m) == u * m as real
  {
    if m > 0 {
      ScaleIsProduct(u, m - 1);
      assert u * m as real == u * (m - 1) as real + u;
    }
  }

  /** The number of `Math.random()` calls one shuffle of `n` elements makes. */
  function DrawsFor(n: nat): nat
  {
    if n > 1 then n - 1 else 0
  }

  function Swap<T>(s: seq<T>, i: nat, j: nat): (r: seq<T>)
    requires i < |s| && j < |s|
    ensures |r| == |s| && r[i] == s[j] && r[j] == s[i]
    ensures forall k :: 0 <= k < |s| && k != i && k != j ==> r[k] == s[k]
  {
    seq(|s|, k requires 0 <= k < |s| => if k == i then s[j] else if k == j then s[i] else s[k])
  }

  /** Exchanging two elements keeps the multiset of elements. */
  lemma SwapPermutes<T>(s: seq<T>, i: nat, j: nat)
    requires i < |s| && j < |s|
    ensures multiset(Swap(s, i, j)) == multiset(s)
  {
    assert Swap(s, i, j) == s[i := s[j]][j := s[i]];
  }

  /** The array once the loop has handled every index below `hi` down to 1
      (`i` runs from `hi - 1`), drawing from `rng` at `pos` onwards. */
  function ShuffleBelow<T>(s: seq<T>, hi: nat, rng: Random, pos: nat): (r: seq<T>)
    requires hi <= |s|
    ensures |r| == |s|
    decreases hi
  {
    if hi <= 1 then s
    else
      var j := DrawIndex(rng(pos), hi - 1);
      ShuffleBelow(Swap(s, hi - 1, j), hi - 1, rng, pos + 1)
  }

  /** Every partial pass is a permutation of what it started from. */
  lemma {:induction false} ShuffleBelowPermutes<T>(s: seq<T>, hi: nat, rng: Random, pos: nat)
    requires hi <= |s|
    ensures multiset(ShuffleBelow(s, hi, rng, pos)) == multiset(s)
    decreases hi
  {
    if hi > 1 {
      var j := DrawIndex(rng(pos), hi - 1);
      SwapPermutes(s, hi - 1, j);
      ShuffleBelowPermutes(Swap(s, hi - 1, j), hi - 1, rng, pos + 1);
    }
  }

  /** `shuffle(array)` as a value: the result of the whole loop. */
  function Shuffled<T>(s: seq<T>, rng: Random, pos: nat): (r: seq<T>)
    ensures |r| == |s| && multiset(r) == multiset(s)
  {
    ShuffleBelowPermutes(s, |s|, rng, pos);
    ShuffleBelow(s, |s|, rng, pos)
  }

  /** `[...array]`: a fresh array holding the elements of `s`. */
  method CopyToArray<T>(s: seq<T>) returns (a: array<T>)
    ensures fresh(a) && a[..] == s
  {
    a := new T[|s|](k requires 0 <= k < |s| => s[k]);
  }

  /** `[a[i], a[j]] = [a[j], a[i]]`. */
  method SwapInPlace<T>(a: array<T>, i: nat, j: nat)
    requires i < a.Length && j < a.Length
    modifies a
    ensures a[..] == Swap(old(a[..]), i, j)
  {
    a[i], a[j] := a[j], a[i];
  }

  /** One turn of the loop is one unfolding of `ShuffleBelow`. */
  lemma ShuffleBelowStep<T>(before: seq<T>, after: seq<T>, i: nat, rng: Random, pos: nat)
    requires 0 < i < |before|
    requires after == Swap(before, i, DrawIndex(rng(pos), i))
    ensures ShuffleBelow(before, i + 1, rng, pos) == ShuffleBelow(after, i, rng, pos + 1)
  {
  }

  /** `shuffle(array)`: copies the input and swaps `copy[i]` with
      `copy[floor(random() * (i + 1))]` for `i` from the last index down to 1.
      The result is a permutation of the input, and `next` is the cursor after
      the draws it made. The input is a value and so is never changed. */
  method Shuffle<T>(input: seq<T>, rng: Random, pos: nat) returns (r: seq<T>, next: nat)
    ensures r == Shuffled(input, rng, pos)
    ensures |r| == |input| && multiset(r) == multiset(input)
    ensures next == pos + DrawsFor(|input|)
  {
    var copy := CopyToArray(input);
    var hi: nat := copy.Length;  // the loop's `i` is `hi - 1`
    ghost var target := Shuffled(input, rng, pos);
    next := pos;
    while hi > 1
      invariant hi <= copy.Length
      invariant next + DrawsFor(hi) == pos + DrawsFor(copy.Length)
      invariant ShuffleBelow(copy[..], hi, rng, next) == target
    {
      var i := hi - 1;
      var j := DrawIndex(rng(next), i);
      ghost var before := copy[..];
      SwapInPlace(copy, i, j);
      ShuffleBelowStep(before, copy[..], i, rng, next);
      hi, next := hi - 1, next + 1;
    }
    r := copy[..];
  }

  /** Shuffling keeps keys distinct: equal keys cannot be brought together. */
  lemma ShuffledDistinct<T, K>(s: seq<T>, key: T -> K, rng: Random, pos: nat)
    requires DistinctBy(s, key)
    ensures DistinctBy(Shuffled(s, rng, pos), key)
  {
    SubMultisetDistinct(Shuffled(s, rng, pos), s, key);
  }
}
