/**
 * shuffleInPlace: the countdown Fisher–Yates loop. The random draw
 * `Math.floor(Math.random() * (i + 1))` is replaced by a caller-supplied
 * sequence of numbers; the draw of iteration k is `rnd[k] % (i + 1)`, so every
 * position 0..i can be chosen and no draw is ever out of range.
 */
module Shuffle {

  /** The swap partner chosen in iteration `k`, when the loop is at index `i`. */
  function Pick(rnd: seq<nat>, k: nat, i: nat): (j: nat)
    ensures j <= i
    ensures k < |rnd| ==> j == rnd[k] % (i + 1)
  {
    if k < |rnd| then rnd[k] % (i + 1) else 0
  }

  /** `[arr[i], arr[j]] = [arr[j], arr[i]]` on a sequence. */
  function Swap<T>(s: seq<T>, i: nat, j: nat): (r: seq<T>)
    requires i < |s| && j < |s|
    ensures |r| == |s|
  {
    s[i := s[j]][j := s[i]]
  }

  lemma SwapPermutes<T>(s: seq<T>, i: nat, j: nat)
    requires i < |s| && j < |s|
    ensures multiset(Swap(s, i, j)) == multiset(s)
  {
  }

  /** The iterations of the loop from index `i` down to 1. */
  function ShuffleDown<T>(s: seq<T>, i: nat, rnd: seq<nat>): (r: seq<T>)
    requires i < |s|
    ensures |r| == |s|
    decreases i
  {
    if i == 0 then s
    else ShuffleDown(Swap(s, i, Pick(rnd, |s| - 1 - i, i)), i - 1, rnd)
  }

  lemma {:induction false} ShuffleDownPermutes<T>(s: seq<T>, i: nat, rnd: seq<nat>)
    requires i < |s|
    ensures multiset(ShuffleDown(s, i, rnd)) == multiset(s)
    decreases i
  {
    if i > 0 {
      var j := Pick(rnd, |s| - 1 - i, i);
      SwapPermutes(s, i, j);
      ShuffleDownPermutes(Swap(s, i, j), i - 1, rnd);
    }
  }

  /** What `shuffleInPlace` leaves in an array that held `s`. */
  function Shuffled<T>(s: seq<T>, rnd: seq<nat>): (r: seq<T>)
    ensures |r| == |s|
  {
    if |s| == 0 then s else ShuffleDown(s, |s| - 1, rnd)
  }

  /** Whatever the draws, the shuffle is a permutation of its input. */
  lemma ShuffledPermutes<T>(s: seq<T>, rnd: seq<nat>)
    ensures |Shuffled(s, rnd)| == |s|
    ensures multiset(Shuffled(s, rnd)) == multiset(s)
  {
    if |s| > 0 {
      ShuffleDownPermutes(s, |s| - 1, rnd);
    }
  }

  /** `Array.from({ length: n }, (_, i) => i)`. */
  function Identity(n: nat): (r: seq<nat>)
    ensures |r| == n && forall i :: 0 <= i < n ==> r[i] == i
  {
    seq(n, i => i)
  }

  /** `order` holds each of 0..n-1 exactly once. */
  predicate IsPermutation(order: seq<nat>, n: nat)
  {
    multiset(order) == multiset(Identity(n))
  }

  lemma PermutationLength(order: seq<nat>, n: nat)
    requires IsPermutation(order, n)
    ensures |order| == n
  {
    assert |multiset(order)| == |order|;
    assert |multiset(Identity(n))| == n;
  }

  /** Every entry of a permutation of 0..n-1 is a valid index. */
  lemma PermutationBound(order: seq<nat>, n: nat, k: nat)
    requires IsPermutation(order, n) && k < |order|
    ensures order[k] < n
  {
    assert order[k] in multiset(order);
    assert order[k] in multiset(Identity(n));
    var i :| 0 <= i < n && Identity(n)[i] == order[k];
  }

  /** Every index 0..n-1 occurs in a permutation of 0..n-1. */
  lemma PermutationCovers(order: seq<nat>, n: nat, m: nat) returns (k: nat)
    requires IsPermutation(order, n) && m < n
    ensures k < |order| && order[k] == m
  {
    assert Identity(n)[m] == m;
    assert m in multiset(Identity(n));
    assert m in multiset(order);
    k :| 0 <= k < |order| && order[k] == m;
  }

  /** Shuffling the identity, as `init` and `restart` do, yields a permutation. */
  lemma ShuffledIdentityIsPermutation(n: nat, rnd: seq<nat>)
    ensures IsPermutation(Shuffled(Identity(n), rnd), n)
    ensures IsPermutation(Identity(n), n)
  {
    ShuffledPermutes(Identity(n), rnd);
  }

  /** One exchange of two cells. */
  method SwapCells<T>(a: array<T>, i: nat, j: nat)
    requires i < a.Length && j < a.Length
    modifies a
    ensures a[..] == Swap(old(a[..]), i, j)
  {
    var x, y := a[i], a[j];
    a[i] := y;
    a[j] := x;
    assert a[..] == old(a[..])[i := y][j := x];
  }

  /** The loop itself, on the array, in place. */
  method ShuffleInPlace<T>(a: array<T>, rnd: seq<nat>)
    modifies a
    ensures a[..] == Shuffled(old(a[..]), rnd)
    ensures multiset(a[..]) == multiset(old(a[..]))
  {
    if a.Length == 0 {
      return;
    }
    ghost var goal := Shuffled(a[..], rnd);
    var i: nat := a.Length - 1;
    while i > 0
      invariant i < a.Length
      invariant ShuffleDown(a[..], i, rnd) == goal
      decreases i
    {
      var j := Pick(rnd, a.Length - 1 - i, i);
      ghost var before := a[..];
      SwapCells(a, i, j);
      assert ShuffleDown(before, i, rnd) == ShuffleDown(a[..], i - 1, rnd);
      i := i - 1;
    }
    ShuffledPermutes(old(a[..]), rnd);
  }
}
