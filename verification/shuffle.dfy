/**
 * `shuffleArray` (static/js/script.js): an in-place Fisher-Yates shuffle.
 *
 * `Math.random` is not modelled; the caller supplies the draws instead. Draw `k`
 * is the `j` picked in the loop's `k`-th round, when `i == |a| - 1 - k`, and
 * `Math.floor(Math.random() * (i + 1))` always lies in `[0, i]`.
 */
module Shuffle {

  /** `[...Array(n).keys()]`: the indices `0, 1, ..., n - 1`. */
  function Range(n: nat): (r: seq<int>)
    ensures |r| == n
    ensures forall k :: 0 <= k < n ==> r[k] == k
  {
    seq(n, k => k)
  }

  /** Enough draws for an array of length `n`, each within the bound of its round. */
  predicate ValidChoices(choices: seq<nat>, n: nat) {
    && |choices| >= n - 1
    && forall k :: 0 <= k < n - 1 ==> choices[k] <= n - 1 - k
  }

  /** `[array[i], array[j]] = [array[j], array[i]]` on the contents. */
  function Swap<T>(s: seq<T>, i: nat, j: nat): (r: seq<T>)
    requires i < |s| && j < |s|
    ensures |r| == |s| && r[i] == s[j] && r[j] == s[i]
    ensures forall k :: 0 <= k < |s| && k != i && k != j ==> r[k] == s[k]
  {
    s[i := s[j]][j := s[i]]
  }

  lemma SwapPermutes<T>(s: seq<T>, i: nat, j: nat)
    requires i < |s| && j < |s|
    ensures |Swap(s, i, j)| == |s|
    ensures multiset(Swap(s, i, j)) == multiset(s)
  {
    var t := s[i := s[j]];
    assert multiset(t) == multiset(s) - multiset{s[i]} + multiset{s[j]};
  }

  /** The rounds `i, i - 1, ..., 1` of the loop, applied to `s`. */
  function ShuffleDown<T>(s: seq<T>, choices: seq<nat>, i: int): (r: seq<T>)
    requires i < |s|
    requires ValidChoices(choices, |s|)
    ensures |r| == |s|
    decreases i
  {
    if i <= 0 then s
    else ShuffleDown(Swap(s, i, choices[|s| - 1 - i]), choices, i - 1)
  }

  /** What `shuffleArray` leaves in an array that held `s`. */
  function Shuffled<T>(s: seq<T>, choices: seq<nat>): (r: seq<T>)
    requires ValidChoices(choices, |s|)
    ensures |r| == |s|
  {
    ShuffleDown(s, choices, |s| - 1)
  }

  lemma {:induction false} ShuffleDownPermutes<T>(s: seq<T>, choices: seq<nat>, i: int)
    requires i < |s|
    requires ValidChoices(choices, |s|)
    ensures |ShuffleDown(s, choices, i)| == |s|
    ensures multiset(ShuffleDown(s, choices, i)) == multiset(s)
    decreases i
  {
    if i > 0 {
      var j := choices[|s| - 1 - i];
      SwapPermutes(s, i, j);
      ShuffleDownPermutes(Swap(s, i, j), choices, i - 1);
    }
  }

  /** For any draws, the shuffle rearranges the elements without adding or losing any. */
  lemma ShuffledPermutes<T>(s: seq<T>, choices: seq<nat>)
    requires ValidChoices(choices, |s|)
    ensures |Shuffled(s, choices)| == |s|
    ensures multiset(Shuffled(s, choices)) == multiset(s)
  {
    ShuffleDownPermutes(s, choices, |s| - 1);
  }

  /** `shuffleArray(array)`, with the draws of `Math.random` given as `choices`. */
  method ShuffleArray<T>(a: array<T>, choices: seq<nat>)
    requires ValidChoices(choices, a.Length)
    modifies a
    ensures a[..] == Shuffled(old(a[..]), choices)
  {
    var i := a.Length - 1;
    while i > 0
      invariant i < a.Length
      invariant ShuffleDown(a[..], choices, i) == Shuffled(old(a[..]), choices)
      decreases i
    {
      var j := choices[a.Length - 1 - i];
      ghost var before := a[..];
      a[i], a[j] := a[j], a[i];
      assert a[..] == Swap(before, i, j);
      i := i - 1;
    }
  }

  // ---------------------------------------------------------------------
  // Permutations of the indices
  // ---------------------------------------------------------------------

  /** `order` holds every index in `[0, n)` exactly once, and nothing else. */
  ghost predicate IsPermutation(order: seq<int>, n: nat) {
    multiset(order) == multiset(Range(n))
  }

  ghost predicate EmptyOrPermutation(order: seq<int>, n: nat) {
    order == [] || IsPermutation(order, n)
  }

  ghost predicate Distinct(xs: seq<int>) {
    forall i, j :: 0 <= i < j < |xs| ==> xs[i] != xs[j]
  }

  lemma {:induction false} RangeMultiplicity(n: nat, v: int)
    ensures multiset(Range(n))[v] == if 0 <= v < n then 1 else 0
  {
    if n > 0 {
      RangeMultiplicity(n - 1, v);
      assert Range(n) == Range(n - 1) + [n - 1];
    }
  }

  lemma RepeatedElement(xs: seq<int>, i: nat, j: nat)
    requires i < j < |xs| && xs[i] == xs[j]
    ensures multiset(xs)[xs[i]] >= 2
  {
    assert xs == xs[..j] + [xs[j]] + xs[j + 1..];
    assert xs[i] in xs[..j];
  }

  /** A permutation of `[0, n)` has length `n`, no repeats, and holds exactly the indices. */
  lemma PermutationFacts(order: seq<int>, n: nat)
    requires IsPermutation(order, n)
    ensures |order| == n
    ensures Distinct(order)
    ensures forall k :: 0 <= k < |order| ==> 0 <= order[k] < n
    ensures forall v :: 0 <= v < n ==> v in order
  {
    assert |order| == |multiset(order)| == |multiset(Range(n))| == n;
    forall i, j | 0 <= i < j < |order|
      ensures order[i] != order[j]
    {
      if order[i] == order[j] {
        RepeatedElement(order, i, j);
        RangeMultiplicity(n, order[i]);
      }
    }
    forall k | 0 <= k < |order|
      ensures 0 <= order[k] < n
    {
      assert order[k] in multiset(order);
      RangeMultiplicity(n, order[k]);
    }
    forall v | 0 <= v < n
      ensures v in order
    {
      RangeMultiplicity(n, v);
      assert v in multiset(order);
    }
  }

  /** The order built from `[0, n)` by the shuffle is a permutation of the indices. */
  lemma ShuffledRangeIsPermutation(n: nat, choices: seq<nat>)
    requires ValidChoices(choices, n)
    ensures IsPermutation(Shuffled(Range(n), choices), n)
  {
    ShuffledPermutes(Range(n), choices);
  }

  /**
   * Builds the shuffled play order as lines 352-353 and 372-373 do: the indices
   * `[0, n)` in a fresh array, shuffled in place.
   */
  method NewShuffledOrder(n: nat, choices: seq<nat>) returns (order: seq<int>)
    requires ValidChoices(choices, n)
    ensures order == Shuffled(Range(n), choices)
    ensures IsPermutation(order, n)
  {
    var a := new int[n](k => k);
    assert a[..] == Range(n);
    ShuffleArray(a, choices);
    order := a[..];
    ShuffledRangeIsPermutation(n, choices);
  }
}
