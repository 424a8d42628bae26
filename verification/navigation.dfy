/**
 * The index arithmetic of the previous/next buttons (static/js/script.js):
 * `Array.prototype.indexOf`, the successor and predecessor in the shuffled
 * order (wrapping at both ends), and the sequential rules.
 */
module Navigation {
  import opened Shuffle

  /** `xs.indexOf(x)`: the first position of `x`, or -1 when it does not occur. */
  function IndexOf(xs: seq<int>, x: int): (r: int)
    ensures -1 <= r < |xs|
    ensures r == -1 <==> x !in xs
    ensures r >= 0 ==> xs[r] == x && x !in xs[..r]
  {
    if xs == [] then -1
    else if xs[0] == x then 0
    else
      var k := IndexOf(xs[1..], x);
      if k == -1 then -1
      else
        assert xs[..k + 1] == [xs[0]] + xs[1..][..k];
        k + 1
  }

  /** Line 357: the element after `current` in `order`, or the first one after the last. */
  function ShuffleNext(order: seq<int>, current: int): (r: int)
    requires |order| > 0
    ensures r in order
  {
    var pos := IndexOf(order, current);
    if pos < |order| - 1 then order[pos + 1] else order[0]
  }

  /** Line 330: the element before `current` in `order`, or the last one before the first. */
  function ShufflePrev(order: seq<int>, current: int): (r: int)
    requires |order| > 0
    ensures r in order
  {
    var pos := IndexOf(order, current);
    if pos > 0 then order[pos - 1] else order[|order| - 1]
  }

  /** Line 359: the next index in playlist order, wrapping after the last song. */
  function SequentialNext(current: int, n: nat): (r: int)
    requires n > 0
    ensures 0 <= r < n
  {
    (current + 1) % n
  }

  lemma SequentialNextWraps(current: int, n: nat)
    requires 0 <= current < n
    ensures SequentialNext(current, n) == if current + 1 < n then current + 1 else 0
  {
  }

  /** Line 332: the previous index in playlist order, wrapping before the first song. */
  function SequentialPrev(current: int, n: nat): (r: int)
    ensures 0 <= current < n ==> 0 <= r < n && SequentialNext(r, n) == current
  {
    if current > 0 then current - 1 else n - 1
  }

  lemma IndexOfDistinct(order: seq<int>, p: nat)
    requires Distinct(order) && p < |order|
    ensures IndexOf(order, order[p]) == p
  {
  }

  /** In an order without repeats, Next moves one position on, wrapping at the end. */
  lemma ShuffleNextAt(order: seq<int>, p: nat)
    requires Distinct(order) && p < |order|
    ensures ShuffleNext(order, order[p]) == if p + 1 < |order| then order[p + 1] else order[0]
  {
    IndexOfDistinct(order, p);
  }

  /** The same, for every position holding `x`. */
  lemma ShuffleNextPositions(order: seq<int>, x: int)
    requires Distinct(order) && |order| > 0
    ensures forall p :: 0 <= p < |order| && order[p] == x ==>
      ShuffleNext(order, x) == if p + 1 < |order| then order[p + 1] else order[0]
  {
    forall p | 0 <= p < |order| && order[p] == x
      ensures ShuffleNext(order, x) == if p + 1 < |order| then order[p + 1] else order[0]
    {
      ShuffleNextAt(order, p);
    }
  }

  /** In an order without repeats, Prev moves one position back, wrapping at the start. */
  lemma ShufflePrevAt(order: seq<int>, p: nat)
    requires Distinct(order) && p < |order|
    ensures ShufflePrev(order, order[p]) == if p > 0 then order[p - 1] else order[|order| - 1]
  {
    IndexOfDistinct(order, p);
  }

  /** The same, for every position holding `x`. */
  lemma ShufflePrevPositions(order: seq<int>, x: int)
    requires Distinct(order) && |order| > 0
    ensures forall p :: 0 <= p < |order| && order[p] == x ==>
      ShufflePrev(order, x) == if p > 0 then order[p - 1] else order[|order| - 1]
  {
    forall p | 0 <= p < |order| && order[p] == x
      ensures ShufflePrev(order, x) == if p > 0 then order[p - 1] else order[|order| - 1]
    {
      ShufflePrevAt(order, p);
    }
  }

  /** Prev right after Next comes back to the song it started from, and vice versa. */
  lemma ShufflePrevUndoesNext(order: seq<int>, x: int)
    requires Distinct(order) && x in order
    ensures ShufflePrev(order, ShuffleNext(order, x)) == x
    ensures ShuffleNext(order, ShufflePrev(order, x)) == x
  {
    var n := |order|;
    var p :| 0 <= p < n && order[p] == x;
    ShuffleNextAt(order, p);
    ShufflePrevAt(order, if p + 1 < n then p + 1 else 0);
    ShufflePrevAt(order, p);
    ShuffleNextAt(order, if p > 0 then p - 1 else n - 1);
  }

  /** The song reached from `current` after `k` presses of Next in shuffle mode. */
  function ShuffleNextIter(order: seq<int>, current: int, k: nat): int
    requires |order| > 0
  {
    if k == 0 then current else ShuffleNext(order, ShuffleNextIter(order, current, k - 1))
  }

  /** Up to a full round, `k` presses of Next move `k` positions on, wrapping once. */
  lemma {:induction false} ShuffleNextIterAt(order: seq<int>, p: nat, k: nat)
    requires Distinct(order) && p < |order| && k <= |order|
    ensures ShuffleNextIter(order, order[p], k) == order[if p + k < |order| then p + k else p + k - |order|]
  {
    var n := |order|;
    if k > 0 {
      ShuffleNextIterAt(order, p, k - 1);
      var i := if p + k - 1 < n then p + k - 1 else p + k - 1 - n;
      assert ShuffleNextIter(order, order[p], k) == ShuffleNext(order, order[i]);
      ShuffleNextAt(order, i);
      assert (if i + 1 < n then i + 1 else 0) == (if p + k < n then p + k else p + k - n);
    }
  }

  /**
   * The shuffled tour: from a song of the order, `|order|` presses of Next come back
   * to it, and on the way no song is played twice.
   */
  lemma ShuffleTour(order: seq<int>, x: int)
    requires Distinct(order) && x in order
    ensures ShuffleNextIter(order, x, |order|) == x
    ensures forall k1, k2 :: 0 <= k1 < k2 < |order| ==>
      ShuffleNextIter(order, x, k1) != ShuffleNextIter(order, x, k2)
  {
    var n := |order|;
    var p :| 0 <= p < n && order[p] == x;
    ShuffleNextIterAt(order, p, n);
    forall k1, k2 | 0 <= k1 < k2 < n
      ensures ShuffleNextIter(order, x, k1) != ShuffleNextIter(order, x, k2)
    {
      TourStepsDiffer(order, p, k1, k2);
    }
  }

  /** ... and within that round every song of the order is reached. */
  lemma ShuffleTourCovers(order: seq<int>, x: int, y: int)
    requires Distinct(order) && x in order && y in order
    ensures exists k :: 0 <= k < |order| && ShuffleNextIter(order, x, k) == y
  {
    var n := |order|;
    var p :| 0 <= p < n && order[p] == x;
    var q :| 0 <= q < n && order[q] == y;
    var k := if q >= p then q - p else q - p + n;
    ShuffleNextIterAt(order, p, k);
    assert (if p + k < n then p + k else p + k - n) == q;
    assert ShuffleNextIter(order, x, k) == y;
  }

  lemma TourStepsDiffer(order: seq<int>, p: nat, k1: nat, k2: nat)
    requires Distinct(order) && p < |order| && k1 < k2 < |order|
    ensures ShuffleNextIter(order, order[p], k1) != ShuffleNextIter(order, order[p], k2)
  {
    var n := |order|;
    ShuffleNextIterAt(order, p, k1);
    ShuffleNextIterAt(order, p, k2);
    var i1 := if p + k1 < n then p + k1 else p + k1 - n;
    var i2 := if p + k2 < n then p + k2 else p + k2 - n;
    if i1 < i2 {
      assert order[i1] != order[i2];
    } else {
      assert order[i2] != order[i1];
    }
  }

  lemma RangeDistinct(n: nat)
    ensures Distinct(Range(n))
  {
  }

  /** Sequential navigation is shuffled navigation over the identity order. */
  lemma SequentialIsIdentityOrder(current: int, n: nat)
    requires 0 <= current < n
    ensures SequentialNext(current, n) == ShuffleNext(Range(n), current)
    ensures SequentialPrev(current, n) == ShufflePrev(Range(n), current)
  {
    var r := Range(n);
    RangeDistinct(n);
    assert r[current] == current;
    ShuffleNextAt(r, current);
    ShufflePrevAt(r, current);
    SequentialNextWraps(current, n);
  }
}
