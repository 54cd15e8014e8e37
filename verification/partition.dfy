/** How the driver splits the catalog positions [0, n) among t workers:
    equal slices of n / t rows, the last slice absorbing the remainder. */
module Partition {
  import opened Pairs

  /** The half-open row range [start, end) one worker owns. */
  datatype Range = Range(start: int, end: int)

  predicate Owns(r: Range, x: int) {
    r.start <= x < r.end
  }

  /** The range the driver assigns to worker k of t. */
  function RangeOf(n: nat, t: nat, k: nat): (r: Range)
    requires 1 <= t && k < t
    ensures 0 <= r.start <= r.end <= n
  {
    var starsPerThread := n / t;
    assert t * starsPerThread <= n;
    MulMonotone(k, t, starsPerThread);
    MulMonotone(if k < t - 1 then k + 1 else k, t, starsPerThread);
    Range(k * starsPerThread, if k == t - 1 then n else (k + 1) * starsPerThread)
  }

  lemma {:induction false} MulMonotone(a: nat, b: nat, s: nat)
    requires a <= b
    ensures a * s <= b * s
    decreases b - a
  {
    if a < b {
      MulMonotone(a, b - 1, s);
      assert b * s == (b - 1) * s + s;
    }
  }

  /** The cut points between consecutive ranges: worker k owns
      [Boundary(k), Boundary(k + 1)). */
  function Boundary(n: nat, t: nat, i: nat): nat
    requires 1 <= t && i <= t
  {
    if i < t then RangeOf(n, t, i).start as nat else n
  }

  /** Worker k's range runs from cut point k to cut point k + 1. */
  lemma RangeBetweenBoundaries(n: nat, t: nat, k: nat)
    requires 1 <= t && k < t
    ensures RangeOf(n, t, k) == Range(Boundary(n, t, k), Boundary(n, t, k + 1))
  {
  }

  /** The shape of every range: the first starts at 0, the last ends at n,
      each range ends where the next one starts, and a range other than
      the last one holds exactly n / t rows. */
  lemma RangesAreContiguous(n: nat, t: nat)
    requires 1 <= t
    ensures RangeOf(n, t, 0).start == 0
    ensures RangeOf(n, t, t - 1).end == n
    ensures forall k :: 0 <= k < t - 1 ==> RangeOf(n, t, k).end == RangeOf(n, t, k + 1).start
    ensures forall k :: 0 <= k < t - 1 ==> RangeOf(n, t, k).end - RangeOf(n, t, k).start == n / t
  {
  }

  lemma {:induction false} BoundaryMonotone(n: nat, t: nat, i: nat, j: nat)
    requires 1 <= t && i <= j <= t
    ensures Boundary(n, t, i) <= Boundary(n, t, j)
  {
    if i < j {
      var r := RangeOf(n, t, i);
      if j < t {
        MulMonotone(i, j, n / t);
      }
    }
  }

  /** The range containing `x`, searched for downwards from worker k. */
  lemma {:induction false} FindOwner(n: nat, t: nat, x: nat, k: nat) returns (o: nat)
    requires 1 <= t && k < t && x < Boundary(n, t, k + 1)
    ensures o <= k && Owns(RangeOf(n, t, o), x)
    decreases k
  {
    if Boundary(n, t, k) <= x {
      o := k;
    } else {
      o := FindOwner(n, t, x, k - 1);
    }
  }

  /** Every catalog position is owned by exactly one worker, for every
      t >= 1, including t > n. */
  lemma EveryIndexOwnedOnce(n: nat, t: nat, x: nat)
    requires 1 <= t && x < n
    ensures exists k :: 0 <= k < t && Owns(RangeOf(n, t, k), x)
    ensures forall k1, k2 :: 0 <= k1 < t && 0 <= k2 < t && Owns(RangeOf(n, t, k1), x) && Owns(RangeOf(n, t, k2), x) ==> k1 == k2
  {
    var o := FindOwner(n, t, x, t - 1);
    forall k1, k2 | 0 <= k1 < k2 < t && Owns(RangeOf(n, t, k1), x)
      ensures !Owns(RangeOf(n, t, k2), x)
    {
      BoundaryMonotone(n, t, k1 + 1, k2);
    }
  }

  /** With more workers than rows every slice is empty except the last,
      which owns the whole catalog. */
  lemma MoreWorkersThanStars(n: nat, t: nat)
    requires n < t
    ensures forall k :: 0 <= k < t - 1 ==> RangeOf(n, t, k) == Range(0, 0)
    ensures RangeOf(n, t, t - 1) == Range(0, n)
  {
    assert n / t == 0;
  }

  /** The pairs visited by workers 0 .. i-1 together, in worker order. */
  function WorkerPairs(n: nat, t: nat, i: nat): seq<Pair>
    requires 1 <= t && i <= t
  {
    if i == 0 then []
    else WorkerPairs(n, t, i - 1) + RangePairs(n, RangeOf(n, t, i - 1).start, RangeOf(n, t, i - 1).end)
  }

  /** Workers 0 .. i-1 together visit exactly the pairs a single loop over
      the rows before cut point i visits. */
  lemma {:induction false} WorkerPairsPrefix(n: nat, t: nat, i: nat)
    requires 1 <= t && i <= t
    ensures WorkerPairs(n, t, i) == RangePairs(n, 0, Boundary(n, t, i))
    decreases i
  {
    if i > 0 {
      WorkerPairsPrefix(n, t, i - 1);
      RangeBetweenBoundaries(n, t, i - 1);
      BoundaryMonotone(n, t, 0, i - 1);
      BoundaryMonotone(n, t, i - 1, i);
      BoundaryMonotone(n, t, i, t);
      RangePairsSplit(n, 0, Boundary(n, t, i - 1), Boundary(n, t, i));
    }
  }

  /** All t workers together visit every pair (i, j) with i < j < n
      exactly once, in the order of one single-threaded double loop, and
      their counts add up to n(n-1)/2 whatever t is. */
  lemma AllWorkersVisitAllPairs(n: nat, t: nat)
    requires 1 <= t
    ensures WorkerPairs(n, t, t) == RangePairs(n, 0, n)
    ensures |WorkerPairs(n, t, t)| == n * (n - 1) / 2
  {
    WorkerPairsPrefix(n, t, t);
    AllPairsCount(n);
  }
}
