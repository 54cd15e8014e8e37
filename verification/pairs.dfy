/** The star catalog, the pairs of stars a worker visits, and the
    distances it computes for them. */
module Pairs {

  /** One catalog record. Only the two coordinates reach the distance. */
  datatype Star = Star(id: int, rightAscension: real, declination: real)

  /** calculateAngularDistance(ra1, dec1, ra2, dec2): an unknown pure function. */
  type DistanceFn = (real, real, real, real) -> real

  /** An unordered pair of catalog positions, stored with `i < j`. */
  datatype Pair = Pair(i: nat, j: nat)

  /** `p` is visited before `q`: row by row, and within a row by `j`. */
  predicate Before(p: Pair, q: Pair) {
    p.i < q.i || (p.i == q.i && p.j < q.j)
  }

  /** The pairs of the inner loop for row `i`: (i, i+1), ..., (i, hi-1). */
  function Row(i: nat, hi: nat): (r: seq<Pair>)
    ensures |r| == if hi <= i + 1 then 0 else hi - i - 1
    decreases hi
  {
    if hi <= i + 1 then [] else Row(i, hi - 1) + [Pair(i, hi - 1)]
  }

  /** The m-th pair of row i is (i, i + 1 + m). */
  lemma {:induction false} RowElements(i: nat, hi: nat)
    ensures forall m :: 0 <= m < |Row(i, hi)| ==> Row(i, hi)[m] == Pair(i, i + 1 + m)
    decreases hi
  {
    if hi > i + 1 {
      RowElements(i, hi - 1);
    }
  }

  /** Σ_{i=lo}^{hi-1} (n - 1 - i): the pairs whose first index lies in [lo, hi). */
  function PairCount(n: nat, lo: nat, hi: nat): nat
    requires hi <= n
    decreases hi
  {
    if hi <= lo then 0 else PairCount(n, lo, hi - 1) + (n - 1 - (hi - 1))
  }

  /** The pairs a worker owning rows [lo, hi) visits, in visiting order. */
  function RangePairs(n: nat, lo: nat, hi: nat): (r: seq<Pair>)
    requires hi <= n
    ensures |r| == PairCount(n, lo, hi)
    decreases hi
  {
    if hi <= lo then [] else RangePairs(n, lo, hi - 1) + Row(hi - 1, n)
  }

  /** Every pair a worker owning rows [lo, hi) visits has its first index
      in [lo, hi) and its second index after the first and below n. */
  lemma {:induction false} RangePairsInRange(n: nat, lo: nat, hi: nat)
    requires hi <= n
    ensures forall m :: 0 <= m < |RangePairs(n, lo, hi)| ==>
              lo <= RangePairs(n, lo, hi)[m].i < hi && RangePairs(n, lo, hi)[m].i < RangePairs(n, lo, hi)[m].j < n
    decreases hi
  {
    if hi > lo {
      RangePairsInRange(n, lo, hi - 1);
      RowElements(hi - 1, n);
    }
  }

  /** A worker visits its pairs row by row, and within a row by `j`. */
  lemma {:induction false} RangePairsOrdered(n: nat, lo: nat, hi: nat)
    requires hi <= n
    ensures forall a, b :: 0 <= a < b < |RangePairs(n, lo, hi)| ==> Before(RangePairs(n, lo, hi)[a], RangePairs(n, lo, hi)[b])
    decreases hi
  {
    if hi > lo {
      RangePairsOrdered(n, lo, hi - 1);
      RangePairsInRange(n, lo, hi - 1);
      RowElements(hi - 1, n);
    }
  }

  /** Every pair with its first index in [lo, hi) is visited. */
  lemma {:induction false} RangePairsComplete(n: nat, lo: nat, hi: nat, i: nat, j: nat)
    requires hi <= n && lo <= i < hi && i < j < n
    ensures Pair(i, j) in RangePairs(n, lo, hi)
    decreases hi
  {
    if i < hi - 1 {
      RangePairsComplete(n, lo, hi - 1, i, j);
    } else {
      RowElements(i, n);
      assert Row(i, n)[j - i - 1] == Pair(i, j);
    }
  }

  /** A worker owning rows [lo, hi) visits exactly the pairs (i, j) with
      lo <= i < hi and i < j < n, and each of them once. */
  lemma RangePairsExactlyOnce(n: nat, lo: nat, hi: nat)
    requires hi <= n
    ensures forall i: nat, j: nat :: Pair(i, j) in RangePairs(n, lo, hi) <==> lo <= i < hi && i < j < n
    ensures forall a, b :: 0 <= a < b < |RangePairs(n, lo, hi)| ==> RangePairs(n, lo, hi)[a] != RangePairs(n, lo, hi)[b]
  {
    RangePairsOrdered(n, lo, hi);
    RangePairsInRange(n, lo, hi);
    forall i: nat, j: nat | lo <= i < hi && i < j < n
      ensures Pair(i, j) in RangePairs(n, lo, hi)
    {
      RangePairsComplete(n, lo, hi, i, j);
    }
  }

  /** Contiguous row ranges visit contiguous runs of pairs. */
  lemma {:induction false} RangePairsSplit(n: nat, a: nat, b: nat, c: nat)
    requires a <= b <= c <= n
    ensures RangePairs(n, a, c) == RangePairs(n, a, b) + RangePairs(n, b, c)
    decreases c
  {
    if c > b {
      RangePairsSplit(n, a, b, c - 1);
    }
  }

  /** The number of pairs a single loop over [0, n) visits is n(n-1)/2. */
  lemma {:induction false} PairCountTriangular(n: nat, hi: nat)
    requires hi <= n
    ensures 2 * PairCount(n, 0, hi) == hi * (2 * n - hi - 1)
    decreases hi
  {
    if hi > 0 {
      PairCountTriangular(n, hi - 1);
      var m: int := 2 * n - hi;
      assert 2 * PairCount(n, 0, hi) == 2 * PairCount(n, 0, hi - 1) + 2 * (n - hi);
      assert 2 * PairCount(n, 0, hi - 1) == (hi - 1) * m;
      assert (hi - 1) * m == hi * m - m;
      assert hi * m - hi == hi * (m - 1);
    }
  }

  lemma AllPairsCount(n: nat)
    ensures |RangePairs(n, 0, n)| == n * (n - 1) / 2
  {
    PairCountTriangular(n, n);
  }

  predicate InCatalog(stars: seq<Star>, ps: seq<Pair>) {
    forall m :: 0 <= m < |ps| ==> ps[m].i < |stars| && ps[m].j < |stars|
  }

  /** The distance the worker computes for the pair `p`. */
  function PairDistance(stars: seq<Star>, dist: DistanceFn, p: Pair): real
    requires p.i < |stars| && p.j < |stars|
  {
    dist(stars[p.i].rightAscension, stars[p.i].declination,
         stars[p.j].rightAscension, stars[p.j].declination)
  }

  /** The distances of the pairs `ps`, in the same order. */
  function Distances(stars: seq<Star>, dist: DistanceFn, ps: seq<Pair>): seq<real>
    requires InCatalog(stars, ps)
  {
    seq(|ps|, m requires 0 <= m < |ps| => PairDistance(stars, dist, ps[m]))
  }

  lemma DistancesAppend(stars: seq<Star>, dist: DistanceFn, ps: seq<Pair>, qs: seq<Pair>)
    requires InCatalog(stars, ps) && InCatalog(stars, qs)
    ensures InCatalog(stars, ps + qs)
    ensures Distances(stars, dist, ps + qs) == Distances(stars, dist, ps) + Distances(stars, dist, qs)
  {
  }

  /** The distances the inner loop computes for row `i`, in visiting order. */
  function RowDistances(stars: seq<Star>, dist: DistanceFn, i: nat, hi: nat): seq<real>
    requires hi <= |stars|
    decreases hi
  {
    if hi <= i + 1 then []
    else RowDistances(stars, dist, i, hi - 1) + [PairDistance(stars, dist, Pair(i, hi - 1))]
  }

  /** The distances a worker owning rows [lo, hi) computes, in visiting
      order, row after row. */
  function RangeDistances(stars: seq<Star>, dist: DistanceFn, lo: nat, hi: nat): seq<real>
    requires hi <= |stars|
    decreases hi
  {
    if hi <= lo then []
    else RangeDistances(stars, dist, lo, hi - 1) + RowDistances(stars, dist, hi - 1, |stars|)
  }

  lemma {:induction false} RowDistancesOfRow(stars: seq<Star>, dist: DistanceFn, i: nat, hi: nat)
    requires hi <= |stars|
    ensures InCatalog(stars, Row(i, hi))
    ensures RowDistances(stars, dist, i, hi) == Distances(stars, dist, Row(i, hi))
    decreases hi
  {
    if hi > i + 1 {
      RowDistancesOfRow(stars, dist, i, hi - 1);
      DistancesAppend(stars, dist, Row(i, hi - 1), [Pair(i, hi - 1)]);
    }
  }

  lemma {:induction false} RowDistancesLength(stars: seq<Star>, dist: DistanceFn, i: nat, hi: nat)
    requires hi <= |stars|
    ensures |RowDistances(stars, dist, i, hi)| == if hi <= i + 1 then 0 else hi - i - 1
    decreases hi
  {
    if hi > i + 1 {
      RowDistancesLength(stars, dist, i, hi - 1);
    }
  }

  /** A worker owning rows [lo, hi) computes one distance per pair it visits. */
  lemma {:induction false} RangeDistancesLength(stars: seq<Star>, dist: DistanceFn, lo: nat, hi: nat)
    requires hi <= |stars|
    ensures |RangeDistances(stars, dist, lo, hi)| == PairCount(|stars|, lo, hi)
    decreases hi
  {
    if hi > lo {
      RangeDistancesLength(stars, dist, lo, hi - 1);
      RowDistancesLength(stars, dist, hi - 1, |stars|);
      assert RangeDistances(stars, dist, lo, hi) == RangeDistances(stars, dist, lo, hi - 1) + RowDistances(stars, dist, hi - 1, |stars|);
      assert PairCount(|stars|, lo, hi) == PairCount(|stars|, lo, hi - 1) + (|stars| - hi);
    }
  }

  /** A worker owning rows [lo, hi) computes the distances of the pairs
      (i, j) with lo <= i < hi and i < j < n, in visiting order, one per
      pair. */
  lemma {:induction false} RangeDistancesOfPairs(stars: seq<Star>, dist: DistanceFn, lo: nat, hi: nat)
    requires hi <= |stars|
    ensures InCatalog(stars, RangePairs(|stars|, lo, hi))
    ensures RangeDistances(stars, dist, lo, hi) == Distances(stars, dist, RangePairs(|stars|, lo, hi))
    decreases hi
  {
    if hi > lo {
      RangeDistancesOfPairs(stars, dist, lo, hi - 1);
      NextRowOfPairs(stars, dist, lo, hi);
    }
  }

  /** The step of RangeDistancesOfPairs: one more row of pairs, one more
      row of distances. */
  lemma NextRowOfPairs(stars: seq<Star>, dist: DistanceFn, lo: nat, hi: nat)
    requires lo < hi <= |stars|
    requires InCatalog(stars, RangePairs(|stars|, lo, hi - 1))
    requires RangeDistances(stars, dist, lo, hi - 1) == Distances(stars, dist, RangePairs(|stars|, lo, hi - 1))
    ensures InCatalog(stars, RangePairs(|stars|, lo, hi))
    ensures RangeDistances(stars, dist, lo, hi) == Distances(stars, dist, RangePairs(|stars|, lo, hi))
  {
    var earlier, row := RangePairs(|stars|, lo, hi - 1), Row(hi - 1, |stars|);
    assert RangePairs(|stars|, lo, hi) == earlier + row;
    RowDistancesOfRow(stars, dist, hi - 1, |stars|);
    DistancesAppend(stars, dist, earlier, row);
  }

  /** Contiguous row ranges compute contiguous runs of distances. */
  lemma {:induction false} RangeDistancesSplit(stars: seq<Star>, dist: DistanceFn, a: nat, b: nat, c: nat)
    requires a <= b <= c <= |stars|
    ensures RangeDistances(stars, dist, a, c) == RangeDistances(stars, dist, a, b) + RangeDistances(stars, dist, b, c)
    decreases c
  {
    if c == b {
      assert RangeDistances(stars, dist, b, c) == [];
      assert RangeDistances(stars, dist, a, b) + [] == RangeDistances(stars, dist, a, b);
    } else {
      RangeDistancesSplit(stars, dist, a, b, c - 1);
      var x, y, z := RangeDistances(stars, dist, a, b), RangeDistances(stars, dist, b, c - 1), RowDistances(stars, dist, c - 1, |stars|);
      assert (x + y) + z == x + (y + z);
    }
  }

  /** The distances a single double loop over the whole catalog computes. */
  function AllDistances(stars: seq<Star>, dist: DistanceFn): seq<real>
  {
    RangeDistances(stars, dist, 0, |stars|)
  }
}
