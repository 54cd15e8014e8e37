/** The driver: it splits the catalog among the workers, lets each of them
    reduce its rows and merge its local minimum and maximum into the
    shared statistics, and then adds up their sums and counts into the
    mean. The workers run one after another, in an order chosen by the
    caller, which stands for any order in which the threads could take
    the lock. */
module Driver {
  import opened Folds
  import opened Pairs
  import opened Partition
  import opened Worker

  /** The global `mean`: a quotient, or the NaN of a division 0 / 0. */
  datatype MeanValue = Number(value: real) | NaN

  /** The three shared results, as one value. */
  datatype Stats = Stats(min: Bound, max: real, mean: MeanValue)

  /** What the program starts with: min is DBL_MAX, max and mean are 0. */
  function Initial(): Stats
  {
    Stats(DblMax, 0.0, Number(0.0))
  }

  /** The globals min, max and mean that every worker updates. */
  class Statistics {
    var min: Bound
    var max: real
    var mean: MeanValue

    function State(): Stats
      reads this
    {
      Stats(min, max, mean)
    }

    constructor()
      ensures State() == Initial()
    {
      min := DblMax;
      max := 0.0;
      mean := Number(0.0);
    }

    /** The block a worker runs while holding the mutex: it lowers the
        shared minimum to its local minimum and raises the shared maximum
        to its local maximum. */
    method MergeLocal(localMin: Bound, localMax: real)
      modifies this
      ensures min == Meet(old(min), localMin)
      ensures max == Join(old(max), localMax)
      ensures mean == old(mean)
    {
      if Above(min, localMin) {
        min := localMin;
      }
      if max < localMax {
        max := localMax;
      }
    }
  }

  /** One worker's slot in the driver's array: the rows it owns, and the
      sum and count it reports back. */
  datatype ThreadData = ThreadData(start: int, end: int, sum: real, count: nat)

  /** The result of a run. A thread count below one is a division by zero
      (for 0) or an array of negative size (below 0) in the driver. */
  datatype Status = Completed | InvalidThreadCount

  /** The slot of worker k as the driver fills it in, before the worker ran. */
  function Assigned(n: nat, t: nat, k: nat): ThreadData
    requires 1 <= t && k < t
  {
    ThreadData(RangeOf(n, t, k).start, RangeOf(n, t, k).end, 0.0, 0)
  }

  /** The distances worker k of t visits. */
  function LocalDistances(stars: seq<Star>, dist: DistanceFn, t: nat, k: nat): seq<real>
    requires 1 <= t && k < t
  {
    RangeDistances(stars, dist, RangeOf(|stars|, t, k).start, RangeOf(|stars|, t, k).end)
  }

  /** The slot of worker k after it ran. */
  function Finished(stars: seq<Star>, dist: DistanceFn, t: nat, k: nat, variant: Variant): ThreadData
    requires 1 <= t && k < t
  {
    var r := RangeOf(|stars|, t, k);
    ThreadData(r.start, r.end, SumFor(variant, LocalDistances(stars, dist, t, k)), PairCount(|stars|, r.start, r.end))
  }

  /** The local minima of all workers, by worker number. */
  function LocalMins(stars: seq<Star>, dist: DistanceFn, t: nat): (r: seq<Bound>)
    requires 1 <= t
    ensures |r| == t
  {
    seq(t, k requires 0 <= k < t => MinOf(LocalDistances(stars, dist, t, k)))
  }

  /** The local maxima of all workers, by worker number. */
  function LocalMaxes(stars: seq<Star>, dist: DistanceFn, t: nat): (r: seq<real>)
    requires 1 <= t
    ensures |r| == t
  {
    seq(t, k requires 0 <= k < t => MaxFrom(0.0, LocalDistances(stars, dist, t, k)))
  }

  /** `total_sum / total_count`. */
  function MeanOf(total: real, count: nat): (r: MeanValue)
    ensures r.NaN? <==> count == 0
    ensures count > 0 ==> r.value * (count as real) == total
  {
    if count == 0 then NaN else Number(total / count as real)
  }

  /** The shared results after a run that started from `before`: the
      minimum and maximum over every pair's distance merged into what was
      there, and the mean of the sum and count of all pairs. Neither the
      number of workers nor the order they ran in appears here. */
  function Expected(stars: seq<Star>, dist: DistanceFn, variant: Variant, before: Stats): Stats
  {
    var ds := AllDistances(stars, dist);
    Stats(Meet(before.min, MinOf(ds)), Join(before.max, MaxFrom(0.0, ds)), MeanOf(SumFor(variant, ds), |ds|))
  }

  /** The body of one worker thread: it reduces the rows its slot names,
      writes its sum and count back into the slot, and merges its local
      minimum and maximum into the shared statistics. */
  method WorkerThread(stars: seq<Star>, dist: DistanceFn, data: array<ThreadData>, k: nat,
                      variant: Variant, g: Statistics)
    requires k < data.Length
    requires 0 <= data[k].start <= data[k].end <= |stars|
    modifies data, g
    ensures data[k] == old(data[k]).(sum := SumFor(variant, RangeDistances(stars, dist, old(data[k].start), old(data[k].end))),
                                     count := PairCount(|stars|, old(data[k].start), old(data[k].end)))
    ensures forall x :: 0 <= x < data.Length && x != k ==> data[x] == old(data[x])
    ensures g.min == Meet(old(g.min), MinOf(RangeDistances(stars, dist, old(data[k].start), old(data[k].end))))
    ensures g.max == Join(old(g.max), MaxFrom(0.0, RangeDistances(stars, dist, old(data[k].start), old(data[k].end))))
    ensures g.mean == old(g.mean)
  {
    var start, end := data[k].start, data[k].end;
    var sum, count, localMin, localMax := ReduceRange(stars, dist, start, end, variant);
    data[k] := data[k].(sum := sum, count := count);
    g.MergeLocal(localMin, localMax);
  }

  /** Merging the first i local minima, by worker number, into `init`
      gives the minimum of `init` and every distance of the rows before
      cut point i. */
  lemma {:induction false} LocalMinsPrefix(stars: seq<Star>, dist: DistanceFn, t: nat, init: Bound, i: nat)
    requires 1 <= t && i <= t
    ensures MeetAll(init, LocalMins(stars, dist, t)[..i])
         == Meet(init, MinOf(RangeDistances(stars, dist, 0, Boundary(|stars|, t, i))))
    decreases i
  {
    var n := |stars|;
    if i == 0 {
      assert LocalMins(stars, dist, t)[..0] == [];
    } else {
      var mins := LocalMins(stars, dist, t);
      assert mins[..i][..i - 1] == mins[..i - 1];
      LocalMinsPrefix(stars, dist, t, init, i - 1);
      RangeBetweenBoundaries(n, t, i - 1);
      BoundaryMonotone(n, t, 0, i - 1);
      BoundaryMonotone(n, t, i, t);
      var a, b := RangeDistances(stars, dist, 0, Boundary(n, t, i - 1)), LocalDistances(stars, dist, t, i - 1);
      RangeDistancesSplit(stars, dist, 0, Boundary(n, t, i - 1), Boundary(n, t, i));
      MinOfAppend(a, b);
      MeetAssociative(init, MinOf(a), MinOf(b));
    }
  }

  /** Merging the first i >= 1 local maxima, by worker number, into
      `init` gives the maximum of `init`, 0 (where every local maximum
      starts) and every distance of the rows before cut point i. */
  lemma {:induction false} LocalMaxesPrefix(stars: seq<Star>, dist: DistanceFn, t: nat, init: real, i: nat)
    requires 1 <= i <= t
    ensures MaxFrom(init, LocalMaxes(stars, dist, t)[..i])
         == Join(init, MaxFrom(0.0, RangeDistances(stars, dist, 0, Boundary(|stars|, t, i))))
    decreases i
  {
    var n := |stars|;
    var maxes := LocalMaxes(stars, dist, t);
    assert maxes[..i][..i - 1] == maxes[..i - 1];
    RangeBetweenBoundaries(n, t, i - 1);
    BoundaryMonotone(n, t, i, t);
    if i == 1 {
      assert maxes[..0] == [];
    } else {
      LocalMaxesPrefix(stars, dist, t, init, i - 1);
      BoundaryMonotone(n, t, 0, i - 1);
      var a, b := RangeDistances(stars, dist, 0, Boundary(n, t, i - 1)), LocalDistances(stars, dist, t, i - 1);
      RangeDistancesSplit(stars, dist, 0, Boundary(n, t, i - 1), Boundary(n, t, i));
      MaxFromAppend(0.0, a, b);
      MaxFromIsGreatest(0.0, a);
      MaxFromNonNegative(MaxFrom(0.0, a), b);
    }
  }

  /** Adding up the first i sums and counts, by worker number, gives the
      sum and count of every distance of the rows before cut point i. */
  lemma {:induction false} TotalsPrefix(stars: seq<Star>, dist: DistanceFn, t: nat, variant: Variant, i: nat)
    requires 1 <= t && i < t
    ensures SumFor(variant, RangeDistances(stars, dist, 0, Boundary(|stars|, t, i + 1)))
         == SumFor(variant, RangeDistances(stars, dist, 0, Boundary(|stars|, t, i))) + Finished(stars, dist, t, i, variant).sum
    ensures PairCount(|stars|, 0, Boundary(|stars|, t, i + 1))
         == PairCount(|stars|, 0, Boundary(|stars|, t, i)) + Finished(stars, dist, t, i, variant).count
  {
    var n := |stars|;
    RangeBetweenBoundaries(n, t, i);
    BoundaryMonotone(n, t, 0, i);
    BoundaryMonotone(n, t, i + 1, t);
    RangeDistancesSplit(stars, dist, 0, Boundary(n, t, i), Boundary(n, t, i + 1));
    FoldRow(variant, RangeDistances(stars, dist, 0, Boundary(n, t, i)), LocalDistances(stars, dist, t, i));
    RangePairsSplit(n, 0, Boundary(n, t, i), Boundary(n, t, i + 1));
  }

  /** Merging the workers' local minima and maxima into the shared ones,
      in any order the workers take the lock, gives the minimum and the
      maximum over every pair's distance: the result of one worker. */
  lemma MergeIsOrderIndependent(stars: seq<Star>, dist: DistanceFn, t: nat, order: seq<nat>, min0: Bound, max0: real)
    requires 1 <= t && IsOrder(order, t)
    ensures MeetAll(min0, Reorder(LocalMins(stars, dist, t), order)) == Meet(min0, MinOf(AllDistances(stars, dist)))
    ensures MaxFrom(max0, Reorder(LocalMaxes(stars, dist, t), order)) == Join(max0, MaxFrom(0.0, AllDistances(stars, dist)))
  {
    var mins, maxes := LocalMins(stars, dist, t), LocalMaxes(stars, dist, t);
    MeetAllReorder(min0, mins, order);
    MaxFromReorder(max0, maxes, order);
    assert mins[..t] == mins;
    assert maxes[..t] == maxes;
    LocalMinsPrefix(stars, dist, t, min0, t);
    LocalMaxesPrefix(stars, dist, t, max0, t);
  }

  /** The workers, started one after another in the order `order`: each
      fills in its slot and merges into the shared minimum and maximum.
      Whatever the order, the shared minimum and maximum end up those of
      every pair's distance. */
  method RunWorkers(stars: seq<Star>, dist: DistanceFn, data: array<ThreadData>, t: nat,
                    order: seq<nat>, variant: Variant, g: Statistics)
    requires 1 <= t && data.Length == t && IsOrder(order, t)
    requires forall k :: 0 <= k < t ==> data[k] == Assigned(|stars|, t, k)
    modifies data, g
    ensures forall k :: 0 <= k < t ==> data[k] == Finished(stars, dist, t, k, variant)
    ensures g.min == Meet(old(g.min), MinOf(AllDistances(stars, dist)))
    ensures g.max == Join(old(g.max), MaxFrom(0.0, AllDistances(stars, dist)))
    ensures g.mean == old(g.mean)
  {
    var n := |stars|;
    ghost var byMins := Reorder(LocalMins(stars, dist, t), order);
    ghost var byMaxes := Reorder(LocalMaxes(stars, dist, t), order);
    var m := 0;
    while m < t
      invariant 0 <= m <= t
      invariant forall k :: 0 <= k < t ==> data[k].start == RangeOf(n, t, k).start && data[k].end == RangeOf(n, t, k).end
      invariant forall x :: 0 <= x < m ==> data[order[x]] == Finished(stars, dist, t, order[x], variant)
      invariant g.min == MeetAll(old(g.min), byMins[..m])
      invariant g.max == MaxFrom(old(g.max), byMaxes[..m])
      invariant g.mean == old(g.mean)
    {
      var k := order[m];
      MeetAllStep(old(g.min), byMins, m);
      MaxFromStep(old(g.max), byMaxes, m);
      label before:
      WorkerThread(stars, dist, data, k, variant, g);
      forall x | 0 <= x < m + 1
        ensures data[order[x]] == Finished(stars, dist, t, order[x], variant)
      {
        if x < m {
          assert order[x] != k;
          assert old@before(data[order[x]]) == Finished(stars, dist, t, order[x], variant);
        }
      }
      m := m + 1;
    }
    forall k | 0 <= k < t
      ensures data[k] == Finished(stars, dist, t, k, variant)
    {
      assert k in order;
    }
    assert byMins[..t] == byMins;
    assert byMaxes[..t] == byMaxes;
    MergeIsOrderIndependent(stars, dist, t, order, old(g.min), old(g.max));
  }

  /** The driver's last loop: it adds up every worker's sum and count,
      which together are the sum and the number of every pair's distance. */
  method Accumulate(stars: seq<Star>, dist: DistanceFn, data: array<ThreadData>, t: nat, variant: Variant)
    returns (totalSum: real, totalCount: nat)
    requires 1 <= t && data.Length == t
    requires forall k :: 0 <= k < t ==> data[k] == Finished(stars, dist, t, k, variant)
    ensures totalSum == SumFor(variant, AllDistances(stars, dist))
    ensures totalCount == |AllDistances(stars, dist)|
  {
    var n := |stars|;
    totalSum := 0.0;
    totalCount := 0;
    var i := 0;
    while i < t
      invariant 0 <= i <= t
      invariant totalSum == SumFor(variant, RangeDistances(stars, dist, 0, Boundary(n, t, i)))
      invariant totalCount == PairCount(n, 0, Boundary(n, t, i))
    {
      TotalsPrefix(stars, dist, t, variant, i);
      totalSum := totalSum + data[i].sum;
      totalCount := totalCount + data[i].count;
      i := i + 1;
    }
    RangeDistancesLength(stars, dist, 0, n);
  }

  /** determineAverageAngularDistance: with t >= 1 workers it assigns
      each its range of rows, runs them in the order `order` (each one
      merging into the shared minimum and maximum as it finishes), adds
      up their sums and counts and stores the mean. Whatever t and the
      order, the shared results are those of one pass over all pairs. */
  method DetermineAverageAngularDistance(stars: seq<Star>, dist: DistanceFn, numThreads: int,
                                         order: seq<nat>, variant: Variant, g: Statistics)
    returns (status: Status)
    requires numThreads >= 1 ==> IsOrder(order, numThreads)
    modifies g
    ensures status == InvalidThreadCount <==> numThreads < 1
    ensures numThreads < 1 ==> g.State() == old(g.State())
    ensures numThreads >= 1 ==> g.State() == Expected(stars, dist, variant, old(g.State()))
  {
    if numThreads < 1 {
      return InvalidThreadCount;
    }
    var n := |stars|;
    var t: nat := numThreads;
    var data := new ThreadData[t](_ => ThreadData(0, 0, 0.0, 0));
    var starsPerThread := n / t;
    var i := 0;
    while i < t
      modifies data
      invariant 0 <= i <= t
      invariant forall k :: 0 <= k < i ==> data[k] == Assigned(n, t, k)
    {
      data[i] := ThreadData(i * starsPerThread, if i == t - 1 then n else (i + 1) * starsPerThread, 0.0, 0);
      i := i + 1;
    }
    RunWorkers(stars, dist, data, t, order, variant, g);
    var totalSum, totalCount := Accumulate(stars, dist, data, t, variant);
    g.mean := MeanOf(totalSum, totalCount);
    return Completed;
  }
}
