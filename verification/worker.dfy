/** The body of one worker thread: its nested pair loop over the rows it
    owns, reducing every visited distance into a local count, sum,
    minimum and maximum. */
module Worker {
  import opened Folds
  import opened Pairs

  /** Whether the worker adds each distance to its local sum. As written
      it never does; the corrected worker does. */
  datatype Variant = AsWritten | Corrected

  /** The local sum a worker of the given variant reports for the
      distances `ds` it visited. */
  function SumFor(variant: Variant, ds: seq<real>): real
  {
    if variant == Corrected then Sum(ds) else 0.0
  }

  /** One more distance updates each fold by one step. */
  lemma FoldStep(variant: Variant, ds: seq<real>, d: real)
    ensures MinOf(ds + [d]) == Meet(MinOf(ds), Value(d))
    ensures forall init :: MaxFrom(init, ds + [d]) == Join(MaxFrom(init, ds), d)
    ensures SumFor(variant, ds + [d]) == SumFor(variant, ds) + (if variant == Corrected then d else 0.0)
  {
    assert (ds + [d])[..|ds|] == ds;
  }

  /** Folding a finished row into the folds of the rows before it. */
  lemma FoldRow(variant: Variant, done: seq<real>, row: seq<real>)
    ensures MinOf(done + row) == Meet(MinOf(done), MinOf(row))
    ensures MaxFrom(0.0, done + row) == MaxFrom(MaxFrom(0.0, done), row)
    ensures SumFor(variant, done + row) == SumFor(variant, done) + SumFor(variant, row)
  {
    MinOfAppend(done, row);
    MaxFromAppend(0.0, done, row);
    SumAppend(done, row);
  }

  /** Finishing row i folds that row's distances into the folds of the
      rows before it. */
  lemma FoldNextRow(stars: seq<Star>, dist: DistanceFn, variant: Variant, start: nat, i: nat)
    requires start <= i < |stars|
    ensures PairCount(|stars|, start, i + 1) == PairCount(|stars|, start, i) + (|stars| - 1 - i)
    ensures MinOf(RangeDistances(stars, dist, start, i + 1))
         == Meet(MinOf(RangeDistances(stars, dist, start, i)), MinOf(RowDistances(stars, dist, i, |stars|)))
    ensures MaxFrom(0.0, RangeDistances(stars, dist, start, i + 1))
         == MaxFrom(MaxFrom(0.0, RangeDistances(stars, dist, start, i)), RowDistances(stars, dist, i, |stars|))
    ensures SumFor(variant, RangeDistances(stars, dist, start, i + 1))
         == SumFor(variant, RangeDistances(stars, dist, start, i)) + SumFor(variant, RowDistances(stars, dist, i, |stars|))
  {
    FoldRow(variant, RangeDistances(stars, dist, start, i), RowDistances(stars, dist, i, |stars|));
  }

  /** The inner `j` loop of the worker for row i: it folds the distances
      of (i, i+1), ..., (i, n-1) into the running count, sum, minimum and
      maximum it is handed. */
  method ReduceRow(stars: seq<Star>, dist: DistanceFn, i: nat, variant: Variant,
                   sum0: real, count0: nat, min0: Bound, max0: real)
    returns (sum: real, count: nat, localMin: Bound, localMax: real)
    requires i < |stars|
    ensures count == count0 + (|stars| - 1 - i)
    ensures localMin == Meet(min0, MinOf(RowDistances(stars, dist, i, |stars|)))
    ensures localMax == MaxFrom(max0, RowDistances(stars, dist, i, |stars|))
    ensures sum == sum0 + SumFor(variant, RowDistances(stars, dist, i, |stars|))
  {
    var n := |stars|;
    sum, count, localMin, localMax := sum0, count0, min0, max0;
    ghost var row: seq<real> := [];
    var j := i + 1;
    while j < n
      invariant i + 1 <= j <= n
      invariant row == RowDistances(stars, dist, i, j)
      invariant |row| == j - i - 1
      invariant count == count0 + |row|
      invariant localMin == Meet(min0, MinOf(row))
      invariant localMax == MaxFrom(max0, row)
      invariant sum == sum0 + SumFor(variant, row)
    {
      var d := dist(stars[i].rightAscension, stars[i].declination,
                    stars[j].rightAscension, stars[j].declination);
      count := count + 1;
      if variant == Corrected {
        sum := sum + d;
      }
      if Above(localMin, Value(d)) {
        localMin := Value(d);
      }
      if localMax < d {
        localMax := d;
      }
      assert d == PairDistance(stars, dist, Pair(i, j));
      assert RowDistances(stars, dist, i, j + 1) == row + [d];
      FoldStep(variant, row, d);
      MeetAssociative(min0, MinOf(row), Value(d));
      row := row + [d];
      j := j + 1;
    }
  }

  /** The pair loop of one worker: for every row i in [start, end) and
      every j with i < j < n it computes the distance of (i, j), counts
      it, and keeps the smaller and the larger of it and the local
      minimum (starting at DBL_MAX) and maximum (starting at 0). */
  method ReduceRange(stars: seq<Star>, dist: DistanceFn, start: int, end: int, variant: Variant)
    returns (sum: real, count: nat, localMin: Bound, localMax: real)
    requires 0 <= start <= end <= |stars|
    ensures count == PairCount(|stars|, start, end)
    ensures localMin == MinOf(RangeDistances(stars, dist, start, end))
    ensures localMax == MaxFrom(0.0, RangeDistances(stars, dist, start, end))
    ensures sum == SumFor(variant, RangeDistances(stars, dist, start, end))
    ensures variant == AsWritten ==> sum == 0.0
  {
    count := 0;
    sum := 0.0;
    localMin := DblMax;
    localMax := 0.0;
    var i := start;
    while i < end
      invariant start <= i <= end
      invariant count == PairCount(|stars|, start, i)
      invariant localMin == MinOf(RangeDistances(stars, dist, start, i))
      invariant localMax == MaxFrom(0.0, RangeDistances(stars, dist, start, i))
      invariant sum == SumFor(variant, RangeDistances(stars, dist, start, i))
    {
      FoldNextRow(stars, dist, variant, start, i);
      sum, count, localMin, localMax := ReduceRow(stars, dist, i, variant, sum, count, localMin, localMax);
      i := i + 1;
    }
  }
}
