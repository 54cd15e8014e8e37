/** What a run of the program reports, stated about the results the
    driver is proved to produce: the bounds the minimum and maximum keep,
    the number of pairs behind the mean, and the mean itself, both as
    the worker is written (its sum is never added to) and as corrected. */
module Properties {
  import opened Folds
  import opened Pairs
  import opened Worker
  import opened Driver

  /** From the program's starting values, the reported minimum is the
      least distance and the reported maximum the greatest one (or 0, where
      it starts); the minimum stays DBL_MAX and the mean is 0 / 0 exactly
      when the catalog has fewer than two stars; the mean is taken over
      n(n-1)/2 distances. */
  lemma ReportedStatistics(stars: seq<Star>, dist: DistanceFn, variant: Variant)
    ensures |AllDistances(stars, dist)| == |stars| * (|stars| - 1) / 2
    ensures Expected(stars, dist, variant, Initial()).min == DblMax <==> |stars| < 2
    ensures Expected(stars, dist, variant, Initial()).mean.NaN? <==> |stars| < 2
    ensures forall m :: 0 <= m < |AllDistances(stars, dist)| ==>
              && Expected(stars, dist, variant, Initial()).min.Value?
              && Expected(stars, dist, variant, Initial()).min.v <= AllDistances(stars, dist)[m]
              && AllDistances(stars, dist)[m] <= Expected(stars, dist, variant, Initial()).max
    ensures Expected(stars, dist, variant, Initial()).min.Value? ==>
              Expected(stars, dist, variant, Initial()).min.v in AllDistances(stars, dist)
    ensures 0.0 <= Expected(stars, dist, variant, Initial()).max
    ensures Expected(stars, dist, variant, Initial()).max == 0.0
         || Expected(stars, dist, variant, Initial()).max in AllDistances(stars, dist)
  {
    var ds := AllDistances(stars, dist);
    AllPairsCount(|stars|);
    RangeDistancesLength(stars, dist, 0, |stars|);
    SomePairIffTwoStars(stars, dist);
    MinOfIsLeast(ds);
    MaxFromIsGreatest(0.0, ds);
  }

  /** There is a distance to report exactly when there are two stars. */
  lemma SomePairIffTwoStars(stars: seq<Star>, dist: DistanceFn)
    ensures |AllDistances(stars, dist)| > 0 <==> |stars| >= 2
  {
    var n := |stars|;
    RangeDistancesLength(stars, dist, 0, n);
    if n >= 2 {
      RangePairsComplete(n, 0, n, 0, 1);
    } else if n == 1 {
      assert PairCount(n, 0, 1) == PairCount(n, 0, 0);
    }
  }

  /** As written, the worker never adds a distance to its sum, so the
      reported mean is 0 whenever there is a pair at all, and 0 / 0 when
      there is none. */
  lemma AsWrittenMeanIsZero(stars: seq<Star>, dist: DistanceFn, before: Stats)
    ensures Expected(stars, dist, AsWritten, before).mean == if |stars| < 2 then NaN else Number(0.0)
  {
    SomePairIffTwoStars(stars, dist);
  }

  /** Corrected, the reported mean is the average of every pair's
      distance: it times the number of pairs is their sum, and it lies
      between the reported minimum and maximum. */
  lemma CorrectedMeanWithinBounds(stars: seq<Star>, dist: DistanceFn)
    requires |stars| >= 2
    ensures Expected(stars, dist, Corrected, Initial()).mean.Number?
    ensures Expected(stars, dist, Corrected, Initial()).mean.value * (|AllDistances(stars, dist)| as real)
         == Sum(AllDistances(stars, dist))
    ensures Expected(stars, dist, Corrected, Initial()).min.Value?
    ensures Expected(stars, dist, Corrected, Initial()).min.v
         <= Expected(stars, dist, Corrected, Initial()).mean.value
         <= Expected(stars, dist, Corrected, Initial()).max
  {
    var ds := AllDistances(stars, dist);
    SomePairIffTwoStars(stars, dist);
    AverageWithinBounds(ds);
  }

  /** Four stars whose six pair distances are 1, 2, 3, 4, 5 and 6, in
      visiting order. */
  function FourStars(): seq<Star>
  {
    [Star(0, 0.0, 0.0), Star(1, 1.0, 0.0), Star(2, 2.0, 0.0), Star(3, 3.0, 0.0)]
  }

  function FourStarDistance(ra1: real, dec1: real, ra2: real, dec2: real): real
  {
    ra1 + ra2 + (if ra1 == 0.0 then 0.0 else 1.0)
  }

  /** On these four stars the program reports minimum 1 and maximum 6
      with any number of workers; as written its mean is 0, where the
      average of the six distances is 3.5. */
  lemma FourStarScenario()
    ensures AllDistances(FourStars(), FourStarDistance) == [1.0, 2.0, 3.0, 4.0, 5.0, 6.0]
    ensures Expected(FourStars(), FourStarDistance, AsWritten, Initial()) == Stats(Value(1.0), 6.0, Number(0.0))
    ensures Expected(FourStars(), FourStarDistance, Corrected, Initial()) == Stats(Value(1.0), 6.0, Number(3.5))
  {
    var stars, dist := FourStars(), FourStarDistance;
    var ps := RangePairs(4, 0, 4);
    assert ps == [Pair(0, 1), Pair(0, 2), Pair(0, 3), Pair(1, 2), Pair(1, 3), Pair(2, 3)];
    var ds := AllDistances(stars, dist);
    assert ds == [1.0, 2.0, 3.0, 4.0, 5.0, 6.0];
    var d1, d2, d3, d4, d5 := [1.0], [1.0, 2.0], [1.0, 2.0, 3.0], [1.0, 2.0, 3.0, 4.0], [1.0, 2.0, 3.0, 4.0, 5.0];
    assert ds[..5] == d5 && d5[..4] == d4 && d4[..3] == d3 && d3[..2] == d2 && d2[..1] == d1 && d1[..0] == [];
    assert Sum(d1) == 1.0 && MinOf(d1) == Value(1.0) && MaxFrom(0.0, d1) == 1.0;
    assert Sum(d2) == 3.0 && MinOf(d2) == Value(1.0) && MaxFrom(0.0, d2) == 2.0;
    assert Sum(d3) == 6.0 && MinOf(d3) == Value(1.0) && MaxFrom(0.0, d3) == 3.0;
    assert Sum(d4) == 10.0 && MinOf(d4) == Value(1.0) && MaxFrom(0.0, d4) == 4.0;
    assert Sum(d5) == 15.0 && MinOf(d5) == Value(1.0) && MaxFrom(0.0, d5) == 5.0;
  }

  /** The whole program on the four stars, from its starting values, with
      any number of workers taking the lock in any order: as written it
      reports minimum 1, maximum 6 and mean 0; corrected, mean 3.5. */
  method FourStarRun(numThreads: int, order: seq<nat>, variant: Variant) returns (status: Status, reported: Stats)
    requires numThreads >= 1 && IsOrder(order, numThreads)
    ensures status == Completed
    ensures reported == Stats(Value(1.0), 6.0, Number(if variant == Corrected then 3.5 else 0.0))
  {
    var g := new Statistics();
    status := DetermineAverageAngularDistance(FourStars(), FourStarDistance, numThreads, order, variant, g);
    reported := g.State();
    FourStarScenario();
  }
}
