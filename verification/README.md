# Pairwise angular distance reduction, modelled in Dafny

The program reads a star catalog and reports the minimum, maximum and mean
angular distance over every pair of stars. The work is split among T worker
threads:

- The driver (`determineAverageAngularDistance`) gives worker k the rows
  `[k * (N / T), (k + 1) * (N / T))`. The last worker's rows run up to N
  instead.
- Each worker (`determineAverageAngularDistanceThread`) visits every pair
  (i, j) with i in its rows and i < j < N. It keeps a local count, sum,
  minimum (starting at `DBL_MAX`) and maximum (starting at 0). It writes
  its count and sum into its slot. Then, under a mutex, it lowers the
  global minimum and raises the global maximum.
- After joining the threads, the driver adds up the sums and counts and
  stores `mean = total_sum / total_count`.

The model is sequential. The workers run one after another, in an order
`order` (a permutation of the worker numbers) chosen by the caller. This
order stands for the order in which the threads take the mutex. A worker
touches only its own locals and its own slot outside the mutex, so every
interleaving of the threads ends like one of these orders.

Modules:

- `Folds` (`folds.dfy`): the running minimum, maximum and sum as folds over
  a sequence of distances. It proves that merging them is independent of
  how the sequence is split and of the order of the merges.
- `Pairs` (`pairs.dfy`): the catalog, the pairs a worker visits, their
  number, and the distances computed for them.
- `Partition` (`partition.dfy`): the driver's ranges of rows, and how they
  tile the catalog.
- `Worker` (`worker.dfy`): the worker's nested pair loop, as imperative
  methods with loop invariants.
- `Driver` (`driver.dfy`): the global statistics as a class, the thread
  body, the driver's three loops, and the driver itself.
- `Properties` (`properties.dfy`): what the program reports, including the
  defect in the mean (see Findings) and a four-star example.

N is the length of the catalog sequence and stands for `NUM_STARS`. The
distance function is a parameter. `Bound` is a running minimum: the
sentinel `DblMax` or a distance. A `Variant` parameter selects between the
worker as written (`AsWritten`, never adds to its sum) and the corrected
worker (`Corrected`, adds every distance).

## Model

| member | source | states |
|---|---|---|
| `Folds.Meet` | src/main.c:91-92 | The kept minimum is no greater than either operand and is one of them. |
| `Folds.Join` | src/main.c:93-94 | The kept maximum is no less than either operand and is one of them. |
| `Folds.MinOfIsLeast` | src/main.c:79-92 | A local minimum that starts at DBL_MAX stays DBL_MAX exactly when no distance was seen. Otherwise it is at most every distance seen and is one of them. |
| `Folds.MaxFromIsGreatest` | src/main.c:80-94 | A running maximum is at least its start and every distance seen, and is its start or one of them. |
| `Folds.MeetAllIsLeast` | src/main.c:103-104 | The merged global minimum is at most its previous value and every merged local minimum, and is one of them. |
| `Folds.MinOfAppend` | src/main.c:82-92 | Folding the minimum over two runs of distances is the minimum of the two folds. |
| `Folds.MaxFromAppend` | src/main.c:82-94 | Folding the maximum over two runs continues the second run from where the first ended. |
| `Folds.MaxFromNonNegative` | src/main.c:80 | A maximum started at a non-negative value equals that value joined with the maximum started at 0. |
| `Folds.SumAppend` | src/main.c:142-146 | The sum of two runs is the sum of their sums. |
| `Folds.SumBetween` | src/main.c:142-146 | A sum of values between lo and hi lies between count * lo and count * hi. |
| `Folds.MinMaxBracket` | src/main.c:91-94 | Every distance seen lies between the running minimum and the running maximum. |
| `Folds.AverageWithinBounds` | src/main.c:151 | The average of a non-empty run lies between its minimum and its maximum. |
| `Folds.ReorderSameElements` | src/main.c:101-108 | Any order of taking the mutex merges the same local values. |
| `Folds.MeetAllSameElements` | src/main.c:103-104 | Two merges of the minimum over the same set of local minima give the same global minimum. |
| `Folds.MaxFromSameElements` | src/main.c:105-106 | Two merges of the maximum over the same set of local maxima give the same global maximum. |
| `Folds.MeetAllReorder` | src/main.c:101-104 | The global minimum does not depend on the order in which the workers take the mutex. |
| `Folds.MaxFromReorder` | src/main.c:101-106 | The global maximum does not depend on the order in which the workers take the mutex. |
| `Pairs.Row` | src/main.c:84 | The inner loop of row i visits N - i - 1 pairs, none when i + 1 >= N. |
| `Pairs.RowElements` | src/main.c:84 | The m-th pair the inner loop of row i visits is (i, i + 1 + m). |
| `Pairs.RangePairs` | src/main.c:82-84 | A worker with rows [lo, hi) visits PairCount = Σ (N - 1 - i) pairs. |
| `Pairs.RangePairsInRange` | src/main.c:82-84 | Every visited pair has its first index in [lo, hi) and its second index after the first and below N. |
| `Pairs.RangePairsOrdered` | src/main.c:82-84 | The pairs are visited row by row, and by increasing j within a row. |
| `Pairs.RangePairsComplete` | src/main.c:82-84 | Every pair with its first index in [lo, hi) is visited. |
| `Pairs.RangePairsExactlyOnce` | src/main.c:82-90 | A worker visits exactly the pairs (i, j) with lo <= i < hi and i < j < N, each exactly once. |
| `Pairs.RangePairsSplit` | src/main.c:82-84 | Rows [a, c) visit the pairs of rows [a, b) followed by those of rows [b, c). |
| `Pairs.PairCountTriangular` | src/main.c:90 | Twice the count of the rows before hi is hi * (2N - hi - 1). |
| `Pairs.AllPairsCount` | src/main.c:141-148 | One pass over all rows visits N(N-1)/2 pairs. |
| `Pairs.DistancesAppend` | src/main.c:86-87 | The distances of two runs of pairs are the two runs of distances, concatenated. |
| `Pairs.RowDistancesLength` | src/main.c:84-90 | Row i yields one distance per pair it visits. |
| `Pairs.RangeDistancesLength` | src/main.c:82-90 | A worker's number of distances equals its count of pairs. |
| `Pairs.RowDistancesOfRow` | src/main.c:84-87 | The distances of row i are those of the pairs (i, j), in order of j. |
| `Pairs.RangeDistancesOfPairs` | src/main.c:82-87 | A worker's distances are those of exactly its visited pairs, in visiting order. |
| `Pairs.RangeDistancesSplit` | src/main.c:82-87 | Contiguous ranges of rows give contiguous runs of distances. |
| `Partition.RangeOf` | src/main.c:124-130 | Every worker's range satisfies 0 <= start <= end <= N. |
| `Partition.RangeBetweenBoundaries` | src/main.c:129-130 | Worker k's range runs from cut point k to cut point k + 1. |
| `Partition.RangesAreContiguous` | src/main.c:124-130 | The first range starts at 0 and the last ends at N. Each range ends where the next starts. Every range but the last holds N / T rows. |
| `Partition.BoundaryMonotone` | src/main.c:129-130 | The cut points never decrease. |
| `Partition.FindOwner` | src/main.c:129-130 | Every row below cut point k + 1 belongs to some worker numbered k or lower. |
| `Partition.EveryIndexOwnedOnce` | src/main.c:127-130 | For every T >= 1, every row in [0, N) belongs to exactly one worker. |
| `Partition.MoreWorkersThanStars` | src/main.c:124-130 | With T > N every range is empty except the last, which is [0, N). |
| `Partition.WorkerPairsPrefix` | src/main.c:127-132 | Workers 0 .. i-1 together visit exactly the pairs of one loop over the rows before cut point i. |
| `Partition.AllWorkersVisitAllPairs` | src/main.c:127-148 | All T workers together visit every pair once, in the order of one loop, N(N-1)/2 pairs for every T. |
| `Worker.FoldStep` | src/main.c:86-94 | One more distance updates the minimum, maximum and sum by exactly one step of each. |
| `Worker.FoldRow` | src/main.c:82-95 | Folding a finished row into the earlier rows' folds gives the folds of both. |
| `Worker.FoldNextRow` | src/main.c:82-96 | Finishing row i adds N - 1 - i to the count and folds row i's distances into the minimum, maximum and sum. |
| `Worker.ReduceRow` | src/main.c:84-95 | The inner loop adds N - 1 - i to the count, and folds row i's distances into the minimum and maximum. The sum grows by those distances (Corrected) or not at all (AsWritten). |
| `Worker.ReduceRange` | src/main.c:76-96 | The worker's count is Σ (N - 1 - i) over its rows. Its local minimum is the fold from DBL_MAX over its distances. Its local maximum is the fold from 0. As written its sum is 0. |
| `Driver.Statistics.constructor` | src/main.c:52-54 | The globals start at min = DBL_MAX, max = 0, mean = 0. |
| `Driver.Statistics.MergeLocal` | src/main.c:101-108 | Under the mutex the global minimum is lowered to the local minimum and the global maximum raised to the local maximum. The mean is untouched. |
| `Driver.MeanOf` | src/main.c:151 | The mean is 0/0 (NaN) exactly when the total count is 0. Otherwise mean * count equals the total sum. |
| `Driver.WorkerThread` | src/main.c:69-111 | A thread writes its sum and count into its own slot only. It merges its local minimum and maximum into the globals and leaves the mean alone. |
| `Driver.LocalMinsPrefix` | src/main.c:103-104 | Merging the local minima of workers 0 .. i-1 gives the minimum over the distances of the rows before cut point i. |
| `Driver.LocalMaxesPrefix` | src/main.c:105-106 | Merging the local maxima of workers 0 .. i-1 gives the maximum over the distances of the rows before cut point i. |
| `Driver.TotalsPrefix` | src/main.c:144-148 | Adding worker i's sum and count extends the totals from cut point i to cut point i + 1. |
| `Driver.MergeIsOrderIndependent` | src/main.c:101-108 | For every T and every lock order, the merged minimum and maximum equal those of one pass over all pairs. |
| `Driver.RunWorkers` | src/main.c:127-139 | After all threads have run, in any order, every slot holds its worker's sum and count. The globals hold the minimum and maximum of all pairs. |
| `Driver.Accumulate` | src/main.c:141-148 | The total sum is the sum over all pairs (0 as written), and the total count is the number of pairs. |
| `Driver.DetermineAverageAngularDistance` | src/main.c:116-152 | A thread count below 1 is reported and changes nothing. Otherwise, for any T and lock order, the globals end as one pass over all pairs gives them. |
| `Properties.ReportedStatistics` | src/main.c:79-106 | From the initial globals: the minimum is DBL_MAX and the mean NaN exactly when N < 2. The reported minimum and maximum bracket every distance and are attained (the maximum possibly 0). The count is N(N-1)/2. |
| `Properties.SomePairIffTwoStars` | src/main.c:82-84 | There is a distance to report exactly when N >= 2. |
| `Properties.AsWrittenMeanIsZero` | src/main.c:142-151 | As written, the reported mean is 0 whenever N >= 2, and NaN otherwise. |
| `Properties.CorrectedMeanWithinBounds` | src/main.c:142-151 | Corrected, the mean times N(N-1)/2 is the sum of all distances, and the mean lies between the reported minimum and maximum. |
| `Properties.FourStarScenario` | src/main.c:116-152 | Four stars with pair distances 1 .. 6 give min 1 and max 6. The mean is 0 as written and 3.5 corrected. |
| `Properties.FourStarRun` | src/main.c:116-152 | Run on those four stars with any T >= 1 and any lock order, the driver reports (1, 6, 0) as written and (1, 6, 3.5) corrected. |

## Left out

- Threads, the mutex, `pthread_create` and `pthread_join`: the workers run one after another in a caller-chosen lock order. In the source a thread may start before the driver has filled in the later slots. The model fills every slot first, which ends the same way because a thread reads only its own slot.
- `calculateAngularDistance` and its trigonometry: it is an uninterpreted parameter.
- Floating point: distances, sums and the mean are exact reals. Rounding, a sum that depends on addition order, NaN distances, and comparisons with NaN are not modelled. `DBL_MAX` is a sentinel above every distance, not a number. The mean's `0.0 / 0` is the value `NaN`.
- Integer widths (`int`, `uint32_t`, `uint64_t`) are unbounded. With `NUM_STARS` = 30000, no product or count in the source can overflow.
- A thread count below 1 returns `InvalidThreadCount` and leaves the globals unchanged. In the source, 0 is a division by zero and a negative count is an array of negative size, both undefined behaviour.
- The `arr` pointer in each slot is not modelled: every worker reads the same catalog sequence.
- Catalog ingestion in `main` (file reading, tokenising, `atoi`/`atof`, the three-column check) is not modelled. The inner loop always runs up to `NUM_STARS`. When fewer records are read, the remaining zero-filled entries are ordinary stars of the catalog sequence here.
- Command-line parsing (`getopt`, `showHelp`), the clock and the printed report are not modelled.

## Findings

| source | as written | input that shows it | evidently intended | confidence | as-written member | corrected member |
|---|---|---|---|---|---|---|
| src/main.c:78-97 | The worker's local `sum` starts at 0 and nothing is ever added to it. Every slot reports sum 0, so the mean is 0 whenever there is a pair. | Four stars whose pair distances are 1, 2, 3, 4, 5, 6: reported mean 0 | `sum += distance` next to `count++`, so the mean is the average distance (3.5 here) | not executed | `Properties.AsWrittenMeanIsZero` | `Properties.CorrectedMeanWithinBounds` |

The as-written worker is `Variant.AsWritten`, and `Properties.FourStarScenario` shows its mean of 0 on the input above. The corrected worker is `Variant.Corrected`. For it, `Properties.CorrectedMeanWithinBounds` proves that the mean is the average of all distances and lies between the reported minimum and maximum.
