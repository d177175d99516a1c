# Axis-aligned bounding box simulation, modelled in Dafny

The program estimates the expected ratio between the area of a random polygon and the area
of its axis-aligned bounding box. Polygon vertices are drawn uniformly from [1, 2) x [1, 2).
One trial draws a polygon. It computes the shoelace area and the bounding box, then adds
area / box area to a running sum. The average over all trials is the result.

The harness (`harness/main.cpp`) works as follows:
- It checks the strategy name and reads the CPU topology from sysfs.
- It numbers the physical cores and sizes a worker pool from the usable cores, keeping one
  core back.
- It splits the requested simulations over the workers. Each worker gets an equal share and
  worker 0 also gets the remainder.
- Each worker is pinned to a core and runs one strategy instance. The harness then adds up
  the sums and run counts the workers report.

Every strategy derives from `ISimulation`, which fixes the run count and the polygon size at
construction. The strategies differ in how they lay out and reuse the random coordinates:
- **SimulationAdrian1**: draws a fresh polygon for every trial, an x and then a y per vertex.
- **SimulationEugene2**: draws all coordinates up front into two buffers and slices one
  polygon per trial. The bounding box is folded a whole SIMD vector at a time.
- **SimulationEugene3**: a struct-of-arrays layout with one row per vertex and one column
  per trial. Corners come from in-place element-wise `min_accumulate`/`max_accumulate`, and
  every other step is an element-wise vector operator.
- **SimulationEugene4**: triangles only. Six coordinate registers slide one draw per
  trial, so trial r sees draws r .. r + 5.
- **SimulationEugene5**: a ring of 2n coordinates with a moving start `shift`. Each trial
  replaces the oldest coordinate, so trial r sees draws r .. r + 2n - 1.
- **adrian1/Simulation.h** and **eugene2/Simulation.h**: the two older standalone classes.
  The first counts its own runs.

## How the model is built

- **Coordinates and division.** Coordinates are `real`. Floating-point division is a
  parameter `divide`. `Geometry.ExactDivision(divide)` states that it is true division,
  for the few facts that need it (the average, non-negativity).
- **Random numbers.** The engine and its `uniform_real_distribution{1.0, 2.0}` become
  `Random.Generator`. It is given the stream `values: nat -> real` of the numbers the engine
  would yield, and it counts how many have been drawn. `Random.InDistributionRange` says
  every value lies in [1, 2).
- **What each strategy promises.** Each strategy's `Run` states how many draws it consumes.
  It also states its sum of ratios as `Geometry.RatioSum`: the sum over trials of
  `Geometry.Ratio` of the polygon the trial sees in the stream.
  - `Geometry.PointsAt(values, from, n)` gives the n vertices that start at draw `from`.
  - Each strategy has its own start offset and stride between trials: 2n for SimulationAdrian1
    and SimulationEugene2, 1 for SimulationEugene4 and SimulationEugene5.
  - SimulationEugene3 states its sum over the columns of its two tables.
  - `Geometry.Ratio` is defined once: `Geometry.PolygonArea` (the cyclic shoelace formula)
    divided by the box area, computed from the `Geometry.MinOf`/`MaxOf` folds of the coordinates.

  So the strategies' very different loops are each proved against one reference definition.
- **State.** Classes keep the fields the source updates in place. The ring of
  SimulationEugene5 and the corner accumulators of SimulationEugene3 are `array`s updated in
  place. Vectors that the source only builds and appends to are `seq`s.
- **Operating system.** It is an input:
  - `configured` is what `sysconf(_SC_NPROCESSORS_CONF)` returns, and `online` is what
    `sysconf(_SC_NPROCESSORS_ONLN)` returns.
  - `sysfs` is the per-CPU topology readings.
  - Affinity calls are given their result codes.
  - The Timer receives clock readings as parameters.

SimulationEugene5 starts its running maxima at `std::numeric_limits<double>::min()`. That is
the smallest positive double, not the lowest one. It is harmless only because every draw is
at least 1.0 (`Eugene5.SentinelsYield`).

## Model

| member | source | states |
|---|---|---|
| Harness.Find | harness/main.cpp:65-66 | std::find returns the first position holding the name, and returns the end exactly when the name is absent |
| Harness.MinInt | harness/main.cpp:74 | std::min on int is a lower bound of both arguments and equals one of them |
| Harness.MaxInt | harness/main.cpp:103 | std::max on int is an upper bound of both arguments and equals one of them |
| Harness.TruncDiv | harness/main.cpp:107 | C++ division truncates toward zero: the remainder has the sign of the dividend and is smaller than the divisor |
| Harness.TruncDivRoundsTowardZero | harness/main.cpp:107 | -7 / 2 is -3 in C++, while Dafny's division gives -4 |
| Harness.ClampThreads | harness/main.cpp:103 | the worker count is max(1, min(mxthreads, coresToUse - 1)) for every input: a request of 1 or less gives 1; with coresToUse >= 2, a request of coresToUse - 1 or more gives coresToUse - 1, and one in between is kept; the result is always >= 1, and it is 1 when coresToUse <= 2 |
| Harness.ClampExample | harness/main.cpp:103 | 64 threads requested on 8 cores gives 7; 4 stays 4; a -1 topology forces 1 |
| Harness.PartitionRuns | harness/main.cpp:107-108 | workers 1.. get nsims / numThreads, worker 0 also gets the remainder, and the shares add up to nsims; for nsims >= 0 all shares are non-negative and differ by less than numThreads; no share exceeds nsims in magnitude |
| Harness.BaseBounds | harness/main.cpp:107-108 | the base share and worker 0's share are bounded in magnitude by nsims, and non-negative when nsims is |
| Harness.BuildPhysicalToLogical | harness/main.cpp:82-88 | the numbering map has keys exactly 0 .. n-1, and key k maps to the first CPU of the k-th core in map order |
| Harness.MappedCpuIsLowest | harness/main.cpp:86 | because each core's CPU list is ascending, the CPU a core number maps to is the lowest CPU of that core |
| Harness.WorkerCores | harness/main.cpp:124 | worker i targets the CPU stored under key i + 1, or CPU 0 when operator[] inserts a default; the map gains exactly the missing keys 1 .. numThreads, mapped to 0, and is unchanged when they are all present |
| Harness.WorkerKeysPresent | harness/main.cpp:124 | with two or more workers, every key 1 .. numThreads is present, because the pool never exceeds the core count minus one |
| Harness.Reduce | harness/main.cpp:159-164 | the reduction returns the sum of the slots' ratio sums and of their run counts |
| Harness.FilledResults | harness/main.cpp:148 | once every worker has filled its slot, the run counts add up to the shares handed out |
| Harness.RunWorkers | harness/main.cpp:119-150 | the workers' reported run counts add up to the shares, and their ratio sums add up to what the workers computed |
| Harness.RunHarness | harness/main.cpp:65-165 | an unknown name exits before any topology query. A constructor assert fails exactly when the polygon size is refused. Otherwise a worker's run fails exactly when some worker's share of the partition makes its strategy fail (`WorkerFailure`); the outcome names the lowest such worker, its share and the failure. A completed run holds the clamp, the adjustment warning exactly when the count changed, the core numbering, the main-thread pin only with >= 2 online CPUs, shares summing to nsims with no failing share, every worker key present with >= 2 workers, total run count = nsims, and the average |
| Harness.WorkerFailure | harness/main.cpp:146 | `sim->run()` fails as follows. adrian1 fails exactly when the share is INT_MAX, because its `i <= getRunCount()` counter overflows. eugene2 with a non-negative share fails exactly when share * ngon exceeds INT_MAX. A negative eugene2 share fails exactly when the 32-bit buffer size is negative. eugene3 fails exactly on a negative share (a length_error from resize). eugene4 fails exactly on a negative share (the countdown passes INT_MIN). eugene5 fails exactly when its int arithmetic leaves the range (`Eugene5.IndicesFit`): a length_error exactly when 2 * ngon exceeds INT_MAX, otherwise a ring-index overflow. A buffer overrun only happens for a positive eugene2 share whose product overflows. Any other name never fails |
| Harness.OverflowingWorkers | harness/main.cpp:146 | adrian1 with INT_MAX runs overflows its counter, and INT_MAX - 1 runs is fine; eugene5 with 2^30 points throws length_error; 6e8 points over 1e9 runs overflow a ring index; triangles are fine |
| Harness.DefaultEugene2OnOneWorkerFails | harness/main.cpp:38-40 | with the default 1e9 triangles and a single eugene2 worker, the 32-bit buffer size is -1294967296, and reserve throws |
| Harness.FirstFailing | harness/main.cpp:121-150 | the lowest-numbered worker whose run fails, or the worker count when every run returns |
| Harness.FailingWorker | harness/main.cpp:107-146 | some worker fails exactly when some share of the partition makes its strategy fail; the one reported is the lowest such worker, and with none reported every worker's run returns |
| Concurrency.SocketsSeenBound | include/common/Concurrency.h:35-49 | no more socket ids are collected than CPUs are examined |
| Concurrency.CoreKeysSeenBound | include/common/Concurrency.h:75-96 | no more (socket, core) pairs are collected than CPUs are examined |
| Concurrency.GetNumPhysicalCpus | include/common/Concurrency.h:25-57 | the number of distinct socket ids read from CPUs 0 .. min(configured, 1024) - 1, or -1 when none was read or max_cpu is negative |
| Concurrency.GetNumPhysicalCores | include/common/Concurrency.h:65-104 | the number of distinct (socket, core) pairs read from the examined CPUs, or -1 when none was read or max_cpu is negative |
| Concurrency.PushBackSorted | include/common/Concurrency.h:157 | `core_map[key].push_back(cpu)` keeps the map sorted by key and adds key to its key set |
| Concurrency.PushBackLookup | include/common/Concurrency.h:157 | after the push_back, key's list has cpu appended and every other key's list is unchanged |
| Concurrency.LookupEntry | include/common/Concurrency.h:157 | in a sorted map, looking up an entry's key finds that entry's list |
| Concurrency.SortedKeysCount | include/common/Concurrency.h:131-165 | a map sorted by strictly increasing keys has as many entries as distinct keys |
| Concurrency.CpusWithKeyMembers | include/common/Concurrency.h:140-158 | a core's list holds exactly the examined CPUs whose readings give that core |
| Concurrency.CpusWithKeyAscending | include/common/Concurrency.h:140-158 | a core's list is strictly ascending, because CPUs are visited in increasing order |
| Concurrency.CpusWithKeyEmpty | include/common/Concurrency.h:140-158 | a core's list is empty exactly when no examined CPU reports that core |
| Concurrency.MapsPrefixStep | include/common/Concurrency.h:140-162 | one loop iteration extends a map that is correct for CPUs 0 .. n-1 to one correct for 0 .. n |
| Concurrency.MapsPrefixEntries | include/common/Concurrency.h:131-165 | a correct map has one entry per core seen; every list is non-empty, ascending and holds exactly the CPUs of its core |
| Concurrency.GetPhysicalCoreMapping | include/common/Concurrency.h:131-165 | the map is sorted, its keys are the cores seen, each list is the ascending non-empty list of CPUs reporting that core, and it is empty when max_cpu is negative |
| Concurrency.FewerCoresIffSharedCore | include/common/Concurrency.h:122 | when every CPU reports its core, there are fewer cores than CPUs exactly when two CPUs share a core |
| Concurrency.IsHyperthreadingEnabled | include/common/Concurrency.h:122 | configured CPUs exceed the physical core count (-1 when unread); with complete readings this holds exactly when two CPUs share a core, and it always holds beyond 1024 CPUs |
| Concurrency.PinToCore | include/common/Concurrency.h:220-232 | reports success exactly when pthread_setaffinity_np returns 0, and only then is the mask the single core |
| Concurrency.IsThreadPinned | include/common/Concurrency.h:239-262 | pinned only when the affinity query succeeds and the processor count is positive, and then exactly when the mask has fewer CPUs than are configured |
| Concurrency.PinIsReported | include/common/Concurrency.h:220-262 | after a successful pin on a machine with >= 2 CPUs the thread reports itself pinned |
| Concurrency.PinOnOneCpuIsNotReported | include/common/Concurrency.h:220-262 | on a one-CPU machine a successful pin is not reported as pinned |
| Timing.Timer.constructor | include/common/Timer.h:12-13 | starts with the given reading, zero elapsed time and the given running state |
| Timing.Timer.Start | include/common/Timer.h:15-21 | running afterwards; the start time is renewed only if the timer was stopped; elapsed time unchanged |
| Timing.Timer.Stop | include/common/Timer.h:23-30 | stopped afterwards; a running timer adds now - start to the elapsed time, a stopped one changes nothing |
| Timing.Timer.PrintTime | include/common/Timer.h:36-45 | the running state is kept; a running timer banks the interval up to the stop reading and restarts at the restart reading |
| Timing.Timer.Reset | include/common/Timer.h:47-50 | zero elapsed time, not running, start time untouched |
| Timing.Timer.Destroy | include/common/Timer.h:56-61 | the destructor stops a running timer, banking the last interval |
| Simulation.New | include/simulation/ISimulation.h:20-25 | the getters return the constructed run count and point count, and the assert guarantees >= 3 points |
| Simulation.AverageRatio | include/simulation/ISimulation.h:38-40 | with exact division and a non-zero count, average * run count = sum of ratios |
| Simulation.TripCount | harness/SimulationAdrian1.h:31 | `for (i = 1; i <= count; ++i)` runs count times, and zero times for a negative count. It requires count < INT_MAX, because at INT_MAX the counter overflows and the loop never ends |
| Simulation.Trials | harness/SimulationEugene5.h:47 | `for (r = 0; r < runCount; ++r)` runs max(0, runCount) trials, for every int run count |
| Random.Generator.Next | harness/SimulationAdrian1.h:51-52 | `m_dist(m_mt)` yields the next value of the stream, in [1, 2), and consumes exactly one draw |
| Geometry.GetPolygonArea | harness/SimulationAdrian1.h:77-88 | the loop with `nextIndex = (i + 1) % n` computes the cyclic shoelace area, the last vertex pairing with vertex 0; it is >= 0 (the identical helpers at adrian1/Simulation.h:63-74 and eugene2/Simulation.h:92-103 are this member too) |
| Geometry.GetBoundingBoxCorners | harness/SimulationAdrian1.h:90-105 | for a non-empty polygon both corners bound every point componentwise, every corner coordinate is some point's coordinate, and the corners are the min/max folds (the identical helpers at adrian1/Simulation.h:76-91 and eugene2/Simulation.h:105-120 are this member too) |
| Geometry.ShoelaceStep | harness/SimulationAdrian1.h:80-84 | adding the term of edge k, from vertex k to vertex (k + 1) % n, extends the shoelace sum by one edge |
| Geometry.PrefixIsOpenChain | harness/SimulationAdrian1.h:81 | before the last edge the cyclic index (i + 1) % n never wraps |
| Geometry.ShoelaceClosesPolygon | harness/SimulationAdrian1.h:79-85 | the cyclic sum is the open chain plus the one closing edge from the last vertex to vertex 0 |
| Geometry.MinOfIsLeast | harness/SimulationAdrian1.h:96-98 | the min fold is <= every element and is one of them |
| Geometry.MaxOfIsGreatest | harness/SimulationAdrian1.h:96-101 | the max fold is >= every element and is one of them |
| Geometry.MinMaxOfStep | harness/SimulationAdrian1.h:97-101 | one `std::min`/`std::max` update extends the folds by one element |
| Geometry.MinOfUnique | harness/SimulationAdrian1.h:96-98 | a value that bounds every element from below and occurs is the min fold |
| Geometry.MaxOfUnique | harness/SimulationAdrian1.h:96-101 | a value that bounds every element from above and occurs is the max fold |
| Geometry.ExtentNonNegative | harness/SimulationAdrian1.h:59-60 | width and height are >= 0 |
| Geometry.BoxAreaNonNegative | harness/SimulationAdrian1.h:61 | the bounding-box area is >= 0 |
| Geometry.RatioNonNegative | harness/SimulationAdrian1.h:63 | with exact division and a non-degenerate box the ratio is >= 0 |
| Geometry.RatioFromExtents | harness/SimulationAdrian1.h:59-63 | area / (width * height), from the computed area and extents, is the polygon's ratio |
| Geometry.RatioFromCorners | harness/SimulationEugene5.h:68-69 | area / ((maxX - minX) * (maxY - minY)), from the folded corners, is the polygon's ratio |
| Geometry.PointsAtSnoc | harness/SimulationAdrian1.h:50-54 | appending the point of the next two draws extends the polygon by its next vertex |
| Geometry.TrialSumAdvance | harness/SimulationAdrian1.h:64 | adding one trial's value moves the running sum one trial along |
| Geometry.RatioSumAdvance | harness/SimulationAdrian1.h:64 | adding one trial's ratio moves the running sum of ratios one trial along the stream |
| Geometry.TrialSumNonNegative | harness/main.cpp:159-162 | a sum of non-negative trial values is non-negative |
| Geometry.RatioSumNonNegative | harness/main.cpp:159-162 | with exact division and non-degenerate boxes, the sum of ratios is >= 0 |
| Adrian1.SimulationAdrian1.constructor | harness/SimulationAdrian1.h:18-21 | the base holds the counts, the sum starts at 0 and the engine is fresh |
| Adrian1.SimulationAdrian1.GetAverageRatio | harness/SimulationAdrian1.h:24-27 | requires a positive run count; with exact division, average * run count = sum |
| Adrian1.SimulationAdrian1.Run | harness/SimulationAdrian1.h:30-34 | for a run count below INT_MAX: max(0, runCount) trials, 2n draws each; the sum grows by the ratios of consecutive 2n-draw polygons |
| Adrian1.SimulationAdrian1.RunOne | harness/SimulationAdrian1.h:41-65 | builds exactly n points from two draws each (x then y) and adds that polygon's ratio to the sum |
| Eugene2.Wrap32 | harness/SimulationEugene2.h:36 | two's-complement wrap-around: the result is an int, congruent to the true value mod 2^32, and equal to it when that fits |
| Eugene2.TotalPointsAsWritten | harness/SimulationEugene2.h:36 | the 32-bit `runCount * numPoints` is an int and is exact only when the product fits |
| Eugene2.TotalPointsAsWrittenOverflows | harness/SimulationEugene2.h:36 | with 1.5e9 runs of triangles the product wraps to 205032704, below where the last trial's slice ends |
| Eugene2.TotalPoints | harness/SimulationEugene2.h:36-56 | every trial's slice [s * n, s * n + n) lies within buffers of the exact size |
| Eugene2.SliceIsPoints | harness/SimulationEugene2.h:44-56 | trial s's slices of the two buffers are the n points of draws start + 2ns onward |
| Eugene2.GetPolygonAreaVectorized | harness/SimulationEugene2.h:89-109 | the n - 1 open edges plus the explicit wrap term give the cyclic shoelace area, which is >= 0 |
| Eugene2.Broadcast | harness/SimulationEugene2.h:132-135 | `hn::Set` fills every lane with the value |
| Eugene2.LaneMin | harness/SimulationEugene2.h:143-145 | `hn::Min` is the lane-wise minimum |
| Eugene2.LaneMax | harness/SimulationEugene2.h:144-146 | `hn::Max` is the lane-wise maximum |
| Eugene2.BroadcastFolds | harness/SimulationEugene2.h:132-135 | reducing a broadcast vector gives back its value |
| Eugene2.LaneFolds | harness/SimulationEugene2.h:143-153 | reducing a lane-wise min (max) gives the min (max) of the two reductions |
| Eugene2.FoldsCover | harness/SimulationEugene2.h:138-161 | a sequence whose elements are exactly those of two others folds to the min (max) of their folds |
| Eugene2.ChunkExtends | harness/SimulationEugene2.h:138-147 | folding in lanes i .. i + N - 1 extends the covered prefix to i + N |
| Eugene2.LanesStart | harness/SimulationEugene2.h:131-135 | the broadcast registers fold to the first coordinate |
| Eugene2.LanesStep | harness/SimulationEugene2.h:138-147 | one vector iteration keeps the register reductions equal to the folds of the prefix seen so far |
| Eugene2.LanesReduce | harness/SimulationEugene2.h:150-153 | combining the reduced lanes with the scalar start gives the fold of the prefix seen |
| Eugene2.ScalarStep | harness/SimulationEugene2.h:156-169 | one scalar `std::min`/`std::max` step extends the folded prefix by one point |
| Eugene2.ScalarStart | harness/SimulationEugene2.h:123-126 | the scalars start as the fold of the first point |
| Eugene2.GetBoundingBoxCornersVectorized | harness/SimulationEugene2.h:111-176 | requires a point; for every lane count, both branches give corners equal to the min/max folds of all the points |
| Eugene2.VectorBranch | harness/SimulationEugene2.h:128-161 | with N >= 1 lanes and >= 2 points, every load satisfies i + N <= n, and the vector loop, the lane reduction and the tail loop together give the folds over all points |
| Eugene2.ScalarLoop | harness/SimulationEugene2.h:156-169 | folding the points from `from` on into accumulators that hold the prefix folds gives the folds over all points |
| Eugene2.SliceRatio | harness/SimulationEugene2.h:59-68 | the area and corners computed on trial s's slices give the ratio of its polygon |
| Eugene2.SimulationEugene2.GetAverageRatio | harness/SimulationEugene2.h:27-30 | requires a positive run count; with exact division, average * run count = sum |
| Eugene2.SimulationEugene2.FillBuffers | harness/SimulationEugene2.h:39-47 | both buffers get exactly totalPoints entries, x[i] = draw 2i and y[i] = draw 2i + 1 |
| Eugene2.SimulationEugene2.Run | harness/SimulationEugene2.h:33-73 | draws 2 * runCount * n values; the sum is assigned (not accumulated) the ratios of consecutive 2n-draw polygons |
| Eugene3.Elementwise | harness/SimulationEugene3.h:14-89 | operator+, -, *, /, min and max return a vector of the same size whose element i is op(left[i], right[i]) |
| Eugene3.Accumulate | harness/SimulationEugene3.h:92-109 | min_accumulate / max_accumulate overwrite left in place with the element-wise min / max of left and right |
| Eugene3.AccumulateSelf | harness/SimulationEugene3.h:92-109 | accumulating a vector into itself leaves it unchanged |
| Eugene3.MinMaxBounds | harness/SimulationEugene3.h:66-89 | element-wise min (max) bounds both operands and equals one of them |
| Eugene3.Col | harness/SimulationEugene3.h:139-147 | column j of a table is element j of every row, in row order |
| Eugene3.ColumnVertex | harness/SimulationEugene3.h:193-196 | vertex p of trial j's polygon is (X[p][j], Y[p][j]) |
| Eugene3.FoldedFirst | harness/SimulationEugene3.h:169-172 | the copies of row 0 are the folds of the first row |
| Eugene3.FoldedStep | harness/SimulationEugene3.h:174-179 | accumulating row p extends every column's fold by one row |
| Eugene3.FoldedAll | harness/SimulationEugene3.h:174-179 | after all rows each accumulator slot is the fold of its column |
| Eugene3.CornerFold | harness/SimulationEugene3.h:169-179 | starting from a copy of row 0 and accumulating rows 1 .. n-1, slot j is the min (max) of column j |
| Eugene3.Corners | harness/SimulationEugene3.h:169-179 | the four corner vectors are the per-trial min and max of the x and y columns |
| Eugene3.ShoelaceInto | harness/SimulationEugene3.h:193-197 | the inner loop adds the n shoelace terms of trial i into slot i and leaves every other slot alone |
| Eugene3.PolygonAreas | harness/SimulationEugene3.h:189-199 | slot j is the cyclic shoelace area of trial j's polygon |
| Eugene3.ColumnExtents | harness/SimulationEugene3.h:182-183 | the widths and heights are the extents of each trial's polygon |
| Eugene3.ColumnRatio | harness/SimulationEugene3.h:185-202 | box area and quotient, computed from width, height and area, are the trial's ratio |
| Eugene3.RatiosOfColumns | harness/SimulationEugene3.h:182-202 | the ratio vector is the vector of every trial's ratio |
| Eugene3.ExtentsNonNegative | harness/SimulationEugene3.h:182-183 | every width and height is >= 0 |
| Eugene3.SimulationEugene3.GetAverageRatio | harness/SimulationEugene3.h:122-125 | requires a positive run count; with exact division, average * run count = sum |
| Eugene3.SimulationEugene3.FillRows | harness/SimulationEugene3.h:136-142 | a rows x width table filled row by row: cell [p][j] holds draw p * width + j |
| Eugene3.SimulationEugene3.Run | harness/SimulationEugene3.h:130-214 | both tables are n x runCount, X filled first and then Y, 2n * runCount draws; the sum grows by the sum of every column's ratio |
| Eugene4.TriangleAreaIsShoelace | harness/SimulationEugene4.h:49 | the determinant formula is the shoelace area of the triangle |
| Eugene4.SpreadIsExtent | harness/SimulationEugene4.h:50-51 | the largest pairwise distance of three coordinates is the extent of their box |
| Eugene4.RegistersSlide | harness/SimulationEugene4.h:56-61 | shifting the six registers and drawing one value moves the window one draw along the stream |
| Eugene4.TrialRatio | harness/SimulationEugene4.h:49-53 | the register formulas give the ratio of the triangle of six consecutive draws |
| Eugene4.SimulationEugene4.constructor | harness/SimulationEugene4.h:23-27 | accepted only with exactly three points |
| Eugene4.SimulationEugene4.GetAverageRatio | harness/SimulationEugene4.h:30-33 | requires a positive run count; with exact division, average * run count = sum |
| Eugene4.SimulationEugene4.Run | harness/SimulationEugene4.h:36-64 | 6 + runCount draws; the sum is assigned the ratios of the triangles of draws r .. r + 5 |
| Eugene4.SimulationEugene4.Trial | harness/SimulationEugene4.h:49-54 | one trial's ratio is the ratio of the triangle in the registers |
| Eugene5.SentinelsYield | harness/SimulationEugene5.h:49-52 | the `max()`/`min()` sentinels never survive a fold over draws in [1, 2) |
| Eugene5.ModRange | harness/SimulationEugene5.h:56-59 | an index below 3 * 2n reduces mod 2n by at most two subtractions |
| Eugene5.RunningMinStep | harness/SimulationEugene5.h:62-63 | the running minimum from the sentinel is the min fold of the coordinates seen |
| Eugene5.RunningMaxStep | harness/SimulationEugene5.h:64-65 | the running maximum from the sentinel is the max fold of the coordinates seen |
| Eugene5.RingInRange | harness/SimulationEugene5.h:41-43 | every ring slot holds a draw, so it lies in [1, 2) |
| Eugene5.WindowIsPoints | harness/SimulationEugene5.h:54-59 | the n vertices read from `shift` are the polygon of the next 2n draws of the stream |
| Eugene5.RingAdvances | harness/SimulationEugene5.h:71-72 | overwriting the oldest slot with the next draw and advancing shift moves the window one draw along |
| Eugene5.ScanStep | harness/SimulationEugene5.h:54-66 | one inner iteration extends the shoelace sum and the four running corners by one vertex |
| Eugene5.ScanComplete | harness/SimulationEugene5.h:67 | after all vertices the scaled sum is the polygon area and the corners are its folds |
| Eugene5.NextVertex | harness/SimulationEugene5.h:58-59 | the "next" coordinates `(currIdx + 2) % m`, `(currIdx + 3) % m` are vertex (i + 1) % n of the window |
| Eugene5.ScanWindow | harness/SimulationEugene5.h:48-67 | the inner loop gives the area and the four corners of the window's polygon |
| Eugene5.SimulationEugene5.Trial | harness/SimulationEugene5.h:48-69 | one trial's ratio is the ratio of the window's polygon |
| Eugene5.SimulationEugene5.Fill | harness/SimulationEugene5.h:41-43 | the ring gets the first 2n draws, in order |
| Eugene5.SimulationEugene5.GetAverageRatio | harness/SimulationEugene5.h:28-31 | requires a positive run count; with exact division, average * run count = sum |
| Eugene5.SimulationEugene5.Run | harness/SimulationEugene5.h:33-76 | when its int arithmetic stays in range (`IndicesFit`): 2n + max(0, runCount) draws; the sum is assigned the ratios of the polygons of draws r .. r + 2n - 1 |
| LegacyAdrian1.Simulation.constructor | adrian1/Simulation.h:12-18 | asserts >= 3 points and starts with run count 0 and sum 0 |
| LegacyAdrian1.Simulation.GetAverageRatio | adrian1/Simulation.h:20-23 | requires at least one completed run; with exact division, average * run count = sum |
| LegacyAdrian1.Simulation.RunMany | adrian1/Simulation.h:25-29 | for k below INT_MAX, runMany(k) increases the run count by max(0, k); the sum grows by the ratios of the next max(0, k) polygons |
| LegacyAdrian1.Simulation.Run | adrian1/Simulation.h:31-51 | builds n points from two draws each, adds their ratio, and increments the run count by exactly 1 |
| LegacyEugene2.Simulation.constructor | eugene2/Simulation.h:22-32 | asserts >= 3 points; getRunCount() afterwards returns the constructed count as a floating value, and the sum is 0 |
| LegacyEugene2.Simulation.GetAverageRatio | eugene2/Simulation.h:42-45 | requires a positive run count; with exact division, average * getRunCount() = getRatiosSum() |
| LegacyEugene2.Simulation.Run | eugene2/Simulation.h:47-51 | for a run count below INT_MAX, runOne runs max(0, runCount) times, 2n draws each; the sum grows by the ratios of consecutive 2n-draw polygons |
| LegacyEugene2.Simulation.RunOne | eugene2/Simulation.h:54-78 | builds exactly n points from two draws each and adds that polygon's ratio to the sum |

## Findings

| source | as written | input that shows it | evidently intended | confidence | as-written member | corrected member |
|---|---|---|---|---|---|---|
| harness/SimulationEugene2.h:36 | `runCount * numPoints` is computed in 32-bit `int`, and so is `simIdx * numPoints` at line 54 | a SimulationEugene2 with runCount 1500000000 and 3 points: the product wraps to 205032704, so the buffers get 205032704 entries while the later trials read slices far past them | the buffer size is the exact product (computed in a 64-bit or size type), so every trial's slice fits | not executed | Eugene2.TotalPointsAsWrittenOverflows | Eugene2.TotalPoints |

## Left out

- Floating point: coordinates, areas and sums are exact reals. Rounding and summation order
  (`std::reduce` in SimulationEugene3) are not modelled, and division is the parameter
  `divide`.
- Random numbers: `std::mt19937`, `std::random_device` and the distribution's algorithm are
  replaced by the given stream of values in [1, 2). The program-wide generator of
  adrian1/Random.h is the `random` parameter of `LegacyAdrian1.Simulation.Run`.
- Threads: the workers of harness/main.cpp run one after another. Their unsynchronised
  `operator[]` on the shared core map (harness/main.cpp:124) is modelled as one lookup after
  another, and thread creation and joining are left out.
- Operating system: sysfs files, `sysconf`, `sched_getcpu` (`get_current_core`) and the
  affinity calls are inputs or result codes. `steady_clock` is the `now` parameters of the
  Timer.
- Command line and output: argparse, every message, `print_physical_core_mapping` and the
  constructor message of eugene2/Simulation.h are not modelled. `main2` is not modelled
  either: `main` calls `main1`.
- Harness.RunHarness: a eugene1 worker is taken to always return, because SimulationEugene1.h is not
  part of this model. Memory exhaustion from very large shares (std::bad_alloc) is not modelled either.
- SimulationEugene1.h is not part of this model. The harness only treats "eugene1" as a valid
  name whose constructor takes any polygon with at least three points.
- Highway: `Lanes(d)` is the `lanes` constant, any natural number. Vector registers are
  sequences, and `Load`, `Min`, `Max`, `MinOfLanes`, `MaxOfLanes` and `GetLane` are their
  sequence meanings.
- C++ `assert`s are preconditions: a debug build aborts when they fail, and a release build
  does not check them.
- Eugene4.SimulationEugene4.Run: requires a non-negative run count. For a negative count the
  countdown `for (i = runCount; i; --i)` never reaches zero before signed overflow. The harness
  reports that worker as failing (`Harness.WorkerFailure`).
- Eugene3.SimulationEugene3.Run: requires a non-negative run count, because `resize` with a
  negative `int` throws `std::length_error`. The harness reports that worker as failing
  (`Harness.WorkerFailure`).
- Eugene2.SimulationEugene2.Run: requires a non-negative run count, because `reserve` with a
  negative `int` throws `std::length_error`. It uses the exact buffer size rather than the
  32-bit one (see Findings). The harness reports the negative and overflowing cases as
  failing workers (`Harness.WorkerFailure`).
- Eugene2.GetPolygonAreaVectorized: requires at least one point. The source reads
  index -1 for zero points. The two raw coordinate arrays are modelled as sequences of exactly
  numPoints values.
- Eugene3.Corners: the source interleaves the four accumulations row by row, and the model
  folds each corner vector separately. The results agree, because the four accumulators do
  not share state.
- Eugene3.Accumulate: `right` is passed as a value. Aliasing between `left` and `right`,
  which the source never does, is not modelled.
- Simulation.TripCount: requires count < INT_MAX. At INT_MAX, the source's `i <= count` loop
  never ends, because `++i` overflows. The harness reports such a worker as failing
  (`Harness.WorkerFailure`).
- Adrian1.SimulationAdrian1.Run: requires a run count below INT_MAX, for the loop counter of
  harness/SimulationAdrian1.h:31.
- LegacyAdrian1.Simulation.RunMany: requires k below INT_MAX, for the loop counter of
  adrian1/Simulation.h:26.
- LegacyEugene2.Simulation.Run: requires a run count below INT_MAX, for the loop counter of
  eugene2/Simulation.h:48.
- Eugene5.SimulationEugene5.Run: requires `Eugene5.IndicesFit`. With 2^30 points or more,
  the 32-bit `pointCount * 2` is negative and resize throws std::length_error. Otherwise the
  largest ring index `shift + 2 * i + 3` must still fit an int. The model computes both
  exactly, and the harness reports the other cases as failing workers (`Harness.WorkerFailure`).
- LegacyAdrian1.Simulation.Run: `m_runCount++` is an unbounded integer. Overflow after
  2^31 - 1 runs is not modelled.
- Eugene2.SimulationEugene2.GetSumOfRatios, Eugene3.SimulationEugene3.GetSumOfRatios and the
  other plain getters return a field and have no contract of their own.
