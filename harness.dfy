/**
 * The multi-threaded driver (main1 of the harness): validates the strategy name, reads the
 * CPU topology, numbers the physical cores, sizes the worker pool, splits the requested
 * simulations over the workers, lets each worker run one strategy instance and adds up
 * what the workers report.
 *
 * The operating system is the parameters `configured` (sysconf(_SC_NPROCESSORS_CONF)),
 * `online` (sysconf(_SC_NPROCESSORS_ONLN)) and `sysfs` (the topology files); what a worker's
 * simulation sums up is the parameter `workerSum`, and floating-point division is `divide`.
 */
module Harness {
  import opened Wrappers
  import opened Concurrency
  import Simulation
  import Geometry
  import Eugene2
  import Eugene5

  /** The names accepted on the command line, in the order the harness lists them. */
  const ValidSimulations: seq<string> := ["adrian1", "eugene1", "eugene2", "eugene3", "eugene4", "eugene5"]

  /** std::find: the first position holding `name`, or |names| when there is none. */
  function {:induction false} Find(names: seq<string>, name: string): (i: nat)
    ensures i <= |names|
    ensures i < |names| ==> names[i] == name
    ensures forall j :: 0 <= j < i ==> names[j] != name
    ensures i == |names| <==> name !in names
  {
    if names == [] then 0
    else if names[0] == name then 0
    else 1 + Find(names[1..], name)
  }

  /** std::min on int: `(b < a) ? b : a`. */
  function MinInt(a: int, b: int): (m: int)
    ensures m <= a && m <= b && (m == a || m == b)
  {
    if b < a then b else a
  }

  /** std::max on int: `(a < b) ? b : a`. */
  function MaxInt(a: int, b: int): (m: int)
    ensures m >= a && m >= b && (m == a || m == b)
  {
    if a < b then b else a
  }

  /** C++ integer division, which truncates toward zero (Dafny's rounds toward minus infinity). */
  function TruncDiv(a: int, b: int): (q: int)
    requires b > 0
    ensures a >= 0 ==> 0 <= a - q * b < b
    ensures a < 0 ==> -b < a - q * b <= 0
  {
    if a >= 0 then a / b else -((-a) / b)
  }

  /** -7 / 2 is -3 in C++, where Dafny's own division gives -4. */
  lemma TruncDivRoundsTowardZero()
    ensures TruncDiv(-7, 2) == -3 && -7 / 2 == -4
  {
  }

  /**
   * The worker count: mxthreads, but at most one less than the cores to use (one is left to
   * the operating system) and never below one.
   */
  function ClampThreads(mxthreads: int, coresToUse: int): (n: int)
    ensures n >= 1
    ensures coresToUse >= 2 ==> n <= coresToUse - 1
    ensures coresToUse <= 2 ==> n == 1
    ensures n == mxthreads <==> mxthreads == 1 || 1 <= mxthreads <= coresToUse - 1
    ensures 1 <= mxthreads <= coresToUse - 1 ==> n == mxthreads
    ensures mxthreads <= 1 ==> n == 1
    ensures coresToUse >= 2 && mxthreads >= coresToUse - 1 ==> n == coresToUse - 1
  {
    MaxInt(1, MinInt(mxthreads, coresToUse - 1))
  }

  /** 64 requested threads on 8 usable cores become 7 workers. */
  lemma ClampExample()
    ensures ClampThreads(64, 8) == 7 && ClampThreads(4, 8) == 4 && ClampThreads(30, -1) == 1
  {
  }

  function Sum(s: seq<int>): int {
    if s == [] then 0 else Sum(s[..|s| - 1]) + s[|s| - 1]
  }

  function AbsInt(a: int): nat {
    if a < 0 then -a else a
  }

  /**
   * The per-worker run counts: every worker gets nsims / numThreads runs and worker 0 also
   * the remainder, so the workers together run exactly nsims simulations; no worker's count
   * is larger in magnitude than nsims, so none overflows an int.
   */
  method PartitionRuns(nsims: int, numThreads: int) returns (runs: seq<int>)
    requires numThreads >= 1
    ensures |runs| == numThreads
    ensures Sum(runs) == nsims
    ensures forall i :: 1 <= i < |runs| ==> runs[i] == TruncDiv(nsims, numThreads)
    ensures runs[0] == TruncDiv(nsims, numThreads) + (nsims - TruncDiv(nsims, numThreads) * numThreads)
    ensures nsims >= 0 ==> forall i :: 0 <= i < |runs| ==> runs[i] >= 0
    ensures nsims >= 0 ==> runs[0] - runs[|runs| - 1] < numThreads
    ensures forall i :: 0 <= i < |runs| ==> AbsInt(runs[i]) <= AbsInt(nsims)
  {
    var numRunsPerThread := TruncDiv(nsims, numThreads);
    var runsAdjustment := nsims - numRunsPerThread * numThreads;
    BaseBounds(nsims, numThreads);
    runs := [];
    var i := 0;
    while i < numThreads
      invariant 0 <= i <= numThreads
      invariant |runs| == i
      invariant Sum(runs) == numRunsPerThread * i + (if i > 0 then runsAdjustment else 0)
      invariant i > 0 ==> runs[0] == numRunsPerThread + runsAdjustment
      invariant forall j :: 1 <= j < i ==> runs[j] == numRunsPerThread
    {
      var numRuns := numRunsPerThread + (if i == 0 then runsAdjustment else 0);
      MulStep(numRunsPerThread, i);
      assert (runs + [numRuns])[..|runs|] == runs;
      runs := runs + [numRuns];
      i := i + 1;
    }
  }

  lemma MulStep(q: int, i: int)
    ensures q * (i + 1) == q * i + q
  {
  }

  lemma MulGrows(q: int, t: int)
    requires t >= 1
    ensures q >= 0 ==> q * t >= q
    ensures q <= 0 ==> q * t <= q
  {
  }

  /** The share of worker 0 and of the others, bounded by the total. */
  lemma BaseBounds(nsims: int, numThreads: int)
    requires numThreads >= 1
    ensures var q := TruncDiv(nsims, numThreads);
            AbsInt(q) <= AbsInt(nsims) && AbsInt(q + (nsims - q * numThreads)) <= AbsInt(nsims)
    ensures nsims >= 0 ==> TruncDiv(nsims, numThreads) >= 0
  {
    var q := TruncDiv(nsims, numThreads);
    var p := q * numThreads;
    if nsims >= 0 {
      DivNonNegative(nsims, numThreads);
      ShareBounds(nsims, numThreads, q, p);
    } else {
      DivNonNegative(-nsims, numThreads);
      ShareBounds(nsims, numThreads, q, p);
    }
  }

  lemma DivNonNegative(a: int, b: int)
    requires a >= 0 && b >= 1
    ensures a / b >= 0
  {
  }

  lemma ShareBounds(nsims: int, numThreads: int, q: int, p: int)
    requires numThreads >= 1 && p == q * numThreads
    requires nsims >= 0 ==> q >= 0 && 0 <= nsims - p < numThreads
    requires nsims < 0 ==> q <= 0 && -numThreads < nsims - p <= 0
    ensures AbsInt(q) <= AbsInt(nsims) && AbsInt(q + (nsims - p)) <= AbsInt(nsims)
  {
    MulGrows(q, numThreads);
  }

  /**
   * The `physicalToLogicalCoreMapping` loop: the k-th physical core in (socket, core) order
   * is numbered k and mapped to the first logical CPU listed for it.
   */
  method BuildPhysicalToLogical(coreMap: CoreMap) returns (mapping: map<int, int>)
    requires forall i :: 0 <= i < |coreMap| ==> |coreMap[i].cpus| > 0
    ensures forall id :: id in mapping <==> 0 <= id < |coreMap|
    ensures forall id :: 0 <= id < |coreMap| ==> mapping[id] == coreMap[id].cpus[0]
  {
    mapping := map[];
    var physicalCoreId := 0;
    while physicalCoreId < |coreMap|
      invariant 0 <= physicalCoreId <= |coreMap|
      invariant forall id :: id in mapping <==> 0 <= id < physicalCoreId
      invariant forall id :: 0 <= id < physicalCoreId ==> mapping[id] == coreMap[id].cpus[0]
    {
      mapping := mapping[physicalCoreId := coreMap[physicalCoreId].cpus[0]];
      physicalCoreId := physicalCoreId + 1;
    }
  }

  /** Since each core's CPU list is ascending, the CPU a core is mapped to is its lowest. */
  lemma MappedCpuIsLowest(coreMap: CoreMap, mapping: map<int, int>, id: int)
    requires forall i :: 0 <= i < |coreMap| ==> |coreMap[i].cpus| > 0 && StrictlyAscending(coreMap[i].cpus)
    requires forall i :: 0 <= i < |coreMap| ==> i in mapping && mapping[i] == coreMap[i].cpus[0]
    requires 0 <= id < |coreMap|
    ensures forall c :: c in coreMap[id].cpus ==> mapping[id] <= c
  {
    var cpus := coreMap[id].cpus;
    forall c | c in cpus ensures mapping[id] <= c {
      var j :| 0 <= j < |cpus| && cpus[j] == c;
      if j > 0 {
        assert cpus[0] < cpus[j];
      }
    }
  }

  /**
   * What each worker looks up with `physicalToLogicalCoreMapping[i + 1]`: the mapped CPU, or 0
   * when the key is absent, in which case operator[] also inserts it with value 0.
   * `after` is the map once every worker has done its lookup.
   */
  method WorkerCores(mapping: map<int, int>, numThreads: int) returns (cores: seq<int>, after: map<int, int>)
    requires numThreads >= 1
    ensures |cores| == numThreads
    ensures forall i :: 0 <= i < numThreads ==> cores[i] == (if i + 1 in mapping then mapping[i + 1] else 0)
    ensures forall k :: k in after <==> k in mapping || 1 <= k <= numThreads
    ensures forall k :: k in after ==> after[k] == (if k in mapping then mapping[k] else 0)
    ensures (forall i :: 1 <= i <= numThreads ==> i in mapping) ==> after == mapping
  {
    cores := [];
    after := mapping;
    var i := 0;
    while i < numThreads
      invariant 0 <= i <= numThreads
      invariant |cores| == i
      invariant forall j :: 0 <= j < i ==> cores[j] == (if j + 1 in mapping then mapping[j + 1] else 0)
      invariant forall k :: k in after <==> k in mapping || 1 <= k <= i
      invariant forall k :: k in after ==> after[k] == (if k in mapping then mapping[k] else 0)
    {
      var key := i + 1;
      if key !in after {
        after := after[key := 0];
      }
      cores := cores + [after[key]];
      i := i + 1;
    }
    if forall k :: 1 <= k <= numThreads ==> k in mapping {
      forall k | k in after ensures k in mapping {
      }
      assert forall k :: k in after.Keys <==> k in mapping.Keys;
      assert after.Keys == mapping.Keys;
      assert forall k :: k in after ==> after[k] == mapping[k];
    }
  }

  /**
   * With two or more workers, every key the workers look up exists: the workers number at
   * most one less than the physical cores, and the map has one key per physical core. So the
   * workers only ever read the shared map concurrently; a lookup that inserts happens only
   * when a single worker runs.
   */
  lemma {:induction false} WorkerKeysPresent(mxthreads: int, online: int, physicalCores: int, mapping: map<int, int>, numEntries: nat)
    requires physicalCores == -1 || physicalCores == numEntries
    requires forall id :: id in mapping <==> 0 <= id < numEntries
    ensures var n := ClampThreads(mxthreads, MinInt(online, physicalCores));
            n >= 2 ==> forall i :: 1 <= i <= n ==> i in mapping
  {
    var coresToUse := MinInt(online, physicalCores);
    var n := ClampThreads(mxthreads, coresToUse);
    if n >= 2 {
      assert coresToUse > 2;
      assert physicalCores == numEntries;
      forall i | 1 <= i <= n ensures i in mapping {
        assert i < numEntries;
      }
    }
  }

  /** The pair `(getSumOfRatios(), getRunCount())` a worker stores in its slot of `results`. */
  datatype WorkerResult = WorkerResult(sumOfRatios: real, runCount: int)

  function SumRatios(rs: seq<WorkerResult>): real {
    if rs == [] then 0.0 else SumRatios(rs[..|rs| - 1]) + rs[|rs| - 1].sumOfRatios
  }

  function SumCounts(rs: seq<WorkerResult>): int {
    if rs == [] then 0 else SumCounts(rs[..|rs| - 1]) + rs[|rs| - 1].runCount
  }

  function SumOf(f: nat -> real, n: nat): real {
    if n == 0 then 0.0 else SumOf(f, n - 1) + f(n - 1)
  }

  /** The reduction loop over `results`, in slot order. */
  method Reduce(results: array<WorkerResult>) returns (totalRatiosSum: real, totalRunCount: int)
    ensures totalRatiosSum == SumRatios(results[..])
    ensures totalRunCount == SumCounts(results[..])
  {
    totalRatiosSum := 0.0;
    totalRunCount := 0;
    var i := 0;
    while i < results.Length
      invariant 0 <= i <= results.Length
      invariant totalRatiosSum == SumRatios(results[..i])
      invariant totalRunCount == SumCounts(results[..i])
    {
      assert results[..i + 1][..i] == results[..i];
      totalRatiosSum := totalRatiosSum + results[i].sumOfRatios;
      totalRunCount := totalRunCount + results[i].runCount;
      i := i + 1;
    }
    assert results[..i] == results[..];
  }

  /** Once each worker has filled its slot, the counts add up to the runs handed out. */
  lemma {:induction false} FilledResults(rs: seq<WorkerResult>, runs: seq<int>, workerSum: nat -> real)
    requires |rs| == |runs|
    requires forall i :: 0 <= i < |rs| ==> rs[i] == WorkerResult(workerSum(i), runs[i])
    ensures SumCounts(rs) == Sum(runs)
    ensures SumRatios(rs) == SumOf(workerSum, |rs|)
  {
    if rs != [] {
      var k := |rs| - 1;
      FilledResults(rs[..k], runs[..k], workerSum);
    }
  }

  /**
   * Each worker constructs its strategy with its run count and stores its pair in its own
   * slot of `results`; the slots are then added up in order.
   */
  method RunWorkers(runs: seq<int>, ngon: int, workerSum: nat -> real) returns (totalRatiosSum: real, totalRunCount: int)
    requires ngon >= 3
    ensures totalRunCount == Sum(runs)
    ensures totalRatiosSum == SumOf(workerSum, |runs|)
  {
    var results := new WorkerResult[|runs|](_ => WorkerResult(0.0, 0));
    var i := 0;
    while i < |runs|
      invariant 0 <= i <= |runs|
      invariant forall j :: 0 <= j < i ==> results[j] == WorkerResult(workerSum(j), runs[j])
    {
      var sim := Simulation.New(runs[i], ngon);
      results[i] := WorkerResult(workerSum(i), sim.GetRunCount());
      i := i + 1;
    }
    totalRatiosSum, totalRunCount := Reduce(results);
    FilledResults(results[..], runs, workerSum);
  }

  /** Whether the strategy's constructor accepts the polygon size (its asserts hold). */
  predicate ConstructorAccepts(simulationName: string, ngon: int) {
    ngon >= 3 && (simulationName == "eugene4" ==> ngon == 3)
  }

  /** How a worker's `sim->run()` can fail to return normally. */
  datatype Failure =
    | LengthError      // reserve or resize with a negative size throws std::length_error, which ends the process
    | CounterOverflow  // a loop counter steps past the int range, so the loop never ends normally
    | BufferOverrun    // SimulationEugene2's 32-bit totalPoints wraps, so the trials read past the buffers
    | IndexOverflow    // SimulationEugene5's ring index `shift + 2 * i + 3` overflows int

  /**
   * What goes wrong in the run of a worker of strategy `simulationName` with `share` runs.
   * - SimulationAdrian1 loops `for (int i {1}; i <= getRunCount(); ++i)`, which never ends
   *   at INT_MAX.
   * - SimulationEugene2 sizes its buffers with the 32-bit `runCount * numPoints`.
   * - SimulationEugene3 resizes its rows to `runCount`.
   * - SimulationEugene4 counts `runCount` down to zero.
   * - SimulationEugene5 computes `pointCount * 2` and its ring indices in int.
   */
  function WorkerFailure(simulationName: string, share: int, ngon: int): (f: Option<Failure>)
    ensures simulationName == "adrian1" ==> (f.None? <==> share < Simulation.IntMax)
    ensures simulationName == "eugene2" && share >= 0 && ngon >= 1 ==>
              (f.None? <==> share * ngon <= Simulation.IntMax)
    ensures simulationName == "eugene2" && share < 0 ==>
              (f.None? <==> Eugene2.TotalPointsAsWritten(share, ngon) >= 0)
    ensures simulationName == "eugene3" ==> (f.None? <==> share >= 0)
    ensures simulationName == "eugene4" ==> (f.None? <==> share >= 0)
    ensures simulationName == "eugene5" ==> (f.None? <==> Eugene5.IndicesFit(ngon, share))
    ensures simulationName == "eugene5" ==> (f == Some(LengthError) <==> 2 * ngon > Simulation.IntMax)
    ensures f == Some(CounterOverflow) <==>
              (simulationName == "eugene4" && share < 0) || (simulationName == "adrian1" && share >= Simulation.IntMax)
    ensures f == Some(BufferOverrun) ==> simulationName == "eugene2" && share > 0 && share * ngon > Simulation.IntMax
    ensures f == Some(IndexOverflow) ==> simulationName == "eugene5" && share > 0
    ensures simulationName !in ["adrian1", "eugene2", "eugene3", "eugene4", "eugene5"] ==> f.None?
  {
    if simulationName == "adrian1" && share >= Simulation.IntMax then Some(CounterOverflow)
    else if simulationName == "eugene2" then
      var totalPoints := Eugene2.TotalPointsAsWritten(share, ngon);
      if totalPoints < 0 then Some(LengthError)
      else if share > 0 && totalPoints < share * ngon then Some(BufferOverrun)
      else None
    else if simulationName == "eugene3" && share < 0 then Some(LengthError)
    else if simulationName == "eugene4" && share < 0 then Some(CounterOverflow)
    else if simulationName == "eugene5" && 2 * ngon > Simulation.IntMax then Some(LengthError)
    else if simulationName == "eugene5" && !Eugene5.IndicesFit(ngon, share) then Some(IndexOverflow)
    else None
  }

  /** Two workers that never return: adrian1 with INT_MAX runs, and eugene5 with 2^30 points. */
  lemma OverflowingWorkers()
    ensures WorkerFailure("adrian1", 2_147_483_647, 3) == Some(CounterOverflow)
    ensures WorkerFailure("adrian1", 2_147_483_646, 3) == None
    ensures WorkerFailure("eugene5", 1, 1_073_741_824) == Some(LengthError)
    ensures WorkerFailure("eugene5", 1_000_000_000, 600_000_000) == Some(IndexOverflow)
    ensures WorkerFailure("eugene5", 1_000_000_000, 3) == None
  {
  }

  /** The default 1e9 triangles on a single eugene2 worker wrap to a negative buffer size. */
  lemma DefaultEugene2OnOneWorkerFails()
    ensures Eugene2.TotalPointsAsWritten(1_000_000_000, 3) == -1_294_967_296
    ensures WorkerFailure("eugene2", 1_000_000_000, 3) == Some(LengthError)
  {
  }

  /** The first worker whose run fails, or |shares| when every worker's run returns. */
  function {:induction false} FirstFailing(simulationName: string, shares: seq<int>, ngon: int): (i: nat)
    ensures i <= |shares|
    ensures i < |shares| ==> WorkerFailure(simulationName, shares[i], ngon).Some?
    ensures forall j :: 0 <= j < i ==> WorkerFailure(simulationName, shares[j], ngon).None?
  {
    if shares == [] then 0
    else if WorkerFailure(simulationName, shares[0], ngon).Some? then 0
    else 1 + FirstFailing(simulationName, shares[1..], ngon)
  }

  /**
   * Which worker's run fails, for the shares handed out: the lowest failing worker of the
   * partition, or None when every worker's run returns.
   */
  method FailingWorker(simulationName: string, runs: seq<int>, nsims: int, n: int, ngon: int) returns (failed: Option<nat>)
    requires n >= 1 && |runs| == n
    requires forall i :: 0 <= i < n ==> runs[i] == Share(nsims, n, i)
    ensures failed.Some? <==> exists i :: 0 <= i < n && WorkerFailure(simulationName, Share(nsims, n, i), ngon).Some?
    ensures failed.Some? ==> failed.value < n && WorkerFailure(simulationName, runs[failed.value], ngon).Some?
    ensures failed.Some? ==> forall j :: 0 <= j < failed.value ==> WorkerFailure(simulationName, Share(nsims, n, j), ngon).None?
    ensures failed.None? ==> forall i :: 0 <= i < n ==> WorkerFailure(simulationName, runs[i], ngon).None?
  {
    var k := FirstFailing(simulationName, runs, ngon);
    if exists i :: 0 <= i < n && WorkerFailure(simulationName, Share(nsims, n, i), ngon).Some? {
      var i :| 0 <= i < n && WorkerFailure(simulationName, Share(nsims, n, i), ngon).Some?;
      assert WorkerFailure(simulationName, runs[i], ngon).Some?;
    }
    if k < n {
      assert WorkerFailure(simulationName, Share(nsims, n, k), ngon).Some?;
      failed := Some(k);
    } else {
      failed := None;
    }
  }

  /** The worker count main1 arrives at from the command line and the topology. */
  ghost function WorkerCount(mxthreads: int, online: int, configured: int, sysfs: seq<CpuTopology>): int {
    var seen := CoreKeysSeen(sysfs, Examined(configured));
    ClampThreads(mxthreads, MinInt(online, if seen == {} then -1 else |seen|))
  }

  /** Worker i's run count: nsims / numThreads, and for worker 0 also the remainder. */
  function Share(nsims: int, numThreads: int, i: int): int
    requires numThreads >= 1
  {
    var q := TruncDiv(nsims, numThreads);
    q + (if i == 0 then nsims - q * numThreads else 0)
  }

  /** Everything main1 determines on a completed run. */
  datatype Report = Report(
    physicalCores: int,
    coresToUse: int,
    coreMap: CoreMap,
    mainPinTarget: Option<int>,
    numThreads: int,
    adjustmentWarning: bool,
    runs: seq<int>,
    workerCores: seq<int>,
    lookupInserted: bool,
    totalRatiosSum: real,
    totalRunCount: int,
    averageRatio: real)

  datatype Outcome =
    | InvalidSimulationName    // exit status 1, before any thread is started
    | ConstructorAssertFailed  // a worker's strategy constructor aborts the process
    | WorkerFailed(worker: nat, share: int, failure: Failure)  // a worker's run never returns normally
    | Completed(report: Report)

  /**
   * main1 after argument parsing. Each worker's run is the strategy's own business: worker i
   * reports `workerSum(i)` as its sum of ratios and its constructor's run count.
   */
  method RunHarness(simulationName: string, nsims: int, mxthreads: int, ngon: int,
                    configured: int, online: int, sysfs: seq<CpuTopology>,
                    workerSum: nat -> real, divide: Geometry.Divide) returns (outcome: Outcome)
    ensures outcome.InvalidSimulationName? <==> simulationName !in ValidSimulations
    ensures simulationName in ValidSimulations ==>
              (outcome.ConstructorAssertFailed? <==> !ConstructorAccepts(simulationName, ngon))
    ensures simulationName in ValidSimulations && ConstructorAccepts(simulationName, ngon) ==>
              var n := WorkerCount(mxthreads, online, configured, sysfs);
              (outcome.WorkerFailed? <==>
                 exists i :: 0 <= i < n && WorkerFailure(simulationName, Share(nsims, n, i), ngon).Some?)
    ensures outcome.WorkerFailed? ==>
              var n := WorkerCount(mxthreads, online, configured, sysfs);
              && outcome.worker < n
              && outcome.share == Share(nsims, n, outcome.worker)
              && WorkerFailure(simulationName, outcome.share, ngon) == Some(outcome.failure)
              && forall j :: 0 <= j < outcome.worker ==> WorkerFailure(simulationName, Share(nsims, n, j), ngon).None?
    ensures outcome.Completed? ==>
              var r := outcome.report;
              && r.coresToUse == MinInt(online, r.physicalCores)
              && r.numThreads == ClampThreads(mxthreads, r.coresToUse)
              && (r.adjustmentWarning <==> r.numThreads != mxthreads)
              && (r.physicalCores == -1 || r.physicalCores == |r.coreMap|)
              && Keys(r.coreMap) == CoreKeysSeen(sysfs, Examined(configured))
              && r.mainPinTarget == (if online >= 2 then Some(1) else None)
              && |r.runs| == r.numThreads && Sum(r.runs) == nsims
              && (forall i :: 0 <= i < r.numThreads ==> WorkerFailure(simulationName, r.runs[i], ngon).None?)
              && |r.workerCores| == r.numThreads
              && (r.numThreads >= 2 ==> !r.lookupInserted)
              && (r.numThreads >= 2 ==> forall i :: 0 <= i < r.numThreads ==>
                    i + 1 < |r.coreMap| && |r.coreMap[i + 1].cpus| > 0 &&
                    r.workerCores[i] == r.coreMap[i + 1].cpus[0])
              && r.totalRunCount == nsims
              && r.totalRatiosSum == SumOf(workerSum, r.numThreads)
              && r.averageRatio == divide(r.totalRatiosSum, nsims as real)
  {
    if Find(ValidSimulations, simulationName) == |ValidSimulations| {
      return InvalidSimulationName;
    }
    var numSockets := GetNumPhysicalCpus(configured, sysfs);
    var numOfPhysicalCores := GetNumPhysicalCores(configured, sysfs);
    var coresToUse := MinInt(online, numOfPhysicalCores);

    var coreMap := GetPhysicalCoreMapping(configured, sysfs);
    var mapping := BuildPhysicalToLogical(coreMap);

    var mainPinTarget := if online >= 2 then Some(1) else None;

    var numThreads := ClampThreads(mxthreads, coresToUse);
    var adjustmentWarning := numThreads != mxthreads;
    var runs := PartitionRuns(nsims, numThreads);

    if !ConstructorAccepts(simulationName, ngon) {
      return ConstructorAssertFailed;
    }
    assert numThreads == WorkerCount(mxthreads, online, configured, sysfs);
    var failed := FailingWorker(simulationName, runs, nsims, numThreads, ngon);
    if failed.Some? {
      var worker := failed.value;
      return WorkerFailed(worker, runs[worker], WorkerFailure(simulationName, runs[worker], ngon).value);
    }
    var workerCores, after := WorkerCores(mapping, numThreads);
    WorkerKeysPresent(mxthreads, online, numOfPhysicalCores, mapping, |coreMap|);

    var totalRatiosSum, totalRunCount := RunWorkers(runs, ngon, workerSum);
    var averageRatio := divide(totalRatiosSum, totalRunCount as real);

    outcome := Completed(Report(numOfPhysicalCores, coresToUse, coreMap, mainPinTarget,
                                numThreads, adjustmentWarning, runs, workerCores,
                                after != mapping, totalRatiosSum, totalRunCount, averageRatio));
  }
}
