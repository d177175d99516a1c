/**
 * ISimulation, the base every sampling strategy derives from: the run count and polygon
 * point count are fixed by its constructor and only read afterwards, which is what the
 * harness relies on when it adds up the run counts of its workers.
 */
module Simulation {
  import Geometry

  /** The range of the C++ `int` that run counts, point counts and loop counters live in. */
  const IntMin: int := -0x8000_0000
  const IntMax: int := 0x7fff_ffff

  /** The two fields ISimulation keeps; no member of a strategy writes them after construction. */
  datatype SimulationBase = SimulationBase(runCount: int, polygonPointCount: int) {

    /** getRunCount() */
    function GetRunCount(): int {
      runCount
    }

    /** getPolygonPointCount() */
    function GetPolygonPointCount(): int {
      polygonPointCount
    }
  }

  /**
   * The ISimulation constructor. Its assert (polygons have at least three points) is a
   * precondition here; a debug build aborts when it fails.
   */
  function New(runCount: int, polygonPointCount: int): (s: SimulationBase)
    requires polygonPointCount >= 3
    ensures s.GetRunCount() == runCount
    ensures s.GetPolygonPointCount() == polygonPointCount
    ensures s.GetPolygonPointCount() >= 3
  {
    SimulationBase(runCount, polygonPointCount)
  }

  /**
   * How often `for (int i {1}; i <= count; ++i)` runs its body: count times, and zero times
   * for a negative count. At count == INT_MAX the test `i <= count` never fails and `++i`
   * overflows, so the loop never ends; that count is excluded.
   */
  function TripCount(count: int): (n: nat)
    requires count < IntMax
    ensures count >= 0 ==> n == count
    ensures count < 0 ==> n == 0
  {
    if count < 0 then 0 else count
  }

  /**
   * The number of trials of a run() that loops `for (int r {0}; r < runCount; ++r)`: the run
   * count, or none when it is negative. Such a loop ends for every int count.
   */
  function Trials(s: SimulationBase): (n: nat)
    ensures s.GetRunCount() >= 0 ==> n == s.GetRunCount()
    ensures s.GetRunCount() < 0 ==> n == 0
  {
    if s.runCount <= 0 then 0 else s.runCount
  }

  /**
   * getAverageRatio(): the sum of ratios divided by the run count. The strategies' overrides
   * add an assert that the run count is positive, which their GetAverageRatio require.
   */
  function AverageRatio(sumOfRatios: real, runCount: int, divide: Geometry.Divide): (avg: real)
    ensures Geometry.ExactDivision(divide) && runCount != 0 ==> avg * (runCount as real) == sumOfRatios
  {
    divide(sumOfRatios, runCount as real)
  }
}
