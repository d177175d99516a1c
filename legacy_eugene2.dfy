/**
 * The standalone strategy of eugene2/Simulation.h: like SimulationAdrian1, but not derived
 * from ISimulation. It keeps its own run count, which getRunCount() reports as a
 * floating-point value, and its own engine.
 */
module LegacyEugene2 {
  import opened Geometry
  import opened Random
  import Base = Simulation

  class Simulation {
    const polygonPointCount: int
    const runCount: int
    /** The engine and distribution the instance owns (`m_mt`, `m_dist`). */
    const rng: Generator
    const divide: Divide
    var ratiosSum: real

    /** The constructor's assert, and draws from uniform_real_distribution{1.0, 2.0}. */
    ghost predicate Valid() {
      polygonPointCount >= 3 && rng.Valid()
    }

    /** The point count defaults to 3. The core query and the message it prints are not modelled. */
    constructor (runCount: int, polygonPointCount: int, values: nat -> real, divide: Divide)
      requires polygonPointCount >= 3
      requires InDistributionRange(values)
      ensures this.polygonPointCount == polygonPointCount && this.divide == divide
      ensures GetRunCount() == runCount as real && GetRatiosSum() == 0.0
      ensures fresh(rng) && rng.values == values && rng.drawn == 0
      ensures Valid()
    {
      this.polygonPointCount := polygonPointCount;
      this.runCount := runCount;
      rng := new Generator(values);
      this.divide := divide;
      ratiosSum := 0.0;
    }

    /** getRunCount(): the constructed count, converted to floating point. */
    function GetRunCount(): real {
      runCount as real
    }

    function GetRatiosSum(): real
      reads this
    {
      ratiosSum
    }

    /** getAverageRatio(), which asserts that at least one run was requested. */
    function GetAverageRatio(): (avg: real)
      reads this
      requires runCount > 0
      ensures ExactDivision(divide) ==> avg * GetRunCount() == GetRatiosSum()
    {
      Base.AverageRatio(ratiosSum, runCount, divide)
    }

    /**
     * run(): `for (i = 1; i <= m_runCount; ++i) runOne();`, each trial consuming 2n draws.
     * A run count of INT_MAX would make the loop counter overflow, and is excluded.
     */
    method Run()
      requires Valid()
      requires runCount < Base.IntMax
      modifies this, rng
      ensures rng.drawn == old(rng.drawn) + Base.TripCount(runCount) * (2 * polygonPointCount)
      ensures ratiosSum == old(ratiosSum) +
                RatioSum(rng.values, old(rng.drawn), 2 * polygonPointCount, polygonPointCount, Base.TripCount(runCount), divide)
    {
      ghost var stride := 2 * polygonPointCount;
      ghost var start := rng.drawn;
      ghost var total := ratiosSum + RatioSum(rng.values, start, stride, polygonPointCount, Base.TripCount(runCount), divide);
      ghost var done: nat, remaining: nat := 0, Base.TripCount(runCount);
      var i := 1;
      while i <= runCount
        invariant done == i - 1 && done + remaining == Base.TripCount(runCount)
        invariant rng.drawn == start + done * stride
        invariant ratiosSum + RatioSum(rng.values, rng.drawn, stride, polygonPointCount, remaining, divide) == total
        decreases runCount - i
      {
        ghost var from, before, left := rng.drawn, ratiosSum, remaining;
        RunOne();
        MulStep(done, stride);
        done, remaining := done + 1, remaining - 1;
        i := i + 1;
        RatioSumAdvance(rng.values, from, rng.drawn, stride, polygonPointCount, left, remaining, before, ratiosSum, total, divide);
      }
    }

    /** runOne(): one trial on the next n vertices of the stream. */
    method RunOne()
      requires Valid()
      modifies this, rng
      ensures rng.drawn == old(rng.drawn) + 2 * polygonPointCount
      ensures ratiosSum == old(ratiosSum) + Ratio(PointsAt(rng.values, old(rng.drawn), polygonPointCount), divide)
    {
      ghost var start := rng.drawn;
      var points: seq<Point> := [];
      var i := 0;
      while i < polygonPointCount
        invariant 0 <= i <= polygonPointCount
        invariant rng.drawn == start + 2 * i
        invariant points == PointsAt(rng.values, start, i)
        invariant ratiosSum == old(ratiosSum)
      {
        var x := rng.Next();
        var y := rng.Next();
        PointsAtSnoc(rng.values, start, i);
        points := points + [Point(x, y)];
        i := i + 1;
      }
      var polygonArea := GetPolygonArea(points);
      var bottomLeft, topRight := GetBoundingBoxCorners(points);
      var width := topRight.x - bottomLeft.x;
      var height := topRight.y - bottomLeft.y;
      var boundingBoxArea := width * height;
      RatioFromExtents(points, polygonArea, width, height, divide);
      var ratio := divide(polygonArea, boundingBoxArea);
      ratiosSum := ratiosSum + ratio;
    }
  }
}
