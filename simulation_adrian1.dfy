/**
 * SimulationAdrian1: every trial draws a fresh polygon, x then y for each vertex, computes
 * its shoelace area and its bounding box with the shared helpers, and adds the ratio of the
 * two to the running sum.
 */
module Adrian1 {
  import opened Geometry
  import opened Random
  import opened Simulation

  class SimulationAdrian1 {
    const base: SimulationBase
    /** The engine and distribution the instance owns (`m_mt`, `m_dist`). */
    const rng: Generator
    const divide: Divide
    var ratiosSum: real

    /** The constructor's assert, and draws from uniform_real_distribution{1.0, 2.0}. */
    ghost predicate Valid() {
      base.polygonPointCount >= 3 && rng.Valid()
    }

    constructor (runCount: int, polygonPointCount: int, values: nat -> real, divide: Divide)
      requires polygonPointCount >= 3
      requires InDistributionRange(values)
      ensures base == New(runCount, polygonPointCount)
      ensures fresh(rng) && rng.values == values && rng.drawn == 0 && rng.Valid()
      ensures this.divide == divide && ratiosSum == 0.0
      ensures Valid()
    {
      base := New(runCount, polygonPointCount);
      rng := new Generator(values);
      this.divide := divide;
      ratiosSum := 0.0;
    }

    /** getAverageRatio(), which asserts that at least one run was requested. */
    function GetAverageRatio(): (avg: real)
      reads this
      requires base.GetRunCount() > 0
      ensures ExactDivision(divide) ==> avg * (base.GetRunCount() as real) == ratiosSum
    {
      AverageRatio(ratiosSum, base.GetRunCount(), divide)
    }

    function GetSumOfRatios(): real
      reads this
    {
      ratiosSum
    }

    /**
     * run(): `for (i = 1; i <= getRunCount(); ++i) runOne();` -- as many trials as the run
     * count (none when it is not positive), each consuming 2n draws. A run count of INT_MAX
     * would make the loop counter overflow, and is excluded.
     */
    method Run()
      requires Valid()
      requires base.GetRunCount() < IntMax
      modifies this, rng
      ensures rng.drawn == old(rng.drawn) + TripCount(base.runCount) * (2 * base.polygonPointCount)
      ensures ratiosSum == old(ratiosSum) +
                RatioSum(rng.values, old(rng.drawn), 2 * base.polygonPointCount, base.polygonPointCount, TripCount(base.runCount), divide)
    {
      var n := base.GetPolygonPointCount();
      ghost var trips := TripCount(base.runCount);
      ghost var stride := 2 * n;
      ghost var start := rng.drawn;
      ghost var total := ratiosSum + RatioSum(rng.values, start, stride, n, trips, divide);
      ghost var k: nat, remaining: nat := 0, trips;
      var i := 1;
      while i <= base.GetRunCount()
        invariant k == i - 1 && k + remaining == trips
        invariant rng.drawn == start + k * stride
        invariant ratiosSum + RatioSum(rng.values, rng.drawn, stride, n, remaining, divide) == total
        decreases base.GetRunCount() - i
      {
        ghost var from, before, left := rng.drawn, ratiosSum, remaining;
        RunOne();
        MulStep(k, stride);
        k, remaining := k + 1, remaining - 1;
        i := i + 1;
        RatioSumAdvance(rng.values, from, rng.drawn, stride, n, left, remaining, before, ratiosSum, total, divide);
      }
    }

    /** runOne(): one trial on the next n vertices of the stream. */
    method RunOne()
      requires Valid()
      modifies this, rng
      ensures rng.drawn == old(rng.drawn) + 2 * base.polygonPointCount
      ensures ratiosSum == old(ratiosSum) +
                Ratio(PointsAt(rng.values, old(rng.drawn), base.polygonPointCount), divide)
    {
      var n := base.GetPolygonPointCount();
      ghost var start := rng.drawn;
      var points: seq<Point> := [];
      var i := 0;
      while i < n
        invariant 0 <= i <= n
        invariant rng.drawn == start + 2 * i
        invariant points == PointsAt(rng.values, start, i)
        invariant ratiosSum == old(ratiosSum)
      {
        var x := rng.Next();
        var y := rng.Next();
        PointsAtSnoc(rng.values, start, i);
        points := points + [Point(x, y)];
        i := i + 1;
      }
      var polygonArea := GetPolygonArea(points);
      var bottomLeft, topRight := GetBoundingBoxCorners(points);
      var width := topRight.x - bottomLeft.x;
      var height := topRight.y - bottomLeft.y;
      var boundingBoxArea := width * height;
      RatioFromExtents(points, polygonArea, width, height, divide);
      var ratio := divide(polygonArea, boundingBoxArea);
      ratiosSum := ratiosSum + ratio;
    }
  }
}
