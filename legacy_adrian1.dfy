/**
 * The earliest strategy (adrian1/Simulation.h): the instance counts its own runs, starting
 * from zero, and every call of run() draws one polygon from the program-wide generator of
 * Random.h, adds its ratio to the sum and increments the count.
 */
module LegacyAdrian1 {
  import opened Geometry
  import opened Random
  import Base = Simulation

  class Simulation {
    const polygonPointCount: int
    /** `m_runCount`: how many trials have been run so far. */
    var runCount: int
    var ratiosSum: real
    const divide: Divide

    /** The constructor's assert. */
    ghost predicate Valid()
      reads this
    {
      polygonPointCount >= 3
    }

    /** The point count defaults to 3; the run count and the sum start at zero. */
    constructor (polygonPointCount: int, divide: Divide)
      requires polygonPointCount >= 3
      ensures this.polygonPointCount == polygonPointCount && this.divide == divide
      ensures runCount == 0 && ratiosSum == 0.0
      ensures Valid()
    {
      this.polygonPointCount := polygonPointCount;
      this.divide := divide;
      runCount := 0;
      ratiosSum := 0.0;
    }

    /** getAverageRatio(), which asserts that at least one trial has been run. */
    function GetAverageRatio(): (avg: real)
      reads this
      requires runCount > 0
      ensures ExactDivision(divide) ==> avg * (runCount as real) == ratiosSum
    {
      Base.AverageRatio(ratiosSum, runCount, divide)
    }

    /**
     * runMany(k): k calls of run() (none when k is not positive), so the run count grows by
     * that many and the sum by the ratios of the next polygons of the stream. k == INT_MAX
     * would make the loop counter overflow, and is excluded.
     */
    method RunMany(k: int, random: Generator)
      requires Valid()
      requires k < Base.IntMax
      modifies this, random
      ensures runCount == old(runCount) + Base.TripCount(k)
      ensures random.drawn == old(random.drawn) + Base.TripCount(k) * (2 * polygonPointCount)
      ensures ratiosSum == old(ratiosSum) +
                RatioSum(random.values, old(random.drawn), 2 * polygonPointCount, polygonPointCount, Base.TripCount(k), divide)
    {
      ghost var stride := 2 * polygonPointCount;
      ghost var start := random.drawn;
      ghost var total := ratiosSum + RatioSum(random.values, start, stride, polygonPointCount, Base.TripCount(k), divide);
      ghost var done: nat, remaining: nat := 0, Base.TripCount(k);
      var i := 1;
      while i <= k
        invariant done == i - 1 && done + remaining == Base.TripCount(k)
        invariant runCount == old(runCount) + done
        invariant random.drawn == start + done * stride
        invariant ratiosSum + RatioSum(random.values, random.drawn, stride, polygonPointCount, remaining, divide) == total
        decreases k - i
      {
        ghost var from, before, left := random.drawn, ratiosSum, remaining;
        Run(random);
        MulStep(done, stride);
        done, remaining := done + 1, remaining - 1;
        i := i + 1;
        RatioSumAdvance(random.values, from, random.drawn, stride, polygonPointCount, left, remaining, before, ratiosSum, total, divide);
      }
    }

    /** run(): one trial on the next n vertices of the stream, counted in the run count. */
    method Run(random: Generator)
      requires Valid()
      modifies this, random
      ensures runCount == old(runCount) + 1
      ensures random.drawn == old(random.drawn) + 2 * polygonPointCount
      ensures ratiosSum == old(ratiosSum) + Ratio(PointsAt(random.values, old(random.drawn), polygonPointCount), divide)
    {
      ghost var start := random.drawn;
      var points: seq<Point> := [];
      var i := 0;
      while i < polygonPointCount
        invariant 0 <= i <= polygonPointCount
        invariant random.drawn == start + 2 * i
        invariant points == PointsAt(random.values, start, i)
        invariant ratiosSum == old(ratiosSum) && runCount == old(runCount)
      {
        var x := random.Next();
        var y := random.Next();
        PointsAtSnoc(random.values, start, i);
        points := points + [Point(x, y)];
        i := i + 1;
      }
      var polygonArea := GetPolygonArea(points);
      var bottomLeft, topRight := GetBoundingBoxCorners(points);
      var width := topRight.x - bottomLeft.x;
      var height := topRight.y - bottomLeft.y;
      var boundingBoxArea := width * height;
      RatioFromExtents(points, polygonArea, width, height, divide);
      var ratio := divide(polygonArea, boundingBoxArea);
      ratiosSum := ratiosSum + ratio;
      runCount := runCount + 1;
    }
  }
}
