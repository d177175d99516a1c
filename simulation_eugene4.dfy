/**
 * SimulationEugene4: triangles only, with the six coordinates of the current triangle kept
 * in locals. Each trial computes the triangle's area with the closed-form determinant and its
 * box from the largest pairwise distances, then slides the six registers one place along
 * the stream and draws one new coordinate. Trial r therefore sees draws r .. r + 5.
 */
module Eugene4 {
  import opened Geometry
  import opened Random
  import opened Simulation

  /** The determinant formula for the area of the triangle (aX, aY), (bX, bY), (cX, cY). */
  function TriangleArea(aX: real, aY: real, bX: real, bY: real, cX: real, cY: real): real {
    Abs(aX * (bY - cY) + bX * (cY - aY) + cX * (aY - bY)) / 2.0
  }

  /** The largest of the three pairwise distances `|p - q|`, `|p - r|`, `|q - r|`. */
  function Spread(p: real, q: real, r: real): real {
    Max(Abs(p - q), Max(Abs(p - r), Abs(q - r)))
  }

  /** The determinant formula is the shoelace area of the three-vertex polygon. */
  lemma TriangleAreaIsShoelace(a: Point, b: Point, c: Point)
    ensures TriangleArea(a.x, a.y, b.x, b.y, c.x, c.y) == PolygonArea([a, b, c])
  {
    var pts := [a, b, c];
    assert ShoelacePrefix(pts, 1) == Cross(a, b);
    assert ShoelacePrefix(pts, 2) == Cross(a, b) + Cross(b, c);
    assert ShoelacePrefix(pts, 3) == Cross(a, b) + Cross(b, c) + Cross(c, a);
    assert a.x * (b.y - c.y) + b.x * (c.y - a.y) + c.x * (a.y - b.y) == Cross(a, b) + Cross(b, c) + Cross(c, a);
  }

  /** The largest pairwise distance of three coordinates is the extent of their box. */
  lemma SpreadIsExtent(p: real, q: real, r: real)
    ensures Spread(p, q, r) == Extent([p, q, r])
  {
    var s, pq := [p, q, r], [p, q];
    assert pq[..1] == [p];
    assert MinOf(pq) == Min(p, q) && MaxOf(pq) == Max(p, q);
    assert s[..2] == pq;
    assert MinOf(s) == Min(Min(p, q), r) && MaxOf(s) == Max(Max(p, q), r);
  }

  /** The six registers hold draws `at` .. at + 5: the triangle (aX, aY), (bX, bY), (cX, cY). */
  ghost predicate Registers(values: nat -> real, at: nat, aX: real, aY: real, bX: real, bY: real, cX: real, cY: real) {
    aX == values(at) && aY == values(at + 1) && bX == values(at + 2) &&
    bY == values(at + 3) && cX == values(at + 4) && cY == values(at + 5)
  }

  /** Shifting every register down one place and loading draw at + 6 into cY moves the
      triangle one draw along the stream. */
  lemma RegistersSlide(values: nat -> real, at: nat, aX: real, aY: real, bX: real, bY: real, cX: real, cY: real,
                       pos: nat, d: real, next: nat)
    requires Registers(values, at, aX, aY, bX, bY, cX, cY)
    requires pos == at + 6 && d == values(pos) && next == at + 1
    ensures Registers(values, next, aY, bX, bY, cX, cY, d)
  {
  }

  /** One trial's ratio, from the registers holding draws `at` .. at + 5. */
  lemma TrialRatio(values: nat -> real, at: nat, aX: real, aY: real, bX: real, bY: real, cX: real, cY: real,
                   polygonArea: real, width: real, height: real, divide: Divide)
    requires Registers(values, at, aX, aY, bX, bY, cX, cY)
    requires polygonArea == TriangleArea(aX, aY, bX, bY, cX, cY)
    requires width == Spread(aX, bX, cX) && height == Spread(aY, bY, cY)
    ensures divide(polygonArea, width * height) == Ratio(PointsAt(values, at, 3), divide)
  {
    var pts := PointsAt(values, at, 3);
    assert pts == [Point(aX, aY), Point(bX, bY), Point(cX, cY)];
    TriangleAreaIsShoelace(pts[0], pts[1], pts[2]);
    SpreadIsExtent(aX, bX, cX);
    SpreadIsExtent(aY, bY, cY);
    assert Xs(pts) == [aX, bX, cX];
    assert Ys(pts) == [aY, bY, cY];
    RatioFromExtents(pts, polygonArea, width, height, divide);
  }

  class SimulationEugene4 {
    const base: SimulationBase
    /** The engine and distribution the instance owns (`m_mt`, `m_dist`). */
    const rng: Generator
    const divide: Divide
    var ratiosSum: real

    /** The constructor's assert (exactly three points), and draws from
        uniform_real_distribution{1.0, 2.0}. */
    ghost predicate Valid() {
      base.polygonPointCount == 3 && rng.Valid()
    }

    /** The point count defaults to 3; the constructor asserts it is 3. */
    constructor (runCount: int, polygonPointCount: int, values: nat -> real, divide: Divide)
      requires polygonPointCount == 3
      requires InDistributionRange(values)
      ensures base == New(runCount, polygonPointCount)
      ensures fresh(rng) && rng.values == values && rng.drawn == 0
      ensures this.divide == divide && ratiosSum == 0.0
      ensures Valid()
    {
      base := New(runCount, polygonPointCount);
      rng := new Generator(values);
      this.divide := divide;
      ratiosSum := 0.0;
    }

    /** getAverageRatio(), which asserts that at least one run was requested. */
    function GetAverageRatio(): (avg: real)
      reads this
      requires base.GetRunCount() > 0
      ensures ExactDivision(divide) ==> avg * (base.GetRunCount() as real) == ratiosSum
    {
      AverageRatio(ratiosSum, base.GetRunCount(), divide)
    }

    function GetSumOfRatios(): real
      reads this
    {
      ratiosSum
    }

    /**
     * run(): six draws for the first triangle, then one draw per trial, counting `i` down
     * from the run count to zero. The sum of ratios is assigned, not accumulated.
     */
    method Run()
      requires Valid() && base.GetRunCount() >= 0
      modifies this, rng
      ensures rng.drawn == old(rng.drawn) + 6 + base.runCount
      ensures ratiosSum == RatioSum(rng.values, old(rng.drawn), 1, 3, base.runCount, divide)
    {
      var runCount := base.GetRunCount();
      ghost var values := rng.values;
      ghost var start := rng.drawn;
      var ratioSum := 0.0;

      var aX := rng.Next();
      var aY := rng.Next();
      var bX := rng.Next();
      var bY := rng.Next();
      var cX := rng.Next();
      var cY := rng.Next();

      assert Registers(values, start, aX, aY, bX, bY, cX, cY);
      ghost var f := TrialRatios(values, 3, divide);
      ghost var total := TrialSum(f, start, 1, runCount);
      ghost var at: nat := start;
      var i := runCount;
      while i != 0
        invariant 0 <= i <= runCount && at == start + (runCount - i)
        invariant rng.drawn == at + 6
        invariant Registers(values, at, aX, aY, bX, bY, cX, cY)
        invariant ratioSum + TrialSum(f, at, 1, i) == total
        decreases i
      {
        ghost var from, before, left := at, ratioSum, i;
        var ratio := Trial(values, at, aX, aY, bX, bY, cX, cY);
        ratioSum := ratioSum + ratio;

        ghost var pos, oldX, oldY := rng.drawn, aX, aY;
        aX := aY;
        aY := bX;
        bX := bY;
        bY := cX;
        cX := cY;
        cY := rng.Next();
        i := i - 1;
        at := at + 1;
        RegistersSlide(values, from, oldX, aX, aY, bX, bY, cX, pos, cY, at);
        TrialSumAdvance(f, from, at, 1, left, i, before, ratioSum, total);
      }
      ratiosSum := ratioSum;
    }

    /** The body of run()'s loop up to `ratioSum += ratio`: the ratio of the triangle in the
        registers, which hold draws `at` .. at + 5. */
    method Trial(ghost values: nat -> real, ghost at: nat, aX: real, aY: real, bX: real, bY: real, cX: real, cY: real)
      returns (ratio: real)
      requires Registers(values, at, aX, aY, bX, bY, cX, cY)
      ensures ratio == TrialRatios(values, 3, divide)(at)
    {
      var polygonArea := TriangleArea(aX, aY, bX, bY, cX, cY);
      var width := Spread(aX, bX, cX);
      var height := Spread(aY, bY, cY);
      var boundingBoxArea := width * height;
      TrialRatio(values, at, aX, aY, bX, bY, cX, cY, polygonArea, width, height, divide);
      ratio := divide(polygonArea, boundingBoxArea);
      assert TrialRatios(values, 3, divide)(at) == Ratio(PointsAt(values, at, 3), divide);
    }
  }
}
