/**
 * The geometry every sampling strategy shares: the `Point` struct, the shoelace sum that
 * gives a polygon's area, the min/max folds that give its axis-aligned bounding box, and
 * the way a strategy turns its stream of random draws into polygons.
 *
 * Coordinates are exact reals; nothing here models floating-point rounding.
 */
module Geometry {

  /** A vertex of a sampled polygon. */
  datatype Point = Point(x: real, y: real)

  /**
   * The floating-point quotient `polygonArea / boundingBoxArea` of one trial. The model
   * keeps it abstract: IEEE division (inf or NaN for a zero box) is not modelled.
   */
  type Divide = (real, real) -> real

  /** A division that is exact wherever the divisor is non-zero. */
  ghost predicate ExactDivision(divide: Divide) {
    forall a: real, b: real :: b != 0.0 ==> divide(a, b) == a / b
  }

  function Abs(r: real): real {
    if r < 0.0 then -r else r
  }

  /** std::min and std::max as the C++ standard library defines them. */
  function Min(a: real, b: real): real {
    if b < a then b else a
  }

  function Max(a: real, b: real): real {
    if a < b then b else a
  }

  /** The shoelace term of the edge from p to q. */
  function Cross(p: Point, q: Point): real {
    p.x * q.y - q.x * p.y
  }

  /** Sum of the first k shoelace terms of the closed polygon, edge i running from vertex i
      to vertex (i + 1) % n. */
  function ShoelacePrefix(pts: seq<Point>, k: nat): real
    requires k <= |pts|
  {
    if k == 0 then 0.0 else ShoelacePrefix(pts, k - 1) + Cross(pts[k - 1], pts[k % |pts|])
  }

  /** Adding the shoelace term of edge k, from vertex k to vertex (k + 1) % n, extends the sum
      by one edge. */
  lemma ShoelaceStep(pts: seq<Point>, k: nat, sum: real, curr: Point, next: Point)
    requires k < |pts| && sum == ShoelacePrefix(pts, k)
    requires pts[k] == curr && pts[(k + 1) % |pts|] == next
    ensures sum + Cross(curr, next) == ShoelacePrefix(pts, k + 1)
  {
  }

  /** The area of the closed polygon: half the absolute shoelace sum. */
  function PolygonArea(pts: seq<Point>): real {
    Abs(ShoelacePrefix(pts, |pts|)) / 2.0
  }

  /** Sum of the shoelace terms of the open chain pts[0], ..., pts[k]: no wrap-around edge. */
  function OpenChain(pts: seq<Point>, k: nat): real
    requires k < |pts|
  {
    if k == 0 then 0.0 else OpenChain(pts, k - 1) + Cross(pts[k - 1], pts[k])
  }

  /** Before the last edge, the cyclic index (i + 1) % n never wraps. */
  lemma {:induction false} PrefixIsOpenChain(pts: seq<Point>, k: nat)
    requires k < |pts|
    ensures ShoelacePrefix(pts, k) == OpenChain(pts, k)
  {
    if k > 0 {
      PrefixIsOpenChain(pts, k - 1);
      ModBelow(k, |pts|);
    }
  }

  lemma MulStep(k: int, stride: int)
    ensures (k + 1) * stride == k * stride + stride
  {
  }

  lemma ModBelow(a: nat, n: nat)
    requires a < n
    ensures a % n == a
  {
  }

  /** The cyclic shoelace sum is the open chain plus one closing edge from the last vertex
      back to vertex 0. */
  lemma {:induction false} ShoelaceClosesPolygon(pts: seq<Point>)
    requires |pts| > 0
    ensures ShoelacePrefix(pts, |pts|) == OpenChain(pts, |pts| - 1) + Cross(pts[|pts| - 1], pts[0])
  {
    PrefixIsOpenChain(pts, |pts| - 1);
    assert |pts| % |pts| == 0;
  }

  /** Left fold of std::min over a non-empty sequence. */
  function MinOf(s: seq<real>): real
    requires |s| > 0
  {
    if |s| == 1 then s[0] else Min(MinOf(s[..|s| - 1]), s[|s| - 1])
  }

  /** Left fold of std::max over a non-empty sequence. */
  function MaxOf(s: seq<real>): real
    requires |s| > 0
  {
    if |s| == 1 then s[0] else Max(MaxOf(s[..|s| - 1]), s[|s| - 1])
  }

  lemma {:induction false} MinOfIsLeast(s: seq<real>)
    requires |s| > 0
    ensures forall i :: 0 <= i < |s| ==> MinOf(s) <= s[i]
    ensures MinOf(s) in s
  {
    if |s| > 1 {
      var init := s[..|s| - 1];
      MinOfIsLeast(init);
      assert forall i :: 0 <= i < |init| ==> init[i] == s[i];
    }
  }

  lemma {:induction false} MaxOfIsGreatest(s: seq<real>)
    requires |s| > 0
    ensures forall i :: 0 <= i < |s| ==> s[i] <= MaxOf(s)
    ensures MaxOf(s) in s
  {
    if |s| > 1 {
      var init := s[..|s| - 1];
      MaxOfIsGreatest(init);
      assert forall i :: 0 <= i < |init| ==> init[i] == s[i];
    }
  }

  /** Folding one more element into a running minimum or maximum extends the prefix fold. */
  lemma MinMaxOfStep(s: seq<real>, i: nat)
    requires 0 < i < |s|
    ensures MinOf(s[..i + 1]) == Min(MinOf(s[..i]), s[i])
    ensures MaxOf(s[..i + 1]) == Max(MaxOf(s[..i]), s[i])
  {
    assert s[..i + 1][..i] == s[..i];
  }

  /** A lower bound of s that occurs in s is the fold: any fold order gives the same minimum. */
  lemma MinOfUnique(s: seq<real>, m: real)
    requires |s| > 0
    requires forall i :: 0 <= i < |s| ==> m <= s[i]
    requires m in s
    ensures m == MinOf(s)
  {
    MinOfIsLeast(s);
  }

  lemma MaxOfUnique(s: seq<real>, m: real)
    requires |s| > 0
    requires forall i :: 0 <= i < |s| ==> s[i] <= m
    requires m in s
    ensures m == MaxOf(s)
  {
    MaxOfIsGreatest(s);
  }

  /** The width or height of a bounding box is never negative. */
  lemma ExtentNonNegative(s: seq<real>)
    requires |s| > 0
    ensures Extent(s) >= 0.0
  {
    MinOfIsLeast(s);
    MaxOfIsGreatest(s);
    assert MinOf(s) <= s[0] <= MaxOf(s);
  }

  function Xs(pts: seq<Point>): seq<real> {
    seq(|pts|, i requires 0 <= i < |pts| => pts[i].x)
  }

  function Ys(pts: seq<Point>): seq<real> {
    seq(|pts|, i requires 0 <= i < |pts| => pts[i].y)
  }

  /** The polygon whose vertex i is (xs[i], ys[i]), as the struct-of-arrays strategies store it. */
  function Zip(xs: seq<real>, ys: seq<real>): seq<Point>
    requires |xs| == |ys|
  {
    seq(|xs|, i requires 0 <= i < |xs| => Point(xs[i], ys[i]))
  }

  /** Zip pairs its arguments: the x coordinates of its result are xs, the y coordinates ys. */
  lemma ZipCoordinates(xs: seq<real>, ys: seq<real>)
    requires |xs| == |ys|
    ensures Xs(Zip(xs, ys)) == xs && Ys(Zip(xs, ys)) == ys
  {
  }

  /** The width (of the x coordinates) or height (of the y coordinates) of the bounding box. */
  function Extent(s: seq<real>): real
    requires |s| > 0
  {
    MaxOf(s) - MinOf(s)
  }

  /** Area of a box of the given width and height. */
  function BoxAreaOf(width: real, height: real): real {
    width * height
  }

  /** Area of the axis-aligned bounding box: (max x - min x) * (max y - min y). */
  function BoxArea(pts: seq<Point>): real
    requires |pts| > 0
  {
    BoxAreaOf(Extent(Xs(pts)), Extent(Ys(pts)))
  }

  /** The ratio one trial contributes to a strategy's sum of ratios. */
  function Ratio(pts: seq<Point>, divide: Divide): real
    requires |pts| > 0
  {
    divide(PolygonArea(pts), BoxArea(pts))
  }

  /** With exact division and a non-degenerate box, a trial's ratio is never negative. */
  lemma RatioNonNegative(pts: seq<Point>, divide: Divide)
    requires |pts| > 0 && ExactDivision(divide) && BoxArea(pts) != 0.0
    ensures Ratio(pts, divide) >= 0.0
  {
    BoxAreaNonNegative(pts);
    QuotientNonNegative(PolygonArea(pts), BoxArea(pts));
  }

  lemma BoxAreaNonNegative(pts: seq<Point>)
    requires |pts| > 0
    ensures BoxArea(pts) >= 0.0
  {
    ExtentNonNegative(Xs(pts));
    ExtentNonNegative(Ys(pts));
    ProductNonNegative(Extent(Xs(pts)), Extent(Ys(pts)));
  }

  lemma ProductNonNegative(a: real, b: real)
    requires a >= 0.0 && b >= 0.0
    ensures a * b >= 0.0
  {
  }

  lemma QuotientNonNegative(a: real, b: real)
    requires a >= 0.0 && b > 0.0
    ensures a / b >= 0.0
  {
  }

  /** The area and the folded corners a trial computes give its ratio. */
  lemma RatioFromCorners(pts: seq<Point>, area: real, minX: real, minY: real, maxX: real, maxY: real, divide: Divide)
    requires |pts| > 0 && area == PolygonArea(pts)
    requires minX == MinOf(Xs(pts)) && minY == MinOf(Ys(pts))
    requires maxX == MaxOf(Xs(pts)) && maxY == MaxOf(Ys(pts))
    ensures divide(area, (maxX - minX) * (maxY - minY)) == Ratio(pts, divide)
  {
    assert BoxAreaOf(maxX - minX, maxY - minY) == BoxArea(pts);
    assert (maxX - minX) * (maxY - minY) == BoxArea(pts);
  }

  /** The same, for a trial that names the width and height of its box. */
  lemma RatioFromExtents(pts: seq<Point>, area: real, width: real, height: real, divide: Divide)
    requires |pts| > 0 && area == PolygonArea(pts)
    requires width == Extent(Xs(pts)) && height == Extent(Ys(pts))
    ensures divide(area, width * height) == Ratio(pts, divide)
  {
    assert BoxAreaOf(width, height) == BoxArea(pts);
    assert width * height == BoxArea(pts);
  }

  /** The polygon of n vertices read from the draw stream at `start`: x then y for each vertex. */
  function PointsAt(values: nat -> real, start: nat, n: nat): seq<Point> {
    seq(n, i requires 0 <= i < n => Point(values(start + 2 * i), values(start + 2 * i + 1)))
  }

  /** Drawing one more vertex extends the polygon by that vertex. */
  lemma PointsAtSnoc(values: nat -> real, start: nat, i: nat)
    ensures PointsAt(values, start, i + 1) == PointsAt(values, start, i) + [Point(values(start + 2 * i), values(start + 2 * i + 1))]
  {
  }

  /** The sum of f over `runs` positions `stride` apart, the first at `from`. */
  function TrialSum(f: nat -> real, from: nat, stride: nat, runs: nat): real
    decreases runs
  {
    if runs == 0 then 0.0 else f(from) + TrialSum(f, from + stride, stride, runs - 1)
  }

  /**
   * Once f(from) is added to a partial sum, the partial sum plus the sum of the positions
   * still to come is unchanged.
   */
  lemma TrialSumAdvance(f: nat -> real, from: nat, to: nat, stride: nat, remaining: nat, rest: nat,
                        partial: real, updated: real, total: real)
    requires to == from + stride && remaining == rest + 1
    requires partial + TrialSum(f, from, stride, remaining) == total
    requires updated == partial + f(from)
    ensures updated + TrialSum(f, to, stride, rest) == total
  {
  }

  /** A sum of values none of which is negative is not negative. */
  lemma {:induction false} TrialSumNonNegative(f: nat -> real, from: nat, stride: nat, runs: nat)
    requires forall k: nat :: k < runs ==> f(from + k * stride) >= 0.0
    ensures TrialSum(f, from, stride, runs) >= 0.0
    decreases runs
  {
    if runs > 0 {
      assert f(from + 0 * stride) >= 0.0;
      forall k: nat | k < runs - 1
        ensures f(from + stride + k * stride) >= 0.0
      {
        MulStep(k, stride);
        assert from + stride + k * stride == from + (k + 1) * stride;
      }
      TrialSumNonNegative(f, from + stride, stride, runs - 1);
    }
  }

  /** The ratio of the trial whose n-vertex polygon starts at draw k, for every k. */
  function TrialRatios(values: nat -> real, n: nat, divide: Divide): nat -> real
    requires n > 0
  {
    (k: nat) => Ratio(PointsAt(values, k, n), divide)
  }

  /**
   * The sum of the ratios of `runs` trials whose polygons start `stride` draws apart, the
   * first at draw `from`: stride 2n for strategies that draw a fresh polygon per trial,
   * stride 1 for the sliding-window strategies that replace one coordinate per trial.
   */
  function RatioSum(values: nat -> real, from: nat, stride: nat, n: nat, runs: nat, divide: Divide): real
    requires n > 0
  {
    TrialSum(TrialRatios(values, n, divide), from, stride, runs)
  }

  /** The loop step of a run(), for the trial whose polygon starts at draw `from`. */
  lemma RatioSumAdvance(values: nat -> real, from: nat, to: nat, stride: nat, n: nat, remaining: nat, rest: nat,
                        partial: real, updated: real, total: real, divide: Divide)
    requires n > 0 && to == from + stride && remaining == rest + 1
    requires partial + RatioSum(values, from, stride, n, remaining, divide) == total
    requires updated == partial + Ratio(PointsAt(values, from, n), divide)
    ensures updated + RatioSum(values, to, stride, n, rest, divide) == total
  {
    var f := TrialRatios(values, n, divide);
    assert f(from) == Ratio(PointsAt(values, from, n), divide);
    TrialSumAdvance(f, from, to, stride, remaining, rest, partial, updated, total);
  }

  /** None of `runs` trials, `stride` draws apart from draw `from`, has a degenerate box. */
  ghost predicate BoxesNonDegenerate(values: nat -> real, from: nat, stride: nat, n: nat, runs: nat)
    requires n > 0
  {
    forall k: nat :: k < runs ==> BoxArea(PointsAt(values, from + k * stride, n)) != 0.0
  }

  /** With exact division and no degenerate box among them, the trials' sum is never negative. */
  lemma RatioSumNonNegative(values: nat -> real, from: nat, stride: nat, n: nat, runs: nat, divide: Divide)
    requires n > 0 && ExactDivision(divide)
    requires BoxesNonDegenerate(values, from, stride, n, runs)
    ensures RatioSum(values, from, stride, n, runs, divide) >= 0.0
  {
    var f := TrialRatios(values, n, divide);
    forall k: nat | k < runs
      ensures f(from + k * stride) >= 0.0
    {
      RatioNonNegative(PointsAt(values, from + k * stride, n), divide);
    }
    TrialSumNonNegative(f, from, stride, runs);
  }

  /**
   * getPolygonArea: the shoelace loop with `nextIndex = (i + 1) % n`. It is declared
   * identically in harness/SimulationAdrian1.h, adrian1/Simulation.h and eugene2/Simulation.h.
   */
  method GetPolygonArea(points: seq<Point>) returns (area: real)
    ensures area == PolygonArea(points)
    ensures area >= 0.0
  {
    var sum := 0.0;
    var i := 0;
    while i < |points|
      invariant 0 <= i <= |points|
      invariant sum == ShoelacePrefix(points, i)
    {
      var nextIndex := (i + 1) % |points|;
      sum := sum + Cross(points[i], points[nextIndex]);
      i := i + 1;
    }
    area := Abs(sum) / 2.0;
  }

  /**
   * getBoundingBoxCorners: both corners start at points[0] and are folded with std::min and
   * std::max over every point (points[0] included). Declared identically in the three
   * headers named at GetPolygonArea.
   */
  method GetBoundingBoxCorners(points: seq<Point>) returns (bottomLeft: Point, topRight: Point)
    requires |points| > 0
    ensures forall i :: 0 <= i < |points| ==>
              bottomLeft.x <= points[i].x && bottomLeft.y <= points[i].y &&
              points[i].x <= topRight.x && points[i].y <= topRight.y
    ensures bottomLeft.x in Xs(points) && topRight.x in Xs(points)
    ensures bottomLeft.y in Ys(points) && topRight.y in Ys(points)
    ensures bottomLeft.x == MinOf(Xs(points)) && topRight.x == MaxOf(Xs(points))
    ensures bottomLeft.y == MinOf(Ys(points)) && topRight.y == MaxOf(Ys(points))
  {
    bottomLeft, topRight := points[0], points[0];
    ghost var xs, ys := Xs(points), Ys(points);
    assert xs[0] == points[0].x && ys[0] == points[0].y;
    var i := 0;
    while i < |points|
      invariant 0 <= i <= |points|
      invariant forall j :: 0 <= j < i ==>
                  bottomLeft.x <= points[j].x && bottomLeft.y <= points[j].y &&
                  points[j].x <= topRight.x && points[j].y <= topRight.y
      invariant bottomLeft.x in xs && topRight.x in xs
      invariant bottomLeft.y in ys && topRight.y in ys
    {
      var point := points[i];
      assert xs[i] == point.x && ys[i] == point.y;
      bottomLeft := bottomLeft.(x := Min(bottomLeft.x, point.x));
      bottomLeft := bottomLeft.(y := Min(bottomLeft.y, point.y));
      topRight := topRight.(x := Max(topRight.x, point.x));
      topRight := topRight.(y := Max(topRight.y, point.y));
      i := i + 1;
    }
    MinOfUnique(xs, bottomLeft.x);
    MinOfUnique(ys, bottomLeft.y);
    MaxOfUnique(xs, topRight.x);
    MaxOfUnique(ys, topRight.y);
  }
}
