/**
 * SimulationEugene5: a sliding window over the draw stream. run() fills a ring of 2n
 * coordinates once; each trial reads the n vertices starting at `shift`, then overwrites the
 * oldest coordinate with one fresh draw and advances `shift`. Trial r therefore sees the
 * polygon whose coordinates are draws r .. r + 2n - 1 of the stream (x and y trade places
 * on odd trials, which leaves the polygon a sequence of points read in stream order).
 */
module Eugene5 {
  import opened Geometry
  import opened Random
  import opened Simulation

  /** std::numeric_limits<double>::max(), the start of the running minima. */
  const DoubleMax: real := 1.7976931348623157e308
  /** std::numeric_limits<double>::min(), the smallest positive normal double, which is
      the start of the running maxima. */
  const DoubleMinPositive: real := 2.2250738585072014e-308

  /** The sentinels never survive a fold over draws in [1.0, 2.0). */
  lemma SentinelsYield(d: real)
    requires 1.0 <= d < 2.0
    ensures Min(DoubleMax, d) == d && Max(DoubleMinPositive, d) == d
  {
  }

  /** Ring position of the coordinate k places past `shift` in a ring of m coordinates. */
  function Slot(shift: nat, k: nat, m: nat): nat
    requires m > 0
  {
    (shift + k) % m
  }

  /** Reduction modulo m of a number below 3m, the only form the ring indices take. */
  lemma ModRange(a: int, m: int)
    requires 0 < m && 0 <= a < 3 * m
    ensures a % m == if a < m then a else if a < 2 * m then a - m else a - 2 * m
  {
  }

  /** The polygon the ring `c` holds when the window starts at `shift`: vertex i is the
      coordinate pair at ring positions shift + 2i and shift + 2i + 1. */
  function Window(c: seq<real>, shift: nat, n: nat): seq<Point>
    requires |c| == 2 * n && n > 0
  {
    seq(n, i requires 0 <= i < n => Point(c[Slot(shift, 2 * i, |c|)], c[Slot(shift, 2 * i + 1, |c|)]))
  }

  /** The ring `c`, read from `shift`, holds the draws `from`, from + 1, ... of the stream. */
  ghost predicate RingHolds(c: seq<real>, shift: nat, values: nat -> real, from: nat)
    requires |c| > 0
  {
    forall k: nat :: k < |c| ==> c[Slot(shift, k, |c|)] == values(from + k)
  }

  /** One step of a running minimum started at the DoubleMax sentinel. */
  lemma RunningMinStep(s: seq<real>, i: nat, acc: real)
    requires i < |s| && 1.0 <= s[i] < 2.0
    requires i == 0 ==> acc == DoubleMax
    requires i > 0 ==> acc == MinOf(s[..i])
    ensures Min(acc, s[i]) == MinOf(s[..i + 1])
  {
    if i > 0 {
      MinMaxOfStep(s, i);
    }
  }

  /** One step of a running maximum started at the DoubleMinPositive sentinel. */
  lemma RunningMaxStep(s: seq<real>, i: nat, acc: real)
    requires i < |s| && 1.0 <= s[i] < 2.0
    requires i == 0 ==> acc == DoubleMinPositive
    requires i > 0 ==> acc == MaxOf(s[..i])
    ensures Max(acc, s[i]) == MaxOf(s[..i + 1])
  {
    if i > 0 {
      MinMaxOfStep(s, i);
    }
  }

  /** Every coordinate of the ring is one of the stream's draws, so it lies in [1.0, 2.0). */
  lemma RingInRange(c: seq<real>, shift: nat, values: nat -> real, from: nat)
    requires |c| > 0 && shift < |c|
    requires RingHolds(c, shift, values, from) && InDistributionRange(values)
    ensures forall j :: 0 <= j < |c| ==> 1.0 <= c[j] < 2.0
  {
    var m := |c|;
    forall j | 0 <= j < m
      ensures 1.0 <= c[j] < 2.0
    {
      var k: nat := if j >= shift then j - shift else j + m - shift;
      ModRange(shift + k, m);
      assert Slot(shift, k, m) == j;
      assert c[Slot(shift, k, m)] == values(from + k);
    }
  }

  /** A ring holding draws `from` onward reads, as a window, the polygon of those draws. */
  lemma WindowIsPoints(c: seq<real>, shift: nat, n: nat, values: nat -> real, from: nat)
    requires |c| == 2 * n && n > 0
    requires RingHolds(c, shift, values, from)
    ensures Window(c, shift, n) == PointsAt(values, from, n)
  {
    var w, p := Window(c, shift, n), PointsAt(values, from, n);
    forall i | 0 <= i < n
      ensures w[i] == p[i]
    {
      assert c[Slot(shift, 2 * i, |c|)] == values(from + 2 * i);
      assert c[Slot(shift, 2 * i + 1, |c|)] == values(from + (2 * i + 1));
    }
  }

  /** Overwriting the oldest coordinate with the next draw and moving the window start one
      step on makes the ring hold the draws one further along the stream. */
  lemma RingAdvances(c: seq<real>, shift: nat, values: nat -> real, from: nat, pos: nat, d: real,
                     newShift: nat, newFrom: nat)
    requires |c| > 0 && shift < |c|
    requires RingHolds(c, shift, values, from)
    requires pos == from + |c| && d == values(pos) && newShift == (shift + 1) % |c| && newFrom == from + 1
    ensures RingHolds(c[shift := d], newShift, values, newFrom)
  {
    var m := |c|;
    var c' := c[shift := d];
    ModRange(shift + 1, m);
    forall k: nat | k < m
      ensures c'[Slot(newShift, k, m)] == values(newFrom + k)
    {
      ModRange(newShift + k, m);
      ModRange(shift + 1 + k, m);
      if k + 1 < m {
        assert c[Slot(shift, k + 1, m)] == values(from + (k + 1));
      }
    }
  }

  /**
   * Whether the int arithmetic of run() stays in range. `pointCount * 2` must fit, or resize
   * throws std::length_error. The largest ring index computed, `shift + 2 * i + 3`, must also
   * fit. It is (shift + 2n + 1), and shift reaches min(runCount, 2n) - 1 over the trials.
   */
  predicate IndicesFit(pointCount: int, runCount: int) {
    2 * pointCount <= IntMax &&
    (runCount <= 0 || 2 * pointCount + (if runCount < 2 * pointCount then runCount else 2 * pointCount) <= IntMax)
  }

  class SimulationEugene5 {
    const base: SimulationBase
    /** The engine and distribution the instance owns (`m_mt`, `m_dist`). */
    const rng: Generator
    const divide: Divide
    var ratiosSum: real

    /** The ISimulation constructor's assert, and draws from uniform_real_distribution{1.0, 2.0}. */
    ghost predicate Valid() {
      base.polygonPointCount >= 3 && rng.Valid()
    }

    constructor (runCount: int, polygonPointCount: int, values: nat -> real, divide: Divide)
      requires polygonPointCount >= 3
      requires InDistributionRange(values)
      ensures base == New(runCount, polygonPointCount)
      ensures fresh(rng) && rng.values == values && rng.drawn == 0
      ensures this.divide == divide && ratiosSum == 0.0
      ensures Valid()
    {
      base := New(runCount, polygonPointCount);
      rng := new Generator(values);
      this.divide := divide;
      ratiosSum := 0.0;
    }

    /** getAverageRatio(), which asserts that at least one run was requested. */
    function GetAverageRatio(): (avg: real)
      reads this
      requires base.GetRunCount() > 0
      ensures ExactDivision(divide) ==> avg * (base.GetRunCount() as real) == ratiosSum
    {
      AverageRatio(ratiosSum, base.GetRunCount(), divide)
    }

    function GetSumOfRatios(): real
      reads this
    {
      ratiosSum
    }

    /**
     * run(): 2n draws to fill the ring, then one draw per trial. The sum of ratios is
     * assigned, not accumulated, so a second run() replaces the first one's result.
     */
    method Run()
      requires Valid()
      requires IndicesFit(base.GetPolygonPointCount(), base.GetRunCount())
      modifies this, rng
      ensures rng.drawn == old(rng.drawn) + 2 * base.polygonPointCount + Trials(base)
      ensures ratiosSum == RatioSum(rng.values, old(rng.drawn), 1, base.polygonPointCount, Trials(base), divide)
    {
      var runCount := base.GetRunCount();
      var pointCount := base.GetPolygonPointCount();
      var coordsCount := pointCount * 2;
      var coords := new real[coordsCount];
      ghost var start := rng.drawn;
      ghost var values := rng.values;

      Fill(coords);
      ghost var c := coords[..];
      forall k: nat | k < coordsCount
        ensures c[Slot(0, k, coordsCount)] == values(start + k)
      {
        ModRange(k, coordsCount);
      }

      var shift := 0;
      var ratioSum := 0.0;
      ghost var total := RatioSum(values, start, 1, pointCount, Trials(base), divide);
      ghost var at, remaining: nat := start, Trials(base);
      var r := 0;
      while r < runCount
        invariant 0 <= r <= Trials(base) && r + remaining == Trials(base) && at == start + r
        invariant 0 <= shift < coordsCount
        invariant rng.drawn == at + coordsCount
        invariant RingHolds(coords[..], shift, values, at)
        invariant ratioSum + RatioSum(values, at, 1, pointCount, remaining, divide) == total
      {
        ghost var from, before, left := at, ratioSum, remaining;
        c := coords[..];
        assert RingHolds(c, shift, values, from);
        RingInRange(c, shift, values, from);
        var ratio := Trial(coords, shift);
        WindowIsPoints(c, shift, pointCount, values, from);
        ratioSum := ratioSum + ratio;

        ghost var oldShift := shift;
        ghost var pos := rng.drawn;
        assert pos == from + |c|;
        var d := rng.Next();
        coords[shift] := d;
        assert coords[..] == c[oldShift := d];
        shift := (shift + 1) % coordsCount;
        r := r + 1;
        at, remaining := at + 1, remaining - 1;
        RingAdvances(c, oldShift, values, from, pos, d, shift, at);
        RatioSumAdvance(values, from, at, 1, pointCount, left, remaining, before, ratioSum, total, divide);
      }
      ratiosSum := ratioSum;
    }

    /** The first loop of run(): one draw per coordinate, in order. */
    method Fill(coords: array<real>)
      modifies coords, rng
      ensures rng.drawn == old(rng.drawn) + coords.Length
      ensures forall k :: 0 <= k < coords.Length ==> coords[k] == rng.values(old(rng.drawn) + k)
    {
      var i := 0;
      while i < coords.Length
        invariant 0 <= i <= coords.Length
        invariant rng.drawn == old(rng.drawn) + i
        invariant forall k :: 0 <= k < i ==> coords[k] == rng.values(old(rng.drawn) + k)
      {
        var d := rng.Next();
        coords[i] := d;
        i := i + 1;
      }
    }

    /** One trial of run() (its lines up to `ratioSum +=`): the ratio of the window's
        polygon. */
    method Trial(coords: array<real>, shift: nat) returns (ratio: real)
      requires Valid()
      requires coords.Length == 2 * base.polygonPointCount && shift < coords.Length
      requires forall k :: 0 <= k < coords.Length ==> 1.0 <= coords[k] < 2.0
      ensures ratio == Ratio(Window(coords[..], shift, base.polygonPointCount), divide)
    {
      var pointCount := base.GetPolygonPointCount();
      var area, bottomLeftX, bottomLeftY, topRightX, topRightY := ScanWindow(coords, shift, pointCount);
      ghost var polygon := Window(coords[..], shift, pointCount);
      var boundingBoxArea := (topRightX - bottomLeftX) * (topRightY - bottomLeftY);
      RatioFromCorners(polygon, area, bottomLeftX, bottomLeftY, topRightX, topRightY, divide);
      ratio := divide(area, boundingBoxArea);
    }
  }

  /**
   * After i vertices of the window, the inner loop of run() holds the first i shoelace
   * terms and the extremes of the first i vertices, or the sentinels when i is 0.
   */
  ghost predicate Scanned(w: seq<Point>, i: nat, sum: real, minX: real, minY: real, maxX: real, maxY: real) {
    i <= |w| &&
    sum == ShoelacePrefix(w, i) &&
    (i == 0 ==> minX == DoubleMax && minY == DoubleMax && maxX == DoubleMinPositive && maxY == DoubleMinPositive) &&
    (i > 0 ==> minX == MinOf(Xs(w)[..i]) && minY == MinOf(Ys(w)[..i]) &&
               maxX == MaxOf(Xs(w)[..i]) && maxY == MaxOf(Ys(w)[..i]))
  }

  /** One iteration of the inner loop, given the current and the next vertex. */
  lemma ScanStep(w: seq<Point>, i: nat, sum: real, minX: real, minY: real, maxX: real, maxY: real,
                 currX: real, currY: real, nextX: real, nextY: real)
    requires Scanned(w, i, sum, minX, minY, maxX, maxY) && i < |w|
    requires w[i] == Point(currX, currY) && w[(i + 1) % |w|] == Point(nextX, nextY)
    requires 1.0 <= currX < 2.0 && 1.0 <= currY < 2.0
    ensures Scanned(w, i + 1, sum + (currX * nextY - nextX * currY),
                    Min(minX, currX), Min(minY, currY), Max(maxX, currX), Max(maxY, currY))
  {
    var xs, ys := Xs(w), Ys(w);
    assert xs[i] == currX && ys[i] == currY;
    RunningMinStep(xs, i, minX);
    RunningMinStep(ys, i, minY);
    RunningMaxStep(xs, i, maxX);
    RunningMaxStep(ys, i, maxY);
    assert Cross(w[i], w[(i + 1) % |w|]) == currX * nextY - nextX * currY;
  }

  /** The finished inner loop holds the whole shoelace sum and the bounding box. */
  lemma ScanComplete(w: seq<Point>, sum: real, minX: real, minY: real, maxX: real, maxY: real)
    requires |w| > 0 && Scanned(w, |w|, sum, minX, minY, maxX, maxY)
    ensures Abs(sum) / 2.0 == PolygonArea(w)
    ensures minX == MinOf(Xs(w)) && minY == MinOf(Ys(w)) && maxX == MaxOf(Xs(w)) && maxY == MaxOf(Ys(w))
  {
    assert Xs(w)[..|w|] == Xs(w) && Ys(w)[..|w|] == Ys(w);
  }

  /**
   * The inner loop of run() and the halved area: the shoelace sum, whose last edge wraps
   * to vertex 0 through `% coordsCount`, and the four running extremes started at the
   * sentinels.
   */
  method ScanWindow(coords: array<real>, shift: nat, pointCount: nat)
    returns (area: real, bottomLeftX: real, bottomLeftY: real, topRightX: real, topRightY: real)
    requires pointCount > 0 && coords.Length == 2 * pointCount && shift < coords.Length
    requires forall k :: 0 <= k < coords.Length ==> 1.0 <= coords[k] < 2.0
    ensures area == PolygonArea(Window(coords[..], shift, pointCount))
    ensures bottomLeftX == MinOf(Xs(Window(coords[..], shift, pointCount)))
    ensures bottomLeftY == MinOf(Ys(Window(coords[..], shift, pointCount)))
    ensures topRightX == MaxOf(Xs(Window(coords[..], shift, pointCount)))
    ensures topRightY == MaxOf(Ys(Window(coords[..], shift, pointCount)))
  {
    var coordsCount := coords.Length;
    ghost var c := coords[..];
    ghost var w := Window(c, shift, pointCount);
    var sum := 0.0;
    bottomLeftX, bottomLeftY := DoubleMax, DoubleMax;
    topRightX, topRightY := DoubleMinPositive, DoubleMinPositive;
    var i := 0;
    while i < pointCount
      invariant 0 <= i <= pointCount
      invariant Scanned(w, i, sum, bottomLeftX, bottomLeftY, topRightX, topRightY)
    {
      var currIdx := shift + 2 * i;
      var currX := coords[(currIdx + 0) % coordsCount];
      var currY := coords[(currIdx + 1) % coordsCount];
      var nextX := coords[(currIdx + 2) % coordsCount];
      var nextY := coords[(currIdx + 3) % coordsCount];
      assert currX == c[Slot(shift, 2 * i, coordsCount)];
      assert currY == c[Slot(shift, 2 * i + 1, coordsCount)];
      assert nextX == c[Slot(shift, 2 * i + 2, coordsCount)];
      assert nextY == c[Slot(shift, 2 * i + 3, coordsCount)];
      NextVertex(c, shift, pointCount, i);
      ScanStep(w, i, sum, bottomLeftX, bottomLeftY, topRightX, topRightY, currX, currY, nextX, nextY);
      sum := sum + (currX * nextY - nextX * currY);
      bottomLeftX := Min(bottomLeftX, currX);
      bottomLeftY := Min(bottomLeftY, currY);
      topRightX := Max(topRightX, currX);
      topRightY := Max(topRightY, currY);
      i := i + 1;
    }
    ScanComplete(w, sum, bottomLeftX, bottomLeftY, topRightX, topRightY);
    area := Abs(sum) / 2.0;
  }

  /** The coordinates two places past vertex i's are those of the next vertex of the closed
      polygon: vertex i + 1, or vertex 0 after the last. */
  lemma NextVertex(c: seq<real>, shift: nat, n: nat, i: nat)
    requires |c| == 2 * n && n > 0 && shift < |c| && i < n
    ensures Window(c, shift, n)[(i + 1) % n] == Point(c[Slot(shift, 2 * i + 2, |c|)], c[Slot(shift, 2 * i + 3, |c|)])
  {
    ModRange(i + 1, n);
    if i + 1 == n {
      ModRange(shift, |c|);
      ModRange(shift + 1, |c|);
      ModRange(shift + 2 * i + 2, |c|);
      ModRange(shift + 2 * i + 3, |c|);
    }
  }
}
