/**
 * SimulationEugene2: all coordinates of all trials are drawn up front into two buffers, an
 * x and then a y for each point, and trial s reads the n consecutive entries starting at
 * s * n of both buffers. The area is the shoelace sum written as an open chain plus one
 * closing edge, and the bounding box is folded `N` lanes at a time (Highway's `Lanes(d)`,
 * here any lane count) with a scalar loop for the remainder.
 */
module Eugene2 {
  import opened Geometry
  import opened Random
  import opened Simulation

  /** Two's-complement wrap-around of a product that does not fit an `int`. */
  function Wrap32(x: int): (w: int)
    ensures IntMin <= w <= IntMax
    ensures (w - x) % 0x1_0000_0000 == 0
    ensures IntMin <= x <= IntMax ==> w == x
  {
    (x + 0x8000_0000) % 0x1_0000_0000 - 0x8000_0000
  }

  /** Where trial s starts in the buffers: `simIdx * numPoints`. */
  function Offset(simIdx: int, numPoints: int): int {
    simIdx * numPoints
  }

  /** `const int totalPoints = runCount * numPoints;`, as the 32-bit multiplication computes it. */
  function TotalPointsAsWritten(runCount: int, numPoints: int): (t: int)
    ensures IntMin <= t <= IntMax
    ensures IntMin <= runCount * numPoints <= IntMax ==> t == runCount * numPoints
  {
    Wrap32(runCount * numPoints)
  }

  /**
   * With 1.5e9 runs of triangles the 32-bit product wraps to 205032704, so the buffers get
   * far fewer entries than the last trial's slice reaches.
   */
  lemma TotalPointsAsWrittenOverflows()
    ensures TotalPointsAsWritten(1_500_000_000, 3) == 205_032_704
    ensures Offset(1_500_000_000 - 1, 3) + 3 > TotalPointsAsWritten(1_500_000_000, 3)
  {
  }

  /** The buffer size the loops need: the exact product, in which every trial's slice fits. */
  function TotalPoints(runCount: nat, numPoints: nat): (t: nat)
    ensures forall s :: 0 <= s < runCount ==> 0 <= Offset(s, numPoints) && Offset(s, numPoints) + numPoints <= t
  {
    SlicesFit(runCount, numPoints);
    runCount * numPoints
  }

  lemma SlicesFit(runCount: nat, numPoints: nat)
    ensures forall s :: 0 <= s < runCount ==> 0 <= Offset(s, numPoints) && Offset(s, numPoints) + numPoints <= runCount * numPoints
  {
    forall s | 0 <= s < runCount
      ensures 0 <= Offset(s, numPoints) && Offset(s, numPoints) + numPoints <= runCount * numPoints
    {
      MulStep(s, numPoints);
      MulMonotone(s + 1, runCount, numPoints);
    }
  }

  lemma MulMonotone(a: nat, b: nat, c: nat)
    requires a <= b
    ensures a * c <= b * c
  {
  }

  /** The buffers after the fill loop: entry k of each holds draws 2k and 2k + 1. */
  ghost predicate Buffers(values: nat -> real, start: nat, allXCoords: seq<real>, allYCoords: seq<real>, count: nat) {
    |allXCoords| == count && |allYCoords| == count &&
    forall k :: 0 <= k < count ==> allXCoords[k] == values(start + 2 * k) && allYCoords[k] == values(start + 2 * k + 1)
  }

  /** Trial s's slices of the buffers are the n points drawn for it, 2n draws per trial. */
  lemma SliceIsPoints(values: nat -> real, start: nat, allXCoords: seq<real>, allYCoords: seq<real>, count: nat,
                      s: nat, n: nat, offset: nat, from: nat)
    requires Buffers(values, start, allXCoords, allYCoords, count)
    requires offset == Offset(s, n) && offset + n <= count && from == start + s * (2 * n)
    ensures Zip(allXCoords[offset..offset + n], allYCoords[offset..offset + n]) == PointsAt(values, from, n)
  {
    var pts := Zip(allXCoords[offset..offset + n], allYCoords[offset..offset + n]);
    var expected := PointsAt(values, from, n);
    forall p | 0 <= p < n
      ensures pts[p] == expected[p]
    {
      assert 2 * (offset + p) == s * (2 * n) + 2 * p;
    }
  }

  /** `hn::Set(d, x)`: every lane holds x. */
  function Broadcast(lanes: nat, x: real): (v: seq<real>)
    ensures |v| == lanes && forall l :: 0 <= l < lanes ==> v[l] == x
  {
    seq(lanes, _ => x)
  }

  /** `hn::Min(a, b)`, lane by lane. */
  function LaneMin(a: seq<real>, b: seq<real>): (v: seq<real>)
    requires |a| == |b|
    ensures |v| == |a| && forall l :: 0 <= l < |a| ==> v[l] == Min(a[l], b[l])
  {
    seq(|a|, l requires 0 <= l < |a| => Min(a[l], b[l]))
  }

  /** `hn::Max(a, b)`, lane by lane. */
  function LaneMax(a: seq<real>, b: seq<real>): (v: seq<real>)
    requires |a| == |b|
    ensures |v| == |a| && forall l :: 0 <= l < |a| ==> v[l] == Max(a[l], b[l])
  {
    seq(|a|, l requires 0 <= l < |a| => Max(a[l], b[l]))
  }

  /** Reducing a broadcast vector gives back its value. */
  lemma BroadcastFolds(lanes: nat, x: real)
    requires lanes > 0
    ensures MinOf(Broadcast(lanes, x)) == x && MaxOf(Broadcast(lanes, x)) == x
  {
    var v := Broadcast(lanes, x);
    assert v[0] == x;
    MinOfUnique(v, x);
    MaxOfUnique(v, x);
  }

  /** Reducing the lane-wise minimum (maximum) of two vectors is the minimum (maximum) of
      their reductions. */
  lemma LaneFolds(a: seq<real>, b: seq<real>)
    requires |a| == |b| > 0
    ensures MinOf(LaneMin(a, b)) == Min(MinOf(a), MinOf(b))
    ensures MaxOf(LaneMax(a, b)) == Max(MaxOf(a), MaxOf(b))
  {
    MinOfIsLeast(a);
    MinOfIsLeast(b);
    MaxOfIsGreatest(a);
    MaxOfIsGreatest(b);
    var lo, hi := LaneMin(a, b), LaneMax(a, b);
    var m := Min(MinOf(a), MinOf(b));
    var i :| 0 <= i < |a| && a[i] == MinOf(a);
    var j :| 0 <= j < |b| && b[j] == MinOf(b);
    assert m == lo[i] || m == lo[j];
    MinOfUnique(lo, m);
    var M := Max(MaxOf(a), MaxOf(b));
    var i' :| 0 <= i' < |a| && a[i'] == MaxOf(a);
    var j' :| 0 <= j' < |b| && b[j'] == MaxOf(b);
    assert M == hi[i'] || M == hi[j'];
    MaxOfUnique(hi, M);
  }

  /** A sequence whose values are exactly those of a and b folds to the min (max) of their folds. */
  lemma FoldsCover(s: seq<real>, a: seq<real>, b: seq<real>)
    requires |s| > 0 && |a| > 0 && |b| > 0
    requires forall i :: 0 <= i < |s| ==> s[i] in a || s[i] in b
    requires forall i :: 0 <= i < |a| ==> a[i] in s
    requires forall i :: 0 <= i < |b| ==> b[i] in s
    ensures MinOf(s) == Min(MinOf(a), MinOf(b)) && MaxOf(s) == Max(MaxOf(a), MaxOf(b))
  {
    MinOfIsLeast(a);
    MinOfIsLeast(b);
    MaxOfIsGreatest(a);
    MaxOfIsGreatest(b);
    MinOfUnique(s, Min(MinOf(a), MinOf(b)));
    MaxOfUnique(s, Max(MaxOf(a), MaxOf(b)));
  }

  /** The number of leading coordinates the accumulators have seen: the first coordinate
      always, and the first i once i is positive. */
  function Covered(i: nat): nat {
    if i == 0 then 1 else i
  }

  /** The reduction vectors of the lane loop at index i fold to the min and max of the
      coordinates seen so far. */
  ghost predicate LanesHold(s: seq<real>, lanes: nat, i: nat, vMin: seq<real>, vMax: seq<real>) {
    0 < lanes && 0 < |s| && i <= |s| && |vMin| == lanes && |vMax| == lanes &&
    MinOf(vMin) == MinOf(s[..Covered(i)]) && MaxOf(vMax) == MaxOf(s[..Covered(i)])
  }

  lemma LanesStart(s: seq<real>, lanes: nat)
    requires 0 < lanes && 0 < |s|
    ensures LanesHold(s, lanes, 0, Broadcast(lanes, s[0]), Broadcast(lanes, s[0]))
  {
    BroadcastFolds(lanes, s[0]);
    assert s[..1] == [s[0]];
  }

  /** The coordinates seen after a vector iteration are those seen before it and the vector's. */
  lemma ChunkExtends(s: seq<real>, lanes: nat, i: nat)
    requires 0 < lanes && i + lanes <= |s|
    ensures MinOf(s[..i + lanes]) == Min(MinOf(s[..Covered(i)]), MinOf(s[i..i + lanes]))
    ensures MaxOf(s[..i + lanes]) == Max(MaxOf(s[..Covered(i)]), MaxOf(s[i..i + lanes]))
  {
    var seen, chunk, now := s[..Covered(i)], s[i..i + lanes], s[..i + lanes];
    forall k | 0 <= k < |now|
      ensures now[k] in seen || now[k] in chunk
    {
      if k < Covered(i) && i > 0 {
        assert now[k] == seen[k];
      } else {
        assert now[k] == chunk[k - i];
      }
    }
    forall k | 0 <= k < |seen|
      ensures seen[k] in now
    {
      assert seen[k] == now[k];
    }
    forall k | 0 <= k < |chunk|
      ensures chunk[k] in now
    {
      assert chunk[k] == now[i + k];
    }
    FoldsCover(now, seen, chunk);
  }

  /** One vector iteration: loading lanes i .. i + N - 1 and folding them in lane-wise. */
  lemma LanesStep(s: seq<real>, lanes: nat, i: nat, vMin: seq<real>, vMax: seq<real>)
    requires LanesHold(s, lanes, i, vMin, vMax) && i + lanes <= |s|
    ensures LanesHold(s, lanes, i + lanes, LaneMin(vMin, s[i..i + lanes]), LaneMax(vMax, s[i..i + lanes]))
  {
    LaneFolds(vMin, s[i..i + lanes]);
    LaneFolds(vMax, s[i..i + lanes]);
    ChunkExtends(s, lanes, i);
  }

  /** `std::min(minX, GetLane(MinOfLanes(d, vMinX)))` and its three companions: the scalar
      accumulators still hold the first coordinate, which the lanes already cover. */
  lemma LanesReduce(s: seq<real>, lanes: nat, i: nat, vMin: seq<real>, vMax: seq<real>)
    requires LanesHold(s, lanes, i, vMin, vMax)
    ensures Min(s[0], MinOf(vMin)) == MinOf(s[..Covered(i)])
    ensures Max(s[0], MaxOf(vMax)) == MaxOf(s[..Covered(i)])
  {
    var seen := s[..Covered(i)];
    assert seen[0] == s[0];
    MinOfIsLeast(seen);
    MaxOfIsGreatest(seen);
  }

  /** One scalar iteration `minX = std::min(minX, xCoords[i])`, of the tail or of the fallback. */
  lemma ScalarStep(s: seq<real>, i: nat, lo: real, hi: real)
    requires i < |s| && lo == MinOf(s[..Covered(i)]) && hi == MaxOf(s[..Covered(i)])
    ensures Min(lo, s[i]) == MinOf(s[..Covered(i + 1)]) && Max(hi, s[i]) == MaxOf(s[..Covered(i + 1)])
  {
    if i == 0 {
      assert s[..1] == [s[0]];
    } else {
      MinMaxOfStep(s, i);
    }
  }

  lemma ScalarStart(s: seq<real>)
    requires 0 < |s|
    ensures s[0] == MinOf(s[..Covered(1)]) && s[0] == MaxOf(s[..Covered(1)])
  {
    assert s[..1] == [s[0]];
  }

  /**
   * getPolygonAreaVectorized: the n - 1 edges that do not wrap, then the closing edge from the
   * last vertex back to the first. For n >= 1 this is the cyclic shoelace area; for n == 0 the
   * closing edge would read index -1, so at least one point is required.
   */
  method GetPolygonAreaVectorized(xCoords: seq<real>, yCoords: seq<real>, numPoints: int) returns (area: real)
    requires numPoints >= 1 && |xCoords| == numPoints && |yCoords| == numPoints
    ensures area == PolygonArea(Zip(xCoords, yCoords))
    ensures area >= 0.0
  {
    ghost var pts := Zip(xCoords, yCoords);
    var sum := 0.0;
    var i := 0;
    while i < numPoints - 1
      invariant 0 <= i <= numPoints - 1
      invariant sum == OpenChain(pts, i)
    {
      assert pts[i] == Point(xCoords[i], yCoords[i]) && pts[i + 1] == Point(xCoords[i + 1], yCoords[i + 1]);
      sum := sum + Cross(Point(xCoords[i], yCoords[i]), Point(xCoords[i + 1], yCoords[i + 1]));
      i := i + 1;
    }
    assert pts[numPoints - 1] == Point(xCoords[numPoints - 1], yCoords[numPoints - 1]) && pts[0] == Point(xCoords[0], yCoords[0]);
    ShoelaceClosesPolygon(pts);
    sum := sum + Cross(Point(xCoords[numPoints - 1], yCoords[numPoints - 1]), Point(xCoords[0], yCoords[0]));
    area := Abs(sum) / 2.0;
  }

  /**
   * getBoundingBoxCornersVectorized with `lanes` lanes per vector. With at least one lane and
   * more than one point it takes the vector branch; otherwise every point after the first is
   * folded one by one. Either way the corners are the scalar folds over all the points,
   * whatever the lane count.
   */
  method GetBoundingBoxCornersVectorized(xCoords: seq<real>, yCoords: seq<real>, numPoints: int, lanes: nat)
    returns (bottomLeft: Point, topRight: Point)
    requires numPoints > 0 && |xCoords| == numPoints && |yCoords| == numPoints
    ensures bottomLeft == Point(MinOf(xCoords), MinOf(yCoords))
    ensures topRight == Point(MaxOf(xCoords), MaxOf(yCoords))
  {
    var minX, maxX := xCoords[0], xCoords[0];
    var minY, maxY := yCoords[0], yCoords[0];
    if lanes > 0 && numPoints > 1 {
      minX, maxX, minY, maxY := VectorBranch(xCoords, yCoords, numPoints, lanes);
    } else {
      ScalarStart(xCoords);
      ScalarStart(yCoords);
      minX, maxX, minY, maxY := ScalarLoop(xCoords, yCoords, numPoints, 1, minX, maxX, minY, maxY);
    }
    bottomLeft := Point(minX, minY);
    topRight := Point(maxX, maxY);
  }

  /**
   * The vector branch of getBoundingBoxCornersVectorized, entered with the scalars at the first
   * point: whole vectors are folded lane-wise while a full vector still fits (every load at i
   * has i + N <= numPoints), the lanes are reduced into the scalars, and the points after the
   * last whole vector are folded one by one.
   */
  method VectorBranch(xCoords: seq<real>, yCoords: seq<real>, numPoints: int, lanes: nat)
    returns (minX: real, maxX: real, minY: real, maxY: real)
    requires 0 < lanes && 1 < numPoints && |xCoords| == numPoints && |yCoords| == numPoints
    ensures minX == MinOf(xCoords) && maxX == MaxOf(xCoords)
    ensures minY == MinOf(yCoords) && maxY == MaxOf(yCoords)
  {
    minX, maxX := xCoords[0], xCoords[0];
    minY, maxY := yCoords[0], yCoords[0];
    var i: nat := 0;
    var vMinX, vMaxX := Broadcast(lanes, xCoords[0]), Broadcast(lanes, xCoords[0]);
    var vMinY, vMaxY := Broadcast(lanes, yCoords[0]), Broadcast(lanes, yCoords[0]);
    LanesStart(xCoords, lanes);
    LanesStart(yCoords, lanes);
    while i + lanes <= numPoints
      invariant i <= numPoints
      invariant LanesHold(xCoords, lanes, i, vMinX, vMaxX)
      invariant LanesHold(yCoords, lanes, i, vMinY, vMaxY)
    {
      var vx := xCoords[i..i + lanes];
      var vy := yCoords[i..i + lanes];
      LanesStep(xCoords, lanes, i, vMinX, vMaxX);
      LanesStep(yCoords, lanes, i, vMinY, vMaxY);
      vMinX := LaneMin(vMinX, vx);
      vMaxX := LaneMax(vMaxX, vx);
      vMinY := LaneMin(vMinY, vy);
      vMaxY := LaneMax(vMaxY, vy);
      i := i + lanes;
    }
    LanesReduce(xCoords, lanes, i, vMinX, vMaxX);
    LanesReduce(yCoords, lanes, i, vMinY, vMaxY);
    minX := Min(minX, MinOf(vMinX));
    maxX := Max(maxX, MaxOf(vMaxX));
    minY := Min(minY, MinOf(vMinY));
    maxY := Max(maxY, MaxOf(vMaxY));
    minX, maxX, minY, maxY := ScalarLoop(xCoords, yCoords, numPoints, i, minX, maxX, minY, maxY);
  }

  /** The scalar loop of both branches: folds the points from index `from` on into the
      accumulators, which hold the folds of the points before it. */
  method ScalarLoop(xCoords: seq<real>, yCoords: seq<real>, numPoints: int, from: nat,
                    minX0: real, maxX0: real, minY0: real, maxY0: real)
    returns (minX: real, maxX: real, minY: real, maxY: real)
    requires 0 < numPoints && |xCoords| == numPoints && |yCoords| == numPoints && from <= numPoints
    requires minX0 == MinOf(xCoords[..Covered(from)]) && maxX0 == MaxOf(xCoords[..Covered(from)])
    requires minY0 == MinOf(yCoords[..Covered(from)]) && maxY0 == MaxOf(yCoords[..Covered(from)])
    ensures minX == MinOf(xCoords) && maxX == MaxOf(xCoords)
    ensures minY == MinOf(yCoords) && maxY == MaxOf(yCoords)
  {
    minX, maxX, minY, maxY := minX0, maxX0, minY0, maxY0;
    var i := from;
    while i < numPoints
      invariant i <= numPoints
      invariant minX == MinOf(xCoords[..Covered(i)]) && maxX == MaxOf(xCoords[..Covered(i)])
      invariant minY == MinOf(yCoords[..Covered(i)]) && maxY == MaxOf(yCoords[..Covered(i)])
    {
      ScalarStep(xCoords, i, minX, maxX);
      ScalarStep(yCoords, i, minY, maxY);
      minX := Min(minX, xCoords[i]);
      maxX := Max(maxX, xCoords[i]);
      minY := Min(minY, yCoords[i]);
      maxY := Max(maxY, yCoords[i]);
      i := i + 1;
    }
    assert xCoords[..Covered(i)] == xCoords && yCoords[..Covered(i)] == yCoords;
  }

  /** Trial s's ratio, from the area and corners computed on its slices. */
  lemma SliceRatio(pts: seq<Point>, xCoords: seq<real>, yCoords: seq<real>, area: real,
                   bottomLeft: Point, topRight: Point, width: real, height: real, divide: Divide)
    requires |xCoords| == |yCoords| > 0 && pts == Zip(xCoords, yCoords)
    requires area == PolygonArea(pts)
    requires bottomLeft == Point(MinOf(xCoords), MinOf(yCoords)) && topRight == Point(MaxOf(xCoords), MaxOf(yCoords))
    requires width == topRight.x - bottomLeft.x && height == topRight.y - bottomLeft.y
    ensures divide(area, width * height) == Ratio(pts, divide)
  {
    ZipCoordinates(xCoords, yCoords);
    assert width == Extent(Xs(pts)) && height == Extent(Ys(pts));
    RatioFromExtents(pts, area, width, height, divide);
  }

  class SimulationEugene2 {
    const base: SimulationBase
    /** The engine and distribution the instance owns (`m_mt`, `m_dist`). */
    const rng: Generator
    const divide: Divide
    /** `hn::Lanes(d)`: how many coordinates one vector of the target holds. */
    const lanes: nat
    var ratiosSum: real

    /** The ISimulation constructor's assert, and draws from uniform_real_distribution{1.0, 2.0}. */
    ghost predicate Valid() {
      base.polygonPointCount >= 3 && rng.Valid()
    }

    constructor (runCount: int, polygonPointCount: int, values: nat -> real, divide: Divide, lanes: nat)
      requires polygonPointCount >= 3
      requires InDistributionRange(values)
      ensures base == New(runCount, polygonPointCount)
      ensures fresh(rng) && rng.values == values && rng.drawn == 0
      ensures this.divide == divide && this.lanes == lanes && ratiosSum == 0.0
      ensures Valid()
    {
      base := New(runCount, polygonPointCount);
      rng := new Generator(values);
      this.divide := divide;
      this.lanes := lanes;
      ratiosSum := 0.0;
    }

    /** getAverageRatio(), which asserts that at least one run was requested. */
    function GetAverageRatio(): (avg: real)
      reads this
      requires base.GetRunCount() > 0
      ensures ExactDivision(divide) ==> avg * (base.GetRunCount() as real) == ratiosSum
    {
      AverageRatio(ratiosSum, base.GetRunCount(), divide)
    }

    function GetSumOfRatios(): real
      reads this
    {
      ratiosSum
    }

    /**
     * run(): fill both buffers, then take trial s's polygon from the n entries at offset s * n
     * of each. The sum of ratios is assigned, not accumulated. The buffer size is the exact
     * product of the run count and the point count.
     */
    method Run()
      requires Valid() && base.GetRunCount() >= 0
      modifies this, rng
      ensures rng.drawn == old(rng.drawn) + 2 * TotalPoints(base.runCount, base.polygonPointCount)
      ensures ratiosSum == RatioSum(rng.values, old(rng.drawn), 2 * base.polygonPointCount, base.polygonPointCount, base.runCount, divide)
    {
      var runCount := base.GetRunCount();
      var numPoints := base.GetPolygonPointCount();
      var totalPoints := TotalPoints(runCount, numPoints);
      ghost var values, start := rng.values, rng.drawn;
      var allXCoords, allYCoords := FillBuffers(totalPoints);

      var sumOfRatios := 0.0;
      ghost var stride := 2 * numPoints;
      ghost var total := RatioSum(values, start, stride, numPoints, runCount, divide);
      ghost var at: nat, remaining: nat := start, runCount;
      var simIdx := 0;
      while simIdx < runCount
        invariant 0 <= simIdx <= runCount && remaining == runCount - simIdx
        invariant at == start + simIdx * stride
        invariant rng.drawn == start + 2 * totalPoints
        invariant sumOfRatios + RatioSum(values, at, stride, numPoints, remaining, divide) == total
      {
        var offset := Offset(simIdx, numPoints);
        var xCoords := allXCoords[offset..offset + numPoints];
        var yCoords := allYCoords[offset..offset + numPoints];
        ghost var from, before, left := at, sumOfRatios, remaining;
        SliceIsPoints(values, start, allXCoords, allYCoords, totalPoints, simIdx, numPoints, offset, from);
        ghost var pts := Zip(xCoords, yCoords);
        assert pts == PointsAt(values, from, numPoints);

        var polygonArea := GetPolygonAreaVectorized(xCoords, yCoords, numPoints);
        var bottomLeft, topRight := GetBoundingBoxCornersVectorized(xCoords, yCoords, numPoints, lanes);
        var width := topRight.x - bottomLeft.x;
        var height := topRight.y - bottomLeft.y;
        var boundingBoxArea := width * height;
        SliceRatio(pts, xCoords, yCoords, polygonArea, bottomLeft, topRight, width, height, divide);

        var ratio := divide(polygonArea, boundingBoxArea);
        assert ratio == Ratio(PointsAt(values, from, numPoints), divide);
        sumOfRatios := sumOfRatios + ratio;
        MulStep(simIdx, stride);
        simIdx := simIdx + 1;
        at, remaining := at + stride, remaining - 1;
        RatioSumAdvance(values, from, at, stride, numPoints, left, remaining, before, sumOfRatios, total, divide);
      }
      ratiosSum := sumOfRatios;
      assert rng.drawn == start + 2 * TotalPoints(base.runCount, base.polygonPointCount);
    }

    /** The fill loop of run(): one x and then one y per point, pushed onto the two buffers. */
    method FillBuffers(totalPoints: nat) returns (allXCoords: seq<real>, allYCoords: seq<real>)
      modifies rng
      ensures rng.drawn == old(rng.drawn) + 2 * totalPoints
      ensures Buffers(rng.values, old(rng.drawn), allXCoords, allYCoords, totalPoints)
    {
      allXCoords, allYCoords := [], [];
      var i := 0;
      while i < totalPoints
        invariant 0 <= i <= totalPoints
        invariant rng.drawn == old(rng.drawn) + 2 * i
        invariant Buffers(rng.values, old(rng.drawn), allXCoords, allYCoords, i)
      {
        var x := rng.Next();
        var y := rng.Next();
        allXCoords := allXCoords + [x];
        allYCoords := allYCoords + [y];
        i := i + 1;
      }
    }
  }
}
