/**
 * SimulationEugene3: the struct-of-arrays strategy. run() draws every x coordinate of every
 * trial, then every y coordinate, into two tables indexed [vertex][trial]; it then computes
 * all bounding boxes at once with element-wise vector operations and min/max accumulation
 * over the vertex rows, all polygon areas with a shoelace loop per trial, and adds the sum
 * of the element-wise ratios to the running sum.
 */
module Eugene3 {
  import opened Geometry
  import opened Random
  import opened Simulation

  /** The scalar operation behind each element-wise vector operator. */
  datatype ElementOp = Add | Subtract | Multiply | Quotient(divide: Divide) | Minimum | Maximum

  function Apply(op: ElementOp, a: real, b: real): real {
    match op
    case Add => a + b
    case Subtract => a - b
    case Multiply => a * b
    case Quotient(divide) => divide(a, b)
    case Minimum => Min(a, b)
    case Maximum => Max(a, b)
  }

  /** What operator+, -, *, /, min and max return: element i is op(left[i], right[i]). */
  function Pointwise(op: ElementOp, left: seq<real>, right: seq<real>): seq<real>
    requires |left| == |right|
  {
    seq(|left|, i requires 0 <= i < |left| => Apply(op, left[i], right[i]))
  }

  /**
   * operator+, operator-, operator*, operator/, min and max on vectors: after the size assert,
   * a result vector of the same size is filled index by index.
   */
  method Elementwise(op: ElementOp, left: seq<real>, right: seq<real>) returns (result: seq<real>)
    requires |left| == |right|
    ensures |result| == |left|
    ensures forall i :: 0 <= i < |left| ==> result[i] == Apply(op, left[i], right[i])
  {
    var r := new real[|left|](_ => 0.0);
    var i := 0;
    while i < |left|
      invariant 0 <= i <= |left|
      invariant forall k :: 0 <= k < i ==> r[k] == Apply(op, left[k], right[k])
    {
      r[i] := Apply(op, left[i], right[i]);
      i := i + 1;
    }
    result := r[..];
  }

  /**
   * min_accumulate and max_accumulate: left[i] becomes min (or max) of left[i] and right[i],
   * in place; nothing else changes.
   */
  method Accumulate(left: array<real>, right: seq<real>, op: ElementOp)
    requires left.Length == |right| && (op.Minimum? || op.Maximum?)
    modifies left
    ensures left[..] == Pointwise(op, old(left[..]), right)
  {
    var i := 0;
    while i < left.Length
      invariant 0 <= i <= left.Length
      invariant forall k :: 0 <= k < i ==> left[k] == Apply(op, old(left[k]), right[k])
      invariant forall k :: i <= k < left.Length ==> left[k] == old(left[k])
    {
      left[i] := Apply(op, left[i], right[i]);
      i := i + 1;
    }
  }

  /** Accumulating a vector into itself leaves it unchanged: min(v, v) == max(v, v) == v. */
  lemma AccumulateSelf(v: seq<real>)
    ensures Pointwise(Minimum, v, v) == v && Pointwise(Maximum, v, v) == v
  {
  }

  /** The element-wise minimum is below both operands and equals one of them; the maximum
      dually. */
  lemma MinMaxBounds(a: seq<real>, b: seq<real>)
    requires |a| == |b|
    ensures forall i :: 0 <= i < |a| ==>
              Pointwise(Minimum, a, b)[i] <= a[i] && Pointwise(Minimum, a, b)[i] <= b[i] &&
              (Pointwise(Minimum, a, b)[i] == a[i] || Pointwise(Minimum, a, b)[i] == b[i])
    ensures forall i :: 0 <= i < |a| ==>
              a[i] <= Pointwise(Maximum, a, b)[i] && b[i] <= Pointwise(Maximum, a, b)[i] &&
              (Pointwise(Maximum, a, b)[i] == a[i] || Pointwise(Maximum, a, b)[i] == b[i])
  {
  }

  /** A table of `rows` vectors of `width` elements each, as polygonXPoints after the fill. */
  ghost predicate Table(t: seq<seq<real>>, rows: nat, width: nat) {
    |t| == rows && forall p :: 0 <= p < rows ==> |t[p]| == width
  }

  /** The draw that lands in row p, column j of a table of rows `width` long filled from draw `from`. */
  function DrawAt(values: nat -> real, from: nat, p: nat, width: nat, j: nat): real {
    values(from + p * width + j)
  }

  /** Column j of a table: element j of every row, in row order. */
  function Col(t: seq<seq<real>>, j: nat): (c: seq<real>)
    requires forall p :: 0 <= p < |t| ==> j < |t[p]|
    ensures |c| == |t| && forall p :: 0 <= p < |t| ==> c[p] == t[p][j]
  {
    seq(|t|, p requires 0 <= p < |t| => t[p][j])
  }

  /** The polygon of trial j: vertex p is (xs[p][j], ys[p][j]). */
  function Column(xs: seq<seq<real>>, ys: seq<seq<real>>, j: nat): seq<Point>
    requires |xs| == |ys|
    requires forall p :: 0 <= p < |xs| ==> j < |xs[p]| && j < |ys[p]|
  {
    Zip(Col(xs, j), Col(ys, j))
  }

  /** Vertex p of trial j's polygon. */
  lemma ColumnVertex(xs: seq<seq<real>>, ys: seq<seq<real>>, j: nat, p: nat)
    requires |xs| == |ys| && p < |xs|
    requires forall q :: 0 <= q < |xs| ==> j < |xs[q]| && j < |ys[q]|
    ensures |Column(xs, ys, j)| == |xs| && Column(xs, ys, j)[p] == Point(xs[p][j], ys[p][j])
  {
  }

  /** The ratio of every trial of the tables. */
  function ColumnRatios(xs: seq<seq<real>>, ys: seq<seq<real>>, n: nat, runCount: nat, divide: Divide): seq<real>
    requires n > 0 && Table(xs, n, runCount) && Table(ys, n, runCount)
  {
    seq(runCount, j requires 0 <= j < runCount => Ratio(Column(xs, ys, j), divide))
  }

  /** std::reduce over the ratios; as reals the order of the additions does not matter. */
  function Sum(s: seq<real>): real {
    if s == [] then 0.0 else Sum(s[..|s| - 1]) + s[|s| - 1]
  }

  function Fold(op: ElementOp, s: seq<real>): real
    requires |s| > 0 && (op.Minimum? || op.Maximum?)
  {
    if op.Minimum? then MinOf(s) else MaxOf(s)
  }

  /** After rows 0 .. p-1 are accumulated, element j is the fold of column j over those rows. */
  ghost predicate Folded(acc: seq<real>, t: seq<seq<real>>, p: nat, op: ElementOp)
    requires 0 < p <= |t| && Table(t, |t|, |acc|) && (op.Minimum? || op.Maximum?)
  {
    forall j :: 0 <= j < |acc| ==> acc[j] == Fold(op, Col(t, j)[..p])
  }

  lemma FoldedFirst(t: seq<seq<real>>, width: nat, op: ElementOp)
    requires |t| > 0 && Table(t, |t|, width) && (op.Minimum? || op.Maximum?)
    ensures Folded(t[0], t, 1, op)
  {
    forall j | 0 <= j < width
      ensures t[0][j] == Fold(op, Col(t, j)[..1])
    {
      assert Col(t, j)[..1] == [t[0][j]];
    }
  }

  lemma FoldedStep(acc: seq<real>, t: seq<seq<real>>, p: nat, op: ElementOp, next: seq<real>)
    requires 0 < p < |t| && Table(t, |t|, |acc|) && (op.Minimum? || op.Maximum?)
    requires Folded(acc, t, p, op)
    requires next == Pointwise(op, acc, t[p])
    ensures Folded(next, t, p + 1, op)
  {
    forall j | 0 <= j < |acc|
      ensures next[j] == Fold(op, Col(t, j)[..p + 1])
    {
      MinMaxOfStep(Col(t, j), p);
    }
  }

  lemma FoldedAll(acc: seq<real>, t: seq<seq<real>>, op: ElementOp)
    requires 0 < |t| && Table(t, |t|, |acc|) && (op.Minimum? || op.Maximum?)
    requires Folded(acc, t, |t|, op)
    ensures forall j :: 0 <= j < |acc| ==> acc[j] == Fold(op, Col(t, j))
  {
    forall j | 0 <= j < |acc|
      ensures acc[j] == Fold(op, Col(t, j))
    {
      assert Col(t, j)[..|t|] == Col(t, j);
    }
  }

  /**
   * One corner vector of run()'s corner loop: a copy of row 0, then rows 1 .. n-1 accumulated
   * with min_accumulate (op Minimum) or max_accumulate (op Maximum), so element j is the
   * fold of column j.
   */
  method CornerFold(t: seq<seq<real>>, width: nat, op: ElementOp) returns (corner: seq<real>)
    requires |t| > 0 && Table(t, |t|, width) && (op.Minimum? || op.Maximum?)
    ensures |corner| == width
    ensures forall j :: 0 <= j < width ==> corner[j] == Fold(op, Col(t, j))
  {
    var acc := new real[width](k requires 0 <= k < width => t[0][k]);
    assert acc[..] == t[0];
    FoldedFirst(t, width, op);
    var p := 1;
    while p < |t|
      invariant 1 <= p <= |t|
      invariant Folded(acc[..], t, p, op)
    {
      ghost var before := acc[..];
      Accumulate(acc, t[p], op);
      FoldedStep(before, t, p, op, acc[..]);
      p := p + 1;
    }
    FoldedAll(acc[..], t, op);
    corner := acc[..];
  }

  /**
   * The corner loop of run(). The source advances the four corner vectors together, row by
   * row; each reads only its own vector and the current row, so folding them one after the
   * other gives the same vectors.
   */
  method Corners(xs: seq<seq<real>>, ys: seq<seq<real>>, n: nat, runCount: nat)
    returns (bottomLeftX: seq<real>, bottomLeftY: seq<real>, topRightX: seq<real>, topRightY: seq<real>)
    requires n > 0 && Table(xs, n, runCount) && Table(ys, n, runCount)
    ensures |bottomLeftX| == |bottomLeftY| == |topRightX| == |topRightY| == runCount
    ensures forall j :: 0 <= j < runCount ==> bottomLeftX[j] == MinOf(Col(xs, j)) && topRightX[j] == MaxOf(Col(xs, j))
    ensures forall j :: 0 <= j < runCount ==> bottomLeftY[j] == MinOf(Col(ys, j)) && topRightY[j] == MaxOf(Col(ys, j))
  {
    bottomLeftX := CornerFold(xs, runCount, Minimum);
    bottomLeftY := CornerFold(ys, runCount, Minimum);
    topRightX := CornerFold(xs, runCount, Maximum);
    topRightY := CornerFold(ys, runCount, Maximum);
  }

  /**
   * The polygon-area loop of run(): the zero-initialised area of trial i accumulates the
   * shoelace term of every edge, `nextIdx = (p + 1) % n` closing the polygon, and is then
   * replaced by half its absolute value.
   */
  method PolygonAreas(xs: seq<seq<real>>, ys: seq<seq<real>>, n: nat, runCount: nat) returns (areas: seq<real>)
    requires n > 0 && Table(xs, n, runCount) && Table(ys, n, runCount)
    ensures |areas| == runCount
    ensures forall j :: 0 <= j < runCount ==> areas[j] == PolygonArea(Column(xs, ys, j))
  {
    var polygonAreas := new real[runCount](_ => 0.0);
    var i := 0;
    while i < runCount
      invariant 0 <= i <= runCount
      invariant forall k :: 0 <= k < i ==> polygonAreas[k] == PolygonArea(Column(xs, ys, k))
      invariant forall k :: i <= k < runCount ==> polygonAreas[k] == 0.0
    {
      ShoelaceInto(polygonAreas, xs, ys, n, runCount, i);
      polygonAreas[i] := Abs(polygonAreas[i]) / 2.0;
      i := i + 1;
    }
    areas := polygonAreas[..];
  }

  /** The inner loop of the polygon areas: adds the shoelace terms of trial i's n edges into
      slot i, in place, leaving the other slots alone. */
  method ShoelaceInto(polygonAreas: array<real>, xs: seq<seq<real>>, ys: seq<seq<real>>, n: nat, runCount: nat, i: nat)
    requires n > 0 && Table(xs, n, runCount) && Table(ys, n, runCount)
    requires polygonAreas.Length == runCount && i < runCount && polygonAreas[i] == 0.0
    modifies polygonAreas
    ensures polygonAreas[i] == ShoelacePrefix(Column(xs, ys, i), n)
    ensures forall k :: 0 <= k < runCount && k != i ==> polygonAreas[k] == old(polygonAreas[k])
  {
    ghost var polygon := Column(xs, ys, i);
    var p := 0;
    while p < n
      invariant 0 <= p <= n
      invariant polygonAreas[i] == ShoelacePrefix(polygon, p)
      invariant forall k :: 0 <= k < runCount && k != i ==> polygonAreas[k] == old(polygonAreas[k])
    {
      var currIdx := p;
      var nextIdx := (p + 1) % n;
      var curr, next := Point(xs[currIdx][i], ys[currIdx][i]), Point(xs[nextIdx][i], ys[nextIdx][i]);
      ColumnVertex(xs, ys, i, currIdx);
      ColumnVertex(xs, ys, i, nextIdx);
      ShoelaceStep(polygon, p, polygonAreas[i], curr, next);
      polygonAreas[i] := polygonAreas[i] + Cross(curr, next);
      p := p + 1;
    }
  }

  /** Trial j's width and height, computed from its corners, are the extents of its polygon. */
  lemma ColumnExtents(xs: seq<seq<real>>, ys: seq<seq<real>>, n: nat, runCount: nat, j: nat,
                      minX: real, minY: real, maxX: real, maxY: real, width: real, height: real)
    requires n > 0 && Table(xs, n, runCount) && Table(ys, n, runCount) && j < runCount
    requires minX == MinOf(Col(xs, j)) && maxX == MaxOf(Col(xs, j))
    requires minY == MinOf(Col(ys, j)) && maxY == MaxOf(Col(ys, j))
    requires width == Apply(Subtract, maxX, minX) && height == Apply(Subtract, maxY, minY)
    ensures width == Extent(Xs(Column(xs, ys, j))) && height == Extent(Ys(Column(xs, ys, j)))
  {
    ZipCoordinates(Col(xs, j), Col(ys, j));
  }

  /** Trial j's box area and quotient, computed from its width, height and area, are its ratio. */
  lemma ColumnRatio(xs: seq<seq<real>>, ys: seq<seq<real>>, n: nat, runCount: nat, j: nat, divide: Divide,
                    width: real, height: real, boxArea: real, area: real, ratio: real)
    requires n > 0 && Table(xs, n, runCount) && Table(ys, n, runCount) && j < runCount
    requires width == Extent(Xs(Column(xs, ys, j))) && height == Extent(Ys(Column(xs, ys, j)))
    requires boxArea == Apply(Multiply, width, height)
    requires area == PolygonArea(Column(xs, ys, j))
    requires ratio == Apply(Quotient(divide), area, boxArea)
    ensures ratio == Ratio(Column(xs, ys, j), divide)
  {
    assert boxArea == width * height;
    assert ratio == divide(area, boxArea);
    RatioFromExtents(Column(xs, ys, j), area, width, height, divide);
  }

  /** The element-wise widths, heights, box areas and quotients of run() are the trials' ratios. */
  lemma RatiosOfColumns(xs: seq<seq<real>>, ys: seq<seq<real>>, n: nat, runCount: nat, divide: Divide,
                        bottomLeftX: seq<real>, bottomLeftY: seq<real>, topRightX: seq<real>, topRightY: seq<real>,
                        widths: seq<real>, heights: seq<real>, areas: seq<real>, polygonAreas: seq<real>, ratios: seq<real>)
    requires n > 0 && Table(xs, n, runCount) && Table(ys, n, runCount)
    requires |bottomLeftX| == |bottomLeftY| == |topRightX| == |topRightY| == runCount
    requires |widths| == |heights| == |areas| == |polygonAreas| == |ratios| == runCount
    requires forall j :: 0 <= j < runCount ==> bottomLeftX[j] == MinOf(Col(xs, j)) && topRightX[j] == MaxOf(Col(xs, j))
    requires forall j :: 0 <= j < runCount ==> bottomLeftY[j] == MinOf(Col(ys, j)) && topRightY[j] == MaxOf(Col(ys, j))
    requires forall j :: 0 <= j < runCount ==> widths[j] == Apply(Subtract, topRightX[j], bottomLeftX[j])
    requires forall j :: 0 <= j < runCount ==> heights[j] == Apply(Subtract, topRightY[j], bottomLeftY[j])
    requires forall j :: 0 <= j < runCount ==> areas[j] == Apply(Multiply, widths[j], heights[j])
    requires forall j :: 0 <= j < runCount ==> polygonAreas[j] == PolygonArea(Column(xs, ys, j))
    requires forall j :: 0 <= j < runCount ==> ratios[j] == Apply(Quotient(divide), polygonAreas[j], areas[j])
    ensures ratios == ColumnRatios(xs, ys, n, runCount, divide)
  {
    forall j | 0 <= j < runCount
      ensures ratios[j] == Ratio(Column(xs, ys, j), divide)
    {
      ColumnExtents(xs, ys, n, runCount, j, bottomLeftX[j], bottomLeftY[j], topRightX[j], topRightY[j], widths[j], heights[j]);
      ColumnRatio(xs, ys, n, runCount, j, divide, widths[j], heights[j], areas[j], polygonAreas[j], ratios[j]);
    }
  }

  /** Every width and height run() computes is non-negative. */
  lemma ExtentsNonNegative(t: seq<seq<real>>, runCount: nat, lows: seq<real>, highs: seq<real>)
    requires |t| > 0 && Table(t, |t|, runCount) && |lows| == |highs| == runCount
    requires forall j :: 0 <= j < runCount ==> lows[j] == MinOf(Col(t, j)) && highs[j] == MaxOf(Col(t, j))
    ensures forall j :: 0 <= j < runCount ==> Pointwise(Subtract, highs, lows)[j] >= 0.0
  {
    forall j | 0 <= j < runCount
      ensures highs[j] - lows[j] >= 0.0
    {
      ExtentNonNegative(Col(t, j));
    }
  }

  class SimulationEugene3 {
    const base: SimulationBase
    /** The engine and distribution the instance owns (`m_mt`, `m_dist`). */
    const rng: Generator
    const divide: Divide
    var ratiosSum: real
    /** The public tables run() fills: row p holds vertex p's coordinate of every trial. */
    var polygonXPoints: seq<seq<real>>
    var polygonYPoints: seq<seq<real>>

    /** The ISimulation constructor's assert, and draws from uniform_real_distribution{1.0, 2.0}. */
    ghost predicate Valid() {
      base.polygonPointCount >= 3 && rng.Valid()
    }

    constructor (runCount: int, polygonPointCount: int, values: nat -> real, divide: Divide)
      requires polygonPointCount >= 3
      requires InDistributionRange(values)
      ensures base == New(runCount, polygonPointCount)
      ensures fresh(rng) && rng.values == values && rng.drawn == 0
      ensures this.divide == divide && ratiosSum == 0.0
      ensures polygonXPoints == [] && polygonYPoints == []
      ensures Valid()
    {
      base := New(runCount, polygonPointCount);
      rng := new Generator(values);
      this.divide := divide;
      ratiosSum := 0.0;
      polygonXPoints := [];
      polygonYPoints := [];
    }

    /** getAverageRatio(), which asserts that at least one run was requested. */
    function GetAverageRatio(): (avg: real)
      reads this
      requires base.GetRunCount() > 0
      ensures ExactDivision(divide) ==> avg * (base.GetRunCount() as real) == ratiosSum
    {
      AverageRatio(ratiosSum, base.GetRunCount(), divide)
    }

    function GetSumOfRatios(): real
      reads this
    {
      ratiosSum
    }

    /**
     * run(): all x coordinates (vertex by vertex, trial by trial), then all y coordinates;
     * then the trials' ratios, whose sum is added to the running sum.
     */
    method Run()
      requires Valid() && base.GetRunCount() >= 0
      modifies this, rng
      ensures var n, r := base.polygonPointCount, base.runCount;
              Table(polygonXPoints, n, r) && Table(polygonYPoints, n, r) &&
              rng.drawn == old(rng.drawn) + 2 * (n * r)
      ensures forall p, j :: 0 <= p < base.polygonPointCount && 0 <= j < base.runCount ==>
                polygonXPoints[p][j] == DrawAt(rng.values, old(rng.drawn), p, base.runCount, j)
      ensures forall p, j :: 0 <= p < base.polygonPointCount && 0 <= j < base.runCount ==>
                polygonYPoints[p][j] == DrawAt(rng.values, old(rng.drawn) + base.polygonPointCount * base.runCount, p, base.runCount, j)
      ensures ratiosSum == old(ratiosSum) +
                Sum(ColumnRatios(polygonXPoints, polygonYPoints, base.polygonPointCount, base.runCount, divide))
    {
      var polygonPointCount := base.GetPolygonPointCount();
      var runCount := base.GetRunCount();
      ghost var start := rng.drawn;
      var xs := FillRows(polygonPointCount, runCount);
      ghost var mid := rng.drawn;
      assert mid == start + base.polygonPointCount * base.runCount;
      var ys := FillRows(polygonPointCount, runCount);
      polygonXPoints, polygonYPoints := xs, ys;

      var bottomLeftXPoints, bottomLeftYPoints, topRightXPoints, topRightYPoints := Corners(xs, ys, polygonPointCount, runCount);
      var widths := Elementwise(Subtract, topRightXPoints, bottomLeftXPoints);
      var heights := Elementwise(Subtract, topRightYPoints, bottomLeftYPoints);
      var areas := Elementwise(Multiply, widths, heights);
      var polygonAreas := PolygonAreas(xs, ys, polygonPointCount, runCount);
      var ratios := Elementwise(Quotient(divide), polygonAreas, areas);
      RatiosOfColumns(xs, ys, polygonPointCount, runCount, divide,
                      bottomLeftXPoints, bottomLeftYPoints, topRightXPoints, topRightYPoints,
                      widths, heights, areas, polygonAreas, ratios);
      ratiosSum := ratiosSum + Sum(ratios);
    }

    /** One fill loop of run(): `rows` rows of `width` draws each, row after row. */
    method FillRows(rows: nat, width: nat) returns (t: seq<seq<real>>)
      modifies rng
      ensures Table(t, rows, width)
      ensures rng.drawn == old(rng.drawn) + rows * width
      ensures forall p, j :: 0 <= p < rows && 0 <= j < width ==> t[p][j] == DrawAt(rng.values, old(rng.drawn), p, width, j)
    {
      t := [];
      var i := 0;
      while i < rows
        invariant 0 <= i <= rows
        invariant Table(t, i, width)
        invariant rng.drawn == old(rng.drawn) + i * width
        invariant forall p, j :: 0 <= p < i && 0 <= j < width ==> t[p][j] == DrawAt(rng.values, old(rng.drawn), p, width, j)
      {
        var row := new real[width];
        ghost var rowStart := rng.drawn;
        var j := 0;
        while j < width
          invariant 0 <= j <= width
          invariant rng.drawn == rowStart + j
          invariant forall k :: 0 <= k < j ==> row[k] == rng.values(rowStart + k)
        {
          row[j] := rng.Next();
          j := j + 1;
        }
        t := t + [row[..]];
        MulStep(i, width);
        i := i + 1;
      }
    }
  }
}
