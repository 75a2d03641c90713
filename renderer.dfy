/** The adaptive evaluator of an equation over the x-y plane (render2D, and
    the older `render` copies). A box is classified by the range function;
    definite boxes are filled or skipped, small ambiguous ones are sampled
    densely, others are split into quadrants, and one-pixel boxes are
    sampled at four points. Drawing is recorded as a list of commands in the
    formula's coordinates; the affine map to canvas pixels is not modelled. */
module Renderer {
  import opened Common

  /** A box of the plane. */
  datatype Rect = Rect(xMin: real, xMax: real, yMin: real, yMax: real)
  {
    predicate WellFormed() { xMin <= xMax && yMin <= yMax }
    predicate Contains(x: real, y: real) { xMin <= x <= xMax && yMin <= y <= yMax }
    predicate Inside(outer: Rect) { outer.xMin <= xMin && xMax <= outer.xMax && outer.yMin <= yMin && yMax <= outer.yMax }
  }

  /** A drawing command: a square of `side` pixels with its corner at (x, y),
      drawn at `alpha` times the fill alpha, or a round marker on the curve. */
  datatype Draw = Square(x: real, y: real, side: nat, alpha: real) | Marker(x: real, y: real)

  /** An equation as the renderer receives it. */
  datatype Formula2D = Formula2D(valueFunc: (real, real) -> Num, rangeFunc: Rect -> Category, fillMode: FillMode)

  // ---------------------------------------------------------------- fill mask

  /** fillModeToMask: one bit per filled sign, at the bit of its category. */
  function FillModeToMask(fm: FillMode): (mask: nat)
    ensures mask < 8
  {
    (if fm.positive then Pow2(Positive.Bit()) else 0)
    + (if fm.negative then Pow2(Negative.Bit()) else 0)
    + (if fm.zero then Pow2(EqZero.Bit()) else 0)
  }

  /** `((mask >> bit) & 1) === 1` */
  predicate MaskHas(mask: nat, bit: nat)
  {
    (mask / Pow2(bit)) % 2 == 1
  }

  /** The mask has the bit of a definite category exactly when the fill mode asks for that sign. */
  lemma MaskSelects(fm: FillMode, c: Category)
    requires c.Definite()
    ensures MaskHas(FillModeToMask(fm), c.Bit()) <==> fm.Selects(c)
  {
    assert Pow2(0) == 1 && Pow2(1) == 2 && Pow2(2) == 4 && Pow2(3) == 8;
  }

  // ---------------------------------------------------------- one box, one step

  /** What the worklist does with a box: fill it, skip it, sample it densely, split it, or sample a dot. */
  datatype Step = Fill | Skip | Dense | Split | Dot

  /** The decision for a box of side `s` pixels on which the range function reports c. */
  function StepOf(fm: FillMode, c: Category, s: nat): (st: Step)
    ensures st == Fill <==> c.Definite() && fm.Selects(c)
    ensures st == Skip <==> c.Definite() && !fm.Selects(c)
    ensures st == Dense <==> c == Both && s <= 8
    ensures st == Split <==> !c.Definite() && !(c == Both && s <= 8) && s > 1
    ensures st == Dot <==> !c.Definite() && !(c == Both && s <= 8) && s <= 1
  {
    if c.Definite() then
      MaskSelects(fm, c);
      if MaskHas(FillModeToMask(fm), c.Bit()) then Fill else Skip
    else if c == Both && s <= 8 then Dense
    else if s > 1 then Split
    else Dot
  }

  /** The four quadrants of a box, split at its midpoints. */
  function Quadrants(r: Rect): seq<Rect>
  {
    var xc := (r.xMin + r.xMax) / 2.0;
    var yc := (r.yMin + r.yMax) / 2.0;
    [Rect(r.xMin, xc, r.yMin, yc), Rect(xc, r.xMax, r.yMin, yc), Rect(r.xMin, xc, yc, r.yMax), Rect(xc, r.xMax, yc, r.yMax)]
  }

  /** The quadrants tile their box: each has half its width and height, and a
      point is in the box exactly when it is in one of them. */
  lemma QuadrantsTile(r: Rect)
    requires r.WellFormed()
    ensures |Quadrants(r)| == 4
    ensures forall q :: q in Quadrants(r) ==>
      q.WellFormed() && q.xMax - q.xMin == (r.xMax - r.xMin) / 2.0 && q.yMax - q.yMin == (r.yMax - r.yMin) / 2.0
    ensures forall x, y :: r.Contains(x, y) <==>
      Quadrants(r)[0].Contains(x, y) || Quadrants(r)[1].Contains(x, y) || Quadrants(r)[2].Contains(x, y) || Quadrants(r)[3].Contains(x, y)
  {
  }

  // ------------------------------------------------------------------ calcDot

  /** The share of four samples that pass: 0, 1/4, 1/2, 3/4 or 1. */
  function Share(b0: bool, b1: bool, b2: bool, b3: bool): (f: real)
    ensures 0.0 <= f <= 1.0
  {
    ((if b0 then 1.0 else 0.0) + (if b1 then 1.0 else 0.0) + (if b2 then 1.0 else 0.0) + (if b3 then 1.0 else 0.0)) / 4.0
  }

  /** Whether calcDot counts a sample as inside the filled region: zero when zero is
      filled, negative when negative is filled, and positive only when negative is not. */
  predicate Covers(fm: FillMode, v: Num)
  {
    (fm.zero && v.IsZero()) || (fm.negative && v.IsNeg()) || (!fm.negative && fm.positive && v.IsPos())
  }

  /** The opacity calcDot gives a pixel from its four samples. */
  function DotAlpha(fm: FillMode, v00: Num, v01: Num, v10: Num, v11: Num): (alpha: real)
    ensures alpha == Share(Covers(fm, v00), Covers(fm, v01), Covers(fm, v10), Covers(fm, v11))
    ensures 0.0 <= alpha <= 1.0
    ensures !fm.HasFill() ==> alpha == 0.0
  {
    (if fm.zero then Share(v00.IsZero(), v01.IsZero(), v10.IsZero(), v11.IsZero()) else 0.0)
    + (if fm.negative then Share(v00.IsNeg(), v01.IsNeg(), v10.IsNeg(), v11.IsNeg())
       else if fm.positive then Share(v00.IsPos(), v01.IsPos(), v10.IsPos(), v11.IsPos())
       else 0.0)
  }

  /** The points a quarter and three quarters of the way from a to b. */
  function Near(a: real, b: real): real { 0.75 * a + 0.25 * b }
  function Far(a: real, b: real): real { 0.25 * a + 0.75 * b }

  /** calcDot: a one-pixel box is drawn at the opacity of its four inner samples, and only when that is positive. */
  function CalcDot(vf: (real, real) -> Num, fm: FillMode, r: Rect): (d: seq<Draw>)
    ensures |d| <= 1
    ensures !fm.HasFill() ==> d == []
    ensures d != [] ==> d[0].Square? && d[0].x == r.xMin && d[0].y == r.yMin && d[0].side == 1 && 0.0 < d[0].alpha <= 1.0
    ensures fm.HasFill() ==>
      var alpha := DotAlpha(fm, vf(Near(r.xMin, r.xMax), Near(r.yMin, r.yMax)), vf(Near(r.xMin, r.xMax), Far(r.yMin, r.yMax)),
                            vf(Far(r.xMin, r.xMax), Near(r.yMin, r.yMax)), vf(Far(r.xMin, r.xMax), Far(r.yMin, r.yMax)));
      (d != [] <==> alpha > 0.0) && (d != [] ==> d[0].alpha == alpha)
  {
    if !fm.HasFill() then []
    else
      var x0 := Near(r.xMin, r.xMax);
      var x1 := Far(r.xMin, r.xMax);
      var y0 := Near(r.yMin, r.yMax);
      var y1 := Far(r.yMin, r.yMax);
      var alpha := DotAlpha(fm, vf(x0, y0), vf(x0, y1), vf(x1, y0), vf(x1, y1));
      if alpha > 0.0 then [Square(r.xMin, r.yMin, 1, alpha)] else []
  }

  // ----------------------------------------------------------------- calcFull

  /** Column i of the dense grid of n steps over r. */
  function GridX(r: Rect, n: nat, i: int): real
    requires n > 0
  {
    r.xMin + i as real * ((r.xMax - r.xMin) / n as real)
  }

  /** Row j of the dense grid of n steps over r. */
  function GridY(r: Rect, n: nat, j: int): real
    requires n > 0
  {
    r.yMin + j as real * ((r.yMax - r.yMin) / n as real)
  }

  /** The value at grid point (i, j). */
  function Sample(vf: (real, real) -> Num, r: Rect, n: nat, i: int, j: int): Num
    requires n > 0
  {
    vf(GridX(r, n, i), GridY(r, n, j))
  }

  /** The fill of a dense cell with corner (x0, y0), steps dx, dy and corner values v00,
      v10 (bottom) and v01, v11 (top): filled when its centre is zero (zero filled), or when
      all four corners have the filled sign; a dot when only some have it. */
  function CornerDraws(vf: (real, real) -> Num, fm: FillMode, v00: Num, v10: Num, v01: Num, v11: Num,
                       x0: real, y0: real, dx: real, dy: real): seq<Draw>
  {
    if !fm.HasFill() then []
    else if fm.zero && vf(x0 + dx / 2.0, y0 + dy / 2.0).IsZero() then [Square(x0, y0, 1, 1.0)]
    else if fm.negative then
      if v00.IsNeg() && v01.IsNeg() && v10.IsNeg() && v11.IsNeg() then [Square(x0, y0, 1, 1.0)]
      else if v00.IsNeg() || v01.IsNeg() || v10.IsNeg() || v11.IsNeg() then CalcDot(vf, fm, Rect(x0, x0 + dx, y0, y0 + dy))
      else []
    else if fm.positive then
      if v00.IsPos() && v01.IsPos() && v10.IsPos() && v11.IsPos() then [Square(x0, y0, 1, 1.0)]
      else if v00.IsPos() || v01.IsPos() || v10.IsPos() || v11.IsPos() then CalcDot(vf, fm, Rect(x0, x0 + dx, y0, y0 + dy))
      else []
    else []
  }

  /** The fill of dense cell (i, j). */
  function CellDraws(vf: (real, real) -> Num, fm: FillMode, r: Rect, n: nat, i: nat, j: nat): seq<Draw>
    requires n > 0
  {
    CornerDraws(vf, fm, Sample(vf, r, n, i, j), Sample(vf, r, n, i + 1, j), Sample(vf, r, n, i, j + 1), Sample(vf, r, n, i + 1, j + 1),
                GridX(r, n, i), GridY(r, n, j), (r.xMax - r.xMin) / n as real, (r.yMax - r.yMin) / n as real)
  }

  /** `a * b <= 0 && a !== b`: the value reaches zero along an edge (false when either end is NaN). */
  predicate Crosses(a: Num, b: Num)
  {
    a.Fin? && b.Fin? && a.v * b.v <= 0.0 && a.v != b.v
  }

  /** `x0 - d * a / (b - a)`: where the line through the two edge values meets zero,
      on an edge of length d starting at x0. */
  function Cut(x0: real, d: real, a: Num, b: Num): real
    requires Crosses(a, b)
  {
    x0 - d * a.v / (b.v - a.v)
  }

  /** The crossing point lies on its edge. */
  lemma CutOnEdge(x0: real, d: real, a: Num, b: Num)
    requires Crosses(a, b) && d >= 0.0
    ensures x0 <= Cut(x0, d, a, b) <= x0 + d
  {
    var den := a.v - b.v;
    var t := a.v / den;
    if den > 0.0 {
      assert 0.0 <= a.v <= den;
      assert 0.0 <= t <= 1.0;
    } else {
      assert den <= a.v <= 0.0;
      assert 0.0 <= t <= 1.0;
    }
    assert d * a.v / (b.v - a.v) == -(d * t);
    assert 0.0 <= d * t <= d;
    assert Cut(x0, d, a, b) == x0 + d * t;
  }

  /** The crossing points of a cell with corner (x0, y0), steps dx, dy and corner values
      v00, v10 (bottom) and v01, v11 (top), as x, y pairs: bottom, top, left and right edge. */
  function EdgePoints(v00: Num, v10: Num, v01: Num, v11: Num, x0: real, y0: real, dx: real, dy: real): seq<real>
  {
    (if Crosses(v00, v10) then [Cut(x0, dx, v00, v10), y0] else [])
    + (if Crosses(v01, v11) then [Cut(x0, dx, v01, v11), y0 + dy] else [])
    + (if Crosses(v00, v01) then [x0, Cut(y0, dy, v00, v01)] else [])
    + (if Crosses(v10, v11) then [x0 + dx, Cut(y0, dy, v10, v11)] else [])
  }

  /** The crossing points of dense cell (i, j). */
  function CellPoints(vf: (real, real) -> Num, r: Rect, n: nat, i: nat, j: nat): seq<real>
    requires n > 0
  {
    EdgePoints(Sample(vf, r, n, i, j), Sample(vf, r, n, i + 1, j), Sample(vf, r, n, i, j + 1), Sample(vf, r, n, i + 1, j + 1),
               GridX(r, n, i), GridY(r, n, j), (r.xMax - r.xMin) / n as real, (r.yMax - r.yMin) / n as real)
  }

  /** The fills of cells 0 .. k-1 of row j. */
  function RowDraws(vf: (real, real) -> Num, fm: FillMode, r: Rect, n: nat, j: nat, k: nat): seq<Draw>
    requires n > 0
  {
    if k == 0 then [] else RowDraws(vf, fm, r, n, j, k - 1) + CellDraws(vf, fm, r, n, k - 1, j)
  }

  /** The crossings of cells 0 .. k-1 of row j. */
  function RowPoints(vf: (real, real) -> Num, r: Rect, n: nat, j: nat, k: nat): seq<real>
    requires n > 0
  {
    if k == 0 then [] else RowPoints(vf, r, n, j, k - 1) + CellPoints(vf, r, n, k - 1, j)
  }

  /** The fills of rows 0 .. m-1 of the dense grid. */
  function GridDraws(vf: (real, real) -> Num, fm: FillMode, r: Rect, n: nat, m: nat): seq<Draw>
    requires n > 0
  {
    if m == 0 then [] else GridDraws(vf, fm, r, n, m - 1) + RowDraws(vf, fm, r, n, m - 1, n)
  }

  /** The crossings of rows 0 .. m-1 of the dense grid. */
  function GridPoints(vf: (real, real) -> Num, r: Rect, n: nat, m: nat): seq<real>
    requires n > 0
  {
    if m == 0 then [] else GridPoints(vf, r, n, m - 1) + RowPoints(vf, r, n, m - 1, n)
  }

  /** The fill of one cell of calcFull, from its four corner values. */
  method CellFill(vf: (real, real) -> Num, fm: FillMode, v00: Num, v10: Num, v01: Num, v11: Num,
                  x0: real, y1: real, dx: real, dy: real) returns (cell: seq<Draw>)
    ensures cell == CornerDraws(vf, fm, v00, v10, v01, v11, x0, y1 - dy, dx, dy)
  {
    var y0 := y1 - dy;
    var x1 := x0 + dx;
    assert y1 == y0 + dy;
    cell := [];
    if fm.HasFill() {
      if fm.zero && vf(x0 + dx / 2.0, y0 + dy / 2.0).IsZero() {
        cell := [Square(x0, y0, 1, 1.0)];
      } else if fm.negative {
        if v00.IsNeg() && v01.IsNeg() && v10.IsNeg() && v11.IsNeg() {
          cell := [Square(x0, y0, 1, 1.0)];
        } else if v00.IsNeg() || v01.IsNeg() || v10.IsNeg() || v11.IsNeg() {
          cell := CalcDot(vf, fm, Rect(x0, x1, y0, y1));
        }
      } else if fm.positive {
        if v00.IsPos() && v01.IsPos() && v10.IsPos() && v11.IsPos() {
          cell := [Square(x0, y0, 1, 1.0)];
        } else if v00.IsPos() || v01.IsPos() || v10.IsPos() || v11.IsPos() {
          cell := CalcDot(vf, fm, Rect(x0, x1, y0, y1));
        }
      }
    }
  }

  /** The crossing points of one cell of calcFull, from its four corner values. */
  method CellCrossings(v00: Num, v10: Num, v01: Num, v11: Num, x0: real, y1: real, dx: real, dy: real) returns (found: seq<real>)
    ensures found == EdgePoints(v00, v10, v01, v11, x0, y1 - dy, dx, dy)
  {
    var y0 := y1 - dy;
    var x1 := x0 + dx;
    assert y1 == y0 + dy;
    ghost var e1 := if Crosses(v00, v10) then [Cut(x0, dx, v00, v10), y0] else [];
    ghost var e2 := if Crosses(v01, v11) then [Cut(x0, dx, v01, v11), y1] else [];
    ghost var e3 := if Crosses(v00, v01) then [x0, Cut(y0, dy, v00, v01)] else [];
    ghost var e4 := if Crosses(v10, v11) then [x1, Cut(y0, dy, v10, v11)] else [];
    found := [];
    if Crosses(v00, v10) { found := found + [Cut(x0, dx, v00, v10), y0]; }
    assert found == e1;
    if Crosses(v01, v11) { found := found + [Cut(x0, dx, v01, v11), y1]; }
    assert found == e1 + e2;
    if Crosses(v00, v01) { found := found + [x0, Cut(y0, dy, v00, v01)]; }
    assert found == e1 + e2 + e3;
    if Crosses(v10, v11) { found := found + [x1, Cut(y0, dy, v10, v11)]; }
    assert found == e1 + e2 + e3 + e4;
  }

  /** One cell of calcFull: its fill and its crossing points. */
  method CalcCell(vf: (real, real) -> Num, fm: FillMode, r: Rect, n: nat, ix: nat, j: nat,
                  v00: Num, v10: Num, v01: Num, v11: Num, y1: real) returns (cell: seq<Draw>, found: seq<real>)
    requires n > 0
    requires v00 == Sample(vf, r, n, ix, j) && v10 == Sample(vf, r, n, ix + 1, j)
    requires v01 == Sample(vf, r, n, ix, j + 1) && v11 == Sample(vf, r, n, ix + 1, j + 1)
    requires y1 == r.yMin + (j + 1) as real * ((r.yMax - r.yMin) / n as real)
    ensures cell == CellDraws(vf, fm, r, n, ix, j)
    ensures found == CellPoints(vf, r, n, ix, j)
  {
    var dx := (r.xMax - r.xMin) / n as real;
    var dy := (r.yMax - r.yMin) / n as real;
    var x0 := r.xMin + ix as real * dx;
    assert y1 - dy == GridY(r, n, j) && x0 == GridX(r, n, ix);
    cell := CellFill(vf, fm, v00, v10, v01, v11, x0, y1, dx, dy);
    found := CellCrossings(v00, v10, v01, v11, x0, y1, dx, dy);
  }

  /** Fills a row buffer with the samples of grid row j. */
  method SampleRow(vf: (real, real) -> Num, r: Rect, n: nat, j: nat, buf: array<Num>)
    requires n > 0 && buf.Length == n + 1
    modifies buf
    ensures forall k :: 0 <= k <= n ==> buf[k] == Sample(vf, r, n, k, j)
  {
    var dx := (r.xMax - r.xMin) / n as real;
    var y := r.yMin + j as real * ((r.yMax - r.yMin) / n as real);
    for ix := 0 to n + 1
      invariant forall k :: 0 <= k < ix ==> buf[k] == Sample(vf, r, n, k, j)
    {
      assert GridY(r, n, j) == y && GridX(r, n, ix) == r.xMin + ix as real * dx;
      buf[ix] := vf(r.xMin + ix as real * dx, y);
      assert buf[ix] == Sample(vf, r, n, ix, j);
    }
  }

  /** The cells of one grid row, from the buffers of its lower and upper edge. */
  method RowCells(vf: (real, real) -> Num, fm: FillMode, r: Rect, n: nat, j: nat, values: array<Num>, nextValues: array<Num>)
    returns (draws: seq<Draw>, points: seq<real>)
    requires n > 0 && values.Length == n + 1 && nextValues.Length == n + 1
    requires forall k :: 0 <= k <= n ==> values[k] == Sample(vf, r, n, k, j)
    requires forall k :: 0 <= k <= n ==> nextValues[k] == Sample(vf, r, n, k, j + 1)
    ensures draws == RowDraws(vf, fm, r, n, j, n)
    ensures points == RowPoints(vf, r, n, j, n)
  {
    var y1 := r.yMin + (j + 1) as real * ((r.yMax - r.yMin) / n as real);
    draws, points := [], [];
    for ix := 0 to n
      invariant draws == RowDraws(vf, fm, r, n, j, ix)
      invariant points == RowPoints(vf, r, n, j, ix)
    {
      var cell, found := CalcCell(vf, fm, r, n, ix, j, values[ix], values[ix + 1], nextValues[ix], nextValues[ix + 1], y1);
      draws := draws + cell;
      points := points + found;
    }
  }

  /** calcFull: dense sampling of an n-pixel box on an (n+1) x (n+1) grid, kept
      one row at a time in two buffers that swap after each row. */
  method CalcFull(vf: (real, real) -> Num, fm: FillMode, r: Rect, n: nat) returns (draws: seq<Draw>, points: seq<real>)
    requires n > 0
    ensures draws == GridDraws(vf, fm, r, n, n)
    ensures points == GridPoints(vf, r, n, n)
  {
    var values := new Num[n + 1];
    var nextValues := new Num[n + 1];
    SampleRow(vf, r, n, 0, values);
    draws, points := [], [];
    for j := 0 to n
      invariant fresh(values) && fresh(nextValues)
      invariant values != nextValues && values.Length == n + 1 && nextValues.Length == n + 1
      invariant forall k :: 0 <= k <= n ==> values[k] == Sample(vf, r, n, k, j)
      invariant draws == GridDraws(vf, fm, r, n, j)
      invariant points == GridPoints(vf, r, n, j)
    {
      var rowDraws, rowPoints := GridRow(vf, fm, r, n, j, values, nextValues);
      draws := draws + rowDraws;
      points := points + rowPoints;
      values, nextValues := nextValues, values;
    }
  }

  /** One row of calcFull: the upper edge of row j is sampled into the second
      buffer, then the cells of the row are computed from both buffers. */
  method GridRow(vf: (real, real) -> Num, fm: FillMode, r: Rect, n: nat, j: nat, values: array<Num>, nextValues: array<Num>)
    returns (rowDraws: seq<Draw>, rowPoints: seq<real>)
    requires n > 0 && values != nextValues && values.Length == n + 1 && nextValues.Length == n + 1
    requires forall k :: 0 <= k <= n ==> values[k] == Sample(vf, r, n, k, j)
    modifies nextValues
    ensures forall k :: 0 <= k <= n ==> nextValues[k] == Sample(vf, r, n, k, j + 1)
    ensures rowDraws == RowDraws(vf, fm, r, n, j, n) && rowPoints == RowPoints(vf, r, n, j, n)
  {
    SampleRow(vf, r, n, j + 1, nextValues);
    rowDraws, rowPoints := RowCells(vf, fm, r, n, j, values, nextValues);
  }

  // ------------------------------------------------------------- the worklist

  /** What a queued box of side s pixels adds to the drawing. */
  function BoxDraws(f: Formula2D, r: Rect, s: nat): seq<Draw>
    requires s > 0
  {
    match StepOf(f.fillMode, f.rangeFunc(r), s)
    case Fill => [Square(r.xMin, r.yMin, s, 1.0)]
    case Skip => []
    case Dense => GridDraws(f.valueFunc, f.fillMode, r, s, s)
    case Split => []
    case Dot => CalcDot(f.valueFunc, f.fillMode, r)
  }

  /** The crossing points a queued box adds: only a densely sampled box has any. */
  function BoxPoints(f: Formula2D, r: Rect, s: nat): seq<real>
    requires s > 0
  {
    if StepOf(f.fillMode, f.rangeFunc(r), s) == Dense then GridPoints(f.valueFunc, r, s, s) else []
  }

  /** The boxes a queued box adds to the next level: its quadrants when it is split. */
  function BoxNext(f: Formula2D, r: Rect, s: nat): seq<Rect>
  {
    if StepOf(f.fillMode, f.rangeFunc(r), s) == Split then Quadrants(r) else []
  }

  /** OTHER is a code of at least 0 whose bit no fill mask holds: a box on
      which the range function reports it is neither drawn nor split, for any
      fill mode and size. */
  lemma OtherSkipped(f: Formula2D, r: Rect, s: nat)
    requires s > 0 && f.rangeFunc(r) == Other
    ensures MaskHas(FillModeToMask(f.fillMode), Other.Bit()) == false
    ensures BoxDraws(f, r, s) == [] && BoxPoints(f, r, s) == [] && BoxNext(f, r, s) == []
  {
    MaskSelects(f.fillMode, Other);
  }

  /** The drawing of one level of the worklist, box by box. */
  function LevelDraws(f: Formula2D, rs: seq<Rect>, s: nat): seq<Draw>
    requires s > 0
  {
    if rs == [] then [] else LevelDraws(f, rs[..|rs| - 1], s) + BoxDraws(f, rs[|rs| - 1], s)
  }

  /** The crossing points of one level. */
  function LevelPoints(f: Formula2D, rs: seq<Rect>, s: nat): seq<real>
    requires s > 0
  {
    if rs == [] then [] else LevelPoints(f, rs[..|rs| - 1], s) + BoxPoints(f, rs[|rs| - 1], s)
  }

  /** The boxes queued for the level after this one. */
  function LevelNext(f: Formula2D, rs: seq<Rect>, s: nat): seq<Rect>
  {
    if rs == [] then [] else LevelNext(f, rs[..|rs| - 1], s) + BoxNext(f, rs[|rs| - 1], s)
  }

  /** The drawing of all levels from side s down: each level halves the side, and
      the worklist stops once the side is below one pixel. */
  function LevelsDraws(f: Formula2D, rs: seq<Rect>, s: nat): seq<Draw>
    decreases s
  {
    if s < 1 then [] else LevelDraws(f, rs, s) + LevelsDraws(f, LevelNext(f, rs, s), s / 2)
  }

  /** The crossing points of all levels from side s down. */
  function LevelsPoints(f: Formula2D, rs: seq<Rect>, s: nat): seq<real>
    decreases s
  {
    if s < 1 then [] else LevelPoints(f, rs, s) + LevelsPoints(f, LevelNext(f, rs, s), s / 2)
  }

  /** The markers of the first k (x, y) pairs of a point list. */
  function Markers(ps: seq<real>, k: nat): seq<Draw>
    requires 2 * k <= |ps|
  {
    if k == 0 then [] else Markers(ps, k - 1) + [Marker(ps[2 * k - 2], ps[2 * k - 1])]
  }

  /** One queued box of side s: filled, skipped, sampled densely, split into
      quadrants for the next level, or drawn as a one-pixel dot. */
  method RenderBox(f: Formula2D, fillMask: nat, r: Rect, s: nat) returns (draws: seq<Draw>, points: seq<real>, next: seq<Rect>)
    requires s > 0 && fillMask == FillModeToMask(f.fillMode)
    ensures draws == BoxDraws(f, r, s) && points == BoxPoints(f, r, s) && next == BoxNext(f, r, s)
  {
    draws, points, next := [], [], [];
    var result := f.rangeFunc(r);
    if result.Definite() {
      MaskSelects(f.fillMode, result);
      if MaskHas(fillMask, result.Bit()) {
        draws := [Square(r.xMin, r.yMin, s, 1.0)];
      }
    } else if result == Both && s <= 8 {
      draws, points := CalcFull(f.valueFunc, f.fillMode, r, s);
    } else if s > 1 {
      var xc := (r.xMin + r.xMax) / 2.0;
      var yc := (r.yMin + r.yMax) / 2.0;
      next := [Rect(r.xMin, xc, r.yMin, yc), Rect(xc, r.xMax, r.yMin, yc),
               Rect(r.xMin, xc, yc, r.yMax), Rect(xc, r.xMax, yc, r.yMax)];
    } else {
      draws := CalcDot(f.valueFunc, f.fillMode, r);
    }
  }

  /** One level of the worklist: every queued box in turn. */
  method RenderLevel(f: Formula2D, fillMask: nat, ranges: seq<Rect>, s: nat) returns (draws: seq<Draw>, points: seq<real>, next: seq<Rect>)
    requires s > 0 && fillMask == FillModeToMask(f.fillMode)
    ensures draws == LevelDraws(f, ranges, s) && points == LevelPoints(f, ranges, s) && next == LevelNext(f, ranges, s)
  {
    draws, points, next := [], [], [];
    var i := 0;
    while i < |ranges|
      invariant 0 <= i <= |ranges|
      invariant draws == LevelDraws(f, ranges[..i], s)
      invariant points == LevelPoints(f, ranges[..i], s)
      invariant next == LevelNext(f, ranges[..i], s)
    {
      assert ranges[..i + 1][..i] == ranges[..i];
      var d, p, n := RenderBox(f, fillMask, ranges[i], s);
      draws, points, next := draws + d, points + p, next + n;
      i := i + 1;
    }
    assert ranges[..i] == ranges;
  }

  /** The plot markers: one per (x, y) pair of the crossing points. */
  method PlotMarkers(ps: seq<real>) returns (markers: seq<Draw>)
    requires |ps| % 2 == 0
    ensures markers == Markers(ps, |ps| / 2)
  {
    markers := [];
    var i := 0;
    while i < |ps|
      invariant 0 <= i <= |ps| && i % 2 == 0
      invariant markers == Markers(ps, i / 2)
    {
      markers := markers + [Marker(ps[i], ps[i + 1])];
      i := i + 2;
    }
  }

  /** render2D: the box worklist, level by level from the whole panel with the
      side halved each time, then one marker per crossing point. The side is a
      power of two (both views pass a panel size of 64), so halving it as a
      natural number is the source's exact halving, down to 1. */
  method Render2D(f: Formula2D, size: nat, range: Rect) returns (log: seq<Draw>)
    requires IsPow2(size)
    ensures |LevelsPoints(f, [range], size)| % 2 == 0
    ensures log == LevelsDraws(f, [range], size) + Markers(LevelsPoints(f, [range], size), |LevelsPoints(f, [range], size)| / 2)
  {
    var plotPoints;
    log, plotPoints := RenderLevels(f, size, range);
    LevelsPointsEven(f, [range], size);
    var markers := PlotMarkers(plotPoints);
    log := log + markers;
  }

  /** The level loop of render2D: the drawing and the crossing points of every level. */
  method RenderLevels(f: Formula2D, size: nat, range: Rect) returns (log: seq<Draw>, plotPoints: seq<real>)
    ensures log == LevelsDraws(f, [range], size) && plotPoints == LevelsPoints(f, [range], size)
  {
    var fillMask := FillModeToMask(f.fillMode);
    plotPoints := [];
    log := [];
    var ranges := [range];
    var currentSize := size;
    while currentSize >= 1
      invariant log + LevelsDraws(f, ranges, currentSize) == LevelsDraws(f, [range], size)
      invariant plotPoints + LevelsPoints(f, ranges, currentSize) == LevelsPoints(f, [range], size)
      decreases currentSize
    {
      var draws, points, next := RenderLevel(f, fillMask, ranges, currentSize);
      assert LevelsDraws(f, ranges, currentSize) == draws + LevelsDraws(f, next, currentSize / 2);
      assert LevelsPoints(f, ranges, currentSize) == points + LevelsPoints(f, next, currentSize / 2);
      AppendAssoc(log, draws, LevelsDraws(f, next, currentSize / 2));
      AppendAssoc(plotPoints, points, LevelsPoints(f, next, currentSize / 2));
      log, plotPoints := log + draws, plotPoints + points;
      ranges := next;
      currentSize := currentSize / 2;
    }
    assert log == LevelsDraws(f, [range], size) && plotPoints == LevelsPoints(f, [range], size);
  }

  // ------------------------------------------------------- what it draws where

  /** The crossing points come in (x, y) pairs. */
  lemma {:induction false} LevelsPointsEven(f: Formula2D, rs: seq<Rect>, s: nat)
    ensures |LevelsPoints(f, rs, s)| % 2 == 0
    decreases s
  {
    if s >= 1 {
      LevelPointsEven(f, rs, s);
      LevelsPointsEven(f, LevelNext(f, rs, s), s / 2);
      EvenConcat(LevelPoints(f, rs, s), LevelsPoints(f, LevelNext(f, rs, s), s / 2));
    }
  }

  lemma {:induction false} LevelPointsEven(f: Formula2D, rs: seq<Rect>, s: nat)
    requires s > 0
    ensures |LevelPoints(f, rs, s)| % 2 == 0
  {
    if rs != [] {
      var init, last := rs[..|rs| - 1], rs[|rs| - 1];
      LevelPointsEven(f, init, s);
      if StepOf(f.fillMode, f.rangeFunc(last), s) == Dense {
        GridPointsEven(f.valueFunc, last, s, s);
      }
      EvenConcat(LevelPoints(f, init, s), BoxPoints(f, last, s));
    }
  }

  lemma {:induction false} GridPointsEven(vf: (real, real) -> Num, r: Rect, n: nat, m: nat)
    requires n > 0
    ensures |GridPoints(vf, r, n, m)| % 2 == 0
  {
    if m > 0 {
      GridPointsEven(vf, r, n, m - 1);
      RowPointsEven(vf, r, n, m - 1, n);
      EvenConcat(GridPoints(vf, r, n, m - 1), RowPoints(vf, r, n, m - 1, n));
    }
  }

  lemma {:induction false} RowPointsEven(vf: (real, real) -> Num, r: Rect, n: nat, j: nat, k: nat)
    requires n > 0
    ensures |RowPoints(vf, r, n, j, k)| % 2 == 0
  {
    if k > 0 {
      RowPointsEven(vf, r, n, j, k - 1);
      EdgePointsEven(Sample(vf, r, n, k - 1, j), Sample(vf, r, n, k, j), Sample(vf, r, n, k - 1, j + 1), Sample(vf, r, n, k, j + 1),
                     GridX(r, n, k - 1), GridY(r, n, j), (r.xMax - r.xMin) / n as real, (r.yMax - r.yMin) / n as real);
      EvenConcat(RowPoints(vf, r, n, j, k - 1), CellPoints(vf, r, n, k - 1, j));
    }
  }

  /** Each edge a cell's contour crosses adds one (x, y) pair. */
  lemma EdgePointsEven(v00: Num, v10: Num, v01: Num, v11: Num, x0: real, y0: real, dx: real, dy: real)
    ensures |EdgePoints(v00, v10, v01, v11, x0, y0, dx, dy)| % 2 == 0
  {
    var p1 := if Crosses(v00, v10) then [Cut(x0, dx, v00, v10), y0] else [];
    var p2 := if Crosses(v01, v11) then [Cut(x0, dx, v01, v11), y0 + dy] else [];
    var p3 := if Crosses(v00, v01) then [x0, Cut(y0, dy, v00, v01)] else [];
    var p4 := if Crosses(v10, v11) then [x0 + dx, Cut(y0, dy, v10, v11)] else [];
    EvenConcat(p1, p2);
    EvenConcat(p1 + p2, p3);
    EvenConcat(p1 + p2 + p3, p4);
  }

  lemma EvenConcat(a: seq<real>, b: seq<real>)
    requires |a| % 2 == 0 && |b| % 2 == 0
    ensures |a + b| % 2 == 0
  {
  }

  /** Every command is drawn at a point of r. */
  predicate DrawsWithin(ds: seq<Draw>, r: Rect)
  {
    forall k :: 0 <= k < |ds| ==> r.Contains(ds[k].x, ds[k].y)
  }

  /** The list is made of (x, y) pairs, each a point of r. */
  predicate PairsWithin(ps: seq<real>, r: Rect)
  {
    |ps| % 2 == 0 && forall k :: 0 <= k < |ps| && k % 2 == 0 ==> r.Contains(ps[k], ps[k + 1])
  }

  /** Every box is well formed and inside r. */
  predicate BoxesWithin(rs: seq<Rect>, r: Rect)
  {
    forall k :: 0 <= k < |rs| ==> rs[k].WellFormed() && rs[k].Inside(r)
  }

  lemma DrawsWithinAppend(a: seq<Draw>, b: seq<Draw>, r: Rect)
    requires DrawsWithin(a, r) && DrawsWithin(b, r)
    ensures DrawsWithin(a + b, r)
  {
    forall k | 0 <= k < |a + b|
      ensures r.Contains((a + b)[k].x, (a + b)[k].y)
    {
      if k >= |a| {
        assert (a + b)[k] == b[k - |a|];
      }
    }
  }

  lemma PairsWithinAppend(a: seq<real>, b: seq<real>, r: Rect)
    requires PairsWithin(a, r) && PairsWithin(b, r)
    ensures PairsWithin(a + b, r)
  {
    forall k | 0 <= k < |a + b| && k % 2 == 0
      ensures r.Contains((a + b)[k], (a + b)[k + 1])
    {
      if k >= |a| {
        assert (a + b)[k] == b[k - |a|] && (a + b)[k + 1] == b[k - |a| + 1];
      }
    }
  }

  /** The dense grid's lines lie within the box: column i of n is between its edges for 0 <= i <= n. */
  lemma GridInside(r: Rect, n: nat, i: nat, j: nat)
    requires r.WellFormed() && n > 0 && i <= n && j <= n
    ensures r.xMin <= GridX(r, n, i) <= r.xMax && r.yMin <= GridY(r, n, j) <= r.yMax
  {
    var dx := (r.xMax - r.xMin) / n as real;
    var dy := (r.yMax - r.yMin) / n as real;
    assert n as real * dx == r.xMax - r.xMin && n as real * dy == r.yMax - r.yMin;
    ScaleBetween(i as real, n as real, dx);
    ScaleBetween(j as real, n as real, dy);
  }

  lemma ScaleBetween(a: real, b: real, d: real)
    requires 0.0 <= a <= b && d >= 0.0
    ensures 0.0 <= a * d <= b * d
  {
    assert b * d - a * d == (b - a) * d;
  }

  /** Dense cell (i, j) is a well-formed box inside r. */
  lemma CellInside(r: Rect, n: nat, i: nat, j: nat)
    requires r.WellFormed() && n > 0 && i < n && j < n
    ensures var c := Rect(GridX(r, n, i), GridX(r, n, i) + (r.xMax - r.xMin) / n as real,
                          GridY(r, n, j), GridY(r, n, j) + (r.yMax - r.yMin) / n as real);
      c.WellFormed() && c.Inside(r)
  {
    GridInside(r, n, i, j);
    GridInside(r, n, i + 1, j + 1);
    assert GridX(r, n, i + 1) == GridX(r, n, i) + (r.xMax - r.xMin) / n as real;
    assert GridY(r, n, j + 1) == GridY(r, n, j) + (r.yMax - r.yMin) / n as real;
  }

  lemma PairWithin(x: real, y: real, c: Rect)
    requires c.Contains(x, y)
    ensures PairsWithin([x, y], c)
  {
  }

  /** A cell's crossing points lie on its edges. */
  lemma EdgePointsWithin(v00: Num, v10: Num, v01: Num, v11: Num, x0: real, y0: real, dx: real, dy: real)
    requires dx >= 0.0 && dy >= 0.0
    ensures PairsWithin(EdgePoints(v00, v10, v01, v11, x0, y0, dx, dy), Rect(x0, x0 + dx, y0, y0 + dy))
  {
    var c := Rect(x0, x0 + dx, y0, y0 + dy);
    var b := if Crosses(v00, v10) then [Cut(x0, dx, v00, v10), y0] else [];
    var t := if Crosses(v01, v11) then [Cut(x0, dx, v01, v11), y0 + dy] else [];
    var l := if Crosses(v00, v01) then [x0, Cut(y0, dy, v00, v01)] else [];
    var g := if Crosses(v10, v11) then [x0 + dx, Cut(y0, dy, v10, v11)] else [];
    assert PairsWithin(b, c) by { if Crosses(v00, v10) { CutOnEdge(x0, dx, v00, v10); PairWithin(b[0], b[1], c); } }
    assert PairsWithin(t, c) by { if Crosses(v01, v11) { CutOnEdge(x0, dx, v01, v11); PairWithin(t[0], t[1], c); } }
    assert PairsWithin(l, c) by { if Crosses(v00, v01) { CutOnEdge(y0, dy, v00, v01); PairWithin(l[0], l[1], c); } }
    assert PairsWithin(g, c) by { if Crosses(v10, v11) { CutOnEdge(y0, dy, v10, v11); PairWithin(g[0], g[1], c); } }
    assert EdgePoints(v00, v10, v01, v11, x0, y0, dx, dy) == b + t + l + g;
    PairsWithinAppend(b, t, c);
    PairsWithinAppend(b + t, l, c);
    PairsWithinAppend(b + t + l, g, c);
  }

  /** A cell's fill is drawn at its corner. */
  lemma CornerDrawsWithin(vf: (real, real) -> Num, fm: FillMode, v00: Num, v10: Num, v01: Num, v11: Num,
                          x0: real, y0: real, dx: real, dy: real)
    requires dx >= 0.0 && dy >= 0.0
    ensures DrawsWithin(CornerDraws(vf, fm, v00, v10, v01, v11, x0, y0, dx, dy), Rect(x0, x0 + dx, y0, y0 + dy))
  {
  }

  lemma PairsWithinWider(ps: seq<real>, c: Rect, r: Rect)
    requires PairsWithin(ps, c) && c.Inside(r)
    ensures PairsWithin(ps, r)
  {
  }

  lemma DrawsWithinWider(ds: seq<Draw>, c: Rect, r: Rect)
    requires DrawsWithin(ds, c) && c.Inside(r)
    ensures DrawsWithin(ds, r)
  {
  }

  /** Everything the first k cells of row j draw lies in r. */
  lemma {:induction false} RowWithin(vf: (real, real) -> Num, fm: FillMode, r: Rect, n: nat, j: nat, k: nat)
    requires r.WellFormed() && n > 0 && j < n && k <= n
    ensures DrawsWithin(RowDraws(vf, fm, r, n, j, k), r) && PairsWithin(RowPoints(vf, r, n, j, k), r)
  {
    if k > 0 {
      RowWithin(vf, fm, r, n, j, k - 1);
      CellWithin(vf, fm, r, n, k - 1, j);
      DrawsWithinAppend(RowDraws(vf, fm, r, n, j, k - 1), CellDraws(vf, fm, r, n, k - 1, j), r);
      PairsWithinAppend(RowPoints(vf, r, n, j, k - 1), CellPoints(vf, r, n, k - 1, j), r);
    }
  }

  /** What dense cell (i, j) draws lies in r. */
  lemma CellWithin(vf: (real, real) -> Num, fm: FillMode, r: Rect, n: nat, i: nat, j: nat)
    requires r.WellFormed() && n > 0 && i < n && j < n
    ensures DrawsWithin(CellDraws(vf, fm, r, n, i, j), r) && PairsWithin(CellPoints(vf, r, n, i, j), r)
  {
    var dx := (r.xMax - r.xMin) / n as real;
    var dy := (r.yMax - r.yMin) / n as real;
    var c := Rect(GridX(r, n, i), GridX(r, n, i) + dx, GridY(r, n, j), GridY(r, n, j) + dy);
    CellInside(r, n, i, j);
    CornerDrawsWithin(vf, fm, Sample(vf, r, n, i, j), Sample(vf, r, n, i + 1, j), Sample(vf, r, n, i, j + 1), Sample(vf, r, n, i + 1, j + 1),
                      GridX(r, n, i), GridY(r, n, j), dx, dy);
    EdgePointsWithin(Sample(vf, r, n, i, j), Sample(vf, r, n, i + 1, j), Sample(vf, r, n, i, j + 1), Sample(vf, r, n, i + 1, j + 1),
                     GridX(r, n, i), GridY(r, n, j), dx, dy);
    DrawsWithinWider(CellDraws(vf, fm, r, n, i, j), c, r);
    PairsWithinWider(CellPoints(vf, r, n, i, j), c, r);
  }

  /** Everything the first m rows of the dense grid draw lies in r. */
  lemma {:induction false} GridWithin(vf: (real, real) -> Num, fm: FillMode, r: Rect, n: nat, m: nat)
    requires r.WellFormed() && n > 0 && m <= n
    ensures DrawsWithin(GridDraws(vf, fm, r, n, m), r) && PairsWithin(GridPoints(vf, r, n, m), r)
  {
    if m > 0 {
      var ds, row := GridDraws(vf, fm, r, n, m - 1), RowDraws(vf, fm, r, n, m - 1, n);
      var ps, rowPs := GridPoints(vf, r, n, m - 1), RowPoints(vf, r, n, m - 1, n);
      assert GridDraws(vf, fm, r, n, m) == ds + row && GridPoints(vf, r, n, m) == ps + rowPs;
      GridWithin(vf, fm, r, n, m - 1);
      RowWithin(vf, fm, r, n, m - 1, n);
      DrawsWithinAppend(ds, row, r);
      PairsWithinAppend(ps, rowPs, r);
    }
  }

  /** A box draws within itself, and the boxes it queues are well-formed parts of it. */
  lemma BoxWithin(f: Formula2D, q: Rect, s: nat)
    requires q.WellFormed() && s > 0
    ensures DrawsWithin(BoxDraws(f, q, s), q) && PairsWithin(BoxPoints(f, q, s), q) && BoxesWithin(BoxNext(f, q, s), q)
  {
    if StepOf(f.fillMode, f.rangeFunc(q), s) == Dense {
      GridWithin(f.valueFunc, f.fillMode, q, s, s);
    }
  }

  /** One level draws within the panel and queues only well-formed boxes inside it. */
  lemma {:induction false} LevelWithin(f: Formula2D, rs: seq<Rect>, s: nat, range: Rect)
    requires BoxesWithin(rs, range) && s > 0
    ensures DrawsWithin(LevelDraws(f, rs, s), range) && PairsWithin(LevelPoints(f, rs, s), range)
    ensures BoxesWithin(LevelNext(f, rs, s), range)
  {
    if rs != [] {
      var front, q := rs[..|rs| - 1], rs[|rs| - 1];
      assert BoxesWithin(front, range) by {
        forall k | 0 <= k < |front| ensures front[k].WellFormed() && front[k].Inside(range) {
          assert front[k] == rs[k];
        }
      }
      LevelWithin(f, front, s, range);
      BoxWithin(f, q, s);
      DrawsWithinWider(BoxDraws(f, q, s), q, range);
      PairsWithinWider(BoxPoints(f, q, s), q, range);
      DrawsWithinAppend(LevelDraws(f, front, s), BoxDraws(f, q, s), range);
      PairsWithinAppend(LevelPoints(f, front, s), BoxPoints(f, q, s), range);
      var a: seq<Rect>, b: seq<Rect> := LevelNext(f, front, s), BoxNext(f, q, s);
      forall k | 0 <= k < |a + b| ensures (a + b)[k].WellFormed() && (a + b)[k].Inside(range) {
        if k >= |a| {
          assert (a + b)[k] == b[k - |a|];
        }
      }
    }
  }

  /** All levels from side s down draw within the panel. */
  lemma {:induction false} LevelsWithin(f: Formula2D, rs: seq<Rect>, s: nat, range: Rect)
    requires BoxesWithin(rs, range)
    ensures DrawsWithin(LevelsDraws(f, rs, s), range) && PairsWithin(LevelsPoints(f, rs, s), range)
    decreases s
  {
    if s >= 1 {
      LevelWithin(f, rs, s, range);
      LevelsWithin(f, LevelNext(f, rs, s), s / 2, range);
      DrawsWithinAppend(LevelDraws(f, rs, s), LevelsDraws(f, LevelNext(f, rs, s), s / 2), range);
      PairsWithinAppend(LevelPoints(f, rs, s), LevelsPoints(f, LevelNext(f, rs, s), s / 2), range);
    }
  }

  /** The markers of the first k pairs are at those pairs. */
  lemma {:induction false} MarkersWithin(ps: seq<real>, k: nat, r: Rect)
    requires PairsWithin(ps, r) && 2 * k <= |ps|
    ensures DrawsWithin(Markers(ps, k), r)
  {
    if k > 0 {
      MarkersWithin(ps, k - 1, r);
      assert r.Contains(ps[2 * k - 2], ps[2 * k - 1]);
      DrawsWithinAppend(Markers(ps, k - 1), [Marker(ps[2 * k - 2], ps[2 * k - 1])], r);
    }
  }

  /** Everything render2D draws of a well-formed panel, fills and markers, is at a point of the panel. */
  lemma Render2DWithin(f: Formula2D, size: nat, range: Rect)
    requires range.WellFormed()
    ensures var ps := LevelsPoints(f, [range], size);
      |ps| % 2 == 0 && DrawsWithin(LevelsDraws(f, [range], size) + Markers(ps, |ps| / 2), range)
  {
    LevelsWithin(f, [range], size, range);
    var ps := LevelsPoints(f, [range], size);
    MarkersWithin(ps, |ps| / 2, range);
    DrawsWithinAppend(LevelsDraws(f, [range], size), Markers(ps, |ps| / 2), range);
  }

  /** Split boxes halve: the boxes queued from boxes of width w and height h have width w/2 and height h/2. */
  lemma {:induction false} LevelNextHalves(f: Formula2D, rs: seq<Rect>, s: nat, w: real, h: real)
    requires forall k :: 0 <= k < |rs| ==> rs[k].xMax - rs[k].xMin == w && rs[k].yMax - rs[k].yMin == h
    ensures forall k :: 0 <= k < |LevelNext(f, rs, s)| ==>
      LevelNext(f, rs, s)[k].xMax - LevelNext(f, rs, s)[k].xMin == w / 2.0 && LevelNext(f, rs, s)[k].yMax - LevelNext(f, rs, s)[k].yMin == h / 2.0
  {
    if rs != [] {
      var front := rs[..|rs| - 1];
      assert forall k :: 0 <= k < |front| ==> front[k] == rs[k];
      LevelNextHalves(f, front, s, w, h);
      var a: seq<Rect>, b: seq<Rect> := LevelNext(f, front, s), BoxNext(f, rs[|rs| - 1], s);
      forall k | 0 <= k < |a + b|
        ensures (a + b)[k].xMax - (a + b)[k].xMin == w / 2.0 && (a + b)[k].yMax - (a + b)[k].yMin == h / 2.0
      {
        if k >= |a| {
          assert (a + b)[k] == b[k - |a|];
        }
      }
    }
  }

  /** Boxes of one pixel are never split, so the worklist ends there. */
  lemma {:induction false} LevelNextEmpty(f: Formula2D, rs: seq<Rect>, s: nat)
    requires s <= 1
    ensures LevelNext(f, rs, s) == []
  {
    if rs != [] {
      LevelNextEmpty(f, rs[..|rs| - 1], s);
    }
  }
}
