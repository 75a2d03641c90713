/** The grid of panels of the view of dist/view.js: the panels that meet the
    screen, and the order and budget in which one calculation computes them. */
module PanelGrid {
  import opened Common
  import opened Formulas

  // ---------------------------------------------------------------------
  // panelRange

  /** `Math.ceil`. */
  function Ceil(x: real): (n: int)
    ensures x <= n as real < x + 1.0
  {
    -((-x).Floor)
  }

  /** The grid indices of the panels that meet the screen. */
  datatype PanelRange = PanelRange(ixMin: int, ixMax: int, iyMin: int, iyMax: int)
  {
    predicate Contains(p: Pos) { ixMin <= p.0 <= ixMax && iyMin <= p.1 <= iyMax }
    /** Within one panel of the range: what eviction keeps. */
    predicate Near(ix: int, iy: int) { ixMin - 1 <= ix <= ixMax + 1 && iyMin - 1 <= iy <= iyMax + 1 }
  }

  type Pos = (int, int)

  /** Where the screen edges fall, in panel units from the origin of the plane:
      `(±size / 2 - base) / panelSize` with `base = -center / sizePerPixel`. */
  function Edge(size: int, sign: int, center: real, perPixel: real): real
    requires perPixel > 0.0
  {
    ((sign as real) * (size as real) / 2.0 + center / perPixel) / (PanelSize as real)
  }

  /** panelRange. */
  function RangeOf(width: int, height: int, vp: Viewport): (r: PanelRange)
    requires vp.Positive()
  {
    PanelRange(Ceil(Edge(width, -1, vp.center.x, vp.sizePerPixel.x)) - 1, Edge(width, 1, vp.center.x, vp.sizePerPixel.x).Floor,
               Ceil(Edge(height, -1, vp.center.y, vp.sizePerPixel.y)) - 1, Edge(height, 1, vp.center.y, vp.sizePerPixel.y).Floor)
  }

  /** The width of a panel in plane units: `sizePerPixel.x * panelSize`. */
  function DeltaX(vp: Viewport): real
  {
    vp.sizePerPixel.x * (PanelSize as real)
  }

  /** The height of a panel in plane units. */
  function DeltaY(vp: Viewport): real
  {
    vp.sizePerPixel.y * (PanelSize as real)
  }

  /** The range is exactly the panels that meet the screen: panel ix spans
      [ix, ix + 1] in panel units, and it is in the range iff that span meets
      the span between the two screen edges. */
  lemma PanelRangeExact(width: int, height: int, vp: Viewport, ix: int, iy: int)
    requires vp.Positive()
    ensures var r := RangeOf(width, height, vp);
      && (r.ixMin <= ix <= r.ixMax <==>
            Edge(width, -1, vp.center.x, vp.sizePerPixel.x) <= (ix + 1) as real && ix as real <= Edge(width, 1, vp.center.x, vp.sizePerPixel.x))
      && (r.iyMin <= iy <= r.iyMax <==>
            Edge(height, -1, vp.center.y, vp.sizePerPixel.y) <= (iy + 1) as real && iy as real <= Edge(height, 1, vp.center.y, vp.sizePerPixel.y))
  {
  }

  /** A screen of non-negative size meets at least one column and one row of panels. */
  lemma PanelRangeOrdered(width: int, height: int, vp: Viewport)
    requires vp.Positive() && width >= 0 && height >= 0
    ensures RangeOf(width, height, vp).ixMin <= RangeOf(width, height, vp).ixMax
    ensures RangeOf(width, height, vp).iyMin <= RangeOf(width, height, vp).iyMax
  {
    var lo := Edge(width, -1, vp.center.x, vp.sizePerPixel.x);
    var hi := Edge(width, 1, vp.center.x, vp.sizePerPixel.x);
    assert lo <= hi;
    PanelRangeExact(width, height, vp, hi.Floor, Edge(height, 1, vp.center.y, vp.sizePerPixel.y).Floor);
  }

  // ---------------------------------------------------------------------
  // The budget

  /** The panels of column ix computed from row iy on, when n panels are done
      before it: after each panel the budget is checked, and a spent budget
      ends the column. */
  function ColumnFrom(ix: int, iy: int, iyMax: int, n: nat, overBudget: nat -> bool): (s: seq<Pos>)
    ensures iy <= iyMax ==> s != [] && s[0] == (ix, iy)
    ensures forall j :: 0 <= j < |s| ==> s[j].0 == ix && s[j].1 == iy + j && iy + j <= iyMax
    decreases iyMax - iy + 1
  {
    if iy > iyMax then []
    else
      var rest := if overBudget(n + 1) then [] else ColumnFrom(ix, iy + 1, iyMax, n + 1, overBudget);
      var col := [(ix, iy)] + rest;
      assert forall j :: 0 <= j < |col| ==> col[j].0 == ix && col[j].1 == iy + j && iy + j <= iyMax by {
        forall j | 0 <= j < |col| ensures col[j].0 == ix && col[j].1 == iy + j && iy + j <= iyMax {
          if j > 0 {
            assert col[j] == rest[j - 1];
          }
        }
      }
      col
  }

  /** One step of a column: its first panel is done, then the rest follows
      unless the budget is spent. */
  lemma ColumnNext(whole: seq<Pos>, done: seq<Pos>, ix: int, iy: int, iyMax: int, overBudget: nat -> bool)
    requires iy <= iyMax && whole == done + ColumnFrom(ix, iy, iyMax, |done|, overBudget)
    ensures overBudget(|done| + 1) ==> whole == done + [(ix, iy)]
    ensures !overBudget(|done| + 1) ==> whole == (done + [(ix, iy)]) + ColumnFrom(ix, iy + 1, iyMax, |done| + 1, overBudget)
  {
    var rest := if overBudget(|done| + 1) then [] else ColumnFrom(ix, iy + 1, iyMax, |done| + 1, overBudget);
    assert ColumnFrom(ix, iy, iyMax, |done|, overBudget) == [(ix, iy)] + rest;
    AppendShift(done, (ix, iy), rest);
  }

  /** One step of the sweep: the column ix is done, then the columns after it. */
  lemma SweepNext(whole: seq<Pos>, done: seq<Pos>, ix: int, r: PanelRange, overBudget: nat -> bool)
    requires ix <= r.ixMax && whole == done + SweepFrom(ix, r, |done|, overBudget)
    ensures var c := ColumnFrom(ix, r.iyMin, r.iyMax, |done|, overBudget);
      whole == (done + c) + SweepFrom(ix + 1, r, |done + c|, overBudget)
  {
    var c := ColumnFrom(ix, r.iyMin, r.iyMax, |done|, overBudget);
    var rest := SweepFrom(ix + 1, r, |done| + |c|, overBudget);
    assert SweepFrom(ix, r, |done|, overBudget) == c + rest;
    AppendAssoc(done, c, rest);
  }

  /** p comes before q in the order of the sweep. */
  predicate Earlier(p: Pos, q: Pos)
  {
    p.0 < q.0 || (p.0 == q.0 && p.1 < q.1)
  }

  /** Every panel done so far comes before at. */
  predicate DoneBefore(done: seq<Pos>, at: Pos)
  {
    forall k :: 0 <= k < |done| ==> Earlier(done[k], at)
  }

  /** The panel at is not done yet, and once it is, every panel done comes before the next row. */
  lemma DoneNext(done: seq<Pos>, ix: int, iy: int)
    requires DoneBefore(done, (ix, iy))
    ensures (ix, iy) !in done && DoneBefore(done + [(ix, iy)], (ix, iy + 1))
  {
    var d := done + [(ix, iy)];
    assert forall k :: 0 <= k < |done| ==> d[k] == done[k];
  }

  /** What comes before a panel comes before any later one. */
  lemma DoneLater(done: seq<Pos>, at: Pos, later: Pos)
    requires DoneBefore(done, at) && Earlier(at, later)
    ensures DoneBefore(done, later)
  {
  }

  /** The columns from ix on, when n panels are done before them. */
  function SweepFrom(ix: int, r: PanelRange, n: nat, overBudget: nat -> bool): seq<Pos>
    decreases r.ixMax - ix + 1
  {
    if ix > r.ixMax then []
    else
      var c := ColumnFrom(ix, r.iyMin, r.iyMax, n, overBudget);
      c + SweepFrom(ix + 1, r, n + |c|, overBudget)
  }

  /** The panels one calculation computes, in order: column by column, each
      column from its lowest row until the budget is spent. The check only
      leaves the inner loop, so every later column still starts. */
  function Schedule(r: PanelRange, overBudget: nat -> bool): seq<Pos>
  {
    SweepFrom(r.ixMin, r, 0, overBudget)
  }

  lemma {:induction false} SweepInRange(ix: int, r: PanelRange, n: nat, overBudget: nat -> bool)
    ensures forall p :: p in SweepFrom(ix, r, n, overBudget) ==> ix <= p.0 <= r.ixMax && r.iyMin <= p.1 <= r.iyMax
    decreases r.ixMax - ix + 1
  {
    if ix <= r.ixMax {
      var c := ColumnFrom(ix, r.iyMin, r.iyMax, n, overBudget);
      SweepInRange(ix + 1, r, n + |c|, overBudget);
    }
  }

  /** Only panels of the range are computed. */
  lemma ScheduleInRange(r: PanelRange, overBudget: nat -> bool)
    ensures forall p :: p in Schedule(r, overBudget) ==> r.Contains(p)
  {
    SweepInRange(r.ixMin, r, 0, overBudget);
  }

  lemma {:induction false} SweepHeads(ix: int, r: PanelRange, n: nat, overBudget: nat -> bool, col: int)
    requires r.iyMin <= r.iyMax && ix <= col <= r.ixMax
    ensures (col, r.iyMin) in SweepFrom(ix, r, n, overBudget)
    decreases r.ixMax - ix + 1
  {
    var c := ColumnFrom(ix, r.iyMin, r.iyMax, n, overBudget);
    if col > ix {
      SweepHeads(ix + 1, r, n + |c|, overBudget, col);
    } else {
      assert c[0] == (col, r.iyMin);
    }
  }

  /** However early the budget runs out, every column of the range computes its lowest panel. */
  lemma ScheduleColumnHeads(r: PanelRange, overBudget: nat -> bool, ix: int)
    requires r.iyMin <= r.iyMax && r.ixMin <= ix <= r.ixMax
    ensures (ix, r.iyMin) in Schedule(r, overBudget)
  {
    SweepHeads(r.ixMin, r, 0, overBudget, ix);
  }

  lemma {:induction false} ColumnAll(ix: int, iy: int, iyMax: int, n: nat, overBudget: nat -> bool, y: int)
    requires forall m :: !overBudget(m)
    requires iy <= y <= iyMax
    ensures (ix, y) in ColumnFrom(ix, iy, iyMax, n, overBudget)
    decreases iyMax - iy + 1
  {
    if y > iy {
      ColumnAll(ix, iy + 1, iyMax, n + 1, overBudget, y);
    }
  }

  lemma {:induction false} SweepAll(ix: int, r: PanelRange, n: nat, overBudget: nat -> bool, p: Pos)
    requires forall m :: !overBudget(m)
    requires r.Contains(p) && ix <= p.0
    ensures p in SweepFrom(ix, r, n, overBudget)
    decreases r.ixMax - ix + 1
  {
    var c := ColumnFrom(ix, r.iyMin, r.iyMax, n, overBudget);
    if p.0 > ix {
      SweepAll(ix + 1, r, n + |c|, overBudget, p);
    } else {
      ColumnAll(ix, r.iyMin, r.iyMax, n, overBudget, p.1);
    }
  }

  /** With the budget never spent, the whole range is computed. */
  lemma ScheduleUnbudgeted(r: PanelRange, overBudget: nat -> bool, p: Pos)
    requires forall m :: !overBudget(m)
    requires r.Contains(p)
    ensures p in Schedule(r, overBudget)
  {
    SweepAll(r.ixMin, r, 0, overBudget, p);
  }

  lemma {:induction false} SweepSpent(ix: int, r: PanelRange, n: nat, overBudget: nat -> bool)
    requires forall m :: m >= 1 ==> overBudget(m)
    ensures forall p :: p in SweepFrom(ix, r, n, overBudget) ==> p.1 == r.iyMin
    decreases r.ixMax - ix + 1
  {
    if ix <= r.ixMax {
      var c := ColumnFrom(ix, r.iyMin, r.iyMax, n, overBudget);
      SweepSpent(ix + 1, r, n + |c|, overBudget);
    }
  }

  /** With the budget spent from the first panel on, each column computes its lowest panel and nothing else. */
  lemma ScheduleSpent(r: PanelRange, overBudget: nat -> bool)
    requires forall m :: m >= 1 ==> overBudget(m)
    ensures forall p :: p in Schedule(r, overBudget) ==> p.1 == r.iyMin
  {
    SweepSpent(r.ixMin, r, 0, overBudget);
  }
}
