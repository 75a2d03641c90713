/** The older view of src/view.ts. Each formula is one expression read by
    parseFormula of src/panel.ts; every panel holds one canvas per formula,
    in the formulas' order; a changed formula list drops every panel; panels
    that leave the screen give their canvas arrays to new panels; a panel
    that already exists is never computed again. Drawing is recorded as the
    render calls made, canvases are numbered as they are created, and the
    wall clock of the 200 ms budget is the parameter `overBudget(n)`: the
    budget is spent once n new panels have been computed. */
module LegacyViews {
  import opened Common
  import opened Parser
  import opened Formulas
  import opened PanelGrid
  import Panel

  /** numcore's parser as parseFormula uses it (see module Panel). */
  datatype Reader = Reader(nc: Numcore, parseOne: string -> ParseResult, parseWith: (string, string) -> ParseResult,
                           matchCall: string -> Option<(string, string)>)

  function ParseFormula(rd: Reader, exp: string): Outcome<Panel.Formula>
  {
    Panel.ParseFormula(rd.nc, rd.parseOne, rd.parseWith, rd.matchCall, exp)
  }

  datatype LegacyInput = LegacyInput(exp: string, color: string, fillAlpha: real)

  /** A parse result: an object made by parseFormula, numbered because it
      holds generated functions and so is equal only to itself, or the
      `{error}` object of a caught exception, equal to any with the same message. */
  datatype LegacyParsed = Plot(id: nat, formula: Panel.Formula) | Failed(error: string)

  datatype LegacyFormula = LegacyFormula(exp: string, color: string, fillAlpha: real, parsed: LegacyParsed)

  /** The options `{lineWidth, axis, label}`. */
  datatype LegacyRendering = LegacyRendering(lineWidth: real, axis: bool, labels: bool)

  const LegacyDefaultRendering := LegacyRendering(2.0, true, true)

  const LegacyDefaultViewport := Viewport(XY(0.0, 0.0), XY(1.0 / 256.0, 1.0 / 256.0))

  /** A panel: its grid index and its canvases, one per formula. */
  datatype LegacyPanel = LegacyPanel(ix: int, iy: int, canvases: seq<nat>)

  /** What update takes; each part is optional. */
  datatype LegacyInfo = LegacyInfo(size: Option<XY>, viewport: Option<Viewport>, rendering: Option<LegacyRendering>,
                                   formulas: Option<seq<LegacyInput>>)

  /** One render call of calculate: formula i drawn on a canvas of a new panel. */
  datatype LegacyDraw = LegacyDraw(pos: Pos, formula: nat, canvas: nat)

  // ---------------------------------------------------------------------
  // isEqual and listEquals on formulas

  /** isEqual on two parse results. */
  predicate SameResult(a: LegacyParsed, b: LegacyParsed)
  {
    if a.Plot? then b.Plot? && a.id == b.id else b.Failed? && a.error == b.error
  }

  /** isEqual on two formula objects, key by key. */
  predicate SameFormula(f: LegacyFormula, g: LegacyFormula)
  {
    f.exp == g.exp && f.color == g.color && f.fillAlpha == g.fillAlpha && SameResult(f.parsed, g.parsed)
  }

  /** listEquals. */
  predicate SameList(fs: seq<LegacyFormula>, gs: seq<LegacyFormula>)
  {
    |fs| == |gs| && forall i :: 0 <= i < |fs| ==> SameFormula(fs[i], gs[i])
  }

  // ---------------------------------------------------------------------
  // updateFormulas

  /** The cache of updateFormulas: the parse result of each expression of the
      formulas, a later formula overwriting an earlier one. */
  function ExpCache(fs: seq<LegacyFormula>): map<string, LegacyParsed>
  {
    if fs == [] then map[]
    else ExpCache(fs[..|fs| - 1])[fs[|fs| - 1].exp := fs[|fs| - 1].parsed]
  }

  /** An expression is cached exactly when a formula has it, and it holds the
      parse result of the last such formula. */
  lemma {:induction false} ExpCacheLast(fs: seq<LegacyFormula>, exp: string)
    ensures exp in ExpCache(fs) <==> exists i :: 0 <= i < |fs| && fs[i].exp == exp
    ensures exp in ExpCache(fs) ==> exists i :: (0 <= i < |fs| && fs[i].exp == exp && ExpCache(fs)[exp] == fs[i].parsed
      && forall j :: i < j < |fs| ==> fs[j].exp != exp)
  {
    if fs != [] {
      var init := fs[..|fs| - 1];
      ExpCacheLast(init, exp);
      if exists i :: 0 <= i < |fs| && fs[i].exp == exp {
        var i :| 0 <= i < |fs| && fs[i].exp == exp;
        if i < |fs| - 1 {
          assert init[i].exp == exp;
        }
      }
      if exists i :: 0 <= i < |init| && init[i].exp == exp {
        var i :| 0 <= i < |init| && init[i].exp == exp;
        assert fs[i] == init[i];
      }
      if fs[|fs| - 1].exp != exp && exp in ExpCache(init) {
        var i :| 0 <= i < |init| && init[i].exp == exp && ExpCache(init)[exp] == init[i].parsed
          && forall j :: i < j < |init| ==> init[j].exp != exp;
        assert fs[i] == init[i];
        assert forall j :: i < j < |fs| ==> fs[j].exp != exp by {
          forall j | i < j < |fs|
            ensures fs[j].exp != exp
          {
            if j < |fs| - 1 {
              assert fs[j] == init[j];
            }
          }
        }
      }
    }
  }

  /** The result of one expression that is not cached: parseFormula's object,
      or the message of the exception it threw. */
  function FreshResult(rd: Reader, exp: string, id: nat): (p: LegacyParsed)
    ensures ParseFormula(rd, exp).Done? <==> p.Plot?
    ensures p.Plot? ==> p == Plot(id, ParseFormula(rd, exp).value)
    ensures p.Failed? ==> p.error == ParseFormula(rd, exp).message
  {
    match ParseFormula(rd, exp)
    case Done(f) => Plot(id, f)
    case Escaped(m) => Failed(m)
  }

  /** The new list of updateFormulas: each input with the cached result for its
      expression, or a new one; new objects are numbered from base. */
  function Relisted(cache: map<string, LegacyParsed>, inputs: seq<LegacyInput>, rd: Reader, base: nat): (r: seq<LegacyFormula>)
    ensures |r| == |inputs|
    ensures forall i :: 0 <= i < |r| ==> r[i].exp == inputs[i].exp && r[i].color == inputs[i].color && r[i].fillAlpha == inputs[i].fillAlpha
    ensures forall i :: 0 <= i < |r| && inputs[i].exp in cache ==> r[i].parsed == cache[inputs[i].exp]
    ensures forall i :: 0 <= i < |r| && inputs[i].exp !in cache ==> r[i].parsed == FreshResult(rd, inputs[i].exp, base + i)
  {
    seq(|inputs|, i requires 0 <= i < |inputs| =>
      var input := inputs[i];
      LegacyFormula(input.exp, input.color, input.fillAlpha,
        if input.exp in cache then cache[input.exp] else FreshResult(rd, input.exp, base + i)))
  }

  function InputsOf(fs: seq<LegacyFormula>): (r: seq<LegacyInput>)
    ensures |r| == |fs|
  {
    seq(|fs|, i requires 0 <= i < |fs| => LegacyInput(fs[i].exp, fs[i].color, fs[i].fillAlpha))
  }

  /** Sending the same list again changes nothing when its expressions are pairwise distinct. */
  lemma ResubmitSame(fs: seq<LegacyFormula>, rd: Reader, base: nat)
    requires forall i, j :: 0 <= i < j < |fs| ==> fs[i].exp != fs[j].exp
    ensures SameList(fs, Relisted(ExpCache(fs), InputsOf(fs), rd, base))
  {
    var r := Relisted(ExpCache(fs), InputsOf(fs), rd, base);
    forall i | 0 <= i < |fs|
      ensures SameFormula(fs[i], r[i])
    {
      ExpCacheLast(fs, fs[i].exp);
      var k :| 0 <= k < |fs| && fs[k].exp == fs[i].exp && ExpCache(fs)[fs[i].exp] == fs[k].parsed
        && forall j :: k < j < |fs| ==> fs[j].exp != fs[i].exp;
      assert k == i;
    }
  }

  /** With a repeated expression whose two formulas hold different objects,
      sending the same list again is a change: both formulas take the later
      object, and the panels are dropped. */
  lemma ResubmitRepeated(e: string, c: string, a: real, f: Panel.Formula, g: Panel.Formula, rd: Reader, base: nat)
    ensures var fs := [LegacyFormula(e, c, a, Plot(0, f)), LegacyFormula(e, c, a, Plot(1, g))];
      !SameList(fs, Relisted(ExpCache(fs), InputsOf(fs), rd, base))
  {
    var fs := [LegacyFormula(e, c, a, Plot(0, f)), LegacyFormula(e, c, a, Plot(1, g))];
    assert fs[..1] == [fs[0]];
    assert ExpCache([fs[0]]) == map[e := Plot(0, f)];
    assert ExpCache(fs)[e] == Plot(1, g);
  }

  // ---------------------------------------------------------------------
  // The range and the schedule of calculate

  /** The panel range of calculate. Its base is `center / sizePerPixel`, where
      dist/view.js uses `-center / sizePerPixel`: this view draws the point
      `-center` at the middle of the screen. */
  function LegacyRangeOf(width: int, height: int, vp: Viewport): PanelRange
    requires vp.Positive()
  {
    var ixBase := vp.center.x / vp.sizePerPixel.x;
    var iyBase := vp.center.y / vp.sizePerPixel.y;
    var w, h, size := width as real, height as real, PanelSize as real;
    PanelRange(Ceil((-w / 2.0 - ixBase) / size) - 1, ((w / 2.0 - ixBase) / size).Floor,
               Ceil((-h / 2.0 - iyBase) / size) - 1, ((h / 2.0 - iyBase) / size).Floor)
  }

  /** The range of this view is the range dist/view.js finds for the opposite center. */
  lemma LegacyRangeMirrored(width: int, height: int, vp: Viewport)
    requires vp.Positive()
    ensures LegacyRangeOf(width, height, vp) == RangeOf(width, height, vp.(center := XY(-vp.center.x, -vp.center.y)))
  {
    var m := vp.(center := XY(-vp.center.x, -vp.center.y));
    assert -vp.center.x / vp.sizePerPixel.x == -(vp.center.x / vp.sizePerPixel.x);
    assert -vp.center.y / vp.sizePerPixel.y == -(vp.center.y / vp.sizePerPixel.y);
  }

  /** The panels of column ix computed from row iy on, when n new panels are
      computed before it: panels in `have` are skipped without a budget check,
      after each new one the budget is checked, and a spent budget ends the column. */
  function LegacyColumn(ix: int, iy: int, iyMax: int, have: set<Pos>, n: nat, overBudget: nat -> bool): seq<Pos>
    decreases iyMax - iy + 1
  {
    if iy > iyMax then []
    else if (ix, iy) in have then LegacyColumn(ix, iy + 1, iyMax, have, n, overBudget)
    else [(ix, iy)] + (if overBudget(n + 1) then [] else LegacyColumn(ix, iy + 1, iyMax, have, n + 1, overBudget))
  }

  function LegacySweepFrom(ix: int, r: PanelRange, have: set<Pos>, n: nat, overBudget: nat -> bool): seq<Pos>
    decreases r.ixMax - ix + 1
  {
    if ix > r.ixMax then []
    else
      var c := LegacyColumn(ix, r.iyMin, r.iyMax, have, n, overBudget);
      c + LegacySweepFrom(ix + 1, r, have, n + |c|, overBudget)
  }

  /** The new panels one calculation computes, in order, when the panels in
      `have` are kept: column by column, each column from its lowest row until
      the budget is spent. */
  function LegacySchedule(r: PanelRange, have: set<Pos>, overBudget: nat -> bool): seq<Pos>
  {
    LegacySweepFrom(r.ixMin, r, have, 0, overBudget)
  }

  /** The budget check after one of the first n new panels found it spent. */
  predicate Interrupted(n: nat, overBudget: nat -> bool)
  {
    exists k :: 1 <= k <= n && overBudget(k)
  }

  lemma InterruptedNext(n: nat, overBudget: nat -> bool)
    ensures Interrupted(n + 1, overBudget) <==> Interrupted(n, overBudget) || overBudget(n + 1)
  {
    if Interrupted(n + 1, overBudget) && !overBudget(n + 1) {
      var k :| 1 <= k <= n + 1 && overBudget(k);
      assert 1 <= k <= n;
    }
  }

  lemma {:induction false} LegacyColumnShape(ix: int, iy: int, iyMax: int, have: set<Pos>, n: nat, overBudget: nat -> bool)
    ensures forall p :: p in LegacyColumn(ix, iy, iyMax, have, n, overBudget) ==> p.0 == ix && iy <= p.1 <= iyMax && p !in have
    decreases iyMax - iy + 1
  {
    if iy <= iyMax {
      LegacyColumnShape(ix, iy + 1, iyMax, have, n, overBudget);
      LegacyColumnShape(ix, iy + 1, iyMax, have, n + 1, overBudget);
    }
  }

  lemma {:induction false} LegacySweepShape(ix: int, r: PanelRange, have: set<Pos>, n: nat, overBudget: nat -> bool)
    requires r.ixMin <= ix
    ensures forall p :: p in LegacySweepFrom(ix, r, have, n, overBudget) ==> ix <= p.0 && r.Contains(p) && p !in have
    decreases r.ixMax - ix + 1
  {
    if ix <= r.ixMax {
      var c := LegacyColumn(ix, r.iyMin, r.iyMax, have, n, overBudget);
      var rest := LegacySweepFrom(ix + 1, r, have, n + |c|, overBudget);
      LegacyColumnShape(ix, r.iyMin, r.iyMax, have, n, overBudget);
      LegacySweepShape(ix + 1, r, have, n + |c|, overBudget);
      assert LegacySweepFrom(ix, r, have, n, overBudget) == c + rest;
      forall p: Pos | p in c + rest
        ensures ix <= p.0 && r.Contains(p) && p !in have
      {
        assert p in c || p in rest;
      }
    }
  }

  /** Only missing panels of the range are computed. */
  lemma LegacyScheduleMissing(r: PanelRange, have: set<Pos>, overBudget: nat -> bool)
    ensures forall p :: p in LegacySchedule(r, have, overBudget) ==> r.Contains(p) && p !in have
  {
    LegacySweepShape(r.ixMin, r, have, 0, overBudget);
  }

  lemma {:induction false} LegacyColumnAll(ix: int, iy: int, iyMax: int, have: set<Pos>, n: nat, overBudget: nat -> bool, y: int)
    requires forall m :: !overBudget(m)
    requires iy <= y <= iyMax && (ix, y) !in have
    ensures (ix, y) in LegacyColumn(ix, iy, iyMax, have, n, overBudget)
    decreases iyMax - iy + 1
  {
    var c := LegacyColumn(ix, iy, iyMax, have, n, overBudget);
    if (ix, iy) in have {
      LegacyColumnAll(ix, iy + 1, iyMax, have, n, overBudget, y);
      assert c == LegacyColumn(ix, iy + 1, iyMax, have, n, overBudget);
    } else {
      assert !overBudget(n + 1);
      var rest := LegacyColumn(ix, iy + 1, iyMax, have, n + 1, overBudget);
      assert c == [(ix, iy)] + rest;
      if y > iy {
        LegacyColumnAll(ix, iy + 1, iyMax, have, n + 1, overBudget, y);
        assert (ix, y) in rest;
      }
    }
  }

  lemma {:induction false} LegacySweepAll(ix: int, r: PanelRange, have: set<Pos>, n: nat, overBudget: nat -> bool, p: Pos)
    requires forall m :: !overBudget(m)
    requires r.Contains(p) && ix <= p.0 && p !in have
    ensures p in LegacySweepFrom(ix, r, have, n, overBudget)
    decreases r.ixMax - ix + 1
  {
    var c := LegacyColumn(ix, r.iyMin, r.iyMax, have, n, overBudget);
    if p.0 > ix {
      LegacySweepAll(ix + 1, r, have, n + |c|, overBudget, p);
    } else {
      LegacyColumnAll(ix, r.iyMin, r.iyMax, have, n, overBudget, p.1);
    }
  }

  /** With the budget never spent, every missing panel of the range is computed. */
  lemma LegacyScheduleUnbudgeted(r: PanelRange, have: set<Pos>, overBudget: nat -> bool, p: Pos)
    requires forall m :: !overBudget(m)
    requires r.Contains(p) && p !in have
    ensures p in LegacySchedule(r, have, overBudget)
  {
    LegacySweepAll(r.ixMin, r, have, 0, overBudget, p);
  }

  lemma LegacyColumnNext(whole: seq<Pos>, done: seq<Pos>, ix: int, iy: int, iyMax: int, have: set<Pos>, overBudget: nat -> bool)
    requires iy <= iyMax && (ix, iy) !in have && whole == done + LegacyColumn(ix, iy, iyMax, have, |done|, overBudget)
    ensures overBudget(|done| + 1) ==> whole == done + [(ix, iy)]
    ensures !overBudget(|done| + 1) ==> whole == (done + [(ix, iy)]) + LegacyColumn(ix, iy + 1, iyMax, have, |done| + 1, overBudget)
  {
    var rest := if overBudget(|done| + 1) then [] else LegacyColumn(ix, iy + 1, iyMax, have, |done| + 1, overBudget);
    assert LegacyColumn(ix, iy, iyMax, have, |done|, overBudget) == [(ix, iy)] + rest;
    AppendShift(done, (ix, iy), rest);
  }

  /** One row of the column loop, skipped or computed. */
  lemma LegacyColumnStep(whole: seq<Pos>, before: seq<Pos>, done: seq<Pos>, ix: int, iy: int, iyMax: int, have: set<Pos>, overBudget: nat -> bool)
    requires iy <= iyMax && whole == before + LegacyColumn(ix, iy, iyMax, have, |before|, overBudget)
    requires done == if (ix, iy) in have then before else before + [(ix, iy)]
    ensures (ix, iy) !in have && overBudget(|done|) ==> whole == done
    ensures !((ix, iy) !in have && overBudget(|done|)) ==> whole == done + LegacyColumn(ix, iy + 1, iyMax, have, |done|, overBudget)
  {
    if (ix, iy) !in have {
      LegacyColumnNext(whole, before, ix, iy, iyMax, have, overBudget);
      assert overBudget(|done|) ==> before + [(ix, iy)] + [] == before + [(ix, iy)];
    }
  }

  /** Past the last column, nothing is left to compute. */
  lemma LegacySweepEnd(whole: seq<Pos>, done: seq<Pos>, ix: int, r: PanelRange, have: set<Pos>, overBudget: nat -> bool)
    requires ix > r.ixMax && whole == done + LegacySweepFrom(ix, r, have, |done|, overBudget)
    ensures whole == done
  {
    assert done + [] == done;
  }

  lemma LegacySweepNext(whole: seq<Pos>, done: seq<Pos>, ix: int, r: PanelRange, have: set<Pos>, overBudget: nat -> bool)
    requires ix <= r.ixMax && whole == done + LegacySweepFrom(ix, r, have, |done|, overBudget)
    ensures var c := LegacyColumn(ix, r.iyMin, r.iyMax, have, |done|, overBudget);
      whole == (done + c) + LegacySweepFrom(ix + 1, r, have, |done + c|, overBudget)
  {
    var c := LegacyColumn(ix, r.iyMin, r.iyMax, have, |done|, overBudget);
    var rest := LegacySweepFrom(ix + 1, r, have, |done| + |c|, overBudget);
    assert LegacySweepFrom(ix, r, have, |done|, overBudget) == c + rest;
    AppendAssoc(done, c, rest);
  }

  // ---------------------------------------------------------------------
  // Render calls

  /** The render calls for a new panel: one per formula that parsed, on that formula's canvas. */
  function PanelDraws(fs: seq<LegacyFormula>, pos: Pos, canvases: seq<nat>): (ds: seq<LegacyDraw>)
    requires |canvases| == |fs|
  {
    if fs == [] then []
    else
      var n := |fs| - 1;
      PanelDraws(fs[..n], pos, canvases[..n]) + (if fs[n].parsed.Plot? then [LegacyDraw(pos, n, canvases[n])] else [])
  }

  /** A new panel gets exactly one render call per formula that parsed, on that formula's canvas. */
  lemma {:induction false} PanelDrawsExact(fs: seq<LegacyFormula>, pos: Pos, canvases: seq<nat>)
    requires |canvases| == |fs|
    ensures forall d :: d in PanelDraws(fs, pos, canvases) ==>
      d.pos == pos && d.formula < |fs| && fs[d.formula].parsed.Plot? && d.canvas == canvases[d.formula]
    ensures forall i :: 0 <= i < |fs| && fs[i].parsed.Plot? ==> LegacyDraw(pos, i, canvases[i]) in PanelDraws(fs, pos, canvases)
  {
    if fs != [] {
      var n := |fs| - 1;
      PanelDrawsExact(fs[..n], pos, canvases[..n]);
    }
  }

  /** draws[k] are the render calls of the k-th new panel, ps[k]. */
  ghost predicate Drawn(fs: seq<LegacyFormula>, ps: seq<Pos>, panels: map<Pos, LegacyPanel>, draws: seq<seq<LegacyDraw>>)
  {
    && |draws| == |ps|
    && forall k :: 0 <= k < |ps| ==>
         && ps[k] in panels && |panels[ps[k]].canvases| == |fs|
         && draws[k] == PanelDraws(fs, ps[k], panels[ps[k]].canvases)
  }

  /** What render draws: for each formula, in order, its canvas of every panel. */
  function LegacyGraph(fs: seq<LegacyFormula>, panels: map<Pos, LegacyPanel>): (g: seq<set<(Pos, nat)>>)
    requires forall p :: p in panels ==> |panels[p].canvases| == |fs|
    ensures |g| == |fs|
  {
    seq(|fs|, i requires 0 <= i < |fs| => set p | p in panels :: (p, panels[p].canvases[i]))
  }

  /** The index of the first formula that did not parse; |fs| when all did. */
  function FirstFailed(fs: seq<LegacyFormula>): (i: nat)
    ensures i <= |fs|
    ensures forall j :: 0 <= j < i ==> fs[j].parsed.Plot?
    ensures i < |fs| ==> fs[i].parsed.Failed?
  {
    if fs == [] || fs[0].parsed.Failed? then 0 else 1 + FirstFailed(fs[1..])
  }

  /** What render leaves on the screen canvas: nothing, the whole frame, or
      the formulas drawn before drawImage threw. */
  datatype LegacyFrame = NoFrame | Shown(graph: seq<set<(Pos, nat)>>) | Threw(drawn: seq<set<(Pos, nat)>>)

  /** The drawing loop of render. A formula that did not parse has 0×0
      canvases, and drawImage throws InvalidStateError for a canvas of zero
      width or height; so once a panel exists the loop ends at the first such
      formula, with the formulas before it drawn, and the exception leaves
      render. */
  function LegacyFrameOf(fs: seq<LegacyFormula>, panels: map<Pos, LegacyPanel>): (f: LegacyFrame)
    requires forall p :: p in panels ==> |panels[p].canvases| == |fs|
    ensures f.Shown? || f.Threw?
    ensures f.Shown? <==> panels == map[] || forall i :: 0 <= i < |fs| ==> fs[i].parsed.Plot?
    ensures f.Shown? ==> f.graph == LegacyGraph(fs, panels)
    ensures f.Threw? ==> FirstFailed(fs) < |fs| && f.drawn == LegacyGraph(fs, panels)[..FirstFailed(fs)]
  {
    var i := FirstFailed(fs);
    if panels == map[] || i == |fs| then Shown(LegacyGraph(fs, panels)) else Threw(LegacyGraph(fs, panels)[..i])
  }

  /** The panels eviction keeps: those within one panel of the range. */
  function NearPanels(panels: map<Pos, LegacyPanel>, r: PanelRange): (m: map<Pos, LegacyPanel>)
    ensures forall p :: p in m <==> p in panels && r.Near(panels[p].ix, panels[p].iy)
    ensures forall p :: p in m ==> m[p] == panels[p]
  {
    map p | p in panels && r.Near(panels[p].ix, panels[p].iy) :: panels[p]
  }

  /** n * k, by repeated addition: n canvases for each of k panels. */
  function Times(n: nat, k: nat): nat
  {
    if k == 0 then 0 else Times(n, k - 1) + n
  }

  /** How many of the first done new panels found the pool of unused arrays empty. */
  function Excess(done: nat, unused: nat): nat
  {
    if done <= unused then 0 else done - unused
  }

  lemma {:induction false} TimesMul(n: nat, k: nat)
    ensures Times(n, k) == n * k
  {
    if k > 0 {
      TimesMul(n, k - 1);
    }
  }

  /** The result of an update's formulas: the new list, unless listEquals finds it equal to the old one. */
  function FormulasAfter(fs: seq<LegacyFormula>, inputs: seq<LegacyInput>, rd: Reader, base: nat): seq<LegacyFormula>
  {
    var next := Relisted(ExpCache(fs), inputs, rd, base);
    if SameList(fs, next) then fs else next
  }

  // ---------------------------------------------------------------------
  // What the loops of calculate keep

  /** Every canvas is one of the nc created so far. */
  predicate CreatedBelow(cs: seq<nat>, nc: nat)
  {
    forall i :: 0 <= i < |cs| ==> cs[i] < nc
  }

  /** Panels sit under their own grid index and hold one created canvas per formula. */
  predicate PanelsOk(panels: map<Pos, LegacyPanel>, n: nat, nc: nat)
  {
    forall p :: p in panels ==> panels[p].ix == p.0 && panels[p].iy == p.1 && |panels[p].canvases| == n && CreatedBelow(panels[p].canvases, nc)
  }

  /** Moving a panel from the map to the pool keeps both well formed and the total count. */
  lemma EvictStep(panels: map<Pos, LegacyPanel>, pool: seq<LegacyPanel>, p: Pos, n: nat, nc: nat)
    requires p in panels && PanelsOk(panels, n, nc) && PoolOk(pool, n, nc)
    ensures PanelsOk(panels - {p}, n, nc) && PoolOk(pool + [panels[p]], n, nc)
    ensures |(panels - {p}).Keys| + 1 == |panels.Keys|
  {
    assert (panels - {p}).Keys == panels.Keys - {p};
  }

  /** The arrays kept for reuse hold one created canvas per formula. */
  predicate PoolOk(pool: seq<LegacyPanel>, n: nat, nc: nat)
  {
    forall q :: q in pool ==> |q.canvases| == n && CreatedBelow(q.canvases, nc)
  }

  /** Parsed objects are numbered below the count of made ones. */
  predicate IdsOk(fs: seq<LegacyFormula>, nextId: nat)
  {
    forall i :: 0 <= i < |fs| && fs[i].parsed.Plot? ==> fs[i].parsed.id < nextId
  }

  lemma CreatedMore(panels: map<Pos, LegacyPanel>, pool: seq<LegacyPanel>, n: nat, nc: nat, nc': nat)
    requires PanelsOk(panels, n, nc) && PoolOk(pool, n, nc) && nc <= nc'
    ensures PanelsOk(panels, n, nc') && PoolOk(pool, n, nc')
  {
    assert forall cs :: CreatedBelow(cs, nc) ==> CreatedBelow(cs, nc');
  }

  /** The panels calculate has so far: the kept ones, untouched, and the new
      ones, with the render calls of the new ones. */
  ghost predicate Progress(fs: seq<LegacyFormula>, panels: map<Pos, LegacyPanel>, kept: map<Pos, LegacyPanel>,
                           computed: seq<Pos>, draws: seq<seq<LegacyDraw>>)
  {
    && (forall p :: p in panels <==> p in kept || p in computed)
    && (forall p :: p in kept ==> panels[p] == kept[p])
    && (forall p :: p in computed ==> p !in kept)
    && Drawn(fs, computed, panels, draws)
  }

  /** The pool holds the kept arrays not yet reused, and canvases are created
      (n per panel) only once it is empty. */
  predicate Allocated(pool: seq<LegacyPanel>, unused: nat, done: nat, n: nat, nc: nat, nc0: nat)
  {
    && |pool| == (if done <= unused then unused - done else 0)
    && nc == nc0 + Times(n, Excess(done, unused))
  }

  /** What the loops of calculate keep: the panels so far, the arrays left
      for reuse, the canvases created, and whether another render is asked for. */
  ghost predicate Sweeping(fs: seq<LegacyFormula>, panels: map<Pos, LegacyPanel>, nc: nat, needsRender: bool,
                           kept: map<Pos, LegacyPanel>, computed: seq<Pos>, draws: seq<seq<LegacyDraw>>,
                           pool: seq<LegacyPanel>, unused: nat, nc0: nat, nr0: bool, overBudget: nat -> bool)
  {
    && PanelsOk(panels, |fs|, nc) && PoolOk(pool, |fs|, nc)
    && Progress(fs, panels, kept, computed, draws)
    && Allocated(pool, unused, |computed|, |fs|, nc, nc0)
    && needsRender == (nr0 || Interrupted(|computed|, overBudget))
  }

  /** Before the loops, nothing is made and the pool holds every evicted array. */
  lemma SweepingStart(fs: seq<LegacyFormula>, panels: map<Pos, LegacyPanel>, nc: nat, nr: bool,
                      pool: seq<LegacyPanel>, overBudget: nat -> bool)
    requires PanelsOk(panels, |fs|, nc) && PoolOk(pool, |fs|, nc)
    ensures Sweeping(fs, panels, nc, nr, panels, [], [], pool, |pool|, nc, nr, overBudget)
  {
  }

  /** The panels made so far lie before `at` in the order of the sweep. */
  ghost predicate NewBefore(panels: map<Pos, LegacyPanel>, kept: map<Pos, LegacyPanel>, at: Pos)
  {
    forall p :: p in panels && p !in kept ==> Earlier(p, at)
  }

  lemma NewBeforeColumn(panels: map<Pos, LegacyPanel>, kept: map<Pos, LegacyPanel>, ix: int, iy: int, iy': int)
    requires NewBefore(panels, kept, (ix, iy))
    ensures NewBefore(panels, kept, (ix + 1, iy'))
  {
  }

  lemma ProgressNext(fs: seq<LegacyFormula>, panels: map<Pos, LegacyPanel>, kept: map<Pos, LegacyPanel>,
                     computed: seq<Pos>, draws: seq<seq<LegacyDraw>>, pos: Pos, panel: LegacyPanel)
    requires Progress(fs, panels, kept, computed, draws) && pos !in panels && |panel.canvases| == |fs|
    ensures Progress(fs, panels[pos := panel], kept, computed + [pos], draws + [PanelDraws(fs, pos, panel.canvases)])
  {
    assert forall k :: 0 <= k < |computed| ==> computed[k] != pos;
  }

  /** What the loops of calculate leave. */
  lemma CalculateEnd(fs: seq<LegacyFormula>, panels: map<Pos, LegacyPanel>, nc: nat, nr: bool, r: PanelRange,
                     kept: map<Pos, LegacyPanel>, computed: seq<Pos>,
                     draws: seq<seq<LegacyDraw>>, pool: seq<LegacyPanel>, unused: nat, nc0: nat, nr0: bool, overBudget: nat -> bool)
    requires computed == LegacySchedule(r, kept.Keys, overBudget)
    requires Sweeping(fs, panels, nc, nr, kept, computed, draws, pool, unused, nc0, nr0, overBudget)
    ensures PanelsOk(panels, |fs|, nc) && Progress(fs, panels, kept, computed, draws)
    ensures nr == (nr0 || Interrupted(|computed|, overBudget))
    ensures nc == nc0 + Times(|fs|, Excess(|computed|, unused))
    ensures (forall n :: !overBudget(n)) ==> nr == nr0 && forall p :: r.Contains(p) ==> p in panels
  {
    LegacyCompletion(fs, panels, r, kept, computed, draws, overBudget);
  }

  /** With the budget never spent, every panel of the range exists and nothing asked for another render. */
  lemma LegacyCompletion(fs: seq<LegacyFormula>, panels: map<Pos, LegacyPanel>, r: PanelRange, kept: map<Pos, LegacyPanel>,
                         computed: seq<Pos>, draws: seq<seq<LegacyDraw>>, overBudget: nat -> bool)
    requires computed == LegacySchedule(r, kept.Keys, overBudget)
    requires Progress(fs, panels, kept, computed, draws)
    ensures (forall n :: !overBudget(n)) ==> !Interrupted(|computed|, overBudget) && forall p :: r.Contains(p) ==> p in panels
  {
    if forall n :: !overBudget(n) {
      forall p | r.Contains(p)
        ensures p in panels
      {
        if p !in kept {
          LegacyScheduleUnbudgeted(r, kept.Keys, overBudget, p);
        }
      }
    }
  }

  /** The number of panels eviction dropped. */
  lemma EvictedCount(panels: map<Pos, LegacyPanel>, kept: map<Pos, LegacyPanel>)
    requires kept.Keys <= panels.Keys
    ensures |panels.Keys - kept.Keys| == |panels.Keys| - |kept.Keys|
  {
    assert panels.Keys == (panels.Keys - kept.Keys) + kept.Keys;
  }

  /** What render does, from the panels, request flag and canvas count it
      starts with (panels0, needs0, nc0) to the ones it leaves: nothing
      without a request or a drawing context; otherwise the request is
      cleared, calculate runs unless paused (the near panels kept, the
      missing ones of range r made and drawn, canvases created only beyond the
      evicted arrays, a new request when interrupted), and the frame is drawn
      over the panels as they then are. */
  ghost predicate Rendered(fs: seq<LegacyFormula>, r: PanelRange, paused: bool, hasContext: bool, overBudget: nat -> bool,
                           panels0: map<Pos, LegacyPanel>, needs0: bool, nc0: nat,
                           panels: map<Pos, LegacyPanel>, needs: bool, nc: nat,
                           frame: LegacyFrame, computed: seq<Pos>, draws: seq<seq<LegacyDraw>>)
  {
    && (forall p :: p in panels ==> |panels[p].canvases| == |fs|)
    && if !(needs0 && hasContext) then
         frame == NoFrame && computed == [] && draws == [] && panels == panels0 && needs == needs0 && nc == nc0
       else
         && frame == LegacyFrameOf(fs, panels)
         && (paused ==> computed == [] && draws == [] && panels == panels0 && !needs && nc == nc0)
         && (!paused ==>
              var kept := NearPanels(panels0, r);
              && computed == LegacySchedule(r, kept.Keys, overBudget)
              && Progress(fs, panels, kept, computed, draws)
              && needs == Interrupted(|computed|, overBudget)
              && nc == nc0 + Times(|fs|, Excess(|computed|, |panels0.Keys - kept.Keys|))
              && ((forall n :: !overBudget(n)) ==> !needs && forall p :: r.Contains(p) ==> p in panels))
  }

  /** update's rendering part changes the line width, which drops every panel. */
  predicate NewLineWidth(patch: Option<LegacyRendering>, r0: LegacyRendering)
  {
    patch.Some? && patch.value.lineWidth != r0.lineWidth
  }

  /** The panels update hands to its render: none once the formula list or the line width changed. */
  function PatchedPanels(fs0: seq<LegacyFormula>, fs: seq<LegacyFormula>, r0: LegacyRendering, info: LegacyInfo,
                         panels0: map<Pos, LegacyPanel>): map<Pos, LegacyPanel>
  {
    if fs != fs0 || NewLineWidth(info.rendering, r0) then map[] else panels0
  }

  /** Whether a render is asked for once update reaches its render: already
      asked, or the formulas, the line width, the rounded size or the
      viewport changed. */
  predicate PatchedRequest(needs0: bool, fs0: seq<LegacyFormula>, fs: seq<LegacyFormula>, r0: LegacyRendering,
                           w0: int, h0: int, vp0: Viewport, info: LegacyInfo)
  {
    || needs0 || fs != fs0 || NewLineWidth(info.rendering, r0)
    || (info.size.Some? && (Round(info.size.value.x) != w0 || Round(info.size.value.y) != h0))
    || (info.viewport.Some? && info.viewport.value != vp0)
  }

  class LegacyView {
    var formulas: seq<LegacyFormula>
    var rendering: LegacyRendering
    var viewport: Viewport
    var width: int
    var height: int
    var needsRender: bool
    var calcPaused: bool
    var panels: map<Pos, LegacyPanel>
    /** The number the next object made by parseFormula gets. */
    var nextId: nat
    /** The number of canvases created so far. */
    var nextCanvas: nat

    /** Panels sit under their own grid index and hold one created canvas per
        formula; parsed objects are numbered below the counter. */
    ghost predicate Valid()
      reads this
    {
      PanelsOk(panels, |formulas|, nextCanvas) && IdsOk(formulas, nextId)
    }

    /** The field initialisers of the constructor; the constructor then runs
        update(info), which NewLegacyView below models. */
    constructor(info: LegacyInfo)
      ensures Valid() && formulas == [] && panels == map[] && needsRender && !calcPaused && nextId == 0
      ensures rendering == Or(info.rendering, LegacyDefaultRendering)
      ensures viewport == Or(info.viewport, LegacyDefaultViewport)
      ensures width == (if info.size.Some? then Round(info.size.value.x) else 256)
      ensures height == (if info.size.Some? then Round(info.size.value.y) else 256)
    {
      formulas := [];
      rendering := Or(info.rendering, LegacyDefaultRendering);
      viewport := Or(info.viewport, LegacyDefaultViewport);
      width := Round(if info.size.Some? then info.size.value.x else 256.0);
      height := Round(if info.size.Some? then info.size.value.y else 256.0);
      needsRender := true;
      calcPaused := false;
      panels := map[];
      nextId := 0;
      nextCanvas := 0;
    }

    /** invalidatePanels: no panel is left, and a render is asked for. */
    method InvalidatePanels()
      requires IdsOk(formulas, nextId)
      modifies this`panels, this`needsRender
      ensures Valid() && panels == map[] && needsRender
    {
      panels := map[];
      needsRender := true;
    }

    /** The cache loop of updateFormulas. */
    method BuildExpCache() returns (cache: map<string, LegacyParsed>)
      ensures cache == ExpCache(formulas)
    {
      cache := map[];
      for i := 0 to |formulas|
        invariant cache == ExpCache(formulas[..i])
      {
        assert formulas[..i + 1][..i] == formulas[..i];
        cache := cache[formulas[i].exp := formulas[i].parsed];
      }
      assert formulas[..|formulas|] == formulas;
    }

    /** updateFormulas: each input takes the parse result of a previous formula
        with the same expression, or is parsed (an exception becomes that
        formula's error). A list equal to the old one changes nothing; any
        other replaces the formulas and drops every panel. */
    method UpdateFormulas(rd: Reader, inputs: seq<LegacyInput>)
      requires Valid()
      modifies this`formulas, this`panels, this`needsRender, this`nextId
      ensures Valid() && nextId == old(nextId) + |inputs|
      ensures formulas == FormulasAfter(old(formulas), inputs, rd, old(nextId))
      ensures formulas == old(formulas) ==> panels == old(panels) && needsRender == old(needsRender)
      ensures formulas != old(formulas) ==> panels == map[] && needsRender
    {
      var cache := BuildExpCache();
      var next := Relisted(cache, inputs, rd, nextId);
      assert IdsOk(next, nextId + |inputs|) by {
        forall i | 0 <= i < |next| && next[i].parsed.Plot?
          ensures next[i].parsed.id < nextId + |inputs|
        {
          if inputs[i].exp in cache {
            ExpCacheLast(formulas, inputs[i].exp);
          }
        }
      }
      nextId := nextId + |inputs|;
      if SameList(formulas, next) {
        return;
      }
      formulas := next;
      InvalidatePanels();
    }

    /** updateRendering: equal options do nothing; a new line width drops every
        panel. Other changes are taken without asking for a render. */
    method UpdateRendering(r: LegacyRendering)
      requires Valid()
      modifies this`rendering, this`panels, this`needsRender
      ensures Valid() && rendering == r
      ensures r.lineWidth != old(rendering).lineWidth ==> panels == map[] && needsRender
      ensures r.lineWidth == old(rendering).lineWidth ==> panels == old(panels) && needsRender == old(needsRender)
    {
      if r == rendering {
        return;
      }
      if rendering.lineWidth != r.lineWidth {
        InvalidatePanels();
      }
      rendering := r;
    }

    /** updateSize: the size is rounded; an unchanged size does nothing. */
    method UpdateSize(size: XY)
      modifies this`width, this`height, this`needsRender
      ensures width == Round(size.x) && height == Round(size.y)
      ensures needsRender == (old(needsRender) || width != old(width) || height != old(height))
    {
      var w, h := Round(size.x), Round(size.y);
      if width == w && height == h {
        return;
      }
      width, height := w, h;
      needsRender := true;
    }

    /** updateViewport: an equal viewport does nothing. */
    method UpdateViewport(v: Viewport)
      modifies this`viewport, this`needsRender
      ensures viewport == v
      ensures needsRender == (old(needsRender) || v != old(viewport))
    {
      if v == viewport {
        return;
      }
      viewport := v;
      needsRender := true;
    }

    /** update: the formulas, the rendering options, the size and the viewport,
        each replaced when given, then a render, which may calculate and may
        throw (see LegacyFrameOf). */
    method Update(info: LegacyInfo, rd: Reader, hasContext: bool, overBudget: nat -> bool)
        returns (frame: LegacyFrame, computed: seq<Pos>, draws: seq<seq<LegacyDraw>>)
      requires Valid()
      requires Or(info.viewport, viewport).Positive()
      modifies this
      ensures Valid()
      ensures formulas == if info.formulas.Some? then FormulasAfter(old(formulas), info.formulas.value, rd, old(nextId)) else old(formulas)
      ensures rendering == Or(info.rendering, old(rendering))
      ensures info.size.Some? ==> width == Round(info.size.value.x) && height == Round(info.size.value.y)
      ensures info.size.None? ==> width == old(width) && height == old(height)
      ensures viewport == Or(info.viewport, old(viewport))
      ensures calcPaused == old(calcPaused)
      ensures Rendered(formulas, LegacyRangeOf(width, height, viewport), calcPaused, hasContext, overBudget,
                       PatchedPanels(old(formulas), formulas, old(rendering), info, old(panels)),
                       PatchedRequest(old(needsRender), old(formulas), formulas, old(rendering), old(width), old(height), old(viewport), info),
                       old(nextCanvas), panels, needsRender, nextCanvas, frame, computed, draws)
    {
      Patch(info, rd);
      frame, computed, draws := Render(hasContext, overBudget);
    }

    /** The parts of update before its render. */
    method Patch(info: LegacyInfo, rd: Reader)
      requires Valid()
      modifies this`formulas, this`panels, this`needsRender, this`nextId, this`rendering, this`width, this`height, this`viewport
      ensures Valid()
      ensures formulas == if info.formulas.Some? then FormulasAfter(old(formulas), info.formulas.value, rd, old(nextId)) else old(formulas)
      ensures rendering == Or(info.rendering, old(rendering))
      ensures info.size.Some? ==> width == Round(info.size.value.x) && height == Round(info.size.value.y)
      ensures info.size.None? ==> width == old(width) && height == old(height)
      ensures viewport == Or(info.viewport, old(viewport))
      ensures panels == PatchedPanels(old(formulas), formulas, old(rendering), info, old(panels))
      ensures needsRender == PatchedRequest(old(needsRender), old(formulas), formulas, old(rendering), old(width), old(height), old(viewport), info)
    {
      PatchContent(info, rd);
      PatchPlacement(info);
    }

    /** The formulas and rendering parts of update. */
    method PatchContent(info: LegacyInfo, rd: Reader)
      requires Valid()
      modifies this`formulas, this`panels, this`needsRender, this`nextId, this`rendering
      ensures Valid()
      ensures formulas == if info.formulas.Some? then FormulasAfter(old(formulas), info.formulas.value, rd, old(nextId)) else old(formulas)
      ensures rendering == Or(info.rendering, old(rendering))
      ensures panels == PatchedPanels(old(formulas), formulas, old(rendering), info, old(panels))
      ensures needsRender == (old(needsRender) || formulas != old(formulas) || NewLineWidth(info.rendering, old(rendering)))
    {
      if info.formulas.Some? {
        UpdateFormulas(rd, info.formulas.value);
      }
      if info.rendering.Some? {
        UpdateRendering(info.rendering.value);
      }
    }

    /** The size and viewport parts of update. */
    method PatchPlacement(info: LegacyInfo)
      modifies this`needsRender, this`width, this`height, this`viewport
      ensures info.size.Some? ==> width == Round(info.size.value.x) && height == Round(info.size.value.y)
      ensures info.size.None? ==> width == old(width) && height == old(height)
      ensures viewport == Or(info.viewport, old(viewport))
      ensures needsRender == (|| old(needsRender)
                              || (info.size.Some? && (Round(info.size.value.x) != old(width) || Round(info.size.value.y) != old(height)))
                              || (info.viewport.Some? && info.viewport.value != old(viewport)))
    {
      if info.size.Some? {
        UpdateSize(info.size.value);
      }
      if info.viewport.Some? {
        UpdateViewport(info.viewport.value);
      }
    }

    /** render: see Rendered. */
    method Render(hasContext: bool, overBudget: nat -> bool) returns (frame: LegacyFrame, computed: seq<Pos>, draws: seq<seq<LegacyDraw>>)
      requires Valid() && viewport.Positive()
      modifies this`panels, this`nextCanvas, this`needsRender
      ensures Valid()
      ensures Rendered(formulas, LegacyRangeOf(width, height, viewport), calcPaused, hasContext, overBudget,
                       old(panels), old(needsRender), old(nextCanvas), panels, needsRender, nextCanvas, frame, computed, draws)
    {
      computed, draws := [], [];
      if !needsRender || !hasContext {
        return NoFrame, [], [];
      }
      needsRender := false;
      if !calcPaused {
        ghost var kept, evicted;
        computed, draws, kept, evicted := Calculate(overBudget);
        EvictedCount(old(panels), kept);
      }
      frame := LegacyFrameOf(formulas, panels);
    }

    /** calculate. Panels more than one outside the range are dropped and
        their canvas arrays kept for reuse; every missing panel of the range is
        then made, column by column, taking the last kept array or creating
        one canvas per formula, and each formula that parsed is drawn on its
        canvas. After each new panel the budget is checked; a spent budget asks
        for another render and ends only the column. */
    method Calculate(overBudget: nat -> bool)
        returns (computed: seq<Pos>, draws: seq<seq<LegacyDraw>>, ghost kept: map<Pos, LegacyPanel>, ghost evicted: nat)
      requires Valid() && viewport.Positive()
      modifies this`panels, this`nextCanvas, this`needsRender
      ensures Valid()
      ensures kept == NearPanels(old(panels), LegacyRangeOf(width, height, viewport))
      ensures computed == LegacySchedule(LegacyRangeOf(width, height, viewport), kept.Keys, overBudget)
      ensures Progress(formulas, panels, kept, computed, draws)
      ensures needsRender == (old(needsRender) || Interrupted(|computed|, overBudget))
      ensures evicted == |old(panels).Keys| - |kept.Keys|
      ensures nextCanvas == old(nextCanvas) + Times(|formulas|, Excess(|computed|, evicted))
      ensures (forall n :: !overBudget(n)) ==>
        needsRender == old(needsRender) && forall p :: LegacyRangeOf(width, height, viewport).Contains(p) ==> p in panels
    {
      computed, draws, kept, evicted := SweepRange(LegacyRangeOf(width, height, viewport), overBudget);
    }

    /** Calculate over a given panel range: eviction, then the sweep. */
    method SweepRange(r: PanelRange, overBudget: nat -> bool)
        returns (computed: seq<Pos>, draws: seq<seq<LegacyDraw>>, ghost kept: map<Pos, LegacyPanel>, ghost evicted: nat)
      requires Valid()
      modifies this`panels, this`nextCanvas, this`needsRender
      ensures Valid()
      ensures kept == NearPanels(old(panels), r)
      ensures computed == LegacySchedule(r, kept.Keys, overBudget)
      ensures Progress(formulas, panels, kept, computed, draws)
      ensures needsRender == (old(needsRender) || Interrupted(|computed|, overBudget))
      ensures evicted == |old(panels).Keys| - |kept.Keys|
      ensures nextCanvas == old(nextCanvas) + Times(|formulas|, Excess(|computed|, evicted))
      ensures (forall n :: !overBudget(n)) ==> needsRender == old(needsRender) && forall p :: r.Contains(p) ==> p in panels
    {
      ghost var nc0 := nextCanvas;
      kept := NearPanels(panels, r);
      var unused := EvictPanels(r);
      evicted := |unused|;
      ghost var nr0 := needsRender;
      SweepingStart(formulas, panels, nextCanvas, needsRender, unused, overBudget);
      ghost var pool;
      computed, draws, pool := Sweep(r, unused, kept, overBudget, nc0, nr0);
      CalculateEnd(formulas, panels, nextCanvas, needsRender, r, kept, computed, draws, pool, evicted, nc0, nr0, overBudget);
    }

    /** The eviction loop of calculate. */
    method EvictPanels(r: PanelRange) returns (unused: seq<LegacyPanel>)
      requires Valid()
      modifies this`panels
      ensures Valid() && PoolOk(unused, |formulas|, nextCanvas)
      ensures panels == NearPanels(old(panels), r)
      ensures |unused| + |panels.Keys| == |old(panels).Keys|
    {
      var kept := panels;
      var n, nc := |formulas|, nextCanvas;
      unused := [];
      var todo := kept.Keys;
      while todo != {}
        invariant todo <= kept.Keys
        invariant forall p :: p in kept ==> p in old(panels) && kept[p] == old(panels)[p]
        invariant forall p :: p in old(panels) ==> (p in kept <==> p in todo || r.Near(old(panels)[p].ix, old(panels)[p].iy))
        invariant |unused| + |kept.Keys| == |old(panels).Keys|
        invariant PanelsOk(kept, n, nc) && PoolOk(unused, n, nc)
        decreases todo
      {
        var p :| p in todo;
        var panel := kept[p];
        if !r.Near(panel.ix, panel.iy) {
          EvictStep(kept, unused, p, n, nc);
          kept := kept - {p};
          unused := unused + [panel];
        }
        todo := todo - {p};
      }
      panels := kept;
    }

    /** The column loop of calculate. */
    method Sweep(r: PanelRange, unused: seq<LegacyPanel>, ghost kept: map<Pos, LegacyPanel>, overBudget: nat -> bool,
                 ghost nc0: nat, ghost nr0: bool)
        returns (computed: seq<Pos>, draws: seq<seq<LegacyDraw>>, ghost pool: seq<LegacyPanel>)
      requires Sweeping(formulas, panels, nextCanvas, needsRender, kept, [], [], unused, |unused|, nc0, nr0, overBudget)
      modifies this`panels, this`nextCanvas, this`needsRender
      ensures computed == LegacySweepFrom(r.ixMin, r, kept.Keys, 0, overBudget)
      ensures Sweeping(formulas, panels, nextCanvas, needsRender, kept, computed, draws, pool, |unused|, nc0, nr0, overBudget)
    {
      ghost var n0: nat := |unused|;
      computed, draws := [], [];
      var rest := unused;
      var ix := r.ixMin;
      ghost var whole := LegacySweepFrom(r.ixMin, r, kept.Keys, 0, overBudget);
      assert whole == computed + LegacySweepFrom(ix, r, kept.Keys, |computed|, overBudget);
      while ix <= r.ixMax
        invariant whole == computed + LegacySweepFrom(ix, r, kept.Keys, |computed|, overBudget)
        invariant NewBefore(panels, kept, (ix, r.iyMin))
        invariant Sweeping(formulas, panels, nextCanvas, needsRender, kept, computed, draws, rest, n0, nc0, nr0, overBudget)
        decreases r.ixMax - ix + 1
      {
        computed, draws, rest := Column(ix, r, kept, whole, computed, draws, rest, n0, nc0, nr0, overBudget);
        ix := ix + 1;
      }
      LegacySweepEnd(whole, computed, ix, r, kept.Keys, overBudget);
      pool := rest;
    }

    /** The row loop of calculate, for column ix. */
    method Column(ix: int, r: PanelRange, ghost kept: map<Pos, LegacyPanel>, ghost schedule: seq<Pos>, computed0: seq<Pos>,
                  draws0: seq<seq<LegacyDraw>>, pool0: seq<LegacyPanel>, ghost unused: nat, ghost nc0: nat, ghost nr0: bool,
                  overBudget: nat -> bool)
        returns (computed: seq<Pos>, draws: seq<seq<LegacyDraw>>, pool: seq<LegacyPanel>)
      requires ix <= r.ixMax && schedule == computed0 + LegacySweepFrom(ix, r, kept.Keys, |computed0|, overBudget)
      requires Sweeping(formulas, panels, nextCanvas, needsRender, kept, computed0, draws0, pool0, unused, nc0, nr0, overBudget)
      requires NewBefore(panels, kept, (ix, r.iyMin))
      modifies this`panels, this`nextCanvas, this`needsRender
      ensures Sweeping(formulas, panels, nextCanvas, needsRender, kept, computed, draws, pool, unused, nc0, nr0, overBudget)
      ensures schedule == computed + LegacySweepFrom(ix + 1, r, kept.Keys, |computed|, overBudget)
      ensures NewBefore(panels, kept, (ix + 1, r.iyMin))
    {
      LegacySweepNext(schedule, computed0, ix, r, kept.Keys, overBudget);
      computed, draws, pool := Rows(ix, r.iyMin, r.iyMax, kept, computed0, draws0, pool0, unused, nc0, nr0, overBudget);
    }

    /** The rows iy0 .. iyMax of column ix, until the budget is spent. */
    method Rows(ix: int, iy0: int, iyMax: int, ghost kept: map<Pos, LegacyPanel>, computed0: seq<Pos>,
                draws0: seq<seq<LegacyDraw>>, pool0: seq<LegacyPanel>, ghost unused: nat, ghost nc0: nat, ghost nr0: bool,
                overBudget: nat -> bool)
        returns (computed: seq<Pos>, draws: seq<seq<LegacyDraw>>, pool: seq<LegacyPanel>)
      requires Sweeping(formulas, panels, nextCanvas, needsRender, kept, computed0, draws0, pool0, unused, nc0, nr0, overBudget)
      requires NewBefore(panels, kept, (ix, iy0))
      modifies this`panels, this`nextCanvas, this`needsRender
      ensures Sweeping(formulas, panels, nextCanvas, needsRender, kept, computed, draws, pool, unused, nc0, nr0, overBudget)
      ensures computed == computed0 + LegacyColumn(ix, iy0, iyMax, kept.Keys, |computed0|, overBudget)
      ensures NewBefore(panels, kept, (ix + 1, iy0))
    {
      computed, draws, pool := computed0, draws0, pool0;
      ghost var whole := computed0 + LegacyColumn(ix, iy0, iyMax, kept.Keys, |computed0|, overBudget);
      var iy := iy0;
      var stop := false;
      while iy <= iyMax && !stop
        invariant whole == computed + (if stop then [] else LegacyColumn(ix, iy, iyMax, kept.Keys, |computed|, overBudget))
        invariant NewBefore(panels, kept, (ix, iy))
        invariant Sweeping(formulas, panels, nextCanvas, needsRender, kept, computed, draws, pool, unused, nc0, nr0, overBudget)
        decreases iyMax - iy + 1
      {
        ghost var before := computed;
        computed, draws, pool, stop := Visit((ix, iy), kept, computed, draws, pool, unused, nc0, nr0, overBudget);
        LegacyColumnStep(whole, before, computed, ix, iy, iyMax, kept.Keys, overBudget);
        iy := iy + 1;
      }
      assert computed + [] == computed;
      NewBeforeColumn(panels, kept, ix, iy, iy0);
    }

    /** One row of the loop: a panel that exists is skipped; otherwise it is
        made, and the budget is checked; a spent budget asks for another render. */
    method Visit(pos: Pos, ghost kept: map<Pos, LegacyPanel>, computed0: seq<Pos>, draws0: seq<seq<LegacyDraw>>,
                 pool0: seq<LegacyPanel>, ghost unused: nat, ghost nc0: nat, ghost nr0: bool, overBudget: nat -> bool)
        returns (computed: seq<Pos>, draws: seq<seq<LegacyDraw>>, pool: seq<LegacyPanel>, stop: bool)
      requires NewBefore(panels, kept, pos)
      requires Sweeping(formulas, panels, nextCanvas, needsRender, kept, computed0, draws0, pool0, unused, nc0, nr0, overBudget)
      modifies this`panels, this`nextCanvas, this`needsRender
      ensures Sweeping(formulas, panels, nextCanvas, needsRender, kept, computed, draws, pool, unused, nc0, nr0, overBudget)
      ensures computed == if pos in kept then computed0 else computed0 + [pos]
      ensures stop == (pos !in kept && overBudget(|computed|))
      ensures NewBefore(panels, kept, (pos.0, pos.1 + 1))
    {
      if pos in panels {
        return computed0, draws0, pool0, false;
      }
      computed, draws, pool, stop := Compute(pos, kept, computed0, draws0, pool0, unused, nc0, nr0, overBudget);
    }

    /** A missing panel of the loop: it is made, then the budget is checked. */
    method Compute(pos: Pos, ghost kept: map<Pos, LegacyPanel>, computed0: seq<Pos>, draws0: seq<seq<LegacyDraw>>,
                   pool0: seq<LegacyPanel>, ghost unused: nat, ghost nc0: nat, ghost nr0: bool, overBudget: nat -> bool)
        returns (computed: seq<Pos>, draws: seq<seq<LegacyDraw>>, pool: seq<LegacyPanel>, stop: bool)
      requires pos !in panels && NewBefore(panels, kept, pos)
      requires Sweeping(formulas, panels, nextCanvas, needsRender, kept, computed0, draws0, pool0, unused, nc0, nr0, overBudget)
      modifies this`panels, this`nextCanvas, this`needsRender
      ensures Sweeping(formulas, panels, nextCanvas, needsRender, kept, computed, draws, pool, unused, nc0, nr0, overBudget)
      ensures computed == computed0 + [pos] && stop == overBudget(|computed|)
      ensures NewBefore(panels, kept, (pos.0, pos.1 + 1))
    {
      draws, pool := NewPanel(pos, kept, computed0, draws0, pool0, unused, nc0);
      computed := computed0 + [pos];
      InterruptedNext(|computed0|, overBudget);
      stop := overBudget(|computed|);
      if stop {
        needsRender := true;
      }
    }

    /** One new panel: its canvases, and the render calls on them. */
    method NewPanel(pos: Pos, ghost kept: map<Pos, LegacyPanel>, ghost computed: seq<Pos>, draws0: seq<seq<LegacyDraw>>,
                    pool0: seq<LegacyPanel>, ghost unused: nat, ghost nc0: nat)
        returns (draws: seq<seq<LegacyDraw>>, pool: seq<LegacyPanel>)
      requires PanelsOk(panels, |formulas|, nextCanvas) && PoolOk(pool0, |formulas|, nextCanvas)
      requires Progress(formulas, panels, kept, computed, draws0)
      requires Allocated(pool0, unused, |computed|, |formulas|, nextCanvas, nc0)
      requires pos !in panels
      modifies this`panels, this`nextCanvas
      ensures PanelsOk(panels, |formulas|, nextCanvas) && PoolOk(pool, |formulas|, nextCanvas)
      ensures Progress(formulas, panels, kept, computed + [pos], draws)
      ensures Allocated(pool, unused, |computed| + 1, |formulas|, nextCanvas, nc0)
      ensures panels.Keys == old(panels).Keys + {pos}
    {
      var canvases;
      canvases, pool := TakeCanvases(pool0, unused, |computed|, nc0);
      var ds := DrawPanel(pos, canvases);
      var panel := LegacyPanel(pos.0, pos.1, canvases);
      ProgressNext(formulas, panels, kept, computed, draws0, pos, panel);
      panels := panels[pos := panel];
      draws := draws0 + [ds];
    }

    /** `unusedPanels.pop()?.canvases`, or a new canvas per formula. */
    method TakeCanvases(pool0: seq<LegacyPanel>, ghost unused: nat, ghost done: nat, ghost nc0: nat)
        returns (canvases: seq<nat>, pool: seq<LegacyPanel>)
      requires PanelsOk(panels, |formulas|, nextCanvas) && PoolOk(pool0, |formulas|, nextCanvas)
      requires Allocated(pool0, unused, done, |formulas|, nextCanvas, nc0)
      modifies this`nextCanvas
      ensures PanelsOk(panels, |formulas|, nextCanvas) && PoolOk(pool, |formulas|, nextCanvas)
      ensures |canvases| == |formulas| && CreatedBelow(canvases, nextCanvas)
      ensures Allocated(pool, unused, done + 1, |formulas|, nextCanvas, nc0)
      ensures pool0 != [] ==> canvases == pool0[|pool0| - 1].canvases && pool == pool0[..|pool0| - 1] && nextCanvas == old(nextCanvas)
      ensures pool0 == [] ==> (pool == [] && nextCanvas == old(nextCanvas) + |formulas|
        && forall i :: 0 <= i < |canvases| ==> canvases[i] == old(nextCanvas) + i)
    {
      if pool0 != [] {
        canvases := pool0[|pool0| - 1].canvases;
        pool := pool0[..|pool0| - 1];
        assert pool0[|pool0| - 1] in pool0;
        assert forall q :: q in pool ==> q in pool0;
      } else {
        var n, base := |formulas|, nextCanvas;
        canvases := seq(n, i requires 0 <= i < n => base + i);
        nextCanvas := nextCanvas + |formulas|;
        CreatedMore(panels, pool0, |formulas|, base, nextCanvas);
        pool := [];
      }
    }

    /** The formula loop for a new panel. */
    method DrawPanel(pos: Pos, canvases: seq<nat>) returns (ds: seq<LegacyDraw>)
      requires |canvases| == |formulas|
      ensures ds == PanelDraws(formulas, pos, canvases)
    {
      ds := [];
      for i := 0 to |formulas|
        invariant ds == PanelDraws(formulas[..i], pos, canvases[..i])
      {
        assert formulas[..i + 1][..i] == formulas[..i] && canvases[..i + 1][..i] == canvases[..i];
        if formulas[i].parsed.Plot? {
          ds := ds + [LegacyDraw(pos, i, canvases[i])];
        }
      }
      assert formulas[..|formulas|] == formulas && canvases[..|canvases|] == canvases;
    }
  }

  /** `new View(info)` of src/view.ts: the fields are initialised, then update(info) runs. */
  method NewLegacyView(info: LegacyInfo, rd: Reader, hasContext: bool, overBudget: nat -> bool) returns (v: LegacyView)
    requires Or(info.viewport, LegacyDefaultViewport).Positive()
    ensures fresh(v) && v.Valid()
    ensures v.rendering == Or(info.rendering, LegacyDefaultRendering)
    ensures v.viewport == Or(info.viewport, LegacyDefaultViewport)
    ensures v.formulas == if info.formulas.Some? then FormulasAfter([], info.formulas.value, rd, 0) else []
  {
    v := new LegacyView(info);
    var frame, computed, draws := v.Update(info, rd, hasContext, overBudget);
  }
}
