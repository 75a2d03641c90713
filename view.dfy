/** The view of dist/view.js: it keeps the formulas, divides the plane into
    square panels of 64 pixels keyed by their grid index, draws one layer per
    formula on each panel, and shares one-dimensional results between the
    panels of a column or a row. Canvases are numbered as they are created;
    what is drawn on them is recorded as the render calls made. numcore's
    `texToPlain` and `parse` are parameters, and the wall clock of the
    calculation budget is the parameter `overBudget(n)`: the budget is spent
    once n panels have been computed. */
module Views {
  import opened Common
  import opened Parser
  import opened Formulas
  import opened PanelGrid
  import opened Layers
  import opened Frames

  /** The fields of the view that a caller can observe. */
  datatype ViewState = ViewState(formulas: seq<Formula>, needsRender: bool, calcPaused: bool, width: int, height: int,
                                 viewport: Viewport, rendering: Rendering, panels: map<Pos, PanelState>,
                                 cache: map<CacheKey, Calc>)

  /** The formulas updateFormulas leaves for the inputs, or the exception of the parser. */
  function NextFormulas(fs: seq<Formula>, inputs: seq<FormulaInput>, nc: Numcore, parse: seq<string> -> seq<ParseResult>,
                        texToPlain: string -> Outcome<string>, base: nat): Outcome<seq<Formula>>
    requires ParsesAll(parse, inputs, texToPlain)
  {
    if SameTexts(fs, inputs) then Done(Restyled(fs, inputs))
    else
      var tfs := TextFormulas(inputs, texToPlain);
      var parsed := ParsedList(nc, parse, Texts(tfs));
      if parsed.Escaped? then Escaped(parsed.message)
      else Done(Reparsed(KeyCache(fs), inputs, tfs, parsed.value, base))
  }

  /** The formulas after the formulas part of an update: unchanged without new inputs. */
  function FormulasAfter(fs: seq<Formula>, inputs: Option<seq<FormulaInput>>, nc: Numcore, parse: seq<string> -> seq<ParseResult>,
                         texToPlain: string -> Outcome<string>, base: nat): Outcome<seq<Formula>>
    requires inputs.Some? ==> ParsesAll(parse, inputs.value, texToPlain)
  {
    if inputs.None? then Done(fs) else NextFormulas(fs, inputs.value, nc, parse, texToPlain, base)
  }

  /** Setting calcPaused to false when it was true asks for a render. */
  predicate Resumes(calcPaused: bool, patch: Option<bool>)
  {
    patch.Some? && patch.value != calcPaused && !patch.value
  }

  /** The calcPaused part of update: a different value is taken, and resuming asks for a render. */
  function Paused(s: ViewState, patch: Option<bool>): (t: ViewState)
    ensures t.calcPaused == Or(patch, s.calcPaused)
    ensures t.needsRender == (s.needsRender || Resumes(s.calcPaused, patch))
    ensures t == s.(calcPaused := t.calcPaused, needsRender := t.needsRender)
  {
    if patch.Some? && s.calcPaused != patch.value then s.(calcPaused := patch.value, needsRender := s.needsRender || !patch.value)
    else s
  }

  /** The end of updateFormulas: the new list is kept, and a change of what is drawn asks for a render. */
  function Reformulated(s: ViewState, next: seq<Formula>): ViewState
  {
    s.(formulas := next, needsRender := s.needsRender || !SameRenderings(s.formulas, next))
  }

  /** The rendering, size and viewport parts of update: each is patched over
      the current value; a changed one asks for a render, and a new line width
      drops every panel. */
  function Patched(s: ViewState, info: UpdateInfo): ViewState
  {
    var r := if info.rendering.Some? then PatchRendering(s.rendering, info.rendering.value) else s.rendering;
    var w := if info.size.Some? then Round(Or(info.size.value.width, s.width as real)) else s.width;
    var h := if info.size.Some? then Round(Or(info.size.value.height, s.height as real)) else s.height;
    var v := if info.viewport.Some? then PatchViewport(s.viewport, info.viewport.value) else s.viewport;
    s.(rendering := r, width := w, height := h, viewport := v,
       panels := if r.lineWidth != s.rendering.lineWidth then map[] else s.panels,
       needsRender := s.needsRender || r != s.rendering || w != s.width || h != s.height || v != s.viewport)
  }

  /** The fields a new view starts from: no formulas and no panels, a render
      asked for, calculation running, and the rendering options, the viewport
      and the size of the info over the defaults (a 256 by 256 canvas). */
  function Initial(info: UpdateInfo): ViewState
  {
    ViewState([], true, false,
      Round(if info.size.Some? then Or(info.size.value.width, 256.0) else 256.0),
      Round(if info.size.Some? then Or(info.size.value.height, 256.0) else 256.0),
      if info.viewport.Some? then PatchViewport(DefaultViewport, info.viewport.value) else DefaultViewport,
      if info.rendering.Some? then PatchRendering(DefaultRendering, info.rendering.value) else DefaultRendering,
      map[], map[])
  }

  /** Rounding an integer gives it back. */
  lemma RoundInt(n: int)
    ensures Round(n as real) == n
  {
  }

  /** The update the constructor runs on its own info takes the formulas and
      calcPaused and changes none of the options the constructor already set. */
  lemma ConstructorUpdate(info: UpdateInfo, next: seq<Formula>)
    ensures var s := Patched(Reformulated(Paused(Initial(info), info.calcPaused), next), info);
      && s.rendering == Initial(info).rendering && s.viewport == Initial(info).viewport
      && s.width == Initial(info).width && s.height == Initial(info).height
      && s.formulas == next && s.calcPaused == Or(info.calcPaused, false)
      && s.panels == map[] && s.cache == map[] && s.needsRender
  {
    var s := Initial(info);
    RoundInt(s.width);
    RoundInt(s.height);
  }

  class View {
    var formulas: seq<Formula>
    var needsRender: bool
    var calcPaused: bool
    var width: int
    var height: int
    var viewport: Viewport
    var rendering: Rendering
    var panels: map<Pos, PanelState>
    var cache: map<CacheKey, Calc>
    /** The identity the next object made by parsing gets. */
    var nextId: nat
    /** The number of canvases created so far; the next one gets this number. */
    var nextCanvas: nat
    /** Where each created canvas is. */
    ghost var owner: map<nat, Slot>

    function State(): ViewState
      reads this
    {
      ViewState(formulas, needsRender, calcPaused, width, height, viewport, rendering, panels, cache)
    }

    /** Panels sit under their own grid index; every layer's canvas is owned by
      that layer alone, so no canvas shows in two layers; parsed objects and
      canvases are numbered below the counters. */
    ghost predicate Valid()
      reads this
    {
      Placed() && Settled(owner)
    }

    /** Valid, except that a panel may be in progress. */
    ghost predicate Placed()
      reads this
    {
      Indexed(panels) && LayersOwned(panels, owner) && CanvasesBelow(owner, nextCanvas) && IdsBelow(formulas, nextId)
    }

    /** The canvases of the reuse pool are created and not shown. */
    ghost predicate PoolOk(pool: set<nat>)
      reads this
    {
      PoolOwned(owner, pool)
    }

    /** Two different layers never share a canvas. */
    lemma LayersDistinct(p: Pos, k: RenderKey, q: Pos, l: RenderKey)
      requires Valid()
      requires p in panels && k in panels[p].canvases && q in panels && l in panels[q].canvases
      requires (p, k) != (q, l)
      ensures panels[p].canvases[k] != panels[q].canvases[l]
    {
    }

    /** The field initialisers of the constructor; the constructor then runs
        update(info), which NewView below models. */
    constructor(info: UpdateInfo)
      ensures Valid() && nextId == 0
      ensures State() == Initial(info)
    {
      formulas := [];
      needsRender := true;
      calcPaused := false;
      panels := map[];
      cache := map[];
      rendering := if info.rendering.Some? then PatchRendering(DefaultRendering, info.rendering.value) else DefaultRendering;
      viewport := if info.viewport.Some? then PatchViewport(DefaultViewport, info.viewport.value) else DefaultViewport;
      width := Round(if info.size.Some? then Or(info.size.value.width, 256.0) else 256.0);
      height := Round(if info.size.Some? then Or(info.size.value.height, 256.0) else 256.0);
      nextId := 0;
      nextCanvas := 0;
      owner := map[];
    }

    /** update: calcPaused, then the formulas, then the rendering options,
        the size and the viewport, then a render that never calculates. An
        exception from the parser ends the update after calcPaused. */
    method Update(info: UpdateInfo, nc: Numcore, parse: seq<string> -> seq<ParseResult>, texToPlain: string -> Outcome<string>,
                  hasContext: bool) returns (out: Outcome<Option<Frame>>)
      requires Valid()
      requires info.formulas.Some? ==> ParsesAll(parse, info.formulas.value, texToPlain)
      modifies this
      ensures Valid()
      ensures var next := FormulasAfter(old(formulas), info.formulas, nc, parse, texToPlain, old(nextId));
        && (out.Escaped? <==> next.Escaped?)
        && (out.Escaped? ==> State() == Paused(old(State()), info.calcPaused))
        && (out.Done? ==> State() == Patched(Reformulated(Paused(old(State()), info.calcPaused), next.value), info))
      ensures out.Done? ==> out.value == (if needsRender && hasContext then Some(FrameOf(rendering, formulas, panels)) else None)
    {
      Pause(info.calcPaused);
      var escaped := TakeFormulas(info.formulas, nc, parse, texToPlain);
      if escaped {
        return Escaped("parse");
      }
      PatchOptions(info);
      var frame, done, renders := Render(false, hasContext, n => true);
      out := Done(frame);
    }

    /** The calcPaused part of update. */
    method Pause(patch: Option<bool>)
      requires Valid()
      modifies this`calcPaused, this`needsRender
      ensures Valid()
      ensures State() == Paused(old(State()), patch)
    {
      if patch.Some? && calcPaused != patch.value {
        calcPaused := patch.value;
        needsRender := needsRender || !calcPaused;
      }
    }

    /** The formulas part of update: updateFormulas when the update has formulas. */
    method TakeFormulas(inputs: Option<seq<FormulaInput>>, nc: Numcore, parse: seq<string> -> seq<ParseResult>,
                        texToPlain: string -> Outcome<string>) returns (escaped: bool)
      requires Valid()
      requires inputs.Some? ==> ParsesAll(parse, inputs.value, texToPlain)
      modifies this
      ensures Valid()
      ensures var next := FormulasAfter(old(formulas), inputs, nc, parse, texToPlain, old(nextId));
        && (escaped <==> next.Escaped?)
        && (escaped ==> State() == old(State()))
        && (!escaped ==> State() == Reformulated(old(State()), next.value))
    {
      if inputs.None? {
        assert SameRenderings(formulas, formulas);
        return false;
      }
      var next := UpdateFormulas(nc, parse, texToPlain, inputs.value);
      escaped := next.Escaped?;
    }

    /** The rendering options, the size and the viewport of an update, each patched over the current one. */
    method PatchOptions(info: UpdateInfo)
      requires Valid()
      modifies this
      ensures Valid() && nextId == old(nextId)
      ensures State() == Patched(old(State()), info)
    {
      if info.rendering.Some? {
        UpdateRendering(PatchRendering(rendering, info.rendering.value));
      }
      if info.size.Some? {
        UpdateSize(Or(info.size.value.width, width as real), Or(info.size.value.height, height as real));
      }
      if info.viewport.Some? {
        UpdateViewport(PatchViewport(viewport, info.viewport.value));
      }
    }

    /** invalidatePanels: every layer is released and no panel is left. */
    method InvalidatePanels()
      requires Valid()
      modifies this
      ensures Valid()
      ensures State() == old(State()).(panels := map[], needsRender := true)
      ensures nextId == old(nextId)
    {
      owner := map c | c in owner :: if owner[c].Layer? then Released else owner[c];
      panels := map[];
      needsRender := true;
    }

    /** updateRendering: nothing happens for equal options; otherwise they are
        taken and drawn again, and a new line width drops every panel. */
    method UpdateRendering(r: Rendering)
      requires Valid()
      modifies this
      ensures Valid() && nextId == old(nextId)
      ensures r == old(rendering) ==> State() == old(State())
      ensures r != old(rendering) ==> State() == old(State()).(rendering := r, needsRender := true,
        panels := if r.lineWidth != old(rendering).lineWidth then map[] else old(panels))
    {
      if r == rendering {
        return;
      }
      if rendering.lineWidth != r.lineWidth {
        InvalidatePanels();
      }
      rendering := r;
      needsRender := true;
    }

    /** updateSize: the size is rounded; an unchanged size does nothing. */
    method UpdateSize(w: real, h: real)
      requires Valid()
      modifies this
      ensures Valid() && nextId == old(nextId)
      ensures Round(w) == old(width) && Round(h) == old(height) ==> State() == old(State())
      ensures !(Round(w) == old(width) && Round(h) == old(height)) ==>
        State() == old(State()).(width := Round(w), height := Round(h), needsRender := true)
    {
      var wi := Round(w);
      var hi := Round(h);
      if width == wi && height == hi {
        return;
      }
      width := wi;
      height := hi;
      needsRender := true;
    }

    /** updateViewport: an equal viewport does nothing. Panels stay; the next
        calculation decides which of them are still in range. */
    method UpdateViewport(v: Viewport)
      requires Valid()
      modifies this
      ensures Valid() && nextId == old(nextId)
      ensures v == old(viewport) ==> State() == old(State())
      ensures v != old(viewport) ==> State() == old(State()).(viewport := v, needsRender := true)
    {
      if v == viewport {
        return;
      }
      viewport := v;
      needsRender := true;
    }

    /** updateFormulas. An unchanged list of texts keeps every parse result and
        takes only the new colors and fill alphas. A changed list is parsed
        again (a texToPlain failure becomes that formula's error), and a
        drawable result whose key a previous formula had is replaced by that
        previous object, so its layers and cached results stay valid. A new
        rendering projection asks for a render. An exception from the parser
        leaves the view as it was. */
    method UpdateFormulas(nc: Numcore, parse: seq<string> -> seq<ParseResult>, texToPlain: string -> Outcome<string>,
                          inputs: seq<FormulaInput>) returns (out: Outcome<seq<Formula>>)
      requires Valid()
      requires ParsesAll(parse, inputs, texToPlain)
      modifies this
      ensures Valid()
      ensures SameTexts(old(formulas), inputs) ==> out == Done(Restyled(old(formulas), inputs))
      ensures !SameTexts(old(formulas), inputs) ==>
        var tfs := TextFormulas(inputs, texToPlain);
        var parsed := ParsedList(nc, parse, Texts(tfs));
        && (out.Escaped? <==> parsed.Escaped?)
        && (parsed.Done? ==> out == Done(Reparsed(KeyCache(old(formulas)), inputs, tfs, parsed.value, old(nextId))))
      ensures out.Escaped? ==> State() == old(State())
      ensures out.Done? ==> State() == old(State()).(formulas := out.value,
        needsRender := old(needsRender) || !SameRenderings(old(formulas), out.value))
    {
      var next: seq<Formula>;
      if SameTexts(formulas, inputs) {
        next := Restyled(formulas, inputs);
        assert forall i :: 0 <= i < |next| ==> next[i].parsed == formulas[i].parsed;
      } else {
        var keyCache := BuildKeyCache(formulas);
        assert forall k :: k in keyCache ==> keyCache[k].id < nextId;
        var parsed := Reparse(nc, parse, texToPlain, inputs, keyCache, nextId);
        if parsed.Escaped? {
          return parsed;
        }
        next := parsed.value;
        nextId := nextId + |inputs|;
      }
      SetFormulas(next);
      out := Done(next);
    }

    /** The end of updateFormulas: the new list is kept, and a change of what is drawn asks for a render. */
    method SetFormulas(next: seq<Formula>)
      requires Valid()
      requires forall i :: 0 <= i < |next| ==> next[i].parsed.id < nextId
      modifies this
      ensures Valid() && nextId == old(nextId)
      ensures State() == old(State()).(formulas := next, needsRender := old(needsRender) || !SameRenderings(old(formulas), next))
    {
      if !SameRenderings(formulas, next) {
        needsRender := true;
      }
      formulas := next;
    }
  
    /** Every panel of the range exists and holds a layer for every render key of the formulas. */
    ghost predicate Completed()
      reads this
      requires viewport.Positive()
    {
      var r := RangeOf(width, height, viewport);
      forall p: Pos :: r.Contains(p) ==> p in panels && KeysOf(formulas) <= panels[p].canvases.Keys
    }

    /** isCalculationCompleted. */
    method IsCalculationCompleted() returns (b: bool)
      requires viewport.Positive()
      ensures b == Completed()
    {
      var r := RangeOf(width, height, viewport);
      var keys: seq<RenderKey> := [];
      for i := 0 to |formulas|
        invariant keys == KeyList(formulas[..i])
      {
        assert formulas[..i + 1][..i] == formulas[..i];
        var key := RenderKeyOf(formulas[i]);
        if key.Some? {
          keys := keys + [key.value];
        }
      }
      assert formulas[..|formulas|] == formulas;
      var ix := r.ixMin;
      while ix <= r.ixMax
        invariant forall p: Pos :: r.Contains(p) && p.0 < ix ==> p in panels && KeysOf(formulas) <= panels[p].canvases.Keys
        decreases r.ixMax - ix + 1
      {
        var iy := r.iyMin;
        while iy <= r.iyMax
          invariant forall p: Pos :: r.Contains(p) && (p.0 < ix || (p.0 == ix && p.1 < iy)) ==>
            p in panels && KeysOf(formulas) <= panels[p].canvases.Keys
          decreases r.iyMax - iy + 1
        {
          var pos := (ix, iy);
          if pos !in panels {
            return false;
          }
          if !(forall k | k in keys :: k in panels[pos].canvases) {
            return false;
          }
          iy := iy + 1;
        }
        ix := ix + 1;
      }
      return true;
    }

    /** render. Nothing happens unless a render was asked for, nor without a
        drawing context. Unless calculation is paused, a calculating render
        runs calculate, which leaves the panels and the cache in the Swept
        relation to the evicted ones with the render calls it made, and asks
        for another render exactly when the calculation did not complete. The
        frame is the background and the passes of the drawing order over the
        panels as they then are. */
    method Render(calculate: bool, hasContext: bool, overBudget: nat -> bool)
        returns (frame: Option<Frame>, done: seq<Pos>, renders: seq<RenderCall>)
      requires Valid()
      requires calculate && !calcPaused ==> viewport.Positive()
      modifies this`panels, this`cache, this`owner, this`nextCanvas, this`needsRender
      ensures Valid()
      ensures !(old(needsRender) && hasContext) ==> frame == None && done == [] && renders == [] && State() == old(State())
      ensures old(needsRender) && hasContext ==> frame == Some(FrameOf(rendering, formulas, panels))
      ensures old(needsRender) && hasContext && calculate && !calcPaused ==>
        var r := RangeOf(width, height, viewport);
        && done == Schedule(r, overBudget)
        && Swept(formulas, panels, cache, done, renders, Kept(old(panels), r, DeltaX(viewport), DeltaY(viewport)),
                 Evicted(old(cache), r, ParsedIds(formulas)), DeltaX(viewport), DeltaY(viewport))
        && State() == old(State()).(panels := panels, cache := cache, needsRender := !Completed())
        && ((forall n :: !overBudget(n)) ==> !needsRender)
      ensures old(needsRender) && hasContext && !(calculate && !calcPaused) ==> done == [] && renders == [] && State() == old(State())
    {
      done, renders := [], [];
      if !needsRender || !hasContext {
        return None, [], [];
      }
      if !calcPaused && calculate {
        done, renders := CalculateAndAsk(overBudget);
      }
      var passes := DrawPasses(Graph(formulas, panels));
      frame := Some(Frame(BackgroundOf(rendering.background), passes));
    }

    /** The calculating part of render: calculate, then a new render request
        exactly when the calculation did not complete. */
    method CalculateAndAsk(overBudget: nat -> bool) returns (done: seq<Pos>, renders: seq<RenderCall>)
      requires Valid() && viewport.Positive()
      modifies this`panels, this`cache, this`owner, this`nextCanvas, this`needsRender
      ensures Valid()
      ensures var r := RangeOf(width, height, viewport);
        && done == Schedule(r, overBudget)
        && Swept(formulas, panels, cache, done, renders, Kept(old(panels), r, DeltaX(viewport), DeltaY(viewport)),
                 Evicted(old(cache), r, ParsedIds(formulas)), DeltaX(viewport), DeltaY(viewport))
        && State() == old(State()).(panels := panels, cache := cache, needsRender := !Completed())
        && ((forall n :: !overBudget(n)) ==> !needsRender)
    {
      done, renders := Calculate(overBudget);
      var completed := IsCalculationCompleted();
      needsRender := !completed;
    }

    /** The loop over the drawing order. */
    method DrawPasses(g: seq<set<Image>>) returns (passes: seq<Pass>)
      ensures passes == Passes(rendering.order, g)
    {
      var order := rendering.order;
      passes := [];
      for i := 0 to |order|
        invariant passes == Passes(order[..i], g)
      {
        assert order[..i + 1][..i] == order[..i];
        var mode := order[i];
        if mode == "label" {
          passes := passes + [LabelPass];
        }
        if mode == "axis" {
          passes := passes + [AxisPass];
        }
        if mode == "graph" {
          passes := passes + [GraphPass(g)];
        }
      }
      assert order[..|order|] == order;
    }

    /** Drops one panel; its canvases join the pool. */
    method DropPanel(p: Pos, pool: set<nat>) returns (gone: set<nat>)
      requires Valid() && PoolOk(pool) && p in panels
      modifies this`panels, this`owner
      ensures Valid() && PoolOk(pool + gone)
      ensures gone == old(panels)[p].canvases.Values
      ensures panels == old(panels) - {p}
    {
      gone := panels[p].canvases.Values;
      owner := map c | c in owner :: if c in gone then Pooled else owner[c];
      panels := panels - {p};
    }

    /** The first phase of calculate: panels outside the range by more than
        one, or computed for another zoom, are dropped and their canvases go
        to the pool. */
    method EvictPanels(r: PanelRange, dx: real, dy: real) returns (pool: set<nat>)
      requires Valid()
      modifies this`panels, this`owner
      ensures Valid() && PoolOk(pool)
      ensures panels == Kept(old(panels), r, dx, dy)
      ensures forall p, k :: p in old(panels) && !Keeps(old(panels)[p], r, dx, dy) && k in old(panels)[p].canvases ==>
        old(panels)[p].canvases[k] in pool
    {
      pool := {};
      var todo := panels.Keys;
      while todo != {}
        invariant todo <= old(panels).Keys
        invariant forall p :: p in panels <==> p in old(panels) && (p in todo || Keeps(old(panels)[p], r, dx, dy))
        invariant forall p :: p in panels ==> panels[p] == old(panels)[p]
        invariant Valid() && PoolOk(pool)
        invariant forall p, k :: p in old(panels) && p !in todo && !Keeps(old(panels)[p], r, dx, dy) && k in old(panels)[p].canvases ==>
          old(panels)[p].canvases[k] in pool
        decreases todo
      {
        var p :| p in todo;
        if !Keeps(panels[p], r, dx, dy) {
          var gone := DropPanel(p, pool);
          pool := pool + gone;
        }
        todo := todo - {p};
      }
    }

    /** The second phase: cached results of parsed objects no formula holds,
        or of columns and rows more than one outside the range, are dropped. */
    method EvictCache(r: PanelRange)
      requires Valid()
      modifies this`cache
      ensures Valid()
      ensures cache == Evicted(old(cache), r, ParsedIds(formulas))
    {
      var ids := ParsedIds(formulas);
      var todo := cache.Keys;
      while todo != {}
        invariant todo <= old(cache).Keys
        invariant forall k :: k in cache <==> k in old(cache) && (k in todo || Live(k, r, ids))
        invariant forall k :: k in cache ==> cache[k] == old(cache)[k]
        decreases todo
      {
        var k :| k in todo;
        if !Live(k, r, ids) {
          cache := cache - {k};
        }
        todo := todo - {k};
      }
    }

    /** Valid while the panel at pos is in progress: the other panels are as
        Valid says, the previous layers of pos not taken again keep their owner,
        and the new layers are owned as in progress. */
    ghost predicate OwnersOk(b: Build, pos: Pos)
      reads this
    {
      && Indexed(panels) && LayersOwned(panels - {pos}, owner) && CanvasesBelow(owner, nextCanvas) && IdsBelow(formulas, nextId)
      && PoolOwned(owner, b.pool) && InProgress(owner, b, pos)
    }

    ghost predicate BuildOk(b: Build, j: int, pos: Pos, dx: real, dy: real, prev0: map<RenderKey, nat>,
                            pool0: set<nat>, nc0: nat, cache0: map<CacheKey, Calc>)
      reads this
    {
      && OwnersOk(b, pos) && StepOk(formulas, cache, b, j, pos, dx, dy, prev0, pool0, nc0, cache0)
      && b.pool <= pool0 && nc0 <= nextCanvas
    }

    /** The render key of formula j skips, takes a previous canvas, or is drawn. */
    method LayerStep(b: Build, j: int, pos: Pos, dx: real, dy: real, ghost prev0: map<RenderKey, nat>,
                     ghost pool0: set<nat>, ghost nc0: nat, ghost cache0: map<CacheKey, Calc>) returns (b': Build)
      requires j < |formulas| && BuildOk(b, j, pos, dx, dy, prev0, pool0, nc0, cache0)
      modifies this`owner, this`nextCanvas, this`cache
      ensures BuildOk(b', j + 1, pos, dx, dy, prev0, pool0, nc0, cache0)
    {
      KeysOfStep(formulas, j);
      var rk := RenderKeyOf(formulas[j]);
      if rk.Some? && rk.value !in b.layers {
        forall i | 0 <= i < j
          ensures RenderKeyOf(formulas[i]) != Some(rk.value)
        {
          KeysOfExact(formulas[..j], rk.value);
          assert formulas[..j][i] == formulas[i];
        }
        if rk.value in b.prev {
          b' := TakePrevious(b, j, pos, dx, dy, prev0, pool0, nc0, cache0);
        } else {
          b' := DrawLayer(b, j, pos, dx, dy, prev0, pool0, nc0, cache0);
        }
      } else {
        SkipStep(formulas, cache, b, j, pos, dx, dy, prev0, pool0, nc0, cache0);
        b' := b;
      }
    }

    method TakePrevious(b: Build, j: int, pos: Pos, dx: real, dy: real, ghost prev0: map<RenderKey, nat>,
                        ghost pool0: set<nat>, ghost nc0: nat, ghost cache0: map<CacheKey, Calc>) returns (b': Build)
      requires j < |formulas| && BuildOk(b, j, pos, dx, dy, prev0, pool0, nc0, cache0)
      requires RenderKeyOf(formulas[j]).Some? && RenderKeyOf(formulas[j]).value !in b.layers
      requires RenderKeyOf(formulas[j]).value in b.prev
      requires KeysOf(formulas[..j + 1]) == b.layers.Keys + {RenderKeyOf(formulas[j]).value}
      modifies this`owner
      ensures BuildOk(b', j + 1, pos, dx, dy, prev0, pool0, nc0, cache0)
    {
      var k := RenderKeyOf(formulas[j]).value;
      var c := b.prev[k];
      b' := b.(prev := b.prev - {k}, layers := b.layers[k := c]);
      TakeStep(formulas, cache, b, b', j, pos, dx, dy, prev0, pool0, nc0, cache0);
      Retake(k, b, b', pos);
    }

    /** The previous layer of key k becomes its layer in progress. */
    method Retake(k: RenderKey, b: Build, b': Build, pos: Pos)
      requires OwnersOk(b, pos) && k in b.prev && k !in b.layers
      requires b' == b.(prev := b.prev - {k}, layers := b.layers[k := b.prev[k]])
      modifies this`owner
      ensures OwnersOk(b', pos)
      ensures owner == old(owner)[b.prev[k] := Building(k)]
    {
      owner := owner[b.prev[k] := Building(k)];
    }

    method DrawLayer(b: Build, j: int, pos: Pos, dx: real, dy: real, ghost prev0: map<RenderKey, nat>,
                     ghost pool0: set<nat>, ghost nc0: nat, ghost cache0: map<CacheKey, Calc>) returns (b': Build)
      requires j < |formulas| && BuildOk(b, j, pos, dx, dy, prev0, pool0, nc0, cache0)
      requires RenderKeyOf(formulas[j]).Some? && RenderKeyOf(formulas[j]).value !in b.layers
      requires RenderKeyOf(formulas[j]).value !in b.prev
      requires KeysOf(formulas[..j + 1]) == b.layers.Keys + {RenderKeyOf(formulas[j]).value}
      requires forall i :: 0 <= i < j ==> RenderKeyOf(formulas[i]) != RenderKeyOf(formulas[j])
      modifies this`owner, this`nextCanvas, this`cache
      ensures BuildOk(b', j + 1, pos, dx, dy, prev0, pool0, nc0, cache0)
    {
      var f := formulas[j];
      var k := RenderKeyOf(f).value;
      var c, pool := NewCanvas(b.pool);
      ghost var cache1 := cache;
      FetchCache(f.parsed, pos, dx, dy);
      b' := Build(b.prev, b.layers[k := c], pool, b.renders + [RenderCall(pos, k, c, j)]);
      DrawStep(formulas, cache1, cache, b, b', c, j, pos, dx, dy, prev0, pool0, nc0, cache0);
      Claim(c, k, b, b', pos);
    }

    /** A canvas for a new layer: the last one pooled, or a new one when the pool is empty. */
    method NewCanvas(pool: set<nat>) returns (c: nat, rest: set<nat>)
      requires PoolOk(pool) && CanvasesBelow(owner, nextCanvas)
      modifies this`nextCanvas
      ensures c !in owner || owner[c] == Pooled
      ensures pool != {} ==> c in pool && rest == pool - {c} && nextCanvas == old(nextCanvas)
      ensures pool == {} ==> c == old(nextCanvas) && rest == {} && nextCanvas == c + 1
    {
      if pool != {} {
        c :| c in pool;
        rest := pool - {c};
      } else {
        c := nextCanvas;
        rest := {};
        nextCanvas := nextCanvas + 1;
      }
    }

    /** The shared result of a one-dimensional formula on the column or row of
        pos is computed and stored when the cache lacks it. */
    method FetchCache(p: ParsedObj, pos: Pos, dx: real, dy: real)
      modifies this`cache
      ensures Is1D(p.value) && CacheKeyOf(p, pos, dx, dy) !in old(cache) ==> cache == old(cache)[CacheKeyOf(p, pos, dx, dy) := CalcOf(p, pos, dx, dy)]
      ensures !(Is1D(p.value) && CacheKeyOf(p, pos, dx, dy) !in old(cache)) ==> cache == old(cache)
    {
      if Is1D(p.value) {
        var ck := CacheKeyOf(p, pos, dx, dy);
        if ck !in cache {
          cache := cache[ck := CalcOf(p, pos, dx, dy)];
        }
      }
    }

    /** Canvas c, pooled or new, becomes the layer of key k in progress. */
    method Claim(c: nat, k: RenderKey, b: Build, b': Build, pos: Pos)
      requires OwnersOk(b, pos) && k !in b.layers && k !in b.prev
      requires c !in owner || owner[c] == Pooled
      requires c < nextCanvas
      requires b'.prev == b.prev && b'.layers == b.layers[k := c] && b'.pool == b.pool - {c}
      modifies this`owner
      ensures OwnersOk(b', pos)
      ensures owner == old(owner)[c := Building(k)]
    {
      owner := owner[c := Building(k)];
    }

    /** calculate. Panels out of range or of another zoom and dead cached
        results are evicted; then the panels of the range are computed column
        by column, each column from its lowest row, and a spent budget ends
        the column (only the inner loop). A canvas still in the pool at the
        end is released. */
    method Calculate(overBudget: nat -> bool) returns (done: seq<Pos>, renders: seq<RenderCall>)
      requires Valid() && viewport.Positive()
      modifies this`panels, this`cache, this`owner, this`nextCanvas
      ensures Valid()
      ensures var r := RangeOf(width, height, viewport);
        && done == Schedule(r, overBudget)
        && Swept(formulas, panels, cache, done, renders, Kept(old(panels), r, DeltaX(viewport), DeltaY(viewport)),
                 Evicted(old(cache), r, ParsedIds(formulas)), DeltaX(viewport), DeltaY(viewport))
      ensures (forall n :: !overBudget(n)) ==> Completed()
      ensures forall c :: c in owner ==> owner[c] != Pooled
    {
      var r := RangeOf(width, height, viewport);
      var dx, dy := DeltaX(viewport), DeltaY(viewport);
      var pool := EvictPanels(r, dx, dy);
      EvictCache(r);
      SweptStart(formulas, panels, cache, dx, dy);
      done, renders := SweepRange(r, dx, dy, overBudget, pool, Kept(old(panels), r, dx, dy), Evicted(old(cache), r, ParsedIds(formulas)));
      if forall n :: !overBudget(n) {
        SweptCompleted(formulas, panels, cache, done, renders, Kept(old(panels), r, dx, dy), Evicted(old(cache), r, ParsedIds(formulas)), dx, dy, r, overBudget);
      }
    }

    /** The end of calculate: every canvas left in the pool is released. */
    method ReleasePool()
      requires Valid()
      modifies this`owner
      ensures Valid()
      ensures forall c :: c in owner ==> owner[c] != Pooled
    {
      owner := map c | c in owner :: if owner[c] == Pooled then Released else owner[c];
    }

    /** The loops of calculate over the columns of the range; at the end the canvases left in the pool are released. */
    method SweepRange(r: PanelRange, dx: real, dy: real, overBudget: nat -> bool, pool0: set<nat>,
                      ghost kept: map<Pos, PanelState>, ghost cache0: map<CacheKey, Calc>)
      returns (done: seq<Pos>, renders: seq<RenderCall>)
      requires Valid() && PoolOk(pool0)
      requires Swept(formulas, panels, cache, [], [], kept, cache0, dx, dy)
      modifies this`panels, this`cache, this`owner, this`nextCanvas
      ensures Valid() && forall c :: c in owner ==> owner[c] != Pooled
      ensures done == Schedule(r, overBudget)
      ensures Swept(formulas, panels, cache, done, renders, kept, cache0, dx, dy)
    {
      var pool;
      done, pool, renders := [], pool0, [];
      var ix := r.ixMin;
      while ix <= r.ixMax
        invariant Schedule(r, overBudget) == done + SweepFrom(ix, r, |done|, overBudget)
        invariant DoneBefore(done, (ix, r.iyMin))
        invariant Valid() && PoolOk(pool)
        invariant Swept(formulas, panels, cache, done, renders, kept, cache0, dx, dy)
        decreases r.ixMax - ix + 1
      {
        SweepNext(Schedule(r, overBudget), done, ix, r, overBudget);
        done, pool, renders := CalculateColumn(ix, r, dx, dy, overBudget, done, pool, renders, kept, cache0);
        ix := ix + 1;
      }
      assert done + [] == done;
      ReleasePool();
    }

    /** One column of calculate: the panels from the lowest row up, until the
        budget is spent after one of them or the column ends. */
    method CalculateColumn(ix: int, r: PanelRange, dx: real, dy: real, overBudget: nat -> bool, done0: seq<Pos>,
                           pool0: set<nat>, renders0: seq<RenderCall>, ghost kept: map<Pos, PanelState>, ghost cache0: map<CacheKey, Calc>)
      returns (done: seq<Pos>, pool: set<nat>, renders: seq<RenderCall>)
      requires Valid() && PoolOk(pool0)
      requires DoneBefore(done0, (ix, r.iyMin))
      requires Swept(formulas, panels, cache, done0, renders0, kept, cache0, dx, dy)
      modifies this`panels, this`cache, this`owner, this`nextCanvas
      ensures Valid() && PoolOk(pool)
      ensures done == done0 + ColumnFrom(ix, r.iyMin, r.iyMax, |done0|, overBudget)
      ensures DoneBefore(done, (ix + 1, r.iyMin))
      ensures Swept(formulas, panels, cache, done, renders, kept, cache0, dx, dy)
    {
      done, pool, renders := done0, pool0, renders0;
      var iy := r.iyMin;
      ghost var whole := done0 + ColumnFrom(ix, r.iyMin, r.iyMax, |done0|, overBudget);
      var stop := false;
      while iy <= r.iyMax && !stop
        invariant whole == done + (if stop then [] else ColumnFrom(ix, iy, r.iyMax, |done|, overBudget))
        invariant DoneBefore(done, (ix, iy))
        invariant Valid() && PoolOk(pool)
        invariant Swept(formulas, panels, cache, done, renders, kept, cache0, dx, dy)
        decreases r.iyMax - iy + 1
      {
        done, pool, renders := ColumnPanel(ix, iy, r.iyMax, dx, dy, overBudget, whole, done, pool, renders, kept, cache0);
        iy := iy + 1;
        stop := overBudget(|done|);
      }
      assert done + [] == done;
      DoneLater(done, (ix, iy), (ix + 1, r.iyMin));
    }

    /** One row of a column of calculate: the panel is computed, and the
        budget decides whether the column goes on. */
    method ColumnPanel(ix: int, iy: int, iyMax: int, dx: real, dy: real, overBudget: nat -> bool, ghost whole: seq<Pos>,
                       done0: seq<Pos>, pool0: set<nat>, renders0: seq<RenderCall>,
                       ghost kept: map<Pos, PanelState>, ghost cache0: map<CacheKey, Calc>)
      returns (done: seq<Pos>, pool: set<nat>, renders: seq<RenderCall>)
      requires iy <= iyMax && whole == done0 + ColumnFrom(ix, iy, iyMax, |done0|, overBudget)
      requires Valid() && PoolOk(pool0) && DoneBefore(done0, (ix, iy))
      requires Swept(formulas, panels, cache, done0, renders0, kept, cache0, dx, dy)
      modifies this`panels, this`cache, this`owner, this`nextCanvas
      ensures Valid() && PoolOk(pool) && done == done0 + [(ix, iy)] && DoneBefore(done, (ix, iy + 1))
      ensures overBudget(|done|) ==> whole == done
      ensures !overBudget(|done|) ==> whole == done + ColumnFrom(ix, iy + 1, iyMax, |done|, overBudget)
      ensures Swept(formulas, panels, cache, done, renders, kept, cache0, dx, dy)
    {
      var pos := (ix, iy);
      ColumnNext(whole, done0, ix, iy, iyMax, overBudget);
      DoneNext(done0, ix, iy);
      var layerPool, rs := SweepPanel(pos, dx, dy, pool0, done0, renders0, kept, cache0);
      done, pool, renders := done0 + [pos], layerPool, renders0 + rs;
    }

    /** One panel of the sweep: computing it, when not done before, keeps the sweep's state. */
    method SweepPanel(pos: Pos, dx: real, dy: real, pool0: set<nat>, ghost done: seq<Pos>, ghost renders: seq<RenderCall>,
                      ghost kept: map<Pos, PanelState>, ghost cache0: map<CacheKey, Calc>) returns (pool: set<nat>, rs: seq<RenderCall>)
      requires Valid() && PoolOk(pool0) && pos !in done
      requires Swept(formulas, panels, cache, done, renders, kept, cache0, dx, dy)
      modifies this`panels, this`cache, this`owner, this`nextCanvas
      ensures Valid() && PoolOk(pool)
      ensures Swept(formulas, panels, cache, done + [pos], renders + rs, kept, cache0, dx, dy)
    {
      ghost var before, cache1, nc1 := panels, cache, nextCanvas;
      pool, rs := CalculatePanel(pos, dx, dy, pool0);
      SweptStep(formulas, before, cache1, done, renders, kept, cache0, dx, dy, pos, panels[pos].canvases, cache, rs, pool0, nc1);
    }

    /** One panel of the loop of calculate. The panel is taken or created and
        its layers are rebuilt in the order of the formulas: a key already
        drawn is skipped, a key the panel had keeps its canvas, and any other
        key is drawn on a canvas from the pool or a new one; a one-dimensional
        formula first fetches its shared result, computing it when the cache
        lacks it. The layers left over go to the pool. */
    method CalculatePanel(pos: Pos, dx: real, dy: real, pool0: set<nat>)
      returns (pool: set<nat>, renders: seq<RenderCall>)
      requires Valid() && PoolOk(pool0)
      requires pos in panels ==> panels[pos].dx == dx && panels[pos].dy == dy
      modifies this`panels, this`cache, this`owner, this`nextCanvas
      ensures Valid() && PoolOk(pool) && nextCanvas >= old(nextCanvas)
      ensures pos in panels && panels == old(panels)[pos := PanelState(pos.0, pos.1, dx, dy, panels[pos].canvases)]
      ensures Rebuilt(formulas, cache, old(cache), panels[pos].canvases, renders, pos, dx, dy, Before(old(panels), pos), pool0, old(nextCanvas))
      ensures pool <= pool0 + Before(old(panels), pos).Values
    {
      var b := BuildLayers(pos, dx, dy, pool0);
      pool := FinishPanel(b, pos, dx, dy);
      renders := b.renders;
    }

    /** The loop over the formulas for one panel. */
    method BuildLayers(pos: Pos, dx: real, dy: real, pool0: set<nat>) returns (b: Build)
      requires Valid() && PoolOk(pool0)
      modifies this`cache, this`owner, this`nextCanvas
      ensures OwnersOk(b, pos) && b.pool <= pool0 && nextCanvas >= old(nextCanvas)
      ensures Rebuilt(formulas, cache, old(cache), b.layers, b.renders, pos, dx, dy, Before(old(panels), pos), pool0, old(nextCanvas))
      ensures b.prev.Values <= Before(old(panels), pos).Values
    {
      b := Build(Before(panels, pos), map[], pool0, []);
      ghost var prev0 := b.prev;
      assert formulas[..0] == [];
      for j := 0 to |formulas|
        invariant BuildOk(b, j, pos, dx, dy, prev0, pool0, old(nextCanvas), old(cache))
      {
        b := LayerStep(b, j, pos, dx, dy, prev0, pool0, old(nextCanvas), old(cache));
      }
      PanelBuilt(formulas, cache, b, pos, dx, dy, prev0, pool0, old(nextCanvas), old(cache));
    }

    /** The new layers become the panel's; the previous ones not taken again go to the pool. */
    method FinishPanel(b: Build, pos: Pos, dx: real, dy: real) returns (pool: set<nat>)
      requires OwnersOk(b, pos)
      modifies this`owner, this`panels
      ensures Valid() && PoolOk(pool) && pool == b.pool + b.prev.Values
      ensures panels == old(panels)[pos := PanelState(pos.0, pos.1, dx, dy, b.layers)]
    {
      Settle(b, pos);
      ghost var others := panels - {pos};
      panels := panels[pos := PanelState(pos.0, pos.1, dx, dy, b.layers)];
      forall p, k | p in panels && k in panels[p].canvases
        ensures panels[p].canvases[k] in owner && owner[panels[p].canvases[k]] == Layer(p, k)
      {
        if p == pos {
          assert panels[p].canvases == b.layers;
        } else {
          assert p in others && others[p] == panels[p];
        }
      }
      pool := b.pool + b.prev.Values;
    }

    /** The owners of a finished panel: its layers, and the pool for the previous layers left over. */
    method Settle(b: Build, pos: Pos)
      requires OwnersOk(b, pos)
      modifies this`owner
      ensures forall k :: k in b.layers ==> b.layers[k] in owner && owner[b.layers[k]] == Layer(pos, k)
      ensures LayersOwned(panels - {pos}, owner) && Settled(owner) && CanvasesBelow(owner, nextCanvas)
      ensures PoolOk(b.pool + b.prev.Values)
    {
      var leftover := b.prev.Values;
      owner := map c | c in owner :: if owner[c].Building? then Layer(pos, owner[c].key) else if c in leftover then Pooled else owner[c];
    }
  }

  /** `new View(info)`: the fields are initialised, then update(info) runs;
      an exception from the parser escapes the constructor. */
  method NewView(info: UpdateInfo, nc: Numcore, parse: seq<string> -> seq<ParseResult>, texToPlain: string -> Outcome<string>,
                 hasContext: bool) returns (out: Outcome<View>)
    requires info.formulas.Some? ==> ParsesAll(parse, info.formulas.value, texToPlain)
    ensures var next := FormulasAfter([], info.formulas, nc, parse, texToPlain, 0);
      && (out.Escaped? <==> next.Escaped?)
      && (out.Done? ==> fresh(out.value) && out.value.Valid()
                        && out.value.State() == Patched(Reformulated(Paused(Initial(info), info.calcPaused), next.value), info))
  {
    var v := new View(info);
    var o := v.Update(info, nc, parse, texToPlain, hasContext);
    if o.Escaped? {
      return Escaped(o.message);
    }
    return Done(v);
  }
}
