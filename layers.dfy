/** The panels of the view of dist/view.js, their layers and the cache of
    shared one-dimensional results, and the rebuilding of one panel's layers
    during calculate. Canvases are numbered as they are created; what is drawn
    on them is recorded as the render calls made. */
module Layers {
  import opened Common
  import opened Parser
  import opened Formulas
  import opened PanelGrid

  /** A panel: its grid index, the plane size of a panel when it was computed, and its layers by key. */
  datatype PanelState = PanelState(ix: int, iy: int, dx: real, dy: real, canvases: map<RenderKey, nat>)

  /** The key of a shared one-dimensional result: the column of an x-based
      formula or the row of a y-based one, the panel size along that axis, and
      the parsed object. */
  datatype CacheKey = CacheKey(ix: Option<int>, iy: Option<int>, delta: real, parsed: nat)

  /** A cached result: calc1DRange (ranges) or calc1DCurves of the parsed object over [min, max]. */
  datatype Calc = Calc(ranges: bool, parsed: nat, min: real, max: real)

  /** A render call that drew a new layer: the panel, the layer's key, the
      canvas drawn on and the index of the formula whose parse result was drawn. */
  datatype RenderCall = RenderCall(pos: Pos, key: RenderKey, canvas: nat, formula: nat)

  /** One panel's layers in progress: the previous layers not yet taken again,
      the new layers, the reuse pool and the render calls made. */
  datatype Build = Build(prev: map<RenderKey, nat>, layers: map<RenderKey, nat>, pool: set<nat>, renders: seq<RenderCall>)

  /** Where a canvas is: a layer of a panel, in the reuse pool, the layer being
      drawn for the panel in progress, or released. */
  datatype Slot = Layer(pos: Pos, key: RenderKey) | Pooled | Building(key: RenderKey) | Released

  /** Eviction keeps a panel within one panel of the range that was computed for the current zoom. */
  predicate Keeps(p: PanelState, r: PanelRange, dx: real, dy: real)
  {
    r.Near(p.ix, p.iy) && p.dx == dx && p.dy == dy
  }

  /** The parsed objects of the formulas. */
  function ParsedIds(fs: seq<Formula>): set<nat>
  {
    set i | 0 <= i < |fs| :: fs[i].parsed.id
  }

  /** Eviction keeps a cached result of a current formula whose column or row is within one of the range. */
  predicate Live(k: CacheKey, r: PanelRange, ids: set<nat>)
  {
    && k.parsed in ids
    && (k.ix.Some? ==> r.ixMin - 1 <= k.ix.value <= r.ixMax + 1)
    && (k.iy.Some? ==> r.iyMin - 1 <= k.iy.value <= r.iyMax + 1)
  }

  /** A one-dimensional equation, drawn with render1D from a cached result. */
  predicate Is1D(p: Parsed)
  {
    p.Equation? && p.calcType != "xy"
  }

  predicate IsXCalc(p: Parsed)
    requires p.Equation?
  {
    p.calcType == "x" || p.calcType == "fx"
  }

  /** fetchCache's key for a one-dimensional formula drawn at pos. */
  function CacheKeyOf(p: ParsedObj, pos: Pos, dx: real, dy: real): (k: CacheKey)
    requires p.value.Equation?
    ensures IsXCalc(p.value) ==> k == CacheKey(Some(pos.0), None, dx, p.id)
    ensures !IsXCalc(p.value) ==> k == CacheKey(None, Some(pos.1), dy, p.id)
  {
    if IsXCalc(p.value) then CacheKey(Some(pos.0), None, dx, p.id) else CacheKey(None, Some(pos.1), dy, p.id)
  }

  /** The computation fetchCache runs for a missing key: calc1DRange for the
      calcTypes x and y, calc1DCurves for fx and fy, over the column or row. */
  function CalcOf(p: ParsedObj, pos: Pos, dx: real, dy: real): Calc
    requires p.value.Equation?
  {
    var ranges := p.value.calcType == "x" || p.value.calcType == "y";
    if IsXCalc(p.value) then Calc(ranges, p.id, (pos.0 as real) * dx, ((pos.0 + 1) as real) * dx)
    else Calc(ranges, p.id, (pos.1 as real) * dy, ((pos.1 + 1) as real) * dy)
  }

  /** All panels of a column share the result of an x-based formula, and all panels of a row that of a y-based one. */
  lemma CacheShared(p: ParsedObj, a: Pos, b: Pos, dx: real, dy: real)
    requires p.value.Equation?
    requires if IsXCalc(p.value) then a.0 == b.0 else a.1 == b.1
    ensures CacheKeyOf(p, a, dx, dy) == CacheKeyOf(p, b, dx, dy)
    ensures CalcOf(p, a, dx, dy) == CalcOf(p, b, dx, dy)
  {
  }

  // ---------------------------------------------------------------------
  // One panel in progress

  /** After j formulas the new layers are the keys of those formulas; each
      was taken from the previous layers or drawn. */
  ghost predicate KeysOk(fs: seq<Formula>, b: Build, j: int, prev0: map<RenderKey, nat>)
    requires 0 <= j <= |fs|
  {
    && b.layers.Keys == KeysOf(fs[..j])
    && (forall k :: k in b.prev <==> k in prev0 && k !in b.layers)
    && (forall k :: k in b.prev ==> b.prev[k] == prev0[k])
    && (forall k :: k in b.layers && k in prev0 ==> b.layers[k] == prev0[k])
    && (forall k :: k in b.layers && k !in prev0 ==> exists rc :: rc in b.renders && rc.key == k)
  }

  /** A render call of the panel at pos: it drew a key the panel did not
      have, on a pooled or new canvas, for the first formula with that key,
      after fetching the shared result of a one-dimensional formula. */
  ghost predicate Drawn(fs: seq<Formula>, cache: map<CacheKey, Calc>, rc: RenderCall, j: int, pos: Pos, dx: real, dy: real,
                        layers: map<RenderKey, nat>, prev0: map<RenderKey, nat>, pool0: set<nat>, nc0: nat)
  {
    && rc.pos == pos && rc.key in layers && layers[rc.key] == rc.canvas && rc.key !in prev0
    && (rc.canvas in pool0 || nc0 <= rc.canvas)
    && rc.formula < j <= |fs| && RenderKeyOf(fs[rc.formula]) == Some(rc.key)
    && (forall i :: 0 <= i < rc.formula ==> RenderKeyOf(fs[i]) != Some(rc.key))
    && (Is1D(fs[rc.formula].parsed.value) ==> CacheKeyOf(fs[rc.formula].parsed, pos, dx, dy) in cache)
  }

  ghost predicate RendersOk(fs: seq<Formula>, cache: map<CacheKey, Calc>, b: Build, j: int, pos: Pos, dx: real, dy: real,
                            prev0: map<RenderKey, nat>, pool0: set<nat>, nc0: nat)
  {
    forall rc :: rc in b.renders ==> Drawn(fs, cache, rc, j, pos, dx, dy, b.layers, prev0, pool0, nc0)
  }

  /** The fetch of a shared result for the render call rc. */
  ghost predicate Fetched(fs: seq<Formula>, cache: map<CacheKey, Calc>, ck: CacheKey, rc: RenderCall, pos: Pos, dx: real, dy: real)
  {
    rc.formula < |fs| && Is1D(fs[rc.formula].parsed.value)
    && ck == CacheKeyOf(fs[rc.formula].parsed, pos, dx, dy) && ck in cache && cache[ck] == CalcOf(fs[rc.formula].parsed, pos, dx, dy)
  }

  /** The cache only grows, by the shared results that the render calls fetched. */
  ghost predicate CacheOk(fs: seq<Formula>, cache: map<CacheKey, Calc>, b: Build, pos: Pos, dx: real, dy: real,
                          cache0: map<CacheKey, Calc>)
  {
    && (forall ck :: ck in cache0 ==> ck in cache && cache[ck] == cache0[ck])
    && (forall ck :: ck in cache && ck !in cache0 ==> exists rc :: rc in b.renders && Fetched(fs, cache, ck, rc, pos, dx, dy))
  }

  /** The state of the loop over the formulas of a panel after the first j of them. */
  ghost predicate StepOk(fs: seq<Formula>, cache: map<CacheKey, Calc>, b: Build, j: int, pos: Pos, dx: real, dy: real,
                         prev0: map<RenderKey, nat>, pool0: set<nat>, nc0: nat, cache0: map<CacheKey, Calc>)
  {
    && 0 <= j <= |fs| && KeysOk(fs, b, j, prev0) && RendersOk(fs, cache, b, j, pos, dx, dy, prev0, pool0, nc0)
    && CacheOk(fs, cache, b, pos, dx, dy, cache0)
  }

  /** A formula whose key is absent or already drawn changes nothing. */
  lemma SkipStep(fs: seq<Formula>, cache: map<CacheKey, Calc>, b: Build, j: int, pos: Pos, dx: real, dy: real,
                 prev0: map<RenderKey, nat>, pool0: set<nat>, nc0: nat, cache0: map<CacheKey, Calc>)
    requires j < |fs| && StepOk(fs, cache, b, j, pos, dx, dy, prev0, pool0, nc0, cache0)
    requires RenderKeyOf(fs[j]).None? || RenderKeyOf(fs[j]).value in b.layers
    requires KeysOf(fs[..j + 1]) == KeysOf(fs[..j]) + (if RenderKeyOf(fs[j]).Some? then {RenderKeyOf(fs[j]).value} else {})
    ensures StepOk(fs, cache, b, j + 1, pos, dx, dy, prev0, pool0, nc0, cache0)
  {
    forall rc | rc in b.renders
      ensures Drawn(fs, cache, rc, j + 1, pos, dx, dy, b.layers, prev0, pool0, nc0)
    {
      assert Drawn(fs, cache, rc, j, pos, dx, dy, b.layers, prev0, pool0, nc0);
    }
  }

  /** Taking a previous canvas for formula j. */
  lemma TakeStep(fs: seq<Formula>, cache: map<CacheKey, Calc>, b: Build, b': Build, j: int, pos: Pos, dx: real, dy: real,
                 prev0: map<RenderKey, nat>, pool0: set<nat>, nc0: nat, cache0: map<CacheKey, Calc>)
    requires j < |fs| && StepOk(fs, cache, b, j, pos, dx, dy, prev0, pool0, nc0, cache0)
    requires RenderKeyOf(fs[j]).Some? && RenderKeyOf(fs[j]).value !in b.layers && RenderKeyOf(fs[j]).value in b.prev
    requires KeysOf(fs[..j + 1]) == b.layers.Keys + {RenderKeyOf(fs[j]).value}
    requires var k := RenderKeyOf(fs[j]).value; b' == b.(prev := b.prev - {k}, layers := b.layers[k := b.prev[k]])
    ensures StepOk(fs, cache, b', j + 1, pos, dx, dy, prev0, pool0, nc0, cache0)
  {
    forall rc | rc in b'.renders
      ensures Drawn(fs, cache, rc, j + 1, pos, dx, dy, b'.layers, prev0, pool0, nc0)
    {
      assert Drawn(fs, cache, rc, j, pos, dx, dy, b.layers, prev0, pool0, nc0);
    }
  }

  /** Drawing formula j on canvas c, after fetching its shared result. */
  lemma DrawStep(fs: seq<Formula>, cache: map<CacheKey, Calc>, cache': map<CacheKey, Calc>, b: Build, b': Build, c: nat, j: int,
                 pos: Pos, dx: real, dy: real, prev0: map<RenderKey, nat>, pool0: set<nat>, nc0: nat, cache0: map<CacheKey, Calc>)
    requires j < |fs| && StepOk(fs, cache, b, j, pos, dx, dy, prev0, pool0, nc0, cache0)
    requires RenderKeyOf(fs[j]).Some? && RenderKeyOf(fs[j]).value !in b.layers && RenderKeyOf(fs[j]).value !in b.prev
    requires KeysOf(fs[..j + 1]) == b.layers.Keys + {RenderKeyOf(fs[j]).value}
    requires forall i :: 0 <= i < j ==> RenderKeyOf(fs[i]) != RenderKeyOf(fs[j])
    requires c in pool0 || nc0 <= c
    requires var k := RenderKeyOf(fs[j]).value;
      && b'.prev == b.prev && b'.layers == b.layers[k := c] && b'.renders == b.renders + [RenderCall(pos, k, c, j)]
    requires var p := fs[j].parsed;
      cache' == if Is1D(p.value) && CacheKeyOf(p, pos, dx, dy) !in cache then cache[CacheKeyOf(p, pos, dx, dy) := CalcOf(p, pos, dx, dy)] else cache
    ensures StepOk(fs, cache', b', j + 1, pos, dx, dy, prev0, pool0, nc0, cache0)
  {
    var k := RenderKeyOf(fs[j]).value;
    var rc := RenderCall(pos, k, c, j);
    assert rc in b'.renders;
    DrawRenders(fs, cache, cache', b, b', rc, j, pos, dx, dy, prev0, pool0, nc0);
    DrawCache(fs, cache, cache', b, b', rc, j, pos, dx, dy, cache0);
  }

  lemma DrawRenders(fs: seq<Formula>, cache: map<CacheKey, Calc>, cache': map<CacheKey, Calc>, b: Build, b': Build, rc: RenderCall,
                    j: int, pos: Pos, dx: real, dy: real, prev0: map<RenderKey, nat>, pool0: set<nat>, nc0: nat)
    requires 0 <= j < |fs| && RendersOk(fs, cache, b, j, pos, dx, dy, prev0, pool0, nc0)
    requires rc.key !in b.layers && rc.key !in prev0
    requires b'.layers == b.layers[rc.key := rc.canvas] && b'.renders == b.renders + [rc]
    requires forall ck :: ck in cache ==> ck in cache'
    requires Drawn(fs, cache', rc, j + 1, pos, dx, dy, b'.layers, prev0, pool0, nc0)
    ensures RendersOk(fs, cache', b', j + 1, pos, dx, dy, prev0, pool0, nc0)
  {
    forall r | r in b'.renders
      ensures Drawn(fs, cache', r, j + 1, pos, dx, dy, b'.layers, prev0, pool0, nc0)
    {
      if r != rc {
        assert r in b.renders;
        assert Drawn(fs, cache, r, j, pos, dx, dy, b.layers, prev0, pool0, nc0);
      }
    }
  }

  lemma DrawCache(fs: seq<Formula>, cache: map<CacheKey, Calc>, cache': map<CacheKey, Calc>, b: Build, b': Build, rc: RenderCall,
                  j: int, pos: Pos, dx: real, dy: real, cache0: map<CacheKey, Calc>)
    requires 0 <= j < |fs| && CacheOk(fs, cache, b, pos, dx, dy, cache0)
    requires b'.renders == b.renders + [rc] && rc.formula == j
    requires var p := fs[j].parsed;
      cache' == if Is1D(p.value) && CacheKeyOf(p, pos, dx, dy) !in cache then cache[CacheKeyOf(p, pos, dx, dy) := CalcOf(p, pos, dx, dy)] else cache
    ensures CacheOk(fs, cache', b', pos, dx, dy, cache0)
    ensures forall ck :: ck in cache ==> ck in cache'
    ensures Is1D(fs[j].parsed.value) ==> CacheKeyOf(fs[j].parsed, pos, dx, dy) in cache'
  {
    assert rc in b'.renders;
    forall ck | ck in cache' && ck !in cache0
      ensures exists r :: r in b'.renders && Fetched(fs, cache', ck, r, pos, dx, dy)
    {
      if ck in cache {
        assert cache'[ck] == cache[ck];
        var r :| r in b.renders && Fetched(fs, cache, ck, r, pos, dx, dy);
        assert r in b'.renders && Fetched(fs, cache', ck, r, pos, dx, dy);
      } else {
        assert Fetched(fs, cache', ck, rc, pos, dx, dy);
      }
    }
  }

  /** The layers a panel had before its calculation. */
  function Before(panels: map<Pos, PanelState>, pos: Pos): map<RenderKey, nat>
  {
    if pos in panels then panels[pos].canvases else map[]
  }

  /** What a calculation of the panel at pos leaves: a layer for every render
      key of the formulas; a key the panel had keeps its canvas, and every
      other one was drawn by a render call; the cache gained only the shared
      results those calls fetched. */
  ghost predicate Rebuilt(fs: seq<Formula>, cache: map<CacheKey, Calc>, cache0: map<CacheKey, Calc>, layers: map<RenderKey, nat>,
                          renders: seq<RenderCall>, pos: Pos, dx: real, dy: real, prev0: map<RenderKey, nat>, pool0: set<nat>, nc0: nat)
  {
    && layers.Keys == KeysOf(fs)
    && (forall k :: k in layers && k in prev0 ==> layers[k] == prev0[k])
    && (forall k :: k in layers && k !in prev0 ==> exists rc :: rc in renders && rc.key == k)
    && (forall rc :: rc in renders ==> Drawn(fs, cache, rc, |fs|, pos, dx, dy, layers, prev0, pool0, nc0))
    && (forall ck :: ck in cache0 ==> ck in cache && cache[ck] == cache0[ck])
    && (forall ck :: ck in cache && ck !in cache0 ==> exists rc :: rc in renders && Fetched(fs, cache, ck, rc, pos, dx, dy))
  }

  /** After the last formula the panel in progress is rebuilt. */
  lemma PanelBuilt(fs: seq<Formula>, cache: map<CacheKey, Calc>, b: Build, pos: Pos, dx: real, dy: real,
                   prev0: map<RenderKey, nat>, pool0: set<nat>, nc0: nat, cache0: map<CacheKey, Calc>)
    requires StepOk(fs, cache, b, |fs|, pos, dx, dy, prev0, pool0, nc0, cache0)
    ensures Rebuilt(fs, cache, cache0, b.layers, b.renders, pos, dx, dy, prev0, pool0, nc0)
    ensures b.prev.Values <= prev0.Values
  {
    assert fs[..|fs|] == fs;
  }

  // ---------------------------------------------------------------------
  // Where the canvases are

  /** Panels sit under their own grid index. */
  ghost predicate Indexed(panels: map<Pos, PanelState>)
  {
    forall p :: p in panels ==> panels[p].ix == p.0 && panels[p].iy == p.1
  }

  /** Every layer's canvas is owned by that layer alone, so no canvas shows in two layers. */
  ghost predicate LayersOwned(panels: map<Pos, PanelState>, owner: map<nat, Slot>)
  {
    forall p, k :: p in panels && k in panels[p].canvases ==>
      panels[p].canvases[k] in owner && owner[panels[p].canvases[k]] == Layer(p, k)
  }

  /** Canvases are numbered below the count of created ones. */
  ghost predicate CanvasesBelow(owner: map<nat, Slot>, n: nat)
  {
    forall c :: c in owner ==> c < n
  }

  /** Parsed objects are numbered below the count of made ones. */
  ghost predicate IdsBelow(fs: seq<Formula>, n: nat)
  {
    forall i :: 0 <= i < |fs| ==> fs[i].parsed.id < n
  }

  /** No panel is in progress. */
  ghost predicate Settled(owner: map<nat, Slot>)
  {
    forall c :: c in owner ==> !owner[c].Building?
  }

  /** The canvases of the reuse pool are created and not shown. */
  ghost predicate PoolOwned(owner: map<nat, Slot>, pool: set<nat>)
  {
    forall c :: c in pool ==> c in owner && owner[c] == Pooled
  }

  /** During the panel at pos, its previous layers not taken again keep their
      owner, and the new layers are owned as in progress. */
  ghost predicate InProgress(owner: map<nat, Slot>, b: Build, pos: Pos)
  {
    && (forall k :: k in b.prev ==> b.prev[k] in owner && owner[b.prev[k]] == Layer(pos, k))
    && (forall k :: k in b.layers ==> b.layers[k] in owner && owner[b.layers[k]] == Building(k))
  }

  // ---------------------------------------------------------------------
  // The sweep over the range

  /** The panels eviction keeps. */
  function Kept(panels: map<Pos, PanelState>, r: PanelRange, dx: real, dy: real): (m: map<Pos, PanelState>)
    ensures forall p :: p in m <==> p in panels && Keeps(panels[p], r, dx, dy)
    ensures forall p :: p in m ==> m[p] == panels[p]
  {
    map p | p in panels && Keeps(panels[p], r, dx, dy) :: panels[p]
  }

  /** The cached results eviction keeps. */
  function Evicted(cache: map<CacheKey, Calc>, r: PanelRange, ids: set<nat>): (m: map<CacheKey, Calc>)
    ensures forall k :: k in m <==> k in cache && Live(k, r, ids)
    ensures forall k :: k in m ==> m[k] == cache[k]
  {
    map k | k in cache && Live(k, r, ids) :: cache[k]
  }

  /** The state of the sweep after the panels done: each of them holds a layer
      for every render key; every panel is for the current zoom; the other
      panels are the ones eviction kept, untouched; the cache kept every
      result it had after eviction and gained only results the render calls
      fetched; and every render call made drew a layer that is still shown. */
  ghost predicate Swept(fs: seq<Formula>, panels: map<Pos, PanelState>, cache: map<CacheKey, Calc>, done: seq<Pos>,
                        renders: seq<RenderCall>, kept: map<Pos, PanelState>, cache0: map<CacheKey, Calc>, dx: real, dy: real)
  {
    SweptPanels(fs, panels, done, kept, dx, dy) && SweptCache(fs, cache, renders, cache0, dx, dy) && SweptRenders(fs, panels, done, renders)
  }

  ghost predicate SweptPanels(fs: seq<Formula>, panels: map<Pos, PanelState>, done: seq<Pos>, kept: map<Pos, PanelState>, dx: real, dy: real)
  {
    && (forall p :: p in done ==> p in panels && panels[p].canvases.Keys == KeysOf(fs))
    && (forall p :: p in panels ==> panels[p].dx == dx && panels[p].dy == dy)
    && (forall p :: p in kept ==> p in panels)
    && (forall p :: p in panels && p !in done ==> p in kept && panels[p] == kept[p])
  }

  ghost predicate SweptCache(fs: seq<Formula>, cache: map<CacheKey, Calc>, renders: seq<RenderCall>, cache0: map<CacheKey, Calc>, dx: real, dy: real)
  {
    && (forall ck :: ck in cache0 ==> ck in cache && cache[ck] == cache0[ck])
    && (forall ck :: ck in cache && ck !in cache0 ==> exists rc :: rc in renders && Fetched(fs, cache, ck, rc, rc.pos, dx, dy))
  }

  ghost predicate SweptRenders(fs: seq<Formula>, panels: map<Pos, PanelState>, done: seq<Pos>, renders: seq<RenderCall>)
  {
    forall rc :: rc in renders ==>
      && rc.pos in done && rc.pos in panels && rc.key in panels[rc.pos].canvases
      && panels[rc.pos].canvases[rc.key] == rc.canvas
      && rc.formula < |fs| && RenderKeyOf(fs[rc.formula]) == Some(rc.key)
  }

  /** Before the sweep nothing is done; eviction left only panels of the current zoom. */
  lemma SweptStart(fs: seq<Formula>, panels: map<Pos, PanelState>, cache: map<CacheKey, Calc>, dx: real, dy: real)
    requires forall p :: p in panels ==> panels[p].dx == dx && panels[p].dy == dy
    ensures Swept(fs, panels, cache, [], [], panels, cache, dx, dy)
  {
  }

  /** A sweep of the whole range leaves every panel of the range with a layer for every render key. */
  lemma SweptCompleted(fs: seq<Formula>, panels: map<Pos, PanelState>, cache: map<CacheKey, Calc>, done: seq<Pos>,
                       renders: seq<RenderCall>, kept: map<Pos, PanelState>, cache0: map<CacheKey, Calc>, dx: real, dy: real,
                       r: PanelRange, overBudget: nat -> bool)
    requires Swept(fs, panels, cache, done, renders, kept, cache0, dx, dy)
    requires done == Schedule(r, overBudget) && forall n :: !overBudget(n)
    ensures forall p :: r.Contains(p) ==> p in panels && KeysOf(fs) <= panels[p].canvases.Keys
  {
    forall p | r.Contains(p)
      ensures p in panels && KeysOf(fs) <= panels[p].canvases.Keys
    {
      ScheduleUnbudgeted(r, overBudget, p);
    }
  }

  /** Rebuilding one more panel, not done before, keeps the sweep's state. */
  lemma SweptStep(fs: seq<Formula>, panels: map<Pos, PanelState>, cache: map<CacheKey, Calc>, done: seq<Pos>,
                  renders: seq<RenderCall>, kept: map<Pos, PanelState>, cache0: map<CacheKey, Calc>, dx: real, dy: real,
                  pos: Pos, layers: map<RenderKey, nat>, cache': map<CacheKey, Calc>, rs: seq<RenderCall>, pool0: set<nat>, nc0: nat)
    requires Swept(fs, panels, cache, done, renders, kept, cache0, dx, dy)
    requires pos !in done
    requires Rebuilt(fs, cache', cache, layers, rs, pos, dx, dy, Before(panels, pos), pool0, nc0)
    ensures Swept(fs, panels[pos := PanelState(pos.0, pos.1, dx, dy, layers)], cache', done + [pos], renders + rs, kept, cache0, dx, dy)
  {
    SweptPanelsStep(fs, panels, done, kept, dx, dy, pos, layers);
    SweptCacheStep(fs, cache, renders, cache0, dx, dy, pos, layers, cache', rs, Before(panels, pos), pool0, nc0);
    SweptRendersStep(fs, panels, done, renders, dx, dy, pos, layers, cache', rs, pool0, nc0);
  }

  lemma SweptPanelsStep(fs: seq<Formula>, panels: map<Pos, PanelState>, done: seq<Pos>, kept: map<Pos, PanelState>, dx: real, dy: real,
                        pos: Pos, layers: map<RenderKey, nat>)
    requires SweptPanels(fs, panels, done, kept, dx, dy)
    requires layers.Keys == KeysOf(fs)
    ensures SweptPanels(fs, panels[pos := PanelState(pos.0, pos.1, dx, dy, layers)], done + [pos], kept, dx, dy)
  {
  }

  lemma SweptCacheStep(fs: seq<Formula>, cache: map<CacheKey, Calc>, renders: seq<RenderCall>, cache0: map<CacheKey, Calc>, dx: real, dy: real,
                       pos: Pos, layers: map<RenderKey, nat>, cache': map<CacheKey, Calc>, rs: seq<RenderCall>,
                       prev0: map<RenderKey, nat>, pool0: set<nat>, nc0: nat)
    requires SweptCache(fs, cache, renders, cache0, dx, dy)
    requires Rebuilt(fs, cache', cache, layers, rs, pos, dx, dy, prev0, pool0, nc0)
    ensures SweptCache(fs, cache', renders + rs, cache0, dx, dy)
  {
    forall ck | ck in cache' && ck !in cache0
      ensures exists rc :: rc in renders + rs && Fetched(fs, cache', ck, rc, rc.pos, dx, dy)
    {
      if ck in cache {
        var rc :| rc in renders && Fetched(fs, cache, ck, rc, rc.pos, dx, dy);
        assert rc in renders + rs && Fetched(fs, cache', ck, rc, rc.pos, dx, dy);
      } else {
        var rc :| rc in rs && Fetched(fs, cache', ck, rc, pos, dx, dy);
        assert Drawn(fs, cache', rc, |fs|, pos, dx, dy, layers, prev0, pool0, nc0);
        assert rc in renders + rs;
      }
    }
  }

  lemma SweptRendersStep(fs: seq<Formula>, panels: map<Pos, PanelState>, done: seq<Pos>, renders: seq<RenderCall>, dx: real, dy: real,
                         pos: Pos, layers: map<RenderKey, nat>, cache': map<CacheKey, Calc>, rs: seq<RenderCall>, pool0: set<nat>, nc0: nat)
    requires SweptRenders(fs, panels, done, renders) && pos !in done
    requires forall rc :: rc in rs ==> Drawn(fs, cache', rc, |fs|, pos, dx, dy, layers, Before(panels, pos), pool0, nc0)
    ensures SweptRenders(fs, panels[pos := PanelState(pos.0, pos.1, dx, dy, layers)], done + [pos], renders + rs)
  {
    var panels' := panels[pos := PanelState(pos.0, pos.1, dx, dy, layers)];
    forall rc | rc in renders + rs
      ensures && rc.pos in done + [pos] && rc.pos in panels' && rc.key in panels'[rc.pos].canvases
              && panels'[rc.pos].canvases[rc.key] == rc.canvas
              && rc.formula < |fs| && RenderKeyOf(fs[rc.formula]) == Some(rc.key)
    {
      if rc in renders {
        assert rc.pos in done;
      } else {
        assert Drawn(fs, cache', rc, |fs|, pos, dx, dy, layers, Before(panels, pos), pool0, nc0);
      }
    }
  }
}
