/** What `View.render` of dist/view.js puts on the main canvas, recorded as
    abstract draw commands: the background fill, and for each entry of the
    drawing order the label pass, the axis pass or the graph pass. The graph
    pass draws, formula by formula, the layer of that formula's render key of
    every panel that has one. Pixel placement and the axis and label
    drawings themselves are not modelled. */
module Frames {
  import opened Common
  import opened Formulas
  import opened PanelGrid
  import opened Layers

  /** One `drawImage` of the graph pass: the canvas of a panel's layer, put at that panel's place. */
  datatype Image = Image(pos: Pos, canvas: nat)

  /** An entry of the drawing order that draws something. */
  datatype Pass = LabelPass | AxisPass | GraphPass(layers: seq<set<Image>>)

  /** One render: the screen is cleared, filled with the background when
      there is one, then the passes are drawn in order. */
  datatype Frame = Frame(background: Option<string>, passes: seq<Pass>)

  /** The images the graph pass draws for one formula. */
  function Images(f: Formula, panels: map<Pos, PanelState>): set<Image>
  {
    if RenderKeyOf(f).None? then {}
    else
      var k := RenderKeyOf(f).value;
      set p | p in panels && k in panels[p].canvases :: Image(p, panels[p].canvases[k])
  }

  /** The graph pass: one set of images per formula, in the formulas' order. */
  function Graph(fs: seq<Formula>, panels: map<Pos, PanelState>): (g: seq<set<Image>>)
    ensures |g| == |fs|
  {
    seq(|fs|, i requires 0 <= i < |fs| => Images(fs[i], panels))
  }

  /** The pass an entry of the drawing order asks for, if any. */
  function PassOf(mode: string, g: seq<set<Image>>): seq<Pass>
  {
    if mode == "label" then [LabelPass]
    else if mode == "axis" then [AxisPass]
    else if mode == "graph" then [GraphPass(g)]
    else []
  }

  predicate KnownMode(mode: string)
  {
    mode == "label" || mode == "axis" || mode == "graph"
  }

  /** The passes of a drawing order; entries that are none of the three draw nothing. */
  function Passes(order: seq<string>, g: seq<set<Image>>): (r: seq<Pass>)
    ensures |r| <= |order|
    ensures forall i :: 0 <= i < |r| && r[i].GraphPass? ==> r[i].layers == g
  {
    if order == [] then [] else Passes(order[..|order| - 1], g) + PassOf(order[|order| - 1], g)
  }

  /** The background is filled unless it is missing or 'transparent'. */
  function BackgroundOf(background: Option<string>): Option<string>
  {
    if background.Some? && background.value != "transparent" then background else None
  }

  function FrameOf(rendering: Rendering, fs: seq<Formula>, panels: map<Pos, PanelState>): Frame
  {
    Frame(BackgroundOf(rendering.background), Passes(rendering.order, Graph(fs, panels)))
  }

  /** A drawing order of known entries draws one pass per entry, in order. */
  lemma {:induction false} PassesKnown(order: seq<string>, g: seq<set<Image>>)
    requires forall i :: 0 <= i < |order| ==> KnownMode(order[i])
    ensures |Passes(order, g)| == |order|
    ensures forall i :: 0 <= i < |order| ==> [Passes(order, g)[i]] == PassOf(order[i], g)
  {
    if order != [] {
      var init := order[..|order| - 1];
      assert forall i :: 0 <= i < |init| ==> init[i] == order[i];
      PassesKnown(init, g);
    }
  }

  /** The default order draws the axes, then the graph, then the labels. */
  lemma DefaultPasses(g: seq<set<Image>>)
    ensures Passes(DefaultRendering.order, g) == [AxisPass, GraphPass(g), LabelPass]
  {
    PassesKnown(DefaultRendering.order, g);
  }

  /** An image of a formula's graph is the layer of its render key of a panel. */
  lemma ImagesExact(f: Formula, panels: map<Pos, PanelState>, img: Image)
    ensures img in Images(f, panels) <==>
      && RenderKeyOf(f).Some? && img.pos in panels
      && RenderKeyOf(f).value in panels[img.pos].canvases
      && img.canvas == panels[img.pos].canvases[RenderKeyOf(f).value]
  {
  }

  /** When every panel of the range holds every layer, the graph pass shows
      each formula that has a render key on every panel of the range. */
  lemma GraphCovers(fs: seq<Formula>, panels: map<Pos, PanelState>, r: PanelRange, i: int, p: Pos)
    requires forall q: Pos :: r.Contains(q) ==> q in panels && KeysOf(fs) <= panels[q].canvases.Keys
    requires 0 <= i < |fs| && RenderKeyOf(fs[i]).Some? && r.Contains(p)
    ensures exists c :: Image(p, c) in Graph(fs, panels)[i]
  {
    var k := RenderKeyOf(fs[i]).value;
    KeysOfExact(fs, k);
    assert Image(p, panels[p].canvases[k]) in Images(fs[i], panels);
  }

  /** A frame never draws one canvas at two places, nor for two different
      layers: images of different panels, or of formulas with different render
      keys, show different canvases. */
  lemma GraphDistinct(fs: seq<Formula>, panels: map<Pos, PanelState>, owner: map<nat, Slot>,
                      i: int, j: int, a: Image, b: Image)
    requires LayersOwned(panels, owner)
    requires 0 <= i < |fs| && 0 <= j < |fs|
    requires a in Graph(fs, panels)[i] && b in Graph(fs, panels)[j]
    requires a.pos != b.pos || RenderKeyOf(fs[i]) != RenderKeyOf(fs[j])
    ensures a.canvas != b.canvas
  {
    var k, l := RenderKeyOf(fs[i]).value, RenderKeyOf(fs[j]).value;
    assert owner[a.canvas] == Layer(a.pos, k);
    assert owner[b.canvas] == Layer(b.pos, l);
  }
}
