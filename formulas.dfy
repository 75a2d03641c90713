/** The formulas of the view of dist/view.js and what updateFormulas does with
    them: render keys, the reuse of parse results, and the comparison that
    decides whether the view is drawn again. numcore's `texToPlain` and
    `parse` are parameters. */
module Formulas {
  import opened Common
  import opened Parser

  const PanelSize: int := 64
  const FillAlphaFallback: real := 0.5

  datatype XY = XY(x: real, y: real)

  /** The visible centre and the size of one pixel in plane units. */
  datatype Viewport = Viewport(center: XY, sizePerPixel: XY)
  {
    predicate Positive() { sizePerPixel.x > 0.0 && sizePerPixel.y > 0.0 }
  }

  const DefaultViewport := Viewport(XY(0.0, 0.0), XY(1.0 / 256.0, 1.0 / 256.0))

  datatype Rendering = Rendering(lineWidth: real, axisWidth: real, axisInterval: real, labelSize: real,
                                 background: Option<string>, order: seq<string>)

  const DefaultRendering := Rendering(2.0, 2.0, 120.0, 14.0, Some("white"), ["axis", "graph", "label"])

  /** The parts of an update; a missing part leaves the current value. */
  datatype SizePatch = SizePatch(width: Option<real>, height: Option<real>)
  datatype ViewportPatch = ViewportPatch(center: Option<XY>, sizePerPixel: Option<XY>)
  datatype RenderingPatch = RenderingPatch(lineWidth: Option<real>, axisWidth: Option<real>, axisInterval: Option<real>,
                                           labelSize: Option<real>, background: Option<Option<string>>,
                                           order: Option<seq<string>>)
  datatype UpdateInfo = UpdateInfo(size: Option<SizePatch>, viewport: Option<ViewportPatch>,
                                   rendering: Option<RenderingPatch>, formulas: Option<seq<FormulaInput>>,
                                   calcPaused: Option<bool>)

  function Or<T>(o: Option<T>, d: T): T
  {
    if o.Some? then o.value else d
  }

  /** `{...rendering, ...patch}`. */
  function PatchRendering(r: Rendering, p: RenderingPatch): Rendering
  {
    Rendering(Or(p.lineWidth, r.lineWidth), Or(p.axisWidth, r.axisWidth), Or(p.axisInterval, r.axisInterval),
              Or(p.labelSize, r.labelSize), Or(p.background, r.background), Or(p.order, r.order))
  }

  /** `{...viewport, ...patch}`. */
  function PatchViewport(v: Viewport, p: ViewportPatch): Viewport
  {
    Viewport(Or(p.center, v.center), Or(p.sizePerPixel, v.sizePerPixel))
  }

  /** `Math.round`: the nearest integer, halves rounded up. */
  function Round(x: real): (n: int)
    ensures x - 0.5 < n as real <= x + 0.5
  {
    (x + 0.5).Floor
  }

  /** What the caller passes for one formula: its text as TeX or as plain text, and how to draw it. */
  datatype FormulaInput = FormulaInput(tex: Option<string>, plain: string, color: Option<string>, fillAlpha: Option<real>)

  /** A parse result together with the identity of the object holding it. */
  datatype ParsedObj = ParsedObj(id: nat, value: Parsed)

  /** A formula as the view keeps it: the input with its parse result. */
  datatype Formula = Formula(tex: Option<string>, plain: string, color: Option<string>, fillAlpha: Option<real>,
                             parsed: ParsedObj)

  /** isRenderTarget: equations, points and parametric points are drawn. */
  predicate IsRenderTarget(p: Parsed)
  {
    p.Equation? || p.Point? || p.Parametric?
  }

  /** The key of a layer: color, fill alpha and the parsed object, compared element by element. */
  datatype RenderKey = RenderKey(color: string, fillAlpha: real, parsed: nat)

  /** A color that draws: present, not empty, not 'transparent'. */
  predicate Visible(color: Option<string>)
  {
    color.Some? && color.value != "" && color.value != "transparent"
  }

  /** renderKeyOf: no layer unless the formula is drawn in a visible color;
      otherwise its color, its fill alpha (0.5 when missing) and its parsed object. */
  function RenderKeyOf(f: Formula): (k: Option<RenderKey>)
    ensures k.Some? <==> IsRenderTarget(f.parsed.value) && Visible(f.color)
    ensures k.Some? ==> k.value.color == f.color.value && k.value.parsed == f.parsed.id
    ensures k.Some? ==> k.value.fillAlpha == if f.fillAlpha.Some? then f.fillAlpha.value else FillAlphaFallback
  {
    if !IsRenderTarget(f.parsed.value) || !Visible(f.color) then None
    else Some(RenderKey(f.color.value, Or(f.fillAlpha, FillAlphaFallback), f.parsed.id))
  }

  /** Two formulas of the same layer are drawn from the same parsed object in the same color and alpha. */
  lemma RenderKeyShared(f: Formula, g: Formula)
    requires RenderKeyOf(f).Some? && RenderKeyOf(f) == RenderKeyOf(g)
    ensures f.parsed.id == g.parsed.id && f.color == g.color
    ensures Or(f.fillAlpha, FillAlphaFallback) == Or(g.fillAlpha, FillAlphaFallback)
  {
  }

  /** The layer keys of the formulas, in order, null keys left out. */
  function KeyList(fs: seq<Formula>): (ks: seq<RenderKey>)
    ensures |ks| <= |fs|
  {
    if fs == [] then []
    else
      var k := RenderKeyOf(fs[|fs| - 1]);
      KeyList(fs[..|fs| - 1]) + (if k.Some? then [k.value] else [])
  }

  /** The layers a completed panel holds. */
  function KeysOf(fs: seq<Formula>): set<RenderKey>
  {
    set k | k in KeyList(fs)
  }

  /** A key is a layer exactly when some formula has it as its render key. */
  lemma {:induction false} KeysOfExact(fs: seq<Formula>, k: RenderKey)
    ensures k in KeysOf(fs) <==> exists i :: 0 <= i < |fs| && RenderKeyOf(fs[i]) == Some(k)
  {
    if fs != [] {
      var init := fs[..|fs| - 1];
      KeysOfExact(init, k);
      if exists i :: 0 <= i < |fs| && RenderKeyOf(fs[i]) == Some(k) {
        var i :| 0 <= i < |fs| && RenderKeyOf(fs[i]) == Some(k);
        if i < |fs| - 1 {
          assert init[i] == fs[i];
        }
      }
      if exists i :: 0 <= i < |init| && RenderKeyOf(init[i]) == Some(k) {
        var i :| 0 <= i < |init| && RenderKeyOf(init[i]) == Some(k);
        assert fs[i] == init[i];
      }
    }
  }

  /** One more formula adds its render key, if it has one, to the layer keys. */
  lemma KeysOfStep(fs: seq<Formula>, j: int)
    requires 0 <= j < |fs|
    ensures KeysOf(fs[..j + 1]) == KeysOf(fs[..j]) + (if RenderKeyOf(fs[j]).Some? then {RenderKeyOf(fs[j]).value} else {})
  {
    assert fs[..j + 1][..j] == fs[..j];
  }

  // ---------------------------------------------------------------------
  // updateFormulas

  /** The tex/plain lists agree, which is what isEqual finds for the two lists of fresh `{tex, plain}` objects. */
  predicate SameTexts(fs: seq<Formula>, inputs: seq<FormulaInput>)
  {
    |fs| == |inputs| && forall i :: 0 <= i < |fs| ==> fs[i].tex == inputs[i].tex && fs[i].plain == inputs[i].plain
  }

  /** The text of an unchanged list: each formula keeps its parse result and takes the new color and fill alpha. */
  function Restyled(fs: seq<Formula>, inputs: seq<FormulaInput>): (r: seq<Formula>)
    requires |fs| == |inputs|
    ensures |r| == |inputs|
    ensures forall i :: 0 <= i < |r| ==>
      r[i].parsed == fs[i].parsed && r[i].color == inputs[i].color && r[i].fillAlpha == inputs[i].fillAlpha
    ensures SameTexts(fs, inputs) ==> SameTexts(r, inputs)
  {
    seq(|inputs|, i requires 0 <= i < |inputs| => fs[i].(color := inputs[i].color, fillAlpha := inputs[i].fillAlpha))
  }

  /** The drawable parse results of the formulas by their key; a later formula wins. */
  function KeyCache(fs: seq<Formula>): map<string, ParsedObj>
  {
    if fs == [] then map[]
    else
      var c := KeyCache(fs[..|fs| - 1]);
      var p := fs[|fs| - 1].parsed;
      if IsRenderTarget(p.value) then c[p.value.key := p] else c
  }

  /** A key of the cache is the key of a drawable formula, and it holds the last such parse result. */
  lemma {:induction false} KeyCacheLast(fs: seq<Formula>, key: string)
    ensures key in KeyCache(fs) <==> exists i :: 0 <= i < |fs| && IsRenderTarget(fs[i].parsed.value) && fs[i].parsed.value.key == key
    ensures key in KeyCache(fs) ==> exists i :: (0 <= i < |fs| && IsRenderTarget(fs[i].parsed.value) && fs[i].parsed.value.key == key
      && KeyCache(fs)[key] == fs[i].parsed
      && forall j :: i < j < |fs| ==> !(IsRenderTarget(fs[j].parsed.value) && fs[j].parsed.value.key == key))
  {
    if fs != [] {
      var init := fs[..|fs| - 1];
      var last := |fs| - 1;
      KeyCacheLast(init, key);
      if IsRenderTarget(fs[last].parsed.value) && fs[last].parsed.value.key == key {
      } else {
        if exists i :: 0 <= i < |fs| && IsRenderTarget(fs[i].parsed.value) && fs[i].parsed.value.key == key {
          var i :| 0 <= i < |fs| && IsRenderTarget(fs[i].parsed.value) && fs[i].parsed.value.key == key;
          assert i < last && init[i] == fs[i];
        }
        if key in KeyCache(init) {
          var i :| (0 <= i < |init| && IsRenderTarget(init[i].parsed.value) && init[i].parsed.value.key == key
            && KeyCache(init)[key] == init[i].parsed
            && forall j :: i < j < |init| ==> !(IsRenderTarget(init[j].parsed.value) && init[j].parsed.value.key == key));
          assert fs[i] == init[i];
          forall j | i < j < |fs|
            ensures !(IsRenderTarget(fs[j].parsed.value) && fs[j].parsed.value.key == key)
          {
            if j < last {
              assert fs[j] == init[j];
            }
          }
        }
      }
    }
  }

  /** A formula's text for the parser and, when texToPlain threw, the text of the exception. */
  datatype TextFormula = TextFormula(text: string, error: Option<string>)

  function TextOf(input: FormulaInput, texToPlain: string -> Outcome<string>): (t: TextFormula)
    ensures input.tex.None? ==> t == TextFormula(input.plain, None)
    ensures input.tex.Some? && texToPlain(input.tex.value).Escaped? ==> t == TextFormula("", Some(texToPlain(input.tex.value).message))
    ensures input.tex.Some? && texToPlain(input.tex.value).Done? ==> t == TextFormula(texToPlain(input.tex.value).value, None)
  {
    if input.tex.None? then TextFormula(input.plain, None)
    else
      match texToPlain(input.tex.value)
      case Done(t) => TextFormula(t, None)
      case Escaped(m) => TextFormula("", Some(m))
  }

  function TextFormulas(inputs: seq<FormulaInput>, texToPlain: string -> Outcome<string>): (r: seq<TextFormula>)
    ensures |r| == |inputs|
    ensures forall i :: 0 <= i < |inputs| ==> r[i] == TextOf(inputs[i], texToPlain)
  {
    seq(|inputs|, i requires 0 <= i < |inputs| => TextOf(inputs[i], texToPlain))
  }

  function Texts(tfs: seq<TextFormula>): (r: seq<string>)
    ensures |r| == |tfs|
    ensures forall i :: 0 <= i < |tfs| ==> r[i] == tfs[i].text
  {
    seq(|tfs|, i requires 0 <= i < |tfs| => tfs[i].text)
  }

  /** The result Parser.ParseFormulas promises: one classification per formula, or
      an exception that ends the call. */
  function ParsedList(nc: Numcore, parse: seq<string> -> seq<ParseResult>, exps: seq<string>): (r: Outcome<seq<Parsed>>)
    requires |parse(Present(exps))| == |Present(exps)|
    ensures r.Done? ==> |r.value| == |exps|
  {
    if forall i :: 0 <= i < |exps| ==> EntryOf(nc, Dist, parse, exps, i).Done? then
      Done(seq(|exps|, i requires 0 <= i < |exps| && EntryOf(nc, Dist, parse, exps, i).Done? => EntryOf(nc, Dist, parse, exps, i).value))
    else Escaped("parse")
  }

  /** The parse result a new formula keeps: the failure of texToPlain, the previous
      object of a drawable result with the same key, or the new result itself. */
  function Pick(keyCache: map<string, ParsedObj>, tf: TextFormula, parsed: Parsed, id: nat): (p: ParsedObj)
    ensures tf.error.Some? && tf.error.value != "" ==> p == ParsedObj(id, Error(tf.error.value))
    ensures !(tf.error.Some? && tf.error.value != "") && IsRenderTarget(parsed) && parsed.key in keyCache ==> p == keyCache[parsed.key]
    ensures !(tf.error.Some? && tf.error.value != "") && !(IsRenderTarget(parsed) && parsed.key in keyCache) ==> p == ParsedObj(id, parsed)
  {
    if tf.error.Some? && tf.error.value != "" then ParsedObj(id, Error(tf.error.value))
    else if IsRenderTarget(parsed) && parsed.key in keyCache then keyCache[parsed.key]
    else ParsedObj(id, parsed)
  }

  /** The formulas of a changed list: each input with its picked parse result; new objects are numbered from base. */
  function Reparsed(keyCache: map<string, ParsedObj>, inputs: seq<FormulaInput>, tfs: seq<TextFormula>,
                    parseds: seq<Parsed>, base: nat): (r: seq<Formula>)
    requires |tfs| == |inputs| && |parseds| == |inputs|
    ensures |r| == |inputs|
  {
    seq(|inputs|, i requires 0 <= i < |inputs| =>
      Formula(inputs[i].tex, inputs[i].plain, inputs[i].color, inputs[i].fillAlpha, Pick(keyCache, tfs[i], parseds[i], base + i)))
  }

  /** isEqual on two parsed objects: the same object, or two points with the same
      coordinates (equations and parametric points hold generated functions,
      which are equal only to themselves). */
  predicate SameParsed(a: ParsedObj, b: ParsedObj)
  {
    a.id == b.id || (a.value.Point? && a.value == b.value)
  }

  /** isEqual on `extractRendering` of two formulas: both not drawn, or both drawn
      from equal parsed objects with the same color and fill alpha. */
  predicate SameRendering(f: Formula, g: Formula)
  {
    if IsRenderTarget(f.parsed.value) then
      IsRenderTarget(g.parsed.value) && SameParsed(f.parsed, g.parsed) && f.color == g.color && f.fillAlpha == g.fillAlpha
    else !IsRenderTarget(g.parsed.value)
  }

  predicate SameRenderings(fs: seq<Formula>, gs: seq<Formula>)
  {
    |fs| == |gs| && forall i :: 0 <= i < |fs| ==> SameRendering(fs[i], gs[i])
  }

  /** Parsing the texts of the inputs gives one parse result per non-blank text, as numcore promises. */
  predicate ParsesAll(parse: seq<string> -> seq<ParseResult>, inputs: seq<FormulaInput>, texToPlain: string -> Outcome<string>)
  {
    var exps := Texts(TextFormulas(inputs, texToPlain));
    |parse(Present(exps))| == |Present(exps)|
  }

  /** The parsed objects the formulas hold. */
  function ParsedOf(fs: seq<Formula>): set<ParsedObj>
  {
    set i | 0 <= i < |fs| :: fs[i].parsed
  }

  /** The loop of updateFormulas that collects the drawable parse results by key. */
  method BuildKeyCache(fs: seq<Formula>) returns (keyCache: map<string, ParsedObj>)
    ensures keyCache == KeyCache(fs)
    ensures forall k :: k in keyCache ==> keyCache[k] in ParsedOf(fs)
  {
    keyCache := map[];
    for i := 0 to |fs|
      invariant keyCache == KeyCache(fs[..i])
      invariant forall k :: k in keyCache ==> keyCache[k] in ParsedOf(fs)
    {
      assert fs[..i + 1][..i] == fs[..i];
      if IsRenderTarget(fs[i].parsed.value) {
        keyCache := keyCache[fs[i].parsed.value.key := fs[i].parsed];
      }
    }
    assert fs[..|fs|] == fs;
  }

  /** The changed-list branch of updateFormulas: texToPlain, parseFormulas, then the pick of each parse result. */
  method Reparse(nc: Numcore, parse: seq<string> -> seq<ParseResult>, texToPlain: string -> Outcome<string>,
                 inputs: seq<FormulaInput>, keyCache: map<string, ParsedObj>, base: nat) returns (out: Outcome<seq<Formula>>)
    requires ParsesAll(parse, inputs, texToPlain)
    requires forall k :: k in keyCache ==> keyCache[k].id < base
    ensures var tfs := TextFormulas(inputs, texToPlain);
      var parsed := ParsedList(nc, parse, Texts(tfs));
      && (out.Escaped? <==> parsed.Escaped?)
      && (parsed.Done? ==> out == Done(Reparsed(keyCache, inputs, tfs, parsed.value, base)))
    ensures out.Done? ==> forall i :: 0 <= i < |out.value| ==> out.value[i].parsed.id < base + |inputs|
  {
    var tfs := TextFormulas(inputs, texToPlain);
    var texts := Texts(tfs);
    var parsed := ParseFormulas(nc, Dist, parse, texts);
    if parsed.Escaped? {
      return Escaped(parsed.message);
    }
    assert parsed.value == ParsedList(nc, parse, texts).value;
    out := Done(Reparsed(keyCache, inputs, tfs, parsed.value, base));
    ReparsedIds(keyCache, inputs, tfs, parsed.value, base);
  }

  /** Objects kept from the key cache are older than base, new ones numbered from base. */
  lemma ReparsedIds(keyCache: map<string, ParsedObj>, inputs: seq<FormulaInput>, tfs: seq<TextFormula>,
                    parseds: seq<Parsed>, base: nat)
    requires |tfs| == |inputs| && |parseds| == |inputs|
    requires forall k :: k in keyCache ==> keyCache[k].id < base
    ensures var r := Reparsed(keyCache, inputs, tfs, parseds, base);
      forall i :: 0 <= i < |r| ==> r[i].parsed.id < base + |inputs|
  {
  }
}
