# xyview in Dafny

This project is a model of the core of xyview, a library that plots
equations and inequalities in x and y on an HTML canvas. It has four parts.

- **TupleMap.** A map whose keys are tuples, compared element by element by
  identity. Each distinct element is interned to a numeric id with a
  reference count. The internal key is the sequence of ids. Both copies are
  modelled: `dist/tuplemap.js` and the older `src/tuplemap.ts`. The model is
  the class `TupleMaps.TupleMap`, with the fields `identifierMap`,
  `internalEntries` and `lastId`. It also has a field `order`, which holds
  the insertion order of the JavaScript `Map`.
- **Formula classification.** These functions turn what numcore's parser
  reports into the object a formula is rendered from:
  - `convertAST`, `nanExpressionWarning`, `constantConditionWarning` and
    `parseFormulas` of `dist/parser.js`;
  - the older copies in `src/parser.ts` and `src/renderer.ts`, selected by
    the `Revision` parameter;
  - the oldest reader, `parseExpression` and `parseFormula` of `src/panel.ts`.

  numcore's `parse`, `extractVariables` and code generators are parameters,
  bundled in the `Numcore` record.
- **The adaptive evaluator.** This covers:
  - the quadtree worklist of `render2D`, with its `calcDot` and `calcFull` (dense sampling with row buffers kept in arrays);
  - `calc1DRange`, which does bisection, then leaf resolution, then compaction of the per-pixel lengths;
  - `calc1DCurves`, which samples polylines that are split at NaN;
  - the commands `render1D` issues.

  The two older 2D copies, `render` of `src/renderer.ts` and of
  `src/panel.ts`, follow the same branches with the same constants. The one
  method `Renderer.Render2D` models all three. Drawing is recorded as a list
  of commands in the formula's own coordinates.
- **The view.** The class `Views.View` models the `View` of
  `dist/view.js`. It covers:
  - in the modules `Formulas`, `PanelGrid`, `Layers` and `Frames`: the formulas, the panel grid and the panel range, the layers of each panel keyed by render key, and the shared cache of 1D results;
  - the `needsRender` and `calcPaused` flags;
  - the pool from which canvases are reused;
  - the frame that `render` draws.

  `isEqual` and `listEquals` are in `JsValues`. The stale view of
  `src/view.ts` is the class `LegacyViews.LegacyView`.

The model has these parameters:

- Canvases are numbered as they are created.
- The wall clock is a parameter `overBudget(n)`: the budget is spent once `n` panels have been computed.
- JavaScript numbers are reals, plus NaN where the code branches on NaN. That type is `Common.Num`.

Where the file revisions disagree, each revision is modelled as written.
These are the divergences:

- `get` treats the empty tuple differently (see Findings).
- `src/parser.ts` also fits a top-level `+`, where `dist/parser.js` fits only `-` (`SideShape`).
- `src/renderer.ts` tests a missing tree by falsiness (`MissingAst`).
- `src/view.ts` computes the panel range for the opposite center (`LegacyViews.LegacyRangeMirrored`).
- `render` of `src/view.ts` draws every formula's canvas, including the 0×0 canvas of a formula that did not parse; `drawImage` throws InvalidStateError for a canvas of zero size, so such a render, and the update around it, throws once a panel exists (`LegacyViews.LegacyFrameOf`).

## Model

| member | source | states |
|---|---|---|
| TupleMaps.TupleMap.constructor | dist/tuplemap.js:5-9 | a new map is valid and empty, with no interned item and `lastId` 0 |
| TupleMaps.TupleMap.AddKey | dist/tuplemap.js:10-19 | every item of the key is interned: an unknown item gets the current `lastId`, which then increments; each occurrence adds one to the item's count; the result is the key's id sequence |
| TupleMaps.TupleMap.Intern | dist/tuplemap.js:12-17 | one step of addKey's map: the id sequence grows by exactly the id of the item |
| TupleMaps.TupleMap.KeyToString | dist/tuplemap.js:20-30 | the id sequence is returned exactly when every item is interned, and is then the items' ids in order |
| TupleMaps.TupleMap.DeleteKey | dist/tuplemap.js:31-38 | each item's count drops by its number of occurrences in the key; items that reach 0 are removed; other items are untouched |
| TupleMaps.TupleMap.Set | dist/tuplemap.js:39-45 | the contents become the old contents with key mapped to value; the size grows by one exactly when the key was absent; re-setting a stored key leaves the interned items, `lastId` and the order unchanged |
| TupleMaps.TupleMap.SetFresh | dist/tuplemap.js:41-43 | storing an absent key interns it, appends one entry at the end of the order and keeps the invariant |
| TupleMaps.TupleMap.SetStored | dist/tuplemap.js:40-43 | a stored key is overwritten in place: the contents change only at that key and the size is unchanged |
| TupleMaps.TupleMap.Get | dist/tuplemap.js:46-51 | the value stored under the key, or none when the key is not stored (including keys that hold an item never interned) |
| TupleMaps.TupleMap.GetLegacy | src/tuplemap.ts:37-40 | as `Get`, except that the empty tuple always gives none |
| TupleMaps.TupleMap.Has | dist/tuplemap.js:52-55 | true exactly when the key is stored |
| TupleMaps.TupleMap.Delete | dist/tuplemap.js:56-63 | true exactly when the key was stored; only that key is removed; a key that was not stored changes no field |
| TupleMaps.TupleMap.RemoveStored | dist/tuplemap.js:58-60 | the entry of a stored key is removed, its items are released, and the invariant still holds |
| TupleMaps.TupleMap.Entries | dist/tuplemap.js:67-70 | the entries in insertion order: each is a stored key with its value, no key twice, every stored key present, and as many as the size |
| TupleMaps.TupleMap.EntriesInOrder | dist/tuplemap.js:67-70 | the loop over the internal map yields the entries of the order, one by one |
| TupleMaps.TupleMap.Keys | dist/tuplemap.js:71-74 | the keys of the entries, in the same order |
| TupleMaps.TupleMap.Values | dist/tuplemap.js:75-78 | the values of the entries, in the same order |
| TupleMaps.TupleMap.Size | dist/tuplemap.js:83-85 | the number of stored keys |
| TupleMaps.TupleMap.Clear | dist/tuplemap.js:86-90 | afterwards the map is empty, nothing is interned and `lastId` is 0 |
| TupleMaps.EmptyTupleDivergence | src/tuplemap.ts:37-43 | after setting the empty tuple, `has` is true and the newer `get` finds the value, but the older `get` does not |
| TupleMaps.IdsInjective | dist/tuplemap.js:20-30 | while ids are distinct, two interned keys with the same id sequence are the same key |
| TupleMaps.InternedIffStored | dist/tuplemap.js:10-19 | in a valid map an item is interned exactly when it occurs in some stored key |
| TupleMaps.ContentsLookup | dist/tuplemap.js:46-55 | a key is stored exactly when all its items are interned and their id sequence is an internal key, whose entry holds that key |
| TupleMaps.EntryListExact | dist/tuplemap.js:67-78 | the entry list holds each stored key once, with its value |
| TupleMaps.SizeIsOrderLength | dist/tuplemap.js:83-85 | the number of internal entries equals the length of the insertion order |
| TupleMaps.StoredIdsBelow | dist/tuplemap.js:14-15 | every id used by a stored key is below `lastId` |
| TupleMaps.FreshKeyUnstored | dist/tuplemap.js:40-42 | a key that is not fully interned gets, after interning, an id sequence that is not yet an internal key |
| TupleMaps.SetFreshKeeps | dist/tuplemap.js:39-45 | storing a fresh key keeps the invariant: unique ids, ids below `lastId`, each count equal to the occurrences in stored keys |
| TupleMaps.SetStoredKeeps | dist/tuplemap.js:40-43 | overwriting a stored key keeps the invariant |
| TupleMaps.SetFreshPost | dist/tuplemap.js:39-45 | a fresh store adds the key with its value and grows the contents by one |
| TupleMaps.SetStoredPost | dist/tuplemap.js:40-43 | an overwrite changes the value of that key only |
| TupleMaps.DeleteKeyReady | dist/tuplemap.js:31-38 | for a stored key, each item's count is at least its occurrences in the key, so the counts never go below zero |
| TupleMaps.DeleteKeeps | dist/tuplemap.js:56-63 | removing an entry and releasing its items keeps the invariant |
| TupleMaps.DeletePost | dist/tuplemap.js:56-63 | deletion removes exactly that key from the contents |
| TupleMaps.ContentsOfStore | dist/tuplemap.js:43 | writing an internal entry updates the contents at that key |
| TupleMaps.ContentsOfRemove | dist/tuplemap.js:58 | removing an internal entry removes its key from the contents |
| TupleMaps.ContentsOfSize | dist/tuplemap.js:83-85 | the contents have as many keys as there are internal entries |
| Parser.FillModeOf | dist/parser.js:83-87 | `positive`, `negative` and `zero` are exactly "the mode has `>`", "has `<`" and "has `=`" |
| Parser.SwappedMirrors | dist/parser.js:109-123 | the fill mode read from the right-hand side: swapping twice gives the original back, the swapped mode fills a sign exactly when the original fills the opposite sign, and the range option is swapped alike |
| Parser.ConstantConditionWarning | dist/parser.js:20-35 | EQNAN gives 'Always NaN' and OTHER gives 'Condition always false'; a definite category gives always true or always false by its flag; BOTH, HASGAP and HASNAN give no warning exactly when some but not all signs are enabled |
| Parser.SideFit | dist/parser.js:89-125 | a bare variable on one side gives `calcType` `f` plus the other axis, the side's fill mode, and the key `v side mode code` |
| Parser.Fit | dist/parser.js:89-141 | the fill mode is kept or swapped and zero is always kept; a bare variable on the left keeps it, one on the right swaps it |
| Parser.FreeFit | dist/parser.js:126-141 | a single dependency `v` gives `calcType` `v` and key `v mode code`; otherwise `calcType` is `xy` with key `xy mode code` |
| Parser.ClassifyPoint | dist/parser.js:51-73 | a missing axis or an error becomes an error; two numbers give a point; a parametric point never depends on x or y and is keyed by its two generated codes |
| Parser.Plane2D | src/renderer.ts:54-63 | an equation of the older renderer carries its mode and the fill mode of that mode |
| Parser.Classify | dist/parser.js:74-145 | a result is never blank. Definitions keep their kind and name. A missing tree is an error. In the newer revision `t` is an unknown parameter. The error cases are as parsed |
| Parser.Present | dist/parser.js:40-45 | the compacted expressions are the inputs that are not blank, in order |
| Parser.PresentPrefix | dist/parser.js:40-45 | compaction of a prefix is a prefix of the compaction |
| Parser.Rank | dist/parser.js:40-45 | a non-blank input's index into the compacted list points at that input |
| Parser.CompactIndices | dist/parser.js:39-45 | the loop pushes each non-blank input once and records its index; blank inputs get no index |
| Parser.ParseFormulas | dist/parser.js:36-147 | one result per input, in order; blank inputs are blank; every other input is classified from its own parse result; the whole call throws only when the classification of some non-blank entry throws, with that message |
| Panel.BeforeFirst | src/panel.ts:24-26 | the prefix before the first occurrence of a character |
| Panel.Dedup | src/panel.ts:27-28 | the distinct names of a list, first occurrence first |
| Panel.DedupHead | src/panel.ts:27-28 | deduplication keeps the first name first |
| Panel.DedupTwo | src/panel.ts:27-30 | a parameter together with dependencies has two or more names exactly when some dependency differs from the parameter |
| Panel.Equate | src/panel.ts:35-47 | a parse error is rethrown; a result that is not an equation throws 'not an equation'; a mode-less tree with no variable or only `x` becomes `y - tree`, with only `y` becomes `x - tree`, and with two variables throws |
| Panel.PlotCall | src/panel.ts:29-32 | a parameter named `y` is plotted as `x = f(y)`, any other as `y = f(x)` |
| Panel.ParseExpression | src/panel.ts:14-49 | a variable depending on two names, or a function whose parameter and dependencies have two names, throws "cannot render"; otherwise the expression is re-read as the plot call, and everything else goes to `Equate` |
| Panel.ParseFormula | src/panel.ts:51-61 | an exception is passed on; otherwise the fill mode flags are exactly "the mode has `>`/`<`/`=`" |
| Panel.EquateAgreesWithConvert | src/panel.ts:38-47 | where the older reader does not throw, it agrees with the newer `convertAST` |
| Renderer.FillModeToMask | dist/renderer.js:5-9 | the mask has only the three sign bits |
| Renderer.MaskSelects | dist/renderer.js:5-9 | a definite category's bit is set in the mask exactly when the fill mode asks for that sign |
| Renderer.StepOf | dist/renderer.js:109-137 | a definite box (a code of at least 0, OTHER included) is filled exactly when its bit is in the mask, and skipped otherwise; BOTH at size 8 or below is dense-sampled; any other box splits while its size is above 1; at size 1 it goes to `calcDot` |
| Renderer.OtherSkipped | dist/renderer.js:118-121 | a box reported OTHER is neither drawn nor split, whatever the fill mode, because its bit is in no mask |
| Renderer.QuadrantsTile | dist/renderer.js:124-132 | the four midpoint quadrants have half the width and height and together cover exactly the box |
| Renderer.DotAlpha | dist/renderer.js:31-54 | alpha is the share of the four sample points whose value the fill mode covers, always in [0, 1], and 0 when nothing is filled |
| Renderer.CalcDot | dist/renderer.js:31-54 | nothing is drawn with no flag; at most one unit square at the box corner, drawn only when its alpha is above 0 |
| Renderer.CutOnEdge | dist/renderer.js:95-102 | an interpolated crossing lies on its edge |
| Renderer.CellFill | dist/renderer.js:74-94 | one dense cell is filled as the cell's specification says (centre zero, all corners of the sign, or a dot when some are) |
| Renderer.CellCrossings | dist/renderer.js:95-102 | the crossing points of one cell's four edges, in order, as x, y pairs |
| Renderer.CalcCell | dist/renderer.js:67-102 | one cell's fill and crossings from the four sampled corner values |
| Renderer.SampleRow | dist/renderer.js:60-66 | the row buffer holds the samples of that grid row |
| Renderer.RowCells | dist/renderer.js:67-103 | the cells of one row, from the two swapped row buffers |
| Renderer.CalcFull | dist/renderer.js:55-107 | dense sampling yields the fills and crossing points of all cells of the grid |
| Renderer.RenderBox | dist/renderer.js:110-136 | one box gives exactly the drawing, crossing points and quadrants its step prescribes: a filled square, nothing, dense sampling, four quadrants, or calcDot |
| Renderer.RenderLevel | dist/renderer.js:110-137 | one pass over the worklist at one size: the drawings, crossing points and queued quadrants of its boxes, in order |
| Renderer.PlotMarkers | dist/renderer.js:138-146 | one marker per crossing pair |
| Renderer.Render2D | dist/renderer.js:10-147 | for a power-of-two side, the log is the drawing of all levels from the full side down to 1, then one marker per crossing point, and the crossing list is always pairs; the same algorithm as src/renderer.ts:70-208 and src/panel.ts:64-208 |
| Renderer.RenderLevels | dist/renderer.js:110-137 | the level loop yields the drawing and the crossing points of every level, from the full side while the side is at least 1 |
| Renderer.LevelsPointsEven | dist/renderer.js:95-102 | every level pushes an even number of coordinates |
| Renderer.GridPointsEven | dist/renderer.js:95-102 | a dense grid pushes coordinates in pairs |
| Renderer.EdgePointsWithin | dist/renderer.js:95-102 | each crossing of a cell lies in that cell |
| Renderer.CellWithin | dist/renderer.js:67-102 | the fill and crossings of a dense cell lie inside its box |
| Renderer.GridWithin | dist/renderer.js:55-107 | everything dense sampling draws or finds lies inside the sampled box |
| Renderer.BoxWithin | dist/renderer.js:110-136 | a box draws, finds and queues nothing outside itself |
| Renderer.LevelsWithin | dist/renderer.js:109-137 | the whole worklist stays inside the panel's box |
| Renderer.Render2DWithin | dist/renderer.js:10-147 | every square and marker render2D draws lies inside the panel's range |
| Renderer.LevelNextHalves | dist/renderer.js:124-138 | the boxes queued from boxes of one size have half that width and height |
| Renderer.LevelNextEmpty | dist/renderer.js:124-136 | nothing is queued from size 1, so the loop ends |
| Render1D.RunLength | dist/renderer.js:161-163 | `for (i = 0; i < pixel; i++)` runs the ceiling of `pixel` times |
| Render1D.SetRunContents | dist/renderer.js:159-164 | a full fill writes delta at exactly the run of pixels from its start, and nothing else |
| Render1D.WriteRun | dist/renderer.js:161-163 | the loop writes the run |
| Render1D.Fill | dist/renderer.js:159-168 | the fill helper, full or partial, as its specification |
| Render1D.LevelSizeBound | dist/renderer.js:172 | the current size stays at or above 1/64 pixel exactly while 2^k is at most 64 times the size, and halves each level |
| Render1D.HalvesTile | dist/renderer.js:181-182 | the two halves meet at the centre, cover the parent and have equal length |
| Render1D.BisectLevelInside | dist/renderer.js:174-187 | bisection queues only intervals inside the axis |
| Render1D.BisectLeaves | dist/renderer.js:172-190 | the loop ends with an empty worklist, one longer than the size, or a size below 1/64 pixel, and the leaves lie inside the axis |
| Render1D.RootBetween | dist/renderer.js:198-199 | at a sign change the root `min + (max - min) * fmin / (fmin - fmax)` lies in [min, max] |
| Render1D.LeavesPlotsInside | dist/renderer.js:191-211 | every plotted root lies within its leaf, hence within the axis |
| Render1D.PartialsExact | dist/renderer.js:213-227 | the partial pixels are listed once each, in increasing order |
| Render1D.RunsMaximal | dist/renderer.js:218-223 | the merged runs of full pixels are maximal: adjacent full pixels share one run and runs never touch |
| Render1D.RunsCover | dist/renderer.js:218-223 | every full pixel is covered by a run |
| Render1D.SpansOrdered | dist/renderer.js:212-228 | the fills are ascending and pairwise disjoint |
| Render1D.CompactReadsRuns | dist/renderer.js:212-228 | the forEach over the lengths gives the fills of the maximal runs and one alpha fill per partial pixel |
| Render1D.OtherDropped | dist/renderer.js:176-179 | an interval reported OTHER fills nothing and queues nothing |
| Render1D.BisectOne | dist/renderer.js:175-186 | one interval of the bisection loop: a definite one (OTHER included) filled when its bit is set, an ambiguous one halved above 1/64 pixel, kept below that only when BOTH |
| Render1D.BisectRanges | dist/renderer.js:173-188 | one level of the bisection loop: the interval steps applied in order to the lengths and the next worklist |
| Render1D.ResolveLeaf | dist/renderer.js:191-211 | one leaf: a root plotted and the side of the filled sign filled, or the whole leaf filled |
| Render1D.CompactPixel | dist/renderer.js:213-227 | one pixel of the compaction: skipped when zero, merged or pushed when full, an alpha fill otherwise |
| Render1D.Calc1DRange | dist/renderer.js:151-230 | the result is the specification `Range1D`: bisection, leaf resolution and compaction, about which the Range1D lemmas below state the properties |
| Render1D.Range1DPlotsInside | dist/renderer.js:191-211 | every root of calc1DRange lies within [min, max] |
| Render1D.Range1DCompacted | dist/renderer.js:212-228 | the fills are the spans of the maximal runs of full pixels, and the alpha fills are the partial pixels with alpha `len / delta` |
| Render1D.Range1DAlphaFinite | dist/renderer.js:159-168 | with unwritten pixels read as 0, every alpha fill has a number as its alpha |
| Render1D.Range1DHoleNaN | dist/renderer.js:166 | as written, a one-pixel axis that is always positive yields the alpha fill (0, 1, NaN) and no fill |
| Render1D.Range1DHoleZero | dist/renderer.js:166 | with unwritten pixels read as 0, the same input yields the fill (0, 1) |
| Render1D.SampleCount | dist/renderer.js:243 | `for (i = 0; i <= n; i++)` runs floor(n) + 1 times |
| Render1D.CurveLevelNoSplit | dist/renderer.js:254-270 | below 1/64 pixel nothing is split further |
| Render1D.CalcFull | dist/renderer.js:238-253 | dense sampling of an interval, as specified |
| Render1D.OtherSampled | dist/renderer.js:259-261 | an interval reported OTHER is sampled densely and not split |
| Render1D.CurveOne | dist/renderer.js:255-268 | one interval: EQNAN dropped, a definite one (OTHER included) or BOTH sampled with calcFull, any other split into halves above 1/64 pixel |
| Render1D.CurveRanges | dist/renderer.js:254-270 | one level of the curves loop: the curves of the sampled intervals and the halves of the split ones, in order |
| Render1D.Calc1DCurves | dist/renderer.js:232-272 | the result is the specification `Curves1D` |
| Render1D.SampleAtPolylines | dist/renderer.js:244-251 | a NaN sample closes the current polyline and a number extends it |
| Render1D.Curves1DPolylines | dist/renderer.js:232-272 | every polyline has even length, only finite samples of the function within the axis, and strictly increasing x |
| Render1D.EmitBands | dist/renderer.js:296-300 | one band per fill |
| Render1D.EmitAlphas | dist/renderer.js:301-306 | for each alpha fill: set alpha, then a band |
| Render1D.EmitLines | dist/renderer.js:307-309 | one line per plotted root |
| Render1D.EmitAreas | dist/renderer.js:314-329 | the filled areas of the polylines |
| Render1D.EmitStrokes | dist/renderer.js:330-351 | the strokes of the polylines |
| Render1D.Render1DLog | dist/renderer.js:274-354 | the command log of render1D for a range result or a curves result |
| Render1D.PaintedDraws | dist/renderer.js:274-354 | commands that set no alpha are painted at the current alpha |
| Render1D.RangeCmdsPainted | dist/renderer.js:294-309 | the fills are painted at fill alpha, each alpha fill at its own alpha times fill alpha, and the root lines at 1 |
| Render1D.CurveCmdsPainted | dist/renderer.js:310-352 | areas are painted at fill alpha only when a sign is filled, and strokes at 1 |
| JsValues.IsEqualSymmetric | dist/view.js:8-22 | isEqual(a, b) equals isEqual(b, a) |
| JsValues.IsEqualReflexive | dist/view.js:8-22 | every value equals itself except NaN |
| JsValues.IsEqualShapes | dist/view.js:8-22 | values that are not both objects are equal only when `===` holds; an array never equals a non-array |
| JsValues.IsEqualArrays | dist/view.js:15-16 | two arrays are equal when identical, or of equal length with their elements equal position by position |
| JsValues.IsEqualObjects | dist/view.js:17-21 | two objects are equal when every key of either has equal values in both |
| JsValues.CopiesEqual | dist/view.js:8-22 | two structurally equal values without NaN are isEqual, whatever their identities |
| JsValues.ListEqualsArrays | src/view.ts:48-50 | listEquals is isEqual on two arrays |
| Formulas.Round | dist/view.js:58-59 | `Math.round` rounds half up |
| Formulas.RenderKeyOf | dist/view.js:38-45 | a key exactly for an eq, point or parametric result with a color that is set and not 'transparent'; it is the color, the fill alpha or 0.5, and the parsed object |
| Formulas.RenderKeyShared | dist/view.js:38-42 | two formulas with the same key share the parsed object, the color and the effective fill alpha |
| Formulas.KeysOfExact | dist/view.js:163-168 | the key set holds exactly the render keys of the formulas |
| Formulas.KeyCacheLast | dist/view.js:70-74 | a key is cached exactly when a render target has it, and it holds the last such object |
| Formulas.Restyled | dist/view.js:66-67 | with unchanged texts each formula keeps its parse result and its texts, and takes the new color and fill alpha |
| Formulas.BuildKeyCache | dist/view.js:70-74 | the loop builds the key cache, and every entry is a previous parsed object |
| Formulas.Reparse | dist/view.js:75-91 | texToPlain, parseFormulas and cache reuse give the specified formulas, or the parser's exception |
| Formulas.ReparsedIds | dist/view.js:84-91 | reused objects keep their numbers and new ones are numbered from the base |
| PanelGrid.Ceil | dist/view.js:154-157 | the ceiling |
| PanelGrid.PanelRangeExact | dist/view.js:148-159 | a column is in range exactly when its panel meets the screen's width, and likewise for rows |
| PanelGrid.PanelRangeOrdered | dist/view.js:148-159 | with width and height at least 0 and a positive scale, `ixMin <= ixMax` and `iyMin <= iyMax` |
| PanelGrid.ColumnFrom | dist/view.js:216-267 | a column's panels, from its lowest row up, until the budget is spent (the break ends only the inner loop) |
| PanelGrid.ScheduleInRange | dist/view.js:215-268 | the computed panels are in range |
| PanelGrid.ScheduleColumnHeads | dist/view.js:215-268 | every column computes its lowest panel, whatever the budget |
| PanelGrid.ScheduleUnbudgeted | dist/view.js:215-268 | with budget to spare every panel of the range is computed |
| PanelGrid.ScheduleSpent | dist/view.js:265-266 | with the budget spent after the first panel, only the lowest row is computed |
| Layers.CacheShared | dist/view.js:257-259 | panels of one column (x-based) or one row (y-based) share the cache key and the result |
| Layers.PanelBuilt | dist/view.js:221-264 | a panel's new layers are exactly the render keys of the formulas; a key of the previous generation keeps its canvas without a render call; new canvases come from the pool first |
| Layers.SweptCompleted | dist/view.js:160-179 | with budget to spare, a swept range satisfies isCalculationCompleted |
| Frames.PassesKnown | dist/view.js:315-322 | a drawing order of known entries draws one pass per entry, in order |
| Frames.DefaultPasses | dist/view.js:29-36 | the default order draws the axes, then the graph, then the labels |
| Frames.ImagesExact | dist/view.js:295-311 | an image of a formula's graph is the layer of its render key of some panel |
| Frames.GraphCovers | dist/view.js:295-311 | a completed range shows every visible formula on every panel of the range |
| Frames.GraphDistinct | dist/view.js:295-311 | no canvas is drawn twice, at two places or for two layers |
| Views.Paused | dist/view.js:134-137 | a different calcPaused value is taken, and resuming asks for a render |
| Views.ConstructorUpdate | dist/view.js:47-62 | the update run by the constructor takes the formulas and calcPaused and leaves the other initial options |
| Views.View.constructor | dist/view.js:47-60 | the initial fields: no formula, no panel, a render asked for, and the options of the info over the defaults |
| Views.NewView | dist/view.js:47-62 | `new View(info)`: the initial fields, then update(info) |
| Views.View.LayersDistinct | dist/view.js:215-264 | two layers of the view never share a canvas |
| Views.View.Update | dist/view.js:133-147 | calcPaused, then the formulas, rendering, size and viewport are patched; the frame is drawn when asked for, without calculating; a parser exception escapes after calcPaused is set |
| Views.View.Pause | dist/view.js:134-137 | the calcPaused part of update |
| Views.View.TakeFormulas | dist/view.js:138-139 | the formulas part of update |
| Views.View.PatchOptions | dist/view.js:140-145 | the rendering, size and viewport parts of update |
| Views.View.InvalidatePanels | dist/view.js:108-113 | no panel is left, a render is asked for, and nothing else changes |
| Views.View.UpdateRendering | dist/view.js:100-107 | equal options change nothing; otherwise they are taken and a render is asked for; a new line width drops every panel |
| Views.View.UpdateSize | dist/view.js:118-126 | an equal rounded size changes nothing; another is taken and asks for a render |
| Views.View.UpdateViewport | dist/view.js:127-132 | an equal viewport changes nothing; another is taken and asks for a render |
| Views.View.UpdateFormulas | dist/view.js:63-99 | unchanged texts keep the parsed objects and restyle; otherwise the formulas are re-read with cache reuse; a render is asked for exactly when what is drawn changes |
| Views.View.SetFormulas | dist/view.js:93-97 | the new list is kept, and a change of what is drawn asks for a render |
| Views.View.IsCalculationCompleted | dist/view.js:160-179 | true exactly when every panel of the range exists and holds every render key |
| Views.View.Render | dist/view.js:271-323 | nothing without a request or a context; a calculating render that is not paused computes the schedule, leaves the panels and the cache in the Swept relation to the evicted old ones (every computed panel holds exactly the render keys, the others are the kept panels untouched, the cache gains only fetched results), and then asks for a render exactly when the calculation is incomplete; the frame is drawn over the panels as they then are |
| Views.View.CalculateAndAsk | dist/view.js:278-281 | calculate, then a render request exactly when the calculation did not complete |
| Views.View.DrawPasses | dist/view.js:315-322 | the passes of the drawing order |
| Views.View.DropPanel | dist/view.js:202-204 | the removed panel's canvases go to the pool |
| Views.View.EvictPanels | dist/view.js:200-206 | the kept panels remain unchanged and every canvas of an evicted panel is pooled |
| Views.View.EvictCache | dist/view.js:207-214 | the cache becomes the evicted cache |
| Views.View.NewCanvas | dist/view.js:191 | a canvas is popped from the pool when it has one; otherwise a new one is created |
| Views.View.FetchCache | dist/view.js:192-199 | a 1D result is computed only when its key is missing, and stored under that key |
| Views.View.Calculate | dist/view.js:180-270 | eviction, then the sweep of the schedule: every computed panel holds exactly the formulas' render keys; uncomputed panels are kept; new cache entries come from a render call; with budget to spare the calculation completes; no canvas is left pooled |
| Views.View.SweepRange | dist/view.js:215-268 | the column loop computes exactly the schedule |
| Views.View.CalculateColumn | dist/view.js:216-267 | one column |
| Views.View.CalculatePanel | dist/view.js:217-264 | one panel is rebuilt at its place with the current panel size |
| Views.View.BuildLayers | dist/view.js:230-263 | the formula loop of one panel |
| Views.View.DrawLayer | dist/view.js:243-262 | a new layer gets a canvas and one render call |
| Views.View.FinishPanel | dist/view.js:262-264 | the new layers replace the panel's old ones, and the leftover canvases are pooled |
| LegacyViews.ExpCacheLast | src/view.ts:82-83 | an expression is cached exactly when a formula has it, with the result of the last such formula |
| LegacyViews.ResubmitSame | src/view.ts:81-95 | sending the same list again changes nothing when its expressions are distinct |
| LegacyViews.ResubmitRepeated | src/view.ts:81-95 | with a repeated expression holding two objects, the same list is a change |
| LegacyViews.LegacyRangeMirrored | src/view.ts:133-138 | the older range is the newer one for the opposite center |
| LegacyViews.LegacyScheduleMissing | src/view.ts:146-150 | only panels of the range that do not exist yet are computed |
| LegacyViews.LegacyScheduleUnbudgeted | src/view.ts:146-176 | with budget to spare every missing panel of the range is computed |
| LegacyViews.PanelDrawsExact | src/view.ts:158-168 | a new panel draws each formula that plots, on its own canvas |
| LegacyViews.TimesMul | src/view.ts:150 | n fresh panels allocate n times the formula count canvases |
| LegacyViews.LegacyCompletion | src/view.ts:146-176 | with budget to spare the sweep is not interrupted and the range is filled |
| LegacyViews.LegacyView.constructor | src/view.ts:73-80 | the initial fields, with the info's options over the defaults |
| LegacyViews.NewLegacyView | src/view.ts:73-80 | `new View(info)`: the initial fields, then update(info) |
| LegacyViews.LegacyView.InvalidatePanels | src/view.ts:101-105 | no panel is left and a render is asked for |
| LegacyViews.LegacyView.BuildExpCache | src/view.ts:82-83 | the loop builds the expression cache |
| LegacyViews.LegacyView.UpdateFormulas | src/view.ts:81-95 | the list is re-read with cache reuse; an equal list leaves panels and the flag, a different one drops every panel and asks for a render |
| LegacyViews.LegacyView.UpdateRendering | src/view.ts:96-100 | the options are taken; only a new line width drops the panels |
| LegacyViews.LegacyView.UpdateSize | src/view.ts:106-113 | the rounded size is taken, and a change asks for a render |
| LegacyViews.LegacyView.UpdateViewport | src/view.ts:114-118 | the viewport is taken, and a change asks for a render |
| LegacyViews.LegacyView.Update | src/view.ts:119-125 | each part of the info is applied; the closing render then starts from the panels left by the patches (none once the formulas or the line width changed) and from a request set by any change, and does what Rendered states |
| LegacyViews.LegacyView.Patch | src/view.ts:119-123 | the parts of update before its render: the panels are dropped exactly when the formulas or the line width changed, and a render is asked for when anything changed |
| LegacyViews.FirstFailed | src/view.ts:161-167 | the first formula without a mode: every formula before it parses |
| LegacyViews.LegacyFrameOf | src/view.ts:195-204 | the frame is every formula's canvas of every panel when no panel exists or every formula parses; otherwise drawImage of the first failed formula's 0×0 canvas throws, after the formulas before it were drawn |
| LegacyViews.LegacyView.Render | src/view.ts:180-207 | without a request or a context nothing happens; a paused render clears the flag and computes nothing; otherwise the flag is cleared before calculating, the near panels are kept untouched, exactly the missing panels of the schedule are made and drawn, canvases are created only beyond the evicted arrays, the flag ends set exactly when the budget interrupted the sweep, and with spare budget every panel of the range exists; the frame is then drawn as LegacyFrameOf states |
| LegacyViews.LegacyView.Calculate | src/view.ts:126-179 | the panels kept are the near ones; exactly the missing panels of the schedule are created, each drawing every plotted formula; new canvases are allocated, one per formula, only for panels beyond the evicted ones; an interruption asks for a render; with spare budget the range is filled |
| LegacyViews.LegacyView.EvictPanels | src/view.ts:139-145 | the kept panels are the near ones; every evicted panel goes to the reuse list |
| LegacyViews.LegacyView.TakeCanvases | src/view.ts:150 | a reused panel's canvas array is popped, or fresh canvases are allocated, one per formula |
| LegacyViews.LegacyView.DrawPanel | src/view.ts:158-168 | the draws of a new panel |

## Left out

- numcore: `parse`, `extractVariables`, the code generators, `texToPlain`, `presets2D` and `eval` of generated code are parameters (`Numcore`, `parse`, `texToPlain`). Their range and value functions are function parameters. The categories of `RangeResults` are a datatype; its numeric codes are not visible. POSITIVE, NEGATIVE, EQZERO and OTHER are taken as the codes of at least 0 (`result >= 0`), and OTHER gets a bit that no fill mask holds, which agrees with dist/parser.js:28-30 counting OTHER as never true.
- Canvas pixels: the affine map from formula to canvas coordinates, `Math.round` pixel placement, clip/rotate/scale in `render1D`, `fillRect`, `arc` and `drawImage`. Draws are recorded as abstract commands instead.
- `prepareAxisLabelRenderer` (dist/view.js:324-457) and `renderAxisLabel`. They use `log10`, `toFixed` and `measureText`, and they are cosmetic. A frame records only whether an axis or label pass is drawn.
- `renderPoint` and `renderParametric` are not part of this model: their definitions are not among the source files. A point or parametric layer is recorded only as its render call.
- The `render` call in src/view.ts:164 passes arguments that do not fit src/panel.ts's `render`. Only the panel bookkeeping around it is modelled.
- `performance.now()`: the budget is the parameter `overBudget`. `console.log` is left out.
- IEEE-754: numbers are reals, with NaN only where the code compares or adds NaN. Infinity and rounding error are not modelled.
- `document.createElement`, `releaseCanvas`, `release`, and the main canvas resize: canvases are numbers, and releasing one marks it released.
- `hasContext` stands for `getContext('2d')` returning a context.
- JavaScript `Map` iteration order: the panel map is a Dafny map, so the graph pass is a set of images per formula, and the pool is a set. Which pooled canvas is popped is therefore not modelled. In the legacy view the pool is a list, popped from the end as in the source.
- `TupleMap.forEach` and `[Symbol.iterator]` are the same loop as `entries`, and are covered by `Entries`.
- The view's cache and panel layers use their contents as maps. TupleMap's correctness is proved separately, in `TupleMaps`.
- Views.View.Update: a `throw` from `parseFormulas` is modelled as an escaped outcome, and the later parts of update then do not run.
- Views.View.Render: the frame records which canvas is drawn for each panel, not where on the screen.
- Renderer.Render2D: the alpha of each square is relative to the fill alpha; the `globalAlpha` switching of `fillDotWithOpacity` is not recorded.
- Renderer.Render2D: the side is required to be a power of two, as `panelSize` is 64 at dist/view.js:52 and src/view.ts:71; the source's halving of other sides, as real numbers, is not modelled.

## Findings

| source | as written | input that shows it | evidently intended | confidence | as-written member | corrected member |
|---|---|---|---|---|---|---|
| src/tuplemap.ts:37-40 | `get` tests `if (skey)`, and the empty tuple's id string is `''`, which is falsy | `set([], 1)` then `get([])` gives undefined while `has([])` is true (TupleMaps.EmptyTupleDivergence) | `skey != null`, as in dist/tuplemap.js:49, so that `get([])` gives 1 | not executed | TupleMaps.TupleMap.GetLegacy | TupleMaps.TupleMap.Get |
| dist/renderer.js:158-166 | `lengths` starts empty, and a partial fill does `+=` on a pixel that no full fill wrote, so `undefined + n` is NaN | size 1 on [0, 1] with an always-positive formula that fills positive: the single leaf fills pixel 0 by `+= 1`, and the result has the alpha fill (0, 1, NaN) and no fill | an unwritten pixel counts as 0, giving the full fill (0, 1) and only numeric alphas | not executed | Render1D.Range1DHoleNaN | Render1D.Range1DAlphaFinite |
