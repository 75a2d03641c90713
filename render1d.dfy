/** The evaluators of one-variable formulas (calc1DRange, calc1DCurves) and
    the drawing commands of render1D. A formula `y op f(x)` or `x op f(y)` is
    evaluated along one axis only: calc1DRange bisects the axis to find where
    a condition in one variable holds, calc1DCurves samples a function into
    polylines split at NaN. */
module Render1D {
  import opened Common
  import Renderer

  /** `subPixelStep`: bisection goes down to 1/64 of a pixel. */
  const SubPixelStep: real := 64.0

  /** `fullCalcSubPixelStep`: a curve is sampled four times per pixel. */
  const FullCalcSubPixelStep: real := 4.0

  /** A formula in one variable: its value function, its range function on an interval, its fill mode. */
  datatype Formula1D = Formula1D(valueFunc: real -> Num, rangeFunc: (real, real) -> Category, fillMode: FillMode)

  /** The axis being evaluated: `size` pixels over [min, max]. */
  datatype Axis = Axis(size: nat, min: real, max: real)
  {
    predicate Valid() { size > 0 && min < max }

    /** `delta`: the width of one pixel. */
    function Delta(): real
      requires Valid()
    {
      (max - min) / size as real
    }

    /** `size * (x - min) / (max - min)`: the position of x in pixels. */
    function Scaled(x: real): real
      requires Valid()
    {
      size as real * (x - min) / (max - min)
    }

    /** The left end of pixel i. */
    function PixelStart(i: int): real
      requires Valid()
    {
      min + Delta() * i as real
    }
  }

  /** An interval [lo, hi] of the axis. */
  type Interval = (real, real)

  /** A JavaScript array of numbers with holes: the indices written and their
      values, and its `length`. `forEach` visits the written indices from 0 to
      length - 1 in order; writing a negative index does not make an element. */
  datatype JsArray = JsArray(elems: map<int, Num>, length: nat)
  {
    predicate Valid() { forall k :: k in elems && k >= 0 ==> k < length }

    /** `a[k] = v` */
    function Put(k: int, v: Num): (a: JsArray)
      ensures Valid() ==> a.Valid()
      ensures a.elems == elems[k := v]
    {
      JsArray(elems[k := v], if k >= 0 && k >= length then k + 1 else length)
    }
  }

  /** `Math.round`: the nearest integer, halves rounded up. */
  function Round(x: real): (n: int)
    ensures n as real - 0.5 <= x < n as real + 0.5
  {
    (x + 0.5).Floor
  }

  /** How many times `for (let i = 0; i < pixel; i++)` runs. */
  function RunLength(pixel: real): (n: nat)
    ensures pixel > 0.0 ==> (n - 1) as real < pixel <= n as real
    ensures pixel <= 0.0 ==> n == 0
  {
    if pixel <= 0.0 then 0 else (-((-pixel).Floor)) as nat
  }

  /** Positions `start .. start + count - 1` set to v. */
  function SetRun(l: JsArray, start: int, count: nat, v: Num): (r: JsArray)
    ensures l.Valid() ==> r.Valid()
  {
    if count == 0 then l else SetRun(l, start, count - 1, v).Put(start + count - 1, v)
  }

  /** A run writes v exactly at its positions and leaves the rest of the array alone. */
  lemma {:induction false} SetRunContents(l: JsArray, start: int, count: nat, v: Num)
    ensures forall k :: k in SetRun(l, start, count, v).elems <==> k in l.elems || start <= k < start + count
    ensures forall k :: k in SetRun(l, start, count, v).elems ==>
      SetRun(l, start, count, v).elems[k] == if start <= k < start + count then v else l.elems[k]
  {
    if count > 0 {
      SetRunContents(l, start, count - 1, v);
    }
  }

  /** `a[k] += x`. A JavaScript hole reads as undefined, and `undefined + x` is
      NaN; `hole` is the number a hole reads as (NaN as written). */
  function AddAt(l: JsArray, k: int, x: real, hole: Num): (r: JsArray)
    ensures l.Valid() ==> r.Valid()
    ensures r.elems == l.elems[k := NumAdd(if k in l.elems then l.elems[k] else hole, Fin(x))]
  {
    l.Put(k, NumAdd(if k in l.elems then l.elems[k] else hole, Fin(x)))
  }

  /** The `fill` closure of calc1DRange: an interval covering two or more pixels
      marks each pixel from its rounded start as fully covered; a smaller one adds
      its length to the pixel holding its midpoint. */
  function Filled(g: Axis, l: JsArray, a: real, b: real, pixel: real, hole: Num): JsArray
    requires g.Valid()
  {
    if pixel >= 2.0 then SetRun(l, Round(g.Scaled(a)), RunLength(pixel), Fin(g.Delta()))
    else AddAt(l, g.Scaled((a + b) / 2.0).Floor, b - a, hole)
  }

  /** `for (let i = 0; i < pixel; i++) lengths[start + i] = v` */
  method WriteRun(l: JsArray, start: int, pixel: real, v: Num) returns (r: JsArray)
    ensures r == SetRun(l, start, RunLength(pixel), v)
  {
    r := l;
    var i := 0;
    while (i as real) < pixel
      invariant 0 <= i <= RunLength(pixel)
      invariant r == SetRun(l, start, i, v)
      decreases RunLength(pixel) - i
    {
      r := r.Put(start + i, v);
      i := i + 1;
    }
  }

  /** The fill closure. */
  method Fill(g: Axis, l: JsArray, a: real, b: real, pixel: real, hole: Num) returns (r: JsArray)
    requires g.Valid()
    ensures r == Filled(g, l, a, b, pixel, hole)
  {
    if pixel >= 2.0 {
      var start := Round(g.Scaled(a));
      r := WriteRun(l, start, pixel, Fin(g.Delta()));
    } else {
      var k := g.Scaled((a + b) / 2.0).Floor;
      var current := if k in l.elems then l.elems[k] else hole;
      r := l.Put(k, NumAdd(current, Fin(b - a)));
    }
  }

  // ---------------------------------------------------------------- bisection

  /** `currentSize` after k halvings: size / 2^k pixels per interval. */
  function LevelSize(g: Axis, k: nat): real
  {
    g.size as real / Pow2(k) as real
  }

  /** The bisection continues at level k exactly while 2^k <= 64 * size. */
  lemma LevelSizeBound(g: Axis, k: nat)
    ensures LevelSize(g, k) >= 1.0 / SubPixelStep <==> Pow2(k) <= 64 * g.size
    ensures LevelSize(g, k + 1) == LevelSize(g, k) / 2.0
  {
    var p := Pow2(k) as real;
    QuotientAtLeast(g.size as real, p, 1.0 / SubPixelStep);
    assert Pow2(k + 1) as real == 2.0 * p;
    HalfQuotient(g.size as real, p);
  }

  lemma QuotientAtLeast(n: real, p: real, c: real)
    requires p > 0.0
    ensures n / p >= c <==> n >= c * p
  {
    assert (n / p) * p == n;
  }

  lemma QuotientAtMost(n: real, p: real, c: real)
    requires p > 0.0
    ensures n / p <= c <==> n <= c * p
  {
    assert (n / p) * p == n;
  }

  lemma HalfQuotient(n: real, p: real)
    requires p > 0.0
    ensures n / (2.0 * p) == (n / p) / 2.0
  {
  }

  /** The midpoint split of an interval. */
  function Halves(iv: Interval): seq<Interval>
  {
    var c := (iv.0 + iv.1) / 2.0;
    [(iv.0, c), (c, iv.1)]
  }

  /** What bisection does with one interval of `cur` pixels: fill a definite one
      when its sign is filled, split an ambiguous one while it is wider than 1/64
      pixel, and below that keep it as a leaf only when it is BOTH. */
  function BisectStep(f: Formula1D, g: Axis, l: JsArray, iv: Interval, cur: real, hole: Num): (JsArray, seq<Interval>)
    requires g.Valid()
  {
    var c := f.rangeFunc(iv.0, iv.1);
    if c.Definite() then (if f.fillMode.Selects(c) then Filled(g, l, iv.0, iv.1, cur, hole) else l, [])
    else if cur > 1.0 / SubPixelStep then (l, Halves(iv))
    else if c == Both then (l, [iv])
    else (l, [])
  }

  /** An OTHER interval is definite and filled by no fill mode: bisection
      leaves the lengths alone and queues nothing. */
  lemma OtherDropped(f: Formula1D, g: Axis, l: JsArray, iv: Interval, cur: real, hole: Num)
    requires g.Valid() && f.rangeFunc(iv.0, iv.1) == Other
    ensures BisectStep(f, g, l, iv, cur, hole) == (l, [])
  {
  }

  /** One level of bisection over the queued intervals, in order. */
  function BisectLevel(f: Formula1D, g: Axis, l: JsArray, rs: seq<Interval>, cur: real, hole: Num): (JsArray, seq<Interval>)
    requires g.Valid()
  {
    if rs == [] then (l, [])
    else
      var (l1, n1) := BisectLevel(f, g, l, rs[..|rs| - 1], cur, hole);
      var (l2, n2) := BisectStep(f, g, l1, rs[|rs| - 1], cur, hole);
      (l2, n1 + n2)
  }

  /** The bisection loop from level k: it runs while intervals are queued, no more
      than `size` of them, and they are at least 1/64 pixel wide. The result is the
      lengths, the leaves left queued and the level reached. */
  function Bisect(f: Formula1D, g: Axis, l: JsArray, rs: seq<Interval>, k: nat, hole: Num): (JsArray, seq<Interval>, nat)
    requires g.Valid()
    decreases 64 * g.size - Pow2(k)
  {
    if rs != [] && |rs| <= g.size && Pow2(k) <= 64 * g.size then
      var (l1, next) := BisectLevel(f, g, l, rs, LevelSize(g, k), hole);
      Bisect(f, g, l1, next, k + 1, hole)
    else (l, rs, k)
  }

  /** Every interval lies inside [lo, hi] and is ordered. */
  predicate Inside(rs: seq<Interval>, lo: real, hi: real)
  {
    forall i :: 0 <= i < |rs| ==> lo <= rs[i].0 <= rs[i].1 <= hi
  }

  /** A split interval is tiled by its halves. */
  lemma HalvesTile(iv: Interval)
    requires iv.0 <= iv.1
    ensures var h := Halves(iv);
      h[0].0 == iv.0 && h[0].1 == h[1].0 && h[1].1 == iv.1 && iv.0 <= h[0].1 <= iv.1
      && h[0].1 - h[0].0 == h[1].1 - h[1].0 == (iv.1 - iv.0) / 2.0
  {
  }

  lemma {:induction false} BisectLevelInside(f: Formula1D, g: Axis, l: JsArray, rs: seq<Interval>, cur: real, hole: Num, lo: real, hi: real)
    requires g.Valid() && Inside(rs, lo, hi)
    ensures Inside(BisectLevel(f, g, l, rs, cur, hole).1, lo, hi)
  {
    if rs != [] {
      var front := rs[..|rs| - 1];
      assert Inside(front, lo, hi) by {
        forall i | 0 <= i < |front| ensures lo <= front[i].0 <= front[i].1 <= hi {
          assert front[i] == rs[i];
        }
      }
      BisectLevelInside(f, g, l, rs[..|rs| - 1], cur, hole, lo, hi);
      var n1 := BisectLevel(f, g, l, rs[..|rs| - 1], cur, hole).1;
      var n2 := BisectStep(f, g, BisectLevel(f, g, l, rs[..|rs| - 1], cur, hole).0, rs[|rs| - 1], cur, hole).1;
      assert Inside(n2, lo, hi);
      forall i | 0 <= i < |n1 + n2| ensures lo <= (n1 + n2)[i].0 <= (n1 + n2)[i].1 <= hi {
        if i >= |n1| {
          assert (n1 + n2)[i] == n2[i - |n1|];
        }
      }
    }
  }

  /** Bisection keeps every interval inside the axis, and it stops only when the
      queue is empty, longer than `size`, or finer than 1/64 pixel. */
  lemma {:induction false} BisectLeaves(f: Formula1D, g: Axis, l: JsArray, rs: seq<Interval>, k: nat, hole: Num)
    requires g.Valid() && Inside(rs, g.min, g.max)
    ensures var (_, leaves, k') := Bisect(f, g, l, rs, k, hole);
      && Inside(leaves, g.min, g.max)
      && k <= k'
      && (leaves == [] || |leaves| > g.size || LevelSize(g, k') < 1.0 / SubPixelStep)
    decreases 64 * g.size - Pow2(k)
  {
    LevelSizeBound(g, k);
    if rs != [] && |rs| <= g.size && Pow2(k) <= 64 * g.size {
      BisectLevelInside(f, g, l, rs, LevelSize(g, k), hole, g.min, g.max);
      var (l1, next) := BisectLevel(f, g, l, rs, LevelSize(g, k), hole);
      BisectLeaves(f, g, l1, next, k + 1, hole);
    }
  }

  // ------------------------------------------------------------------- leaves

  /** `min + (max - min) * fmin / (fmin - fmax)`: where the chord between the end values meets zero. */
  function Root(lo: real, hi: real, a: real, b: real): real
    requires a != b
  {
    lo + (hi - lo) * a / (a - b)
  }

  /** The ends' values have opposite signs (or one is zero), and they are not both zero. */
  predicate SignChange(a: Num, b: Num)
  {
    a.Fin? && b.Fin? && a.v * b.v <= 0.0 && !(a.v == 0.0 && b.v == 0.0)
  }

  lemma SignChangeDistinct(a: Num, b: Num)
    requires SignChange(a, b)
    ensures a.v != b.v
  {
  }

  /** The root of a sign change lies in its interval. */
  lemma RootBetween(lo: real, hi: real, a: Num, b: Num)
    requires lo <= hi && SignChange(a, b)
    ensures a.v != b.v && lo <= Root(lo, hi, a.v, b.v) <= hi
  {
    SignChangeDistinct(a, b);
    var den := a.v - b.v;
    var t := a.v / den;
    if den > 0.0 {
      assert 0.0 <= a.v <= den;
    } else {
      assert den <= a.v <= 0.0;
    }
    assert 0.0 <= t <= 1.0;
    var d := hi - lo;
    assert d * a.v / den == d * t;
    assert 0.0 <= d * t <= d;
    assert Root(lo, hi, a.v, b.v) == lo + d * t;
  }

  /** A leaf interval: its end values decide. Both zero: filled when zero is.
      A sign change: its root is plotted, and the part on the filled side is
      filled. Otherwise the whole leaf is filled when the sign at its start is
      (a NaN start counts as negative, as `fmin > 0` is false). */
  function Leaf(f: Formula1D, g: Axis, l: JsArray, iv: Interval, cur: real, hole: Num): (JsArray, seq<real>)
    requires g.Valid()
  {
    var fmin := f.valueFunc(iv.0);
    var fmax := f.valueFunc(iv.1);
    var fm := f.fillMode;
    if fmin.IsZero() && fmax.IsZero() then (if fm.zero then Filled(g, l, iv.0, iv.1, cur, hole) else l, [])
    else if SignChange(fmin, fmax) then
      SignChangeDistinct(fmin, fmax);
      var center := Root(iv.0, iv.1, fmin.v, fmax.v);
      (if (if fmin.IsPos() then fm.positive else fm.negative) then Filled(g, l, iv.0, center, cur, hole)
       else if (if fmin.IsPos() then fm.negative else fm.positive) then Filled(g, l, center, iv.1, cur, hole)
       else l,
       [center])
    else (if (if fmin.IsPos() then fm.positive else fm.negative) then Filled(g, l, iv.0, iv.1, cur, hole) else l, [])
  }

  /** All leaves in order: the lengths after their fills and the roots plotted. */
  function Leaves(f: Formula1D, g: Axis, l: JsArray, rs: seq<Interval>, cur: real, hole: Num): (JsArray, seq<real>)
    requires g.Valid()
  {
    if rs == [] then (l, [])
    else
      var (l1, p1) := Leaves(f, g, l, rs[..|rs| - 1], cur, hole);
      var (l2, p2) := Leaf(f, g, l1, rs[|rs| - 1], cur, hole);
      (l2, p1 + p2)
  }

  /** Every root plotted lies in its leaf, so inside [lo, hi] when the leaves are. */
  lemma {:induction false} LeavesPlotsInside(f: Formula1D, g: Axis, l: JsArray, rs: seq<Interval>, cur: real, hole: Num, lo: real, hi: real)
    requires g.Valid() && Inside(rs, lo, hi)
    ensures forall i :: 0 <= i < |Leaves(f, g, l, rs, cur, hole).1| ==> lo <= Leaves(f, g, l, rs, cur, hole).1[i] <= hi
  {
    if rs != [] {
      var front, iv := rs[..|rs| - 1], rs[|rs| - 1];
      assert Inside(front, lo, hi) by {
        forall i | 0 <= i < |front| ensures lo <= front[i].0 <= front[i].1 <= hi {
          assert front[i] == rs[i];
        }
      }
      LeavesPlotsInside(f, g, l, front, cur, hole, lo, hi);
      var (l1, p1) := Leaves(f, g, l, front, cur, hole);
      var p2 := Leaf(f, g, l1, iv, cur, hole).1;
      var fmin, fmax := f.valueFunc(iv.0), f.valueFunc(iv.1);
      if !(fmin.IsZero() && fmax.IsZero()) && SignChange(fmin, fmax) {
        RootBetween(iv.0, iv.1, fmin, fmax);
      }
      assert forall i :: 0 <= i < |p2| ==> lo <= p2[i] <= hi;
      forall i | 0 <= i < |p1 + p2| ensures lo <= (p1 + p2)[i] <= hi {
        if i >= |p1| {
          assert (p1 + p2)[i] == p2[i - |p1|];
        }
      }
    }
  }

  // --------------------------------------------------------------- compaction

  /** `threshold`: a pixel covered to more than 99.9% counts as full. */
  function Threshold(g: Axis): real
    requires g.Valid()
  {
    g.Delta() * 0.999
  }

  /** A pixel drawn as part of a solid run. */
  predicate Full(g: Axis, l: JsArray, i: int)
    requires g.Valid()
  {
    i in l.elems && l.elems[i].Fin? && l.elems[i].v > Threshold(g)
  }

  /** A written pixel that is neither zero nor full (NaN among them): drawn with its own opacity. */
  predicate Partial(g: Axis, l: JsArray, i: int)
    requires g.Valid()
  {
    i in l.elems && !l.elems[i].IsZero() && !Full(g, l, i)
  }

  /** An interval drawn with an opacity. */
  type AlphaFill = (real, real, Num)

  /** The compaction step for pixel `index` with length `len`: a zero is skipped, a full
      pixel extends the last solid interval when it ends where this pixel starts and
      opens a new one otherwise, any other pixel becomes an alpha fill of `len / delta`. */
  function CompactStep(g: Axis, fills: seq<Interval>, alphas: seq<AlphaFill>, len: Num, index: int): (seq<Interval>, seq<AlphaFill>)
    requires g.Valid()
  {
    if len.IsZero() then (fills, alphas)
    else
      var a := g.PixelStart(index);
      var b := g.PixelStart(index + 1);
      if len.Fin? && len.v > Threshold(g) then (Extend(fills, a, b), alphas)
      else (fills, alphas + [(a, b, NumDiv(len, g.Delta()))])
  }

  /** `if (last?.[1] === a) last[1] = b; else fills.push([a, b])` */
  function Extend(fills: seq<Interval>, a: real, b: real): seq<Interval>
  {
    if fills != [] && fills[|fills| - 1].1 == a then fills[..|fills| - 1] + [(fills[|fills| - 1].0, b)]
    else fills + [(a, b)]
  }

  /** `lengths.forEach` over the first n indices: the written ones, in order. */
  function Compact(g: Axis, l: JsArray, n: nat): (seq<Interval>, seq<AlphaFill>)
    requires g.Valid()
  {
    if n == 0 then ([], []) else CompactAt(g, l, Compact(g, l, n - 1), n - 1)
  }

  /** The forEach callback on index i, when i is written. */
  function CompactAt(g: Axis, l: JsArray, acc: (seq<Interval>, seq<AlphaFill>), i: int): (seq<Interval>, seq<AlphaFill>)
    requires g.Valid()
  {
    if i in l.elems then CompactStep(g, acc.0, acc.1, l.elems[i], i) else acc
  }

  /** Every pixel of [i, j) is full. */
  predicate AllFull(full: int -> bool, i: int, j: int)
  {
    forall p :: i <= p < j ==> full(p)
  }

  /** A run [r.0, r.1) of full pixels below n, bounded by non-full pixels or the ends. */
  predicate MaximalRun(full: int -> bool, r: (int, int), n: nat)
  {
    && 0 <= r.0 < r.1 <= n
    && AllFull(full, r.0, r.1)
    && (r.1 < n ==> !full(r.1))
    && (r.0 > 0 ==> !full(r.0 - 1))
  }

  /** The runs after looking at pixel i: a full pixel extends a run ending at i or starts a new one. */
  function RunsStep(full: int -> bool, rs: seq<(int, int)>, i: int): seq<(int, int)>
  {
    if !full(i) then rs
    else if rs != [] && rs[|rs| - 1].1 == i then rs[..|rs| - 1] + [(rs[|rs| - 1].0, i + 1)]
    else rs + [(i, i + 1)]
  }

  /** The runs [i, j) of pixels below n for which `full` holds, in order: the
      pixel-index reading of the solid intervals. */
  function Runs(full: int -> bool, n: nat): seq<(int, int)>
  {
    if n == 0 then [] else RunsStep(full, Runs(full, n - 1), n - 1)
  }

  /** Runs below n that are maximal and in order, with a gap between neighbours. */
  predicate RunsShape(full: int -> bool, rs: seq<(int, int)>, n: nat)
  {
    && (forall k :: 0 <= k < |rs| ==> MaximalRun(full, rs[k], n))
    && (forall k :: 0 <= k < |rs| - 1 ==> rs[k].1 < rs[k + 1].0)
  }

  /** The last run ends at n. */
  predicate EndsAt(rs: seq<(int, int)>, n: nat)
  {
    rs != [] && rs[|rs| - 1].1 == n
  }

  /** A run holds pixel p. */
  predicate Covered(rs: seq<(int, int)>, p: int)
  {
    exists k :: 0 <= k < |rs| && rs[k].0 <= p < rs[k].1
  }

  /** The full pixels of an array. */
  function FullOf(g: Axis, l: JsArray): int -> bool
    requires g.Valid()
  {
    i => Full(g, l, i)
  }

  /** The partial pixels below n, in order. */
  function Partials(g: Axis, l: JsArray, n: nat): (ps: seq<int>)
    requires g.Valid()
    ensures forall k :: 0 <= k < |ps| ==> Partial(g, l, ps[k]) && 0 <= ps[k] < n
  {
    if n == 0 then [] else Partials(g, l, n - 1) + (if Partial(g, l, n - 1) then [n - 1] else [])
  }

  /** The partial pixels below n are listed in increasing order, each of them. */
  lemma {:induction false} PartialsExact(g: Axis, l: JsArray, n: nat)
    requires g.Valid()
    ensures forall k, k' :: 0 <= k < k' < |Partials(g, l, n)| ==> Partials(g, l, n)[k] < Partials(g, l, n)[k']
    ensures forall p :: 0 <= p < n && Partial(g, l, p) ==> p in Partials(g, l, n)
  {
    if n > 0 {
      PartialsExact(g, l, n - 1);
    }
  }

  /** The axis intervals of pixel runs. */
  function Spans(g: Axis, rs: seq<(int, int)>): seq<Interval>
    requires g.Valid()
  {
    if rs == [] then [] else Spans(g, rs[..|rs| - 1]) + [(g.PixelStart(rs[|rs| - 1].0), g.PixelStart(rs[|rs| - 1].1))]
  }

  /** The alpha fill of a written pixel: the pixel's interval and `len / delta`
      (an unwritten pixel never has one; it reads as opacity 0 here). */
  function AlphaAt(g: Axis, l: JsArray, p: int): AlphaFill
    requires g.Valid()
  {
    (g.PixelStart(p), g.PixelStart(p + 1), if p in l.elems then NumDiv(l.elems[p], g.Delta()) else Fin(0.0))
  }

  /** The alpha fills of partial pixels, in order. */
  function AlphaEntries(g: Axis, l: JsArray, ps: seq<int>): seq<AlphaFill>
    requires g.Valid()
  {
    if ps == [] then [] else AlphaEntries(g, l, ps[..|ps| - 1]) + [AlphaAt(g, l, ps[|ps| - 1])]
  }

  /** Pixel starts are strictly increasing. */
  lemma PixelStartMonotone(g: Axis, i: int, j: int)
    requires g.Valid()
    ensures i < j <==> g.PixelStart(i) < g.PixelStart(j)
  {
    var d := g.Delta();
    assert d > 0.0;
    if i < j {
      assert d * i as real < d * j as real;
    } else {
      assert d * j as real <= d * i as real;
    }
  }

  lemma RunsSkip(full: int -> bool, rs: seq<(int, int)>, n: nat)
    requires n > 0 && RunsShape(full, rs, n - 1) && !full(n - 1)
    ensures RunsShape(full, RunsStep(full, rs, n - 1), n)
  {
    forall k | 0 <= k < |rs| ensures MaximalRun(full, rs[k], n) {
      assert MaximalRun(full, rs[k], n - 1);
    }
  }

  lemma RunsMerge(full: int -> bool, rs: seq<(int, int)>, n: nat)
    requires n > 0 && RunsShape(full, rs, n - 1) && full(n - 1) && EndsAt(rs, n - 1)
    ensures RunsShape(full, RunsStep(full, rs, n - 1), n)
  {
    var m := |rs| - 1;
    var r := rs[..m] + [(rs[m].0, n)];
    assert RunsStep(full, rs, n - 1) == r;
    forall k | 0 <= k < m ensures MaximalRun(full, r[k], n) {
      assert r[k] == rs[k] && MaximalRun(full, rs[k], n - 1);
      assert rs[k].1 < rs[k + 1].0 < rs[k + 1].1 <= n - 1;
    }
    assert MaximalRun(full, r[m], n) by {
      assert MaximalRun(full, rs[m], n - 1);
    }
    forall k | 0 <= k < |r| - 1 ensures r[k].1 < r[k + 1].0 {
      assert r[k] == rs[k];
      if k + 1 < m { assert r[k + 1] == rs[k + 1]; }
    }
  }

  lemma RunsPush(full: int -> bool, rs: seq<(int, int)>, n: nat)
    requires n > 0 && RunsShape(full, rs, n - 1) && full(n - 1) && !EndsAt(rs, n - 1)
    requires n > 1 && full(n - 2) ==> EndsAt(rs, n - 1)
    ensures RunsShape(full, RunsStep(full, rs, n - 1), n)
  {
    var r := rs + [(n - 1, n)];
    assert RunsStep(full, rs, n - 1) == r;
    forall k | 0 <= k < |rs| ensures MaximalRun(full, r[k], n) && r[k].1 < n - 1 {
      assert r[k] == rs[k] && MaximalRun(full, rs[k], n - 1);
      if k < |rs| - 1 {
        assert rs[k].1 < rs[k + 1].0 < rs[k + 1].1 <= n - 1;
      }
    }
    forall k | 0 <= k < |r| - 1 ensures r[k].1 < r[k + 1].0 {
      if k + 1 < |rs| { assert r[k] == rs[k] && r[k + 1] == rs[k + 1]; }
    }
  }

  /** The runs below n are maximal runs of full pixels, in order and separated by a
      pixel that is not full; the last one reaches n when pixel n - 1 is full. */
  lemma {:induction false} RunsMaximal(full: int -> bool, n: nat)
    ensures RunsShape(full, Runs(full, n), n)
    ensures n > 0 && full(n - 1) ==> EndsAt(Runs(full, n), n)
  {
    if n > 0 {
      RunsMaximal(full, n - 1);
      var rs := Runs(full, n - 1);
      if !full(n - 1) {
        RunsSkip(full, rs, n);
      } else if EndsAt(rs, n - 1) {
        RunsMerge(full, rs, n);
      } else {
        RunsPush(full, rs, n);
      }
    }
  }

  lemma CoveredStep(full: int -> bool, rs: seq<(int, int)>, i: int, p: int)
    requires Covered(rs, p)
    ensures Covered(RunsStep(full, rs, i), p)
  {
    var k :| 0 <= k < |rs| && rs[k].0 <= p < rs[k].1;
    var r := RunsStep(full, rs, i);
    if full(i) && rs != [] && rs[|rs| - 1].1 == i {
      if k < |rs| - 1 {
        assert r[k] == rs[k];
      } else {
        assert r[k].0 <= p < r[k].1;
      }
    } else {
      assert r[k] == rs[k];
    }
  }

  /** Every full pixel below n is in a run. */
  lemma {:induction false} RunsCover(full: int -> bool, n: nat, p: int)
    requires 0 <= p < n && full(p)
    ensures Covered(Runs(full, n), p)
  {
    RunsMaximal(full, n);
    if p == n - 1 {
      var r := Runs(full, n);
      assert MaximalRun(full, r[|r| - 1], n);
      assert r[|r| - 1].0 <= p < r[|r| - 1].1;
    } else {
      RunsCover(full, n - 1, p);
      CoveredStep(full, Runs(full, n - 1), n - 1, p);
    }
  }

  /** Extending the spans of runs at pixel i is the spans of the extended runs. */
  lemma SpansStep(g: Axis, full: int -> bool, rs: seq<(int, int)>, i: int)
    requires g.Valid() && full(i)
    requires rs != [] ==> rs[|rs| - 1].1 <= i
    ensures Spans(g, RunsStep(full, rs, i)) == Extend(Spans(g, rs), g.PixelStart(i), g.PixelStart(i + 1))
  {
    var fs := Spans(g, rs);
    if rs != [] {
      var m := |rs| - 1;
      assert fs[|fs| - 1].1 == g.PixelStart(rs[m].1);
      PixelStartMonotone(g, rs[m].1, i);
      if rs[m].1 == i {
        var r := rs[..m] + [(rs[m].0, i + 1)];
        assert r[..m] == rs[..m];
        assert fs[..|fs| - 1] == Spans(g, rs[..m]);
      }
    }
  }

  lemma AlphaEntriesStep(g: Axis, l: JsArray, ps: seq<int>, p: int)
    requires g.Valid()
    ensures AlphaEntries(g, l, ps + [p]) == AlphaEntries(g, l, ps) + [AlphaAt(g, l, p)]
  {
    assert (ps + [p])[..|ps|] == ps;
  }

  /** Compaction at a full pixel extends the spans as the runs are extended. */
  lemma CompactAtFull(g: Axis, l: JsArray, rs: seq<(int, int)>, als: seq<AlphaFill>, i: nat)
    requires g.Valid() && Full(g, l, i)
    requires rs != [] ==> rs[|rs| - 1].1 <= i
    ensures CompactAt(g, l, (Spans(g, rs), als), i) == (Spans(g, RunsStep(FullOf(g, l), rs, i)), als)
  {
    assert FullOf(g, l)(i);
    SpansStep(g, FullOf(g, l), rs, i);
  }

  /** Compaction at a partial pixel adds its alpha fill. */
  lemma CompactAtPartial(g: Axis, l: JsArray, fs: seq<Interval>, ps: seq<int>, i: nat)
    requires g.Valid() && Partial(g, l, i)
    ensures CompactAt(g, l, (fs, AlphaEntries(g, l, ps)), i) == (fs, AlphaEntries(g, l, ps + [i]))
  {
    AlphaEntriesStep(g, l, ps, i);
  }

  /** Compaction skips a hole or a zero. */
  lemma CompactAtSkip(g: Axis, l: JsArray, acc: (seq<Interval>, seq<AlphaFill>), i: nat)
    requires g.Valid() && !Full(g, l, i) && !Partial(g, l, i)
    ensures CompactAt(g, l, acc, i) == acc
  {
  }

  /** What the compaction of the first n pixels is in terms of runs and partial pixels. */
  predicate ReadsRuns(g: Axis, l: JsArray, n: nat)
    requires g.Valid()
  {
    Compact(g, l, n) == (Spans(g, Runs(FullOf(g, l), n)), AlphaEntries(g, l, Partials(g, l, n)))
  }

  lemma ReadsRunsFull(g: Axis, l: JsArray, n: nat)
    requires g.Valid() && n > 0 && ReadsRuns(g, l, n - 1) && Full(g, l, n - 1)
    ensures ReadsRuns(g, l, n)
  {
    var full := FullOf(g, l);
    var rs := Runs(full, n - 1);
    RunsMaximal(full, n - 1);
    if rs != [] {
      assert MaximalRun(full, rs[|rs| - 1], n - 1);
    }
    CompactAtFull(g, l, rs, AlphaEntries(g, l, Partials(g, l, n - 1)), n - 1);
    assert Partials(g, l, n) == Partials(g, l, n - 1);
  }

  lemma ReadsRunsPartial(g: Axis, l: JsArray, n: nat)
    requires g.Valid() && n > 0 && ReadsRuns(g, l, n - 1) && Partial(g, l, n - 1)
    ensures ReadsRuns(g, l, n)
  {
    assert !FullOf(g, l)(n - 1);
    CompactAtPartial(g, l, Spans(g, Runs(FullOf(g, l), n - 1)), Partials(g, l, n - 1), n - 1);
  }

  lemma ReadsRunsSkip(g: Axis, l: JsArray, n: nat)
    requires g.Valid() && n > 0 && ReadsRuns(g, l, n - 1) && !Full(g, l, n - 1) && !Partial(g, l, n - 1)
    ensures ReadsRuns(g, l, n)
  {
    var full := FullOf(g, l);
    assert !full(n - 1);
    assert Runs(full, n) == Runs(full, n - 1);
    assert Partials(g, l, n) == Partials(g, l, n - 1);
    CompactAtSkip(g, l, Compact(g, l, n - 1), n - 1);
    assert Compact(g, l, n) == Compact(g, l, n - 1);
    assert Spans(g, Runs(full, n)) == Spans(g, Runs(full, n - 1));
    assert AlphaEntries(g, l, Partials(g, l, n)) == AlphaEntries(g, l, Partials(g, l, n - 1));
  }

  /** The compaction builds exactly the spans of the full-pixel runs and one alpha fill per partial pixel, in order. */
  lemma {:induction false} CompactReadsRuns(g: Axis, l: JsArray, n: nat)
    requires g.Valid()
    ensures ReadsRuns(g, l, n)
  {
    if n > 0 {
      CompactReadsRuns(g, l, n - 1);
      if Full(g, l, n - 1) {
        ReadsRunsFull(g, l, n);
      } else if Partial(g, l, n - 1) {
        ReadsRunsPartial(g, l, n);
      } else {
        ReadsRunsSkip(g, l, n);
      }
    }
  }

  // -------------------------------------------------------------- calc1DRange

  /** What calc1DRange returns: solid intervals, roots, and intervals with an opacity. */
  datatype Range1DResult = Range1DResult(fills: seq<Interval>, plots: seq<real>, alphaFills: seq<AlphaFill>)

  /** The lengths array when the level loop stops, the leaves left and the level reached. */
  function Bisected(f: Formula1D, g: Axis, hole: Num): (JsArray, seq<Interval>, nat)
    requires g.Valid()
  {
    Bisect(f, g, JsArray(map[], 0), [(g.min, g.max)], 0, hole)
  }

  /** The lengths array after the leaves are filled, and the roots plotted. */
  function LeafLengths(f: Formula1D, g: Axis, hole: Num): (JsArray, seq<real>)
    requires g.Valid()
  {
    var (l, leaves, k) := Bisected(f, g, hole);
    Leaves(f, g, l, leaves, LevelSize(g, k), hole)
  }

  /** calc1DRange: bisect, resolve the leaves, compact the lengths. */
  function Range1D(f: Formula1D, g: Axis, hole: Num): Range1DResult
    requires g.Valid()
  {
    var (l, plots) := LeafLengths(f, g, hole);
    var (fills, alphas) := Compact(g, l, l.length);
    Range1DResult(fills, plots, alphas)
  }

  /** One interval of a bisection level, as the loop body does it. */
  method BisectOne(f: Formula1D, g: Axis, fillMask: nat, l: JsArray, iv: Interval, cur: real, hole: Num)
    returns (r: JsArray, next: seq<Interval>)
    requires g.Valid() && fillMask == Renderer.FillModeToMask(f.fillMode)
    ensures (r, next) == BisectStep(f, g, l, iv, cur, hole)
  {
    var (min, max) := iv;
    var result := f.rangeFunc(min, max);
    r, next := l, [];
    if result.Definite() {
      Renderer.MaskSelects(f.fillMode, result);
      if Renderer.MaskHas(fillMask, result.Bit()) {
        r := Fill(g, l, min, max, cur, hole);
      }
    } else if cur > 1.0 / SubPixelStep {
      var center := (min + max) / 2.0;
      next := [(min, center), (center, max)];
    } else if result == Both {
      next := [(min, max)];
    }
  }

  /** `for (const [min, max] of ranges)` of one bisection level. */
  method BisectRanges(f: Formula1D, g: Axis, fillMask: nat, l: JsArray, ranges: seq<Interval>, cur: real, hole: Num)
    returns (r: JsArray, nextRanges: seq<Interval>)
    requires g.Valid() && fillMask == Renderer.FillModeToMask(f.fillMode)
    ensures (r, nextRanges) == BisectLevel(f, g, l, ranges, cur, hole)
  {
    r, nextRanges := l, [];
    var i := 0;
    while i < |ranges|
      invariant 0 <= i <= |ranges|
      invariant (r, nextRanges) == BisectLevel(f, g, l, ranges[..i], cur, hole)
    {
      assert ranges[..i + 1][..i] == ranges[..i];
      var r1, n1 := BisectOne(f, g, fillMask, r, ranges[i], cur, hole);
      r, nextRanges := r1, nextRanges + n1;
      i := i + 1;
    }
    assert ranges[..i] == ranges;
  }

  /** A leaf, as the second loop's body does it. */
  method ResolveLeaf(f: Formula1D, g: Axis, l: JsArray, iv: Interval, cur: real, hole: Num)
    returns (r: JsArray, plotted: seq<real>)
    requires g.Valid()
    ensures (r, plotted) == Leaf(f, g, l, iv, cur, hole)
  {
    var (min, max) := iv;
    var fmin := f.valueFunc(min);
    var fmax := f.valueFunc(max);
    var fm := f.fillMode;
    r, plotted := l, [];
    if fmin.IsZero() && fmax.IsZero() {
      if fm.zero {
        r := Fill(g, l, min, max, cur, hole);
      }
    } else if SignChange(fmin, fmax) {
      SignChangeDistinct(fmin, fmax);
      var center := min + (max - min) * fmin.v / (fmin.v - fmax.v);
      plotted := [center];
      if (if fmin.IsPos() then fm.positive else fm.negative) {
        r := Fill(g, l, min, center, cur, hole);
      } else if (if fmin.IsPos() then fm.negative else fm.positive) {
        r := Fill(g, l, center, max, cur, hole);
      }
    } else if (if fmin.IsPos() then fm.positive else fm.negative) {
      r := Fill(g, l, min, max, cur, hole);
    }
  }

  /** The compaction step of one written pixel, merging into the last solid interval in place. */
  method CompactPixel(g: Axis, fills: seq<Interval>, alphaFills: seq<AlphaFill>, len: Num, index: int)
    returns (fills': seq<Interval>, alphaFills': seq<AlphaFill>)
    requires g.Valid()
    ensures (fills', alphaFills') == CompactStep(g, fills, alphaFills, len, index)
  {
    fills', alphaFills' := fills, alphaFills;
    if len.IsZero() {
      return;
    }
    var delta := (g.max - g.min) / g.size as real;
    var a := g.min + delta * index as real;
    var b := g.min + delta * (index + 1) as real;
    var threshold := delta * 0.999;
    assert delta == g.Delta();
    assert a == g.PixelStart(index) && b == g.PixelStart(index + 1) && threshold == Threshold(g);
    if len.Fin? && len.v > threshold {
      if fills != [] && fills[|fills| - 1].1 == a {
        fills' := fills[|fills| - 1 := (fills[|fills| - 1].0, b)];
        UpdateLast(fills, (fills[|fills| - 1].0, b));
      } else {
        fills' := fills + [(a, b)];
      }
    } else {
      alphaFills' := alphaFills + [(a, b, NumDiv(len, delta))];
    }
  }

  /** Replacing the last element is dropping it and appending the new one. */
  lemma UpdateLast<T>(s: seq<T>, x: T)
    requires s != []
    ensures s[|s| - 1 := x] == s[..|s| - 1] + [x]
  {
  }

  /** calc1DRange over `size` pixels of [min, max]. `hole` is what a never-written
      pixel reads as on `+=` (NaN in JavaScript). */
  method Calc1DRange(f: Formula1D, g: Axis, hole: Num) returns (res: Range1DResult)
    requires g.Valid()
    ensures res == Range1D(f, g, hole)
  {
    var lengths := JsArray(map[], 0);
    var fillMask := Renderer.FillModeToMask(f.fillMode);
    var ranges := [(g.min, g.max)];
    var currentSize := g.size as real;
    ghost var k: nat := 0;
    while ranges != [] && |ranges| <= g.size && currentSize >= 1.0 / SubPixelStep
      invariant currentSize == LevelSize(g, k)
      invariant Bisect(f, g, lengths, ranges, k, hole) == Bisected(f, g, hole)
      decreases 64 * g.size - Pow2(k)
    {
      LevelSizeBound(g, k);
      lengths, ranges := BisectRanges(f, g, fillMask, lengths, ranges, currentSize, hole);
      currentSize := currentSize / 2.0;
      k := k + 1;
    }
    LevelSizeBound(g, k);
    assert Bisected(f, g, hole) == (lengths, ranges, k);
    var plots: seq<real> := [];
    var l0 := lengths;
    var i := 0;
    while i < |ranges|
      invariant 0 <= i <= |ranges|
      invariant (lengths, plots) == Leaves(f, g, l0, ranges[..i], currentSize, hole)
    {
      assert ranges[..i + 1][..i] == ranges[..i];
      var l1, p1 := ResolveLeaf(f, g, lengths, ranges[i], currentSize, hole);
      lengths, plots := l1, plots + p1;
      i := i + 1;
    }
    assert ranges[..i] == ranges;
    var fills: seq<Interval> := [];
    var alphaFills: seq<AlphaFill> := [];
    var index := 0;
    while index < lengths.length
      invariant 0 <= index <= lengths.length
      invariant (fills, alphaFills) == Compact(g, lengths, index)
    {
      if index in lengths.elems {
        fills, alphaFills := CompactPixel(g, fills, alphaFills, lengths.elems[index], index);
      }
      index := index + 1;
    }
    res := Range1DResult(fills, plots, alphaFills);
  }

  /** Every root calc1DRange plots lies in [min, max]. */
  lemma Range1DPlotsInside(f: Formula1D, g: Axis, hole: Num)
    requires g.Valid()
    ensures forall i :: 0 <= i < |Range1D(f, g, hole).plots| ==> g.min <= Range1D(f, g, hole).plots[i] <= g.max
  {
    var start := JsArray(map[], 0);
    BisectLeaves(f, g, start, [(g.min, g.max)], 0, hole);
    var (l, leaves, k) := Bisected(f, g, hole);
    LeavesPlotsInside(f, g, l, leaves, LevelSize(g, k), hole, g.min, g.max);
  }

  /** The spans of runs, one per run, from the start of its first pixel to the end of its last. */
  lemma {:induction false} SpansAt(g: Axis, rs: seq<(int, int)>)
    requires g.Valid()
    ensures |Spans(g, rs)| == |rs|
    ensures forall k :: 0 <= k < |rs| ==> Spans(g, rs)[k] == (g.PixelStart(rs[k].0), g.PixelStart(rs[k].1))
  {
    if rs != [] {
      SpansAt(g, rs[..|rs| - 1]);
    }
  }

  /** The spans of well-shaped runs are non-empty, ascending, and never touch:
      adjacent full pixels always end up in one interval. */
  lemma SpansOrdered(g: Axis, full: int -> bool, rs: seq<(int, int)>, n: nat)
    requires g.Valid() && RunsShape(full, rs, n)
    ensures forall k :: 0 <= k < |Spans(g, rs)| ==> Spans(g, rs)[k].0 < Spans(g, rs)[k].1
    ensures forall k :: 0 <= k < |Spans(g, rs)| - 1 ==> Spans(g, rs)[k].1 < Spans(g, rs)[k + 1].0
  {
    SpansAt(g, rs);
    forall k | 0 <= k < |rs| ensures Spans(g, rs)[k].0 < Spans(g, rs)[k].1 {
      assert MaximalRun(full, rs[k], n);
      PixelStartMonotone(g, rs[k].0, rs[k].1);
    }
    forall k | 0 <= k < |rs| - 1 ensures Spans(g, rs)[k].1 < Spans(g, rs)[k + 1].0 {
      PixelStartMonotone(g, rs[k].1, rs[k + 1].0);
    }
  }

  /** The compacted result of calc1DRange: `fills` are the spans of the maximal runs
      of full pixels (every full pixel in one of them; ascending, disjoint and never
      touching), and `alphaFills` has one entry per other written non-zero pixel, in
      pixel order, with opacity `len / delta`. */
  lemma Range1DCompacted(f: Formula1D, g: Axis, hole: Num)
    requires g.Valid()
    ensures var l := LeafLengths(f, g, hole).0;
      var res := Range1D(f, g, hole);
      var runs := Runs(FullOf(g, l), l.length);
      && res.fills == Spans(g, runs)
      && RunsShape(FullOf(g, l), runs, l.length)
      && (forall p :: 0 <= p < l.length && Full(g, l, p) ==> Covered(runs, p))
      && (forall k :: 0 <= k < |res.fills| ==> res.fills[k].0 < res.fills[k].1)
      && (forall k :: 0 <= k < |res.fills| - 1 ==> res.fills[k].1 < res.fills[k + 1].0)
      && res.alphaFills == AlphaEntries(g, l, Partials(g, l, l.length))
  {
    var l := LeafLengths(f, g, hole).0;
    var full := FullOf(g, l);
    CompactReadsRuns(g, l, l.length);
    RunsMaximal(full, l.length);
    SpansOrdered(g, full, Runs(full, l.length), l.length);
    forall p | 0 <= p < l.length && Full(g, l, p) ensures Covered(Runs(full, l.length), p) {
      assert full(p);
      RunsCover(full, l.length, p);
    }
  }

  /** The alpha fills of a list of pixels, one per pixel, in order. */
  lemma {:induction false} AlphaEntriesAt(g: Axis, l: JsArray, ps: seq<int>)
    requires g.Valid()
    ensures |AlphaEntries(g, l, ps)| == |ps|
    ensures forall k :: 0 <= k < |ps| ==> AlphaEntries(g, l, ps)[k] == AlphaAt(g, l, ps[k])
  {
    if ps != [] {
      AlphaEntriesAt(g, l, ps[..|ps| - 1]);
    }
  }

  // ---------------------------------------------- the hole read by `+=`

  /** Every written length is a number. */
  predicate AllFin(l: JsArray)
  {
    forall k :: k in l.elems ==> l.elems[k].Fin?
  }

  lemma FilledFin(g: Axis, l: JsArray, a: real, b: real, pixel: real, hole: Num)
    requires g.Valid() && AllFin(l) && hole.Fin?
    ensures AllFin(Filled(g, l, a, b, pixel, hole))
  {
    if pixel >= 2.0 {
      SetRunContents(l, Round(g.Scaled(a)), RunLength(pixel), Fin(g.Delta()));
    }
  }

  lemma {:induction false} BisectLevelFin(f: Formula1D, g: Axis, l: JsArray, rs: seq<Interval>, cur: real, hole: Num)
    requires g.Valid() && AllFin(l) && hole.Fin?
    ensures AllFin(BisectLevel(f, g, l, rs, cur, hole).0)
  {
    if rs != [] {
      BisectLevelFin(f, g, l, rs[..|rs| - 1], cur, hole);
      var l1 := BisectLevel(f, g, l, rs[..|rs| - 1], cur, hole).0;
      var iv := rs[|rs| - 1];
      FilledFin(g, l1, iv.0, iv.1, cur, hole);
    }
  }

  lemma {:induction false} BisectFin(f: Formula1D, g: Axis, l: JsArray, rs: seq<Interval>, k: nat, hole: Num)
    requires g.Valid() && AllFin(l) && hole.Fin?
    ensures AllFin(Bisect(f, g, l, rs, k, hole).0)
    decreases 64 * g.size - Pow2(k)
  {
    if rs != [] && |rs| <= g.size && Pow2(k) <= 64 * g.size {
      BisectLevelFin(f, g, l, rs, LevelSize(g, k), hole);
      BisectFin(f, g, BisectLevel(f, g, l, rs, LevelSize(g, k), hole).0, BisectLevel(f, g, l, rs, LevelSize(g, k), hole).1, k + 1, hole);
    }
  }

  lemma {:induction false} LeavesFin(f: Formula1D, g: Axis, l: JsArray, rs: seq<Interval>, cur: real, hole: Num)
    requires g.Valid() && AllFin(l) && hole.Fin?
    ensures AllFin(Leaves(f, g, l, rs, cur, hole).0)
  {
    if rs != [] {
      LeavesFin(f, g, l, rs[..|rs| - 1], cur, hole);
      var l1 := Leaves(f, g, l, rs[..|rs| - 1], cur, hole).0;
      var iv := rs[|rs| - 1];
      var fmin := f.valueFunc(iv.0);
      var fmax := f.valueFunc(iv.1);
      FilledFin(g, l1, iv.0, iv.1, cur, hole);
      if !(fmin.IsZero() && fmax.IsZero()) && SignChange(fmin, fmax) {
        SignChangeDistinct(fmin, fmax);
        var center := Root(iv.0, iv.1, fmin.v, fmax.v);
        FilledFin(g, l1, iv.0, center, cur, hole);
        FilledFin(g, l1, center, iv.1, cur, hole);
      }
    }
  }

  /** With `lengths` reading 0 where it was never written, every opacity is a number. */
  lemma Range1DAlphaFinite(f: Formula1D, g: Axis)
    requires g.Valid()
    ensures forall k :: 0 <= k < |Range1D(f, g, Fin(0.0)).alphaFills| ==> Range1D(f, g, Fin(0.0)).alphaFills[k].2.Fin?
  {
    var hole := Fin(0.0);
    BisectFin(f, g, JsArray(map[], 0), [(g.min, g.max)], 0, hole);
    var (l1, leaves, k) := Bisected(f, g, hole);
    LeavesFin(f, g, l1, leaves, LevelSize(g, k), hole);
    var l := LeafLengths(f, g, hole).0;
    Range1DCompacted(f, g, hole);
    var ps := Partials(g, l, l.length);
    AlphaEntriesAt(g, l, ps);
  }

  /** A formula whose range function calls every interval positive, filled on the positive side. */
  function AlwaysPositive(): Formula1D
  {
    Formula1D(x => Fin(1.0), (a, b) => Positive, FillMode(true, false, false))
  }

  /** As written, a one-pixel axis under an everywhere-true condition: the pixel
      is covered entirely, but `lengths[0] += 1` reads a hole, so the pixel comes
      out as an alpha fill of opacity NaN instead of a solid fill. */
  lemma Range1DHoleNaN()
    ensures Range1D(AlwaysPositive(), Axis(1, 0.0, 1.0), NaN) == Range1DResult([], [], [(0.0, 1.0, NaN)])
  {
    var f, g := AlwaysPositive(), Axis(1, 0.0, 1.0);
    var l := JsArray(map[0 := NaN], 1);
    OnePixelLevel(f, NaN, l);
    assert LeafLengths(f, g, NaN) == (l, []);
    var r := CompactStep(g, [], [], NaN, 0);
    assert r.0 == [] && r.1 == [(0.0, 1.0, NaN)];
    assert Compact(g, l, 1) == r;
  }

  /** Reading the hole as 0, the same pixel is one solid fill. */
  lemma Range1DHoleZero()
    ensures Range1D(AlwaysPositive(), Axis(1, 0.0, 1.0), Fin(0.0)) == Range1DResult([(0.0, 1.0)], [], [])
  {
    var f, g := AlwaysPositive(), Axis(1, 0.0, 1.0);
    var l := JsArray(map[0 := Fin(1.0)], 1);
    OnePixelLevel(f, Fin(0.0), l);
    assert LeafLengths(f, g, Fin(0.0)) == (l, []);
    var r := CompactStep(g, [], [], Fin(1.0), 0);
    assert r.0 == [(0.0, 1.0)] && r.1 == [];
    assert Compact(g, l, 1) == r;
  }

  /** The bisection of the one-pixel axis under AlwaysPositive: one `+=` at pixel 0. */
  lemma OnePixelLevel(f: Formula1D, hole: Num, l: JsArray)
    requires f == AlwaysPositive() && l == JsArray(map[0 := NumAdd(hole, Fin(1.0))], 1)
    ensures Bisected(f, Axis(1, 0.0, 1.0), hole) == (l, [], 1)
  {
    var g := Axis(1, 0.0, 1.0);
    var e := JsArray(map[], 0);
    assert g.Scaled((0.0 + 1.0) / 2.0).Floor == 0;
    assert LevelSize(g, 0) == 1.0;
    assert Filled(g, e, 0.0, 1.0, 1.0, hole) == l;
    var st := BisectStep(f, g, e, (0.0, 1.0), 1.0, hole);
    assert st.0 == l && st.1 == [];
    var rs := [(0.0, 1.0)];
    assert rs[..0] == [] && rs[0] == (0.0, 1.0);
    var front := BisectLevel(f, g, e, rs[..0], 1.0, hole);
    assert front.0 == e && front.1 == [];
    var lv := BisectLevel(f, g, e, rs, 1.0, hole);
    assert lv.0 == l && lv.1 == [];
  }

  // ------------------------------------------------------------- calc1DCurves

  /** Samples kept by one curve: x0, f(x0), x1, f(x1), ... */
  type Curve = seq<real>

  /** One sample at x: a NaN closes the current curve and starts a new one, a
      number is appended to the current (last) curve. */
  function SampleAt(vf: real -> Num, cs: seq<Curve>, x: real): seq<Curve>
    requires cs != []
  {
    match vf(x)
    case NaN => cs + [[]]
    case Fin(v) => cs[..|cs| - 1] + [cs[|cs| - 1] + [x, v]]
  }

  /** The samples 0 .. m - 1 at `lo + d * i`. */
  function Samples(vf: real -> Num, cs: seq<Curve>, lo: real, d: real, m: nat): (r: seq<Curve>)
    requires cs != []
    ensures r != []
  {
    if m == 0 then cs else SampleAt(vf, Samples(vf, cs, lo, d, m - 1), lo + d * (m - 1) as real)
  }

  /** Sample i comes after samples 0 .. i - 1. */
  lemma SamplesNext(vf: real -> Num, cs: seq<Curve>, lo: real, d: real, i: nat)
    requires cs != []
    ensures Samples(vf, cs, lo, d, i + 1) == SampleAt(vf, Samples(vf, cs, lo, d, i), lo + d * i as real)
  {
    assert (i + 1) - 1 == i;
  }

  /** How many times `for (let i = 0; i <= n; i++)` runs. */
  function SampleCount(n: real): (m: nat)
    requires n >= 0.0
    ensures (m - 1) as real <= n < m as real
  {
    n.Floor as nat + 1
  }

  /** The samples `calcFull` takes on [lo, hi] in n steps: a new curve, then n.Floor + 1 samples. */
  function CalcFullSpec(vf: real -> Num, cs: seq<Curve>, lo: real, hi: real, n: real): seq<Curve>
    requires n > 0.0
  {
    Samples(vf, cs + [[]], lo, (hi - lo) / n, SampleCount(n))
  }

  /** `Math.max(fullCalcSubPixelStep * currentSize, 1)` */
  function SampleSteps(cur: real): (n: real)
    ensures n >= 1.0
  {
    if FullCalcSubPixelStep * cur > 1.0 then FullCalcSubPixelStep * cur else 1.0
  }

  /** What the curve loop does with one interval: an always-NaN one is dropped, a
      definite or BOTH one is sampled, another is split while wider than 1/64 pixel. */
  function CurveStep(f: Formula1D, cs: seq<Curve>, iv: Interval, cur: real): (seq<Curve>, seq<Interval>)
  {
    var c := f.rangeFunc(iv.0, iv.1);
    if c == EqNaN then (cs, [])
    else if c.Definite() || c == Both then (CalcFullSpec(f.valueFunc, cs, iv.0, iv.1, SampleSteps(cur)), [])
    else if cur > 1.0 / SubPixelStep then (cs, Halves(iv))
    else (cs, [])
  }
  /** An OTHER interval is definite: the curve loop samples it densely and splits nothing. */
  lemma OtherSampled(f: Formula1D, cs: seq<Curve>, iv: Interval, cur: real)
    requires f.rangeFunc(iv.0, iv.1) == Other
    ensures CurveStep(f, cs, iv, cur) == (CalcFullSpec(f.valueFunc, cs, iv.0, iv.1, SampleSteps(cur)), [])
  {
  }


  /** One level of the curve loop over the queued intervals, in order. */
  function CurveLevel(f: Formula1D, cs: seq<Curve>, rs: seq<Interval>, cur: real): (seq<Curve>, seq<Interval>)
  {
    if rs == [] then (cs, [])
    else
      var (c1, n1) := CurveLevel(f, cs, rs[..|rs| - 1], cur);
      var (c2, n2) := CurveStep(f, c1, rs[|rs| - 1], cur);
      (c2, n1 + n2)
  }

  /** Below 1/64 pixel nothing is split any more. */
  lemma {:induction false} CurveLevelNoSplit(f: Formula1D, cs: seq<Curve>, rs: seq<Interval>, cur: real)
    requires cur <= 1.0 / SubPixelStep
    ensures CurveLevel(f, cs, rs, cur).1 == []
  {
    if rs != [] {
      CurveLevelNoSplit(f, cs, rs[..|rs| - 1], cur);
    }
  }

  /** A bound on the levels the curve loop still runs from level k. */
  function CurveMeasure(g: Axis, rs: seq<Interval>, k: nat): nat
  {
    (if rs != [] then 1 else 0) + (if Pow2(k) <= 64 * g.size then 64 * g.size - Pow2(k) + 1 else 0)
  }

  /** The curve loop from level k: it runs while intervals are queued, no more than `size` of them. */
  function CurvesFrom(f: Formula1D, g: Axis, cs: seq<Curve>, rs: seq<Interval>, k: nat): seq<Curve>
    decreases CurveMeasure(g, rs, k)
  {
    if rs != [] && |rs| <= g.size then
      var (c1, next) := CurveLevel(f, cs, rs, LevelSize(g, k));
      if Pow2(k) >= 64 * g.size then
        QuotientAtMost(g.size as real, Pow2(k) as real, 1.0 / SubPixelStep);
        CurveLevelNoSplit(f, cs, rs, LevelSize(g, k));
        CurvesFrom(f, g, c1, next, k + 1)
      else
        CurvesFrom(f, g, c1, next, k + 1)
    else cs
  }

  /** calc1DCurves: the polylines of a function of one variable over [min, max]. */
  function Curves1D(f: Formula1D, g: Axis): seq<Curve>
  {
    CurvesFrom(f, g, [], [(g.min, g.max)], 0)
  }

  /** calcFull: a new curve, then a sample at each `min + d * i` for `i <= n`; the
      current curve is the last one, extended in place. */
  method CalcFull(vf: real -> Num, curves: seq<Curve>, lo: real, hi: real, n: real) returns (r: seq<Curve>)
    requires n > 0.0
    ensures r == CalcFullSpec(vf, curves, lo, hi, n)
  {
    var d := (hi - lo) / n;
    r := curves + [[]];
    var i := 0;
    while (i as real) <= n
      invariant 0 <= i <= SampleCount(n)
      invariant r == Samples(vf, curves + [[]], lo, d, i)
      decreases SampleCount(n) - i
    {
      SampleCountMore(n, i);
      r := SampleOne(vf, r, lo + d * i as real);
      SamplesNext(vf, curves + [[]], lo, d, i);
      i := i + 1;
    }
    SampleCountDone(n, i);
  }

  /** The body of calcFull's loop: a NaN starts a new curve, a number extends the last one in place. */
  method SampleOne(vf: real -> Num, cs: seq<Curve>, x: real) returns (r: seq<Curve>)
    requires cs != []
    ensures r == SampleAt(vf, cs, x)
  {
    var v := vf(x);
    if v.NaN? {
      r := cs + [[]];
    } else {
      var last := |cs| - 1;
      r := cs[last := cs[last] + [x, v.v]];
      assert r == cs[..last] + [cs[last] + [x, v.v]];
    }
  }

  /** While `i <= n`, the loop has not yet run SampleCount(n) times. */
  lemma SampleCountMore(n: real, i: nat)
    requires n >= 0.0 && i as real <= n
    ensures i < SampleCount(n)
  {
  }

  /** Once `i <= n` fails, the loop has run exactly SampleCount(n) times. */
  lemma SampleCountDone(n: real, i: nat)
    requires n >= 0.0 && i <= SampleCount(n) && !(i as real <= n)
    ensures i == SampleCount(n)
  {
  }

  /** One interval of the curve loop, as the loop body does it. */
  method CurveOne(f: Formula1D, curves: seq<Curve>, iv: Interval, cur: real) returns (r: seq<Curve>, next: seq<Interval>)
    ensures (r, next) == CurveStep(f, curves, iv, cur)
  {
    var (min, max) := iv;
    var result := f.rangeFunc(min, max);
    r, next := curves, [];
    if result == EqNaN {
      return;
    }
    if result.Definite() || result == Both {
      r := CalcFull(f.valueFunc, curves, min, max, SampleSteps(cur));
    } else if cur > 1.0 / SubPixelStep {
      var center := (min + max) / 2.0;
      next := [(min, center), (center, max)];
    }
  }

  /** `for (const [min, max] of ranges)` of one level of the curve loop. */
  method CurveRanges(f: Formula1D, curves: seq<Curve>, ranges: seq<Interval>, cur: real) returns (r: seq<Curve>, nextRanges: seq<Interval>)
    ensures (r, nextRanges) == CurveLevel(f, curves, ranges, cur)
  {
    r, nextRanges := curves, [];
    var i := 0;
    while i < |ranges|
      invariant 0 <= i <= |ranges|
      invariant (r, nextRanges) == CurveLevel(f, curves, ranges[..i], cur)
    {
      assert ranges[..i + 1][..i] == ranges[..i];
      var r1, n1 := CurveOne(f, r, ranges[i], cur);
      r, nextRanges := r1, nextRanges + n1;
      i := i + 1;
    }
    assert ranges[..i] == ranges;
  }

  /** calc1DCurves over `size` pixels of [min, max]. */
  method Calc1DCurves(f: Formula1D, g: Axis) returns (curves: seq<Curve>)
    ensures curves == Curves1D(f, g)
  {
    var ranges := [(g.min, g.max)];
    var currentSize := g.size as real;
    curves := [];
    ghost var k: nat := 0;
    while ranges != [] && |ranges| <= g.size
      invariant currentSize == LevelSize(g, k)
      invariant CurvesFrom(f, g, curves, ranges, k) == Curves1D(f, g)
      decreases CurveMeasure(g, ranges, k)
    {
      LevelSizeBound(g, k);
      if Pow2(k) >= 64 * g.size {
        QuotientAtMost(g.size as real, Pow2(k) as real, 1.0 / SubPixelStep);
        CurveLevelNoSplit(f, curves, ranges, currentSize);
      }
      curves, ranges := CurveRanges(f, curves, ranges, currentSize);
      currentSize := currentSize / 2.0;
      k := k + 1;
    }
  }

  /** A polyline of f over [a, b]: (x, y) pairs with `f(x) == y` (so no NaN), x
      inside [a, b] and strictly increasing. */
  predicate Polyline(vf: real -> Num, c: Curve, a: real, b: real)
  {
    && |c| % 2 == 0
    && (forall p :: 0 <= p < |c| / 2 ==> vf(c[2 * p]) == Fin(c[2 * p + 1]) && a <= c[2 * p] <= b)
    && (forall p :: 0 < p < |c| / 2 ==> c[2 * p - 2] < c[2 * p])
  }

  predicate Polylines(vf: real -> Num, cs: seq<Curve>, a: real, b: real)
  {
    forall j :: 0 <= j < |cs| ==> Polyline(vf, cs[j], a, b)
  }

  /** The current curve's last x is below x. */
  predicate LastBelow(cs: seq<Curve>, x: real)
    requires cs != []
  {
    var c := cs[|cs| - 1];
    |c| >= 2 ==> c[|c| - 2] < x
  }

  /** Intervals with a positive width inside [a, b]. */
  predicate Proper(rs: seq<Interval>, a: real, b: real)
  {
    forall i :: 0 <= i < |rs| ==> a <= rs[i].0 < rs[i].1 <= b
  }

  lemma PolylineAppend(vf: real -> Num, c: Curve, a: real, b: real, x: real, v: real)
    requires Polyline(vf, c, a, b) && vf(x) == Fin(v) && a <= x <= b
    requires |c| >= 2 ==> c[|c| - 2] < x
    ensures Polyline(vf, c + [x, v], a, b)
  {
    var c' := c + [x, v];
    var h := |c| / 2;
    assert |c'| / 2 == h + 1;
    forall p | 0 <= p < h + 1 ensures vf(c'[2 * p]) == Fin(c'[2 * p + 1]) && a <= c'[2 * p] <= b {
      if p < h {
        assert c'[2 * p] == c[2 * p] && c'[2 * p + 1] == c[2 * p + 1];
      } else {
        assert c'[2 * p] == x && c'[2 * p + 1] == v;
      }
    }
    forall p | 0 < p < h + 1 ensures c'[2 * p - 2] < c'[2 * p] {
      if p < h {
        assert c'[2 * p - 2] == c[2 * p - 2] && c'[2 * p] == c[2 * p];
      } else {
        assert c'[2 * p - 2] == c[|c| - 2] && c'[2 * p] == x;
      }
    }
  }

  /** A sample keeps the curves polylines when its x is past the current curve's end. */
  lemma SampleAtPolylines(vf: real -> Num, cs: seq<Curve>, a: real, b: real, x: real)
    requires cs != [] && Polylines(vf, cs, a, b) && LastBelow(cs, x) && a <= x <= b
    ensures Polylines(vf, SampleAt(vf, cs, x), a, b)
    ensures forall y :: x < y ==> LastBelow(SampleAt(vf, cs, x), y)
  {
    var r := SampleAt(vf, cs, x);
    var m := |cs| - 1;
    if vf(x).Fin? {
      PolylineAppend(vf, cs[m], a, b, x, vf(x).v);
      forall j | 0 <= j < |r| ensures Polyline(vf, r[j], a, b) {
        if j < m {
          assert r[j] == cs[j];
        }
      }
    } else {
      assert Polylines(vf, r, a, b) by {
        forall j | 0 <= j < |r| ensures Polyline(vf, r[j], a, b) {
          if j < |cs| {
            assert r[j] == cs[j];
          }
        }
      }
    }
  }

  lemma StepBelow(lo: real, d: real, i: nat, j: nat)
    requires d > 0.0 && i <= j
    ensures lo <= lo + d * i as real <= lo + d * j as real
  {
  }

  /** The samples at `lo + d * i`, i < m, keep the curves polylines over [a, b] when they lie in it. */
  lemma {:induction false} SamplesPolylines(vf: real -> Num, cs: seq<Curve>, lo: real, d: real, m: nat, a: real, b: real)
    requires cs != [] && Polylines(vf, cs, a, b) && LastBelow(cs, lo) && d > 0.0 && a <= lo
    requires m > 0 ==> lo + d * (m - 1) as real <= b
    ensures Polylines(vf, Samples(vf, cs, lo, d, m), a, b)
    ensures LastBelow(Samples(vf, cs, lo, d, m), lo + d * m as real)
  {
    if m > 0 {
      var k := m - 1;
      if k > 0 {
        StepBelow(lo, d, k - 1, k);
        assert k - 1 == m - 2;
      }
      SamplesPolylines(vf, cs, lo, d, k, a, b);
      var x := lo + d * k as real;
      StepBelow(lo, d, k, m);
      assert x < lo + d * m as real;
      SampleAtPolylines(vf, Samples(vf, cs, lo, d, k), a, b, x);
      SamplesNext(vf, cs, lo, d, k);
    }
  }

  /** calcFull on an interval of [a, b] adds polylines over [a, b]. */
  lemma CalcFullPolylines(vf: real -> Num, cs: seq<Curve>, lo: real, hi: real, n: real, a: real, b: real)
    requires Polylines(vf, cs, a, b) && a <= lo < hi <= b && n > 0.0
    ensures Polylines(vf, CalcFullSpec(vf, cs, lo, hi, n), a, b)
  {
    var cs' := cs + [[]];
    assert Polylines(vf, cs', a, b) by {
      forall j | 0 <= j < |cs'| ensures Polyline(vf, cs'[j], a, b) {
        if j < |cs| {
          assert cs'[j] == cs[j];
        }
      }
    }
    var d := (hi - lo) / n;
    var m := SampleCount(n);
    var w := hi - lo;
    assert d > 0.0;
    assert d * (m - 1) as real <= d * n;
    assert d * n == w;
    SamplesPolylines(vf, cs', lo, d, m, a, b);
  }

  lemma HalvesProper(iv: Interval, a: real, b: real)
    requires a <= iv.0 < iv.1 <= b
    ensures Proper(Halves(iv), a, b)
  {
  }

  lemma {:induction false} CurveLevelPolylines(f: Formula1D, cs: seq<Curve>, rs: seq<Interval>, cur: real, a: real, b: real)
    requires Polylines(f.valueFunc, cs, a, b) && Proper(rs, a, b)
    ensures Polylines(f.valueFunc, CurveLevel(f, cs, rs, cur).0, a, b)
    ensures Proper(CurveLevel(f, cs, rs, cur).1, a, b)
  {
    if rs != [] {
      var front, iv := rs[..|rs| - 1], rs[|rs| - 1];
      assert Proper(front, a, b) by {
        forall i | 0 <= i < |front| ensures a <= front[i].0 < front[i].1 <= b {
          assert front[i] == rs[i];
        }
      }
      CurveLevelPolylines(f, cs, front, cur, a, b);
      var (c1, n1) := CurveLevel(f, cs, front, cur);
      CalcFullPolylines(f.valueFunc, c1, iv.0, iv.1, SampleSteps(cur), a, b);
      HalvesProper(iv, a, b);
      var n2 := CurveStep(f, c1, iv, cur).1;
      assert Proper(n2, a, b);
      forall i | 0 <= i < |n1 + n2| ensures a <= (n1 + n2)[i].0 < (n1 + n2)[i].1 <= b {
        if i >= |n1| {
          assert (n1 + n2)[i] == n2[i - |n1|];
        }
      }
    }
  }

  lemma {:induction false} CurvesFromPolylines(f: Formula1D, g: Axis, cs: seq<Curve>, rs: seq<Interval>, k: nat, a: real, b: real)
    requires Polylines(f.valueFunc, cs, a, b) && Proper(rs, a, b)
    ensures Polylines(f.valueFunc, CurvesFrom(f, g, cs, rs, k), a, b)
    decreases CurveMeasure(g, rs, k)
  {
    if rs != [] && |rs| <= g.size {
      CurveLevelPolylines(f, cs, rs, LevelSize(g, k), a, b);
      var (c1, next) := CurveLevel(f, cs, rs, LevelSize(g, k));
      if Pow2(k) >= 64 * g.size {
        QuotientAtMost(g.size as real, Pow2(k) as real, 1.0 / SubPixelStep);
        CurveLevelNoSplit(f, cs, rs, LevelSize(g, k));
      }
      CurvesFromPolylines(f, g, c1, next, k + 1, a, b);
    }
  }

  /** Every curve calc1DCurves returns is a polyline of the function over [min, max]:
      an even number of values, no NaN sample, x increasing strictly. */
  lemma Curves1DPolylines(f: Formula1D, g: Axis)
    requires g.Valid()
    ensures forall j :: 0 <= j < |Curves1D(f, g)| ==> Polyline(f.valueFunc, Curves1D(f, g)[j], g.min, g.max)
  {
    CurvesFromPolylines(f, g, [], [(g.min, g.max)], 0, g.min, g.max);
  }

  // ----------------------------------------------------------------- render1D

  /** A drawing command of render1D, in the formula's coordinates: set the global
      alpha, fill the band over [a, b] of the evaluated axis, draw the line at v,
      fill the area between a curve and the start (or far) edge, draw a dot, stroke
      a curve. */
  datatype Cmd =
    | SetAlpha(alpha: Num)
    | Band(a: real, b: real)
    | Line(v: real)
    | Area(curve: Curve, atStart: bool)
    | Dot(x: real, y: real)
    | Stroke(curve: Curve)

  /** What render1D is handed: the result of calc1DRange or of calc1DCurves. */
  datatype Result1D = Ranges(range: Range1DResult) | Curves(curves: seq<Curve>)

  /** `alpha * fillAlpha` */
  function AlphaTimes(alpha: Num, fillAlpha: real): Num
  {
    if alpha.Fin? then Fin(alpha.v * fillAlpha) else NaN
  }

  function BandCmds(fills: seq<Interval>): seq<Cmd>
  {
    if fills == [] then [] else BandCmds(fills[..|fills| - 1]) + [Band(fills[|fills| - 1].0, fills[|fills| - 1].1)]
  }

  function AlphaCmds(alphaFills: seq<AlphaFill>, fillAlpha: real): seq<Cmd>
  {
    if alphaFills == [] then []
    else
      var (a, b, alpha) := alphaFills[|alphaFills| - 1];
      AlphaCmds(alphaFills[..|alphaFills| - 1], fillAlpha) + [SetAlpha(AlphaTimes(alpha, fillAlpha)), Band(a, b)]
  }

  function LineCmds(plots: seq<real>): seq<Cmd>
  {
    if plots == [] then [] else LineCmds(plots[..|plots| - 1]) + [Line(plots[|plots| - 1])]
  }

  /** The areas under the curves of more than one point. */
  function AreaCmds(curves: seq<Curve>, atStart: bool): seq<Cmd>
  {
    if curves == [] then []
    else
      var c := curves[|curves| - 1];
      AreaCmds(curves[..|curves| - 1], atStart) + (if |c| <= 2 then [] else [Area(c, atStart)])
  }

  /** A curve of one point is a dot, a longer one is stroked, an empty one is skipped. */
  function StrokeCmds(curves: seq<Curve>): seq<Cmd>
  {
    if curves == [] then []
    else
      var c := curves[|curves| - 1];
      StrokeCmds(curves[..|curves| - 1]) + (if |c| == 0 then [] else if |c| == 2 then [Dot(c[0], c[1])] else [Stroke(c)])
  }

  /** The commands for the result of calc1DRange. */
  function RangeCmds(r: Range1DResult, fillAlpha: real): seq<Cmd>
  {
    [SetAlpha(Fin(fillAlpha))] + BandCmds(r.fills) + AlphaCmds(r.alphaFills, fillAlpha) + [SetAlpha(Fin(1.0))] + LineCmds(r.plots)
  }

  /** The commands for the result of calc1DCurves: areas only when a sign is filled. */
  function CurveCmds(curves: seq<Curve>, fm: FillMode, fillAlpha: real): seq<Cmd>
  {
    [SetAlpha(Fin(fillAlpha))] + (if fm.positive || fm.negative then AreaCmds(curves, fm.negative) else [])
    + [SetAlpha(Fin(1.0))] + StrokeCmds(curves)
  }

  /** The formulas whose result is a calc1DRange result. */
  predicate RangeCalc(calcType: string)
  {
    calcType == "x" || calcType == "y"
  }

  /** render1D's command log. */
  function Render1DCmds(calcType: string, fm: FillMode, fillAlpha: real, result: Result1D): seq<Cmd>
    requires RangeCalc(calcType) <==> result.Ranges?
  {
    [SetAlpha(Fin(fillAlpha))] + match result
      case Ranges(r) => RangeCmds(r, fillAlpha)
      case Curves(cs) => CurveCmds(cs, fm, fillAlpha)
  }

  /** `for (const [min, max] of fills) fill(min, max)` */
  method EmitBands(fills: seq<Interval>) returns (cmds: seq<Cmd>)
    ensures cmds == BandCmds(fills)
  {
    cmds := [];
    var i := 0;
    while i < |fills|
      invariant 0 <= i <= |fills|
      invariant cmds == BandCmds(fills[..i])
    {
      assert fills[..i + 1][..i] == fills[..i];
      cmds := cmds + [Band(fills[i].0, fills[i].1)];
      i := i + 1;
    }
    assert fills[..i] == fills;
  }

  /** `for (const [min, max, alpha] of alphaFills) { ctx.globalAlpha = alpha * fillAlpha; fill(min, max) }` */
  method EmitAlphas(alphaFills: seq<AlphaFill>, fillAlpha: real) returns (cmds: seq<Cmd>)
    ensures cmds == AlphaCmds(alphaFills, fillAlpha)
  {
    cmds := [];
    var i := 0;
    while i < |alphaFills|
      invariant 0 <= i <= |alphaFills|
      invariant cmds == AlphaCmds(alphaFills[..i], fillAlpha)
    {
      assert alphaFills[..i + 1][..i] == alphaFills[..i];
      var (a, b, alpha) := alphaFills[i];
      cmds := cmds + [SetAlpha(AlphaTimes(alpha, fillAlpha)), Band(a, b)];
      i := i + 1;
    }
    assert alphaFills[..i] == alphaFills;
  }

  /** `for (const v of plots) plot(v)` */
  method EmitLines(plots: seq<real>) returns (cmds: seq<Cmd>)
    ensures cmds == LineCmds(plots)
  {
    cmds := [];
    var i := 0;
    while i < |plots|
      invariant 0 <= i <= |plots|
      invariant cmds == LineCmds(plots[..i])
    {
      assert plots[..i + 1][..i] == plots[..i];
      cmds := cmds + [Line(plots[i])];
      i := i + 1;
    }
    assert plots[..i] == plots;
  }

  /** The area loop: curves of one point or none are skipped. */
  method EmitAreas(curves: seq<Curve>, atStart: bool) returns (cmds: seq<Cmd>)
    ensures cmds == AreaCmds(curves, atStart)
  {
    cmds := [];
    var i := 0;
    while i < |curves|
      invariant 0 <= i <= |curves|
      invariant cmds == AreaCmds(curves[..i], atStart)
    {
      assert curves[..i + 1][..i] == curves[..i];
      if |curves[i]| > 2 {
        cmds := cmds + [Area(curves[i], atStart)];
      }
      i := i + 1;
    }
    assert curves[..i] == curves;
  }

  /** The stroke loop: a dot for one point, a stroke for more, nothing for an empty curve. */
  method EmitStrokes(curves: seq<Curve>) returns (cmds: seq<Cmd>)
    ensures cmds == StrokeCmds(curves)
  {
    cmds := [];
    var i := 0;
    while i < |curves|
      invariant 0 <= i <= |curves|
      invariant cmds == StrokeCmds(curves[..i])
    {
      assert curves[..i + 1][..i] == curves[..i];
      var c := curves[i];
      if |c| == 0 {
      } else if |c| == 2 {
        cmds := cmds + [Dot(c[0], c[1])];
      } else {
        cmds := cmds + [Stroke(c)];
      }
      i := i + 1;
    }
    assert curves[..i] == curves;
  }

  /** render1D: the commands it issues, in order. */
  method Render1DLog(calcType: string, fm: FillMode, fillAlpha: real, result: Result1D) returns (log: seq<Cmd>)
    requires RangeCalc(calcType) <==> result.Ranges?
    ensures log == Render1DCmds(calcType, fm, fillAlpha, result)
  {
    log := [SetAlpha(Fin(fillAlpha))];
    if calcType == "x" || calcType == "y" {
      var r := result.range;
      var bands := EmitBands(r.fills);
      var alphas := EmitAlphas(r.alphaFills, fillAlpha);
      var lines := EmitLines(r.plots);
      var drawn := [SetAlpha(Fin(fillAlpha))] + bands + alphas + [SetAlpha(Fin(1.0))] + lines;
      assert drawn == RangeCmds(r, fillAlpha);
      log := log + drawn;
    } else {
      var curves := result.curves;
      var areas := [];
      if fm.positive || fm.negative {
        areas := EmitAreas(curves, fm.negative);
      }
      var strokes := EmitStrokes(curves);
      var drawn := [SetAlpha(Fin(fillAlpha))] + areas + [SetAlpha(Fin(1.0))] + strokes;
      assert drawn == CurveCmds(curves, fm, fillAlpha);
      log := log + drawn;
    }
  }

  // ------------------------------------------------- what the commands paint

  /** The alpha in force after `globalAlpha = a`: the canvas ignores a NaN and any
      value outside [0, 1] (the HTML standard's setter of globalAlpha). */
  function NextAlpha(alpha: real, a: Num): real
  {
    if a.Fin? && 0.0 <= a.v <= 1.0 then a.v else alpha
  }

  /** Each drawing command of a log with the alpha in force when it runs. */
  function Painted(log: seq<Cmd>, alpha: real): seq<(Cmd, real)>
  {
    if log == [] then []
    else if log[0].SetAlpha? then Painted(log[1..], NextAlpha(alpha, log[0].alpha))
    else [(log[0], alpha)] + Painted(log[1..], alpha)
  }

  /** The alpha in force after a log. */
  function AlphaAfter(log: seq<Cmd>, alpha: real): real
  {
    if log == [] then alpha
    else if log[0].SetAlpha? then AlphaAfter(log[1..], NextAlpha(alpha, log[0].alpha))
    else AlphaAfter(log[1..], alpha)
  }

  lemma {:induction false} PaintedAppend(x: seq<Cmd>, y: seq<Cmd>, alpha: real)
    ensures Painted(x + y, alpha) == Painted(x, alpha) + Painted(y, AlphaAfter(x, alpha))
    ensures AlphaAfter(x + y, alpha) == AlphaAfter(y, AlphaAfter(x, alpha))
  {
    if x == [] {
      assert x + y == y;
    } else {
      assert (x + y)[0] == x[0] && (x + y)[1..] == x[1..] + y;
      PaintedAppend(x[1..], y, if x[0].SetAlpha? then NextAlpha(alpha, x[0].alpha) else alpha);
    }
  }

  /** Commands drawn at one alpha. */
  function Tag(cmds: seq<Cmd>, alpha: real): (r: seq<(Cmd, real)>)
    ensures |r| == |cmds| && forall i :: 0 <= i < |cmds| ==> r[i] == (cmds[i], alpha)
  {
    if cmds == [] then [] else [(cmds[0], alpha)] + Tag(cmds[1..], alpha)
  }

  /** No command sets the alpha. */
  predicate Draws(cmds: seq<Cmd>)
  {
    forall i :: 0 <= i < |cmds| ==> !cmds[i].SetAlpha?
  }

  /** A log that never sets the alpha is all painted at the alpha in force. */
  lemma {:induction false} PaintedDraws(cmds: seq<Cmd>, alpha: real)
    requires Draws(cmds)
    ensures Painted(cmds, alpha) == Tag(cmds, alpha) && AlphaAfter(cmds, alpha) == alpha
  {
    if cmds != [] {
      assert !cmds[0].SetAlpha?;
      assert Draws(cmds[1..]) by {
        forall i | 0 <= i < |cmds| - 1 ensures !cmds[1..][i].SetAlpha? {
          assert cmds[1..][i] == cmds[i + 1];
        }
      }
      PaintedDraws(cmds[1..], alpha);
    }
  }

  lemma DrawsAppend(a: seq<Cmd>, b: seq<Cmd>)
    requires Draws(a) && Draws(b)
    ensures Draws(a + b)
  {
    forall i | 0 <= i < |a + b| ensures !(a + b)[i].SetAlpha? {
      if i >= |a| {
        assert (a + b)[i] == b[i - |a|];
      }
    }
  }

  /** The bands of the solid fills, one per fill, in order. */
  lemma {:induction false} BandCmdsAt(fills: seq<Interval>)
    ensures |BandCmds(fills)| == |fills| && Draws(BandCmds(fills))
    ensures forall k :: 0 <= k < |fills| ==> BandCmds(fills)[k] == Band(fills[k].0, fills[k].1)
  {
    if fills != [] {
      BandCmdsAt(fills[..|fills| - 1]);
      DrawsAppend(BandCmds(fills[..|fills| - 1]), [Band(fills[|fills| - 1].0, fills[|fills| - 1].1)]);
    }
  }

  /** The root lines, one per root, in order. */
  lemma {:induction false} LineCmdsAt(plots: seq<real>)
    ensures |LineCmds(plots)| == |plots| && Draws(LineCmds(plots))
    ensures forall k :: 0 <= k < |plots| ==> LineCmds(plots)[k] == Line(plots[k])
  {
    if plots != [] {
      LineCmdsAt(plots[..|plots| - 1]);
      DrawsAppend(LineCmds(plots[..|plots| - 1]), [Line(plots[|plots| - 1])]);
    }
  }

  lemma {:induction false} AreaCmdsDraw(curves: seq<Curve>, atStart: bool)
    ensures Draws(AreaCmds(curves, atStart))
  {
    if curves != [] {
      var c := curves[|curves| - 1];
      AreaCmdsDraw(curves[..|curves| - 1], atStart);
      DrawsAppend(AreaCmds(curves[..|curves| - 1], atStart), if |c| <= 2 then [] else [Area(c, atStart)]);
    }
  }

  lemma {:induction false} StrokeCmdsDraw(curves: seq<Curve>)
    ensures Draws(StrokeCmds(curves))
  {
    if curves != [] {
      var c := curves[|curves| - 1];
      StrokeCmdsDraw(curves[..|curves| - 1]);
      DrawsAppend(StrokeCmds(curves[..|curves| - 1]), if |c| == 0 then [] else if |c| == 2 then [Dot(c[0], c[1])] else [Stroke(c)]);
    }
  }

  /** An alpha fill the canvas takes: its `alpha * fillAlpha` is a number in [0, 1]. */
  predicate Visible(al: AlphaFill, fillAlpha: real)
  {
    AlphaTimes(al.2, fillAlpha).Fin? && 0.0 <= AlphaTimes(al.2, fillAlpha).v <= 1.0
  }

  /** An alpha fill's band at its own opacity times the fill alpha (a NaN
      opacity, which the canvas would not take, is listed as 0). */
  function AlphaPaint(al: AlphaFill, fillAlpha: real): (Cmd, real)
  {
    (Band(al.0, al.1), if al.2.Fin? then al.2.v * fillAlpha else 0.0)
  }

  /** Each alpha fill painted, in order. */
  function AlphaPainted(alphaFills: seq<AlphaFill>, fillAlpha: real): seq<(Cmd, real)>
  {
    if alphaFills == [] then []
    else
      AlphaPainted(alphaFills[..|alphaFills| - 1], fillAlpha) + [AlphaPaint(alphaFills[|alphaFills| - 1], fillAlpha)]
  }

  /** With every opacity taken, each alpha fill is painted at `alpha * fillAlpha`. */
  lemma {:induction false} AlphaCmdsPainted(alphaFills: seq<AlphaFill>, fillAlpha: real, alpha: real)
    requires forall k :: 0 <= k < |alphaFills| ==> Visible(alphaFills[k], fillAlpha)
    ensures Painted(AlphaCmds(alphaFills, fillAlpha), alpha) == AlphaPainted(alphaFills, fillAlpha)
  {
    if alphaFills != [] {
      var front := alphaFills[..|alphaFills| - 1];
      var fill := alphaFills[|alphaFills| - 1];
      var a, b, al := fill.0, fill.1, fill.2;
      assert Visible(fill, fillAlpha) && al.Fin?;
      assert forall k :: 0 <= k < |front| ==> Visible(front[k], fillAlpha) by {
        forall k | 0 <= k < |front| ensures Visible(front[k], fillAlpha) {
          assert front[k] == alphaFills[k];
        }
      }
      AlphaCmdsPainted(front, fillAlpha, alpha);
      var last := [SetAlpha(AlphaTimes(al, fillAlpha)), Band(a, b)];
      assert AlphaCmds(alphaFills, fillAlpha) == AlphaCmds(front, fillAlpha) + last;
      PaintedAppend(AlphaCmds(front, fillAlpha), last, alpha);
      var before := AlphaAfter(AlphaCmds(front, fillAlpha), alpha);
      assert NextAlpha(before, AlphaTimes(al, fillAlpha)) == al.v * fillAlpha;
      assert last[1..] == [Band(a, b)] && [Band(a, b)][1..] == [];
      var na := al.v * fillAlpha;
      assert Painted([], na) == [];
      assert Painted([Band(a, b)], na) == [(Band(a, b), na)] + Painted([], na);
      assert Painted(last, before) == Painted([Band(a, b)], na);
      assert [(Band(a, b), na)] + [] == [(Band(a, b), na)];
      var painted := AlphaPaint(fill, fillAlpha);
      assert painted.0 == Band(a, b) && painted.1 == na;
      assert painted == (Band(a, b), na);
      assert Painted(last, before) == [AlphaPaint(fill, fillAlpha)];
      assert AlphaPainted(alphaFills, fillAlpha) == AlphaPainted(front, fillAlpha) + [AlphaPaint(fill, fillAlpha)];
    }
  }

  /** Setting an alpha the canvas takes, then drawing: everything at that alpha. */
  lemma SetThenDraws(cmds: seq<Cmd>, v: real, alpha: real)
    requires Draws(cmds) && 0.0 <= v <= 1.0
    ensures Painted([SetAlpha(Fin(v))] + cmds, alpha) == Tag(cmds, v)
  {
    var log := [SetAlpha(Fin(v))] + cmds;
    assert log[0] == SetAlpha(Fin(v)) && log[1..] == cmds;
    PaintedDraws(cmds, v);
  }

  /** Setting an alpha the canvas takes, then anything: the rest runs from that alpha. */
  lemma SetThen(cmds: seq<Cmd>, v: real, alpha: real)
    requires 0.0 <= v <= 1.0
    ensures Painted([SetAlpha(Fin(v))] + cmds, alpha) == Painted(cmds, v)
  {
    var log := [SetAlpha(Fin(v))] + cmds;
    assert log[0] == SetAlpha(Fin(v)) && log[1..] == cmds;
  }

  /** What render1D paints for calc1DRange's result: the solid fills at the fill
      alpha, then each alpha fill at its own opacity times the fill alpha, then the
      root lines at alpha 1. */
  lemma RangeCmdsPainted(r: Range1DResult, fillAlpha: real, alpha: real)
    requires 0.0 <= fillAlpha <= 1.0
    requires forall k :: 0 <= k < |r.alphaFills| ==> Visible(r.alphaFills[k], fillAlpha)
    ensures Painted(RangeCmds(r, fillAlpha), alpha)
      == Tag(BandCmds(r.fills), fillAlpha) + AlphaPainted(r.alphaFills, fillAlpha) + Tag(LineCmds(r.plots), 1.0)
  {
    var bands := BandCmds(r.fills);
    var rest := AlphaCmds(r.alphaFills, fillAlpha) + ([SetAlpha(Fin(1.0))] + LineCmds(r.plots));
    assert RangeCmds(r, fillAlpha) == [SetAlpha(Fin(fillAlpha))] + (bands + rest);
    AlphasThenLines(r, fillAlpha);
    BandCmdsAt(r.fills);
    DrawsThen(bands, rest, fillAlpha);
    SetThen(bands + rest, fillAlpha, alpha);
  }

  /** The alpha fills, then the root lines at alpha 1. */
  lemma AlphasThenLines(r: Range1DResult, fillAlpha: real)
    requires 0.0 <= fillAlpha <= 1.0
    requires forall k :: 0 <= k < |r.alphaFills| ==> Visible(r.alphaFills[k], fillAlpha)
    ensures Painted(AlphaCmds(r.alphaFills, fillAlpha) + ([SetAlpha(Fin(1.0))] + LineCmds(r.plots)), fillAlpha)
      == AlphaPainted(r.alphaFills, fillAlpha) + Tag(LineCmds(r.plots), 1.0)
  {
    var alphas := AlphaCmds(r.alphaFills, fillAlpha);
    AlphaCmdsPainted(r.alphaFills, fillAlpha, fillAlpha);
    PaintedAppend(alphas, [SetAlpha(Fin(1.0))] + LineCmds(r.plots), fillAlpha);
    LineCmdsAt(r.plots);
    SetThenDraws(LineCmds(r.plots), 1.0, AlphaAfter(alphas, fillAlpha));
  }

  /** Commands that never set the alpha, then anything. */
  lemma DrawsThen(cmds: seq<Cmd>, rest: seq<Cmd>, alpha: real)
    requires Draws(cmds)
    ensures Painted(cmds + rest, alpha) == Tag(cmds, alpha) + Painted(rest, alpha)
  {
    PaintedDraws(cmds, alpha);
    PaintedAppend(cmds, rest, alpha);
  }

  /** What render1D paints for calc1DCurves' result: the areas at the fill alpha
      (only when a sign is filled), then the dots and strokes at alpha 1. */
  lemma CurveCmdsPainted(curves: seq<Curve>, fm: FillMode, fillAlpha: real, alpha: real)
    requires 0.0 <= fillAlpha <= 1.0
    ensures Painted(CurveCmds(curves, fm, fillAlpha), alpha)
      == Tag(if fm.positive || fm.negative then AreaCmds(curves, fm.negative) else [], fillAlpha) + Tag(StrokeCmds(curves), 1.0)
  {
    var areas := if fm.positive || fm.negative then AreaCmds(curves, fm.negative) else [];
    var tail := [SetAlpha(Fin(1.0))] + StrokeCmds(curves);
    assert CurveCmds(curves, fm, fillAlpha) == [SetAlpha(Fin(fillAlpha))] + (areas + tail);
    AreaCmdsDraw(curves, fm.negative);
    StrokeCmdsDraw(curves);
    PaintedDraws(areas, fillAlpha);
    SetThenDraws(StrokeCmds(curves), 1.0, fillAlpha);
    PaintedAppend(areas, tail, fillAlpha);
    SetThen(areas + tail, fillAlpha, alpha);
  }
}
