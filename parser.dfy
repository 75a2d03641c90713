/** Classification of formula text into what the view renders: blank lines,
    definitions, errors, points, parametric curves and equations with the way
    they are calculated (`calcType`). The math library (numcore) is outside
    the model: its parser, variable extraction, code generators and the
    evaluated range functions are the fields of a `Numcore` value. */
module Parser {
  import opened Common

  /** numcore's tree: a number, a variable name, a binary operator, or any other node. */
  datatype Ast = Number(value: real) | Name(name: string) | Binary(op: string, left: Ast, right: Ast) | Node(op: string, args: seq<Ast>)

  /** JavaScript truthiness of a tree: the number 0 and the empty name are falsy. */
  predicate Truthy(a: Ast)
  {
    !(a.Number? && a.value == 0.0) && !(a.Name? && a.name == "")
  }

  /** A comparison mode: '<', '<=', '=', '>=' or '>'. */
  datatype Mode = Lt | Le | Eq | Ge | Gt

  function ModeText(m: Mode): string
  {
    match m
    case Lt => "<"
    case Le => "<="
    case Eq => "="
    case Ge => ">="
    case Gt => ">"
  }

  /** The fill mode of a comparison: `mode.includes('>')`, `'<'`, `'='`. */
  function FillModeOf(m: Mode): (f: FillMode)
    ensures f.positive <==> m == Ge || m == Gt
    ensures f.negative <==> m == Lt || m == Le
    ensures f.zero <==> m == Le || m == Eq || m == Ge
    ensures !(f.positive && f.negative)
    ensures f.positive || f.negative || f.zero
  {
    FillMode('>' in ModeText(m), '<' in ModeText(m), '=' in ModeText(m))
  }

  /** The option object handed to numcore's range code generator. */
  datatype RangeOption = RangeOption(pos: bool, neg: bool, eq: bool, zero: bool)

  function RangeOptionOf(f: FillMode): RangeOption
  {
    RangeOption(f.positive, f.negative, f.zero, f.zero)
  }

  /** The fill mode read from the other side of the comparison. */
  function Swapped(f: FillMode): (s: FillMode)
    ensures s.positive == f.negative && s.negative == f.positive && s.zero == f.zero
  {
    FillMode(f.negative, f.positive, f.zero)
  }

  /** The category read from the other side of a comparison: the two signs trade places. */
  function Mirrored(c: Category): (m: Category)
    ensures c.Definite() <==> m.Definite()
  {
    match c
    case Positive => Negative
    case Negative => Positive
    case _ => c
  }

  /** Reading a comparison from its other side: swapping twice restores the
      fill mode, the swapped mode fills a sign exactly when the original fills
      the mirrored one, and the range option is swapped the same way. */
  lemma SwappedMirrors(f: FillMode, c: Category)
    requires c.Definite()
    ensures Swapped(Swapped(f)) == f
    ensures Swapped(f).Selects(Mirrored(c)) == f.Selects(c)
    ensures RangeOptionOf(Swapped(f)) == RangeOption(f.negative, f.positive, f.zero, f.zero)
  {
  }

  /** What numcore's parse returns for one formula. */
  datatype ParseResult = ParseResult(kind: string, name: Option<string>, ast: Option<Ast>, mode: Option<Mode>,
                                     error: Option<string>, axis: Option<seq<Ast>>)

  /** The result of a code generator: generated code, or the exception it throws. */
  datatype Gen = Code(text: string) | Thrown(message: string)

  /** The operations of numcore this code calls. `wholeRange(code, n)` is
      the category that the range function compiled from `code` reports for
      the whole line (n = 1) or the whole plane (n = 2). */
  datatype Numcore = Numcore(
    variables: Ast -> seq<string>,
    valueCode: (Ast, seq<string>) -> Gen,
    rangeCode: (Ast, seq<string>, RangeOption) -> Gen,
    wholeRange: (string, nat) -> Category,
    numText: real -> string)

  /** The classification of one formula. */
  datatype Parsed =
    | Blank
    | Error(error: string)
    | Definition(kind: string, name: Option<string>)
    | Point(key: string, x: real, y: real)
    | Parametric(key: string, xCode: string, yCode: string)
    | Equation(key: string, calcType: string, valueCode: string, rangeCode: string, fillMode: FillMode, warn: Option<string>)
    | Equation2D(valueCode: string, rangeCode: string, mode: Mode, fillMode: FillMode)

  /** A value, or an exception that escapes the function. */
  datatype Outcome<T> = Done(value: T) | Escaped(message: string)

  /** The three copies of the classification: dist/parser.js, src/parser.ts and src/renderer.ts. */
  datatype Revision = Dist | SrcParser | SrcRenderer

  /** `String(error)`: a missing error prints as "undefined". */
  function ErrorText(e: Option<string>): string
  {
    if e.Some? then e.value else "undefined"
  }

  /** The first element, `undefined` for an empty list. */
  function Head(s: seq<string>): Option<string>
  {
    if s == [] then None else Some(s[0])
  }

  /** A mode-less formula whose variables are all x (or which has none) is read as `y = formula`. */
  function ConvertAst(nc: Numcore, ast: Ast, mode: Option<Mode>): (r: (Ast, Option<Mode>))
    ensures mode.Some? ==> r == (ast, mode)
    ensures mode.None? && (forall v :: v in nc.variables(ast) ==> v == "x") ==>
      r == (Binary("-", Name("y"), ast), Some(Eq))
    ensures r.1.None? <==> mode.None? && exists v :: v in nc.variables(ast) && v != "x"
    ensures r.1.None? ==> r.0 == ast
  {
    if mode.None? && !(exists v :: v in nc.variables(ast) && v != "x") then
      (Binary("-", Name("y"), ast), Some(Eq))
    else
      (ast, mode)
  }

  /** `nanExpressionWarning`: a warning iff the range function is NaN on the whole line. */
  function NanWarning(c: Category): (w: Option<string>)
    ensures w.Some? <==> c == EqNaN
    ensures w.Some? ==> w.value == "Always NaN"
  {
    if c == EqNaN then Some("Always NaN") else None
  }

  /** Whether a fill option accepts a definite category. */
  predicate Accepts(opt: RangeOption, c: Category)
    requires c.Definite()
  {
    match c
    case Positive => opt.pos
    case Negative => opt.neg
    case EqZero => opt.zero
    case Other => false
  }

  /** `constantConditionWarning`, given what the range function reports for the whole domain. */
  function ConstantConditionWarning(opt: RangeOption, c: Category): (w: Option<string>)
    ensures c == EqNaN ==> w == Some("Always NaN")
    ensures c == Other ==> w == Some("Condition always false")
    ensures c.Definite() ==> w == Some(if Accepts(opt, c) then "Condition always true" else "Condition always false")
    ensures c == Both || c == HasGap || c == HasNaN ==>
      && (w.None? <==> (opt.pos || opt.neg || opt.zero) && !(opt.pos && opt.neg && opt.zero))
      && (opt.pos && opt.neg && opt.zero ==> w == Some("Condition always true"))
      && (!opt.pos && !opt.neg && !opt.zero ==> w == Some("Condition always false"))
  {
    if c == EqNaN then Some("Always NaN") else
      var both := c == Both || c == HasGap || c == HasNaN;
      var pos := both || c == Positive;
      var neg := both || c == Negative;
      var zero := both || c == EqZero;
      var other := c == Other;
      var hasTrue := (neg && opt.neg) || (zero && opt.zero) || (pos && opt.pos);
      var hasFalse := other || (neg && !opt.neg) || (zero && !opt.zero) || (pos && !opt.pos);
      if !hasFalse then Some("Condition always true")
      else if !hasTrue then Some("Condition always false")
      else None
  }

  /** An equation `v = other` (or `other = v`) plotted as a function of the other axis. */
  function SideFit(nc: Numcore, rev: Revision, v: string, side: string, other: Ast, mode: Mode, fm: FillMode): (r: Parsed)
    ensures r.Error? || r.Equation?
    ensures r.Equation? ==>
      && r.calcType == (if v == "x" then "fy" else "fx")
      && r.fillMode == fm
      && r.key == v + " " + side + " " + ModeText(mode) + " " + r.valueCode
      && nc.valueCode(other, [if v == "x" then "y" else "x"]) == Code(r.valueCode)
      && r.warn == (if rev.Dist? then NanWarning(nc.wholeRange(r.rangeCode, 1)) else None)
  {
    var axis := if v == "x" then "y" else "x";
    match nc.valueCode(other, [axis])
    case Thrown(m) => Error(m)
    case Code(vc) =>
      match nc.rangeCode(other, [axis], RangeOptionOf(fm))
      case Thrown(m) => Error(m)
      case Code(rc) =>
        Equation(v + " " + side + " " + ModeText(mode) + " " + vc, "f" + axis, vc, rc, fm,
                 if rev.Dist? then NanWarning(nc.wholeRange(rc, 1)) else None)
  }

  /** A top-level difference (or, in src/parser.ts, sum) with a bare variable on one side,
      each side depending on at most one variable and not on the same one. */
  predicate SideShape(nc: Numcore, rev: Revision, ast: Ast)
  {
    && ast.Binary?
    && (ast.op == "-" || (rev.SrcParser? && ast.op == "+"))
    && (ast.left.Name? || ast.right.Name?)
    && |nc.variables(ast.left)| <= 1 && |nc.variables(ast.right)| <= 1
    && Head(nc.variables(ast.left)) != Head(nc.variables(ast.right))
  }

  /** The try block of the classification: sides, then one variable, then both. Exceptions become errors. */
  function Fit(nc: Numcore, rev: Revision, ast: Ast, mode: Mode): (r: Parsed)
    ensures r.Error? || r.Equation?
    ensures r.Equation? ==> r.fillMode == FillModeOf(mode) || r.fillMode == Swapped(FillModeOf(mode))
    ensures r.Equation? ==> r.fillMode.zero == FillModeOf(mode).zero
    ensures SideShape(nc, rev, ast) && ast.left.Name? && r.Equation? ==>
      && r.calcType == (if ast.left.name == "x" then "fy" else "fx")
      && r.fillMode == FillModeOf(mode)
      && r.key == ast.left.name + " " + "left" + " " + ModeText(mode) + " " + r.valueCode
    ensures SideShape(nc, rev, ast) && !ast.left.Name? && r.Equation? ==>
      && r.calcType == (if ast.right.name == "x" then "fy" else "fx")
      && r.fillMode == Swapped(FillModeOf(mode))
      && r.key == ast.right.name + " " + "right" + " " + ModeText(mode) + " " + r.valueCode
    ensures !SideShape(nc, rev, ast) && r.Equation? ==>
      if |nc.variables(ast)| == 1 then
        && r.calcType == nc.variables(ast)[0]
        && r.key == nc.variables(ast)[0] + " " + ModeText(mode) + " " + r.valueCode
      else
        r.calcType == "xy" && r.key == "xy " + ModeText(mode) + " " + r.valueCode
    ensures r.Equation? && rev.Dist? ==>
      r.warn == if SideShape(nc, rev, ast) then NanWarning(nc.wholeRange(r.rangeCode, 1))
                else ConstantConditionWarning(RangeOptionOf(FillModeOf(mode)),
                                              nc.wholeRange(r.rangeCode, if |nc.variables(ast)| == 1 then 1 else 2))
    ensures r.Equation? && !rev.Dist? ==> r.warn.None?
  {
    var fm := FillModeOf(mode);
    if SideShape(nc, rev, ast) then
      if ast.left.Name? then SideFit(nc, rev, ast.left.name, "left", ast.right, mode, fm)
      else SideFit(nc, rev, ast.right.name, "right", ast.left, mode, Swapped(fm))
    else FreeFit(nc, rev, ast, mode)
  }

  /** A formula that is not an equation of sides: plotted over its one variable, or over both. */
  function FreeFit(nc: Numcore, rev: Revision, ast: Ast, mode: Mode): (r: Parsed)
    ensures r.Error? || r.Equation?
    ensures r.Equation? ==> r.fillMode == FillModeOf(mode)
    ensures r.Equation? ==>
      if |nc.variables(ast)| == 1 then
        && r.calcType == nc.variables(ast)[0]
        && r.key == nc.variables(ast)[0] + " " + ModeText(mode) + " " + r.valueCode
      else
        r.calcType == "xy" && r.key == "xy " + ModeText(mode) + " " + r.valueCode
    ensures r.Equation? ==>
      r.warn == if rev.Dist? then ConstantConditionWarning(RangeOptionOf(FillModeOf(mode)),
                                                           nc.wholeRange(r.rangeCode, if |nc.variables(ast)| == 1 then 1 else 2))
                else None
  {
    var fm := FillModeOf(mode);
    var opt := RangeOptionOf(fm);
    var deps := nc.variables(ast);
    if |deps| == 1 then
      var v := deps[0];
      match nc.valueCode(ast, [v])
      case Thrown(m) => Error(m)
      case Code(vc) =>
        match nc.rangeCode(ast, [v], opt)
        case Thrown(m) => Error(m)
        case Code(rc) =>
          Equation(v + " " + ModeText(mode) + " " + vc, v, vc, rc, fm,
                   if rev.Dist? then ConstantConditionWarning(opt, nc.wholeRange(rc, 1)) else None)
    else
      match nc.valueCode(ast, ["x", "y"])
      case Thrown(m) => Error(m)
      case Code(vc) =>
        match nc.rangeCode(ast, ["x", "y"], opt)
        case Thrown(m) => Error(m)
        case Code(rc) =>
          Equation("xy " + ModeText(mode) + " " + vc, "xy", vc, rc, fm,
                   if rev.Dist? then ConstantConditionWarning(opt, nc.wholeRange(rc, 2)) else None)
}

  /** A point formula: constant coordinates, or a curve in the parameter t. */
  function ClassifyPoint(nc: Numcore, p: ParseResult): (r: Outcome<Parsed>)
    ensures p.axis.None? ==> r == Done(Error(ErrorText(p.error)))
    ensures p.axis.Some? && p.error.Some? && p.error.value != "" ==> r == Done(Error(p.error.value))
    ensures r.Done? && r.value.Point? ==>
      p.axis.Some? && |p.axis.value| == 2 && p.axis.value[0] == Number(r.value.x) && p.axis.value[1] == Number(r.value.y)
    ensures r.Done? && r.value.Parametric? ==>
      p.axis.Some? && |p.axis.value| == 2
      && (forall v :: v in nc.variables(p.axis.value[0]) + nc.variables(p.axis.value[1]) ==> v != "x" && v != "y")
      && r.value.key == "point(" + r.value.xCode + "," + r.value.yCode + ")"
    ensures r.Done? ==> r.value.Error? || r.value.Point? || r.value.Parametric?
  {
    if p.axis.None? || (p.error.Some? && p.error.value != "") then Done(Error(ErrorText(p.error)))
    else if |p.axis.value| != 2 then Done(Error("Not 2D point"))
    else
      var xa, ya := p.axis.value[0], p.axis.value[1];
      if xa.Number? && ya.Number? then
        Done(Point("point(" + nc.numText(xa.value) + "," + nc.numText(ya.value) + ")", xa.value, ya.value))
      else
        var deps := nc.variables(xa) + nc.variables(ya);
        if "x" in deps || "y" in deps then Done(Error("Point cannot depend on x or y"))
        else
          match nc.valueCode(xa, ["t"])
          case Thrown(m) => Escaped(m)
          case Code(xc) =>
            match nc.valueCode(ya, ["t"])
            case Thrown(m) => Escaped(m)
            case Code(yc) => Done(Parametric("point(" + xc + "," + yc + ")", xc, yc))
  }

  /** The equation of the oldest copy: always calculated in x and y; a generator exception escapes. */
  function Plane2D(nc: Numcore, ast: Ast, mode: Mode): (r: Outcome<Parsed>)
    ensures r.Done? ==> r.value.Equation2D? && r.value.mode == mode && r.value.fillMode == FillModeOf(mode)
  {
    var fm := FillModeOf(mode);
    match nc.valueCode(ast, ["x", "y"])
    case Thrown(m) => Escaped(m)
    case Code(vc) =>
      match nc.rangeCode(ast, ["x", "y"], RangeOptionOf(fm))
      case Thrown(m) => Escaped(m)
      case Code(rc) => Done(Equation2D(vc, rc, mode, fm))
  }

  /** A missing tree, as each copy tests it (`== null`, or falsy in src/renderer.ts). */
  predicate MissingAst(rev: Revision, ast: Option<Ast>)
  {
    ast.None? || (rev.SrcRenderer? && !Truthy(ast.value))
  }

  /** The classification of one non-blank formula from its parse result. */
  function Classify(nc: Numcore, rev: Revision, p: ParseResult): (r: Outcome<Parsed>)
    ensures r.Done? ==> !r.value.Blank?
    ensures !(rev.Dist? && p.kind == "point") && p.kind != "eq" ==> r == Done(Definition(p.kind, p.name))
    ensures p.kind == "eq" && MissingAst(rev, p.ast) ==> r == Done(Error(ErrorText(p.error)))
    ensures rev.Dist? && p.kind == "eq" && p.ast.Some? && "t" in nc.variables(p.ast.value) ==>
      r == Done(Error("Unknown parameter t"))
    ensures r.Escaped? ==> (rev.Dist? && p.kind == "point") || rev.SrcRenderer?
    ensures r.Done? && (r.value.Equation? || r.value.Equation2D?) ==> p.kind == "eq" && p.ast.Some?
  {
    if rev.Dist? && p.kind == "point" then ClassifyPoint(nc, p)
    else if p.kind != "eq" then Done(Definition(p.kind, p.name))
    else if MissingAst(rev, p.ast) then Done(Error(ErrorText(p.error)))
    else if rev.Dist? && "t" in nc.variables(p.ast.value) then Done(Error("Unknown parameter t"))
    else
      var c := ConvertAst(nc, p.ast.value, p.mode);
      if c.1.None? then Done(Error(if rev.Dist? then "Not an equation" else "not an equation"))
      else if rev.SrcRenderer? then Plane2D(nc, c.0, c.1.value)
      else Done(Fit(nc, rev, c.0, c.1.value))
  }

  /** Whitespace-only formulas are dropped before parsing; the others keep their order. */
  function Present(exps: seq<string>): (r: seq<string>)
    ensures |r| <= |exps|
    ensures forall i :: 0 <= i < |r| ==> !IsBlank(r[i])
  {
    if exps == [] then []
    else
      var last := exps[|exps| - 1];
      Present(exps[..|exps| - 1]) + (if IsBlank(last) then [] else [last])
  }

  /** Present over a longer prefix extends Present over a shorter one. */
  lemma {:induction false} PresentPrefix(exps: seq<string>, i: nat, j: nat)
    requires i <= j <= |exps|
    ensures |Present(exps[..i])| <= |Present(exps[..j])|
    ensures Present(exps[..j])[..|Present(exps[..i])|] == Present(exps[..i])
    decreases j - i
  {
    if i < j {
      PresentPrefix(exps, i, j - 1);
      assert exps[..j][..j - 1] == exps[..j - 1];
    }
  }

  /** The position of formula i among the non-blank ones. */
  function Rank(exps: seq<string>, i: nat): (r: nat)
    requires i < |exps|
    ensures !IsBlank(exps[i]) ==> r < |Present(exps)| && Present(exps)[r] == exps[i]
  {
    PresentPrefix(exps, i + 1, |exps|);
    assert exps[..i + 1][..i] == exps[..i];
    assert exps == exps[..|exps|];
    |Present(exps[..i])|
  }

  /** The compaction of parseFormulas: the index of each formula among the non-blank ones, and the non-blank ones. */
  method CompactIndices(exps: seq<string>) returns (indices: seq<Option<nat>>, present: seq<string>)
    ensures present == Present(exps)
    ensures |indices| == |exps|
    ensures forall i :: 0 <= i < |exps| ==> indices[i] == if IsBlank(exps[i]) then None else Some(Rank(exps, i))
    ensures forall i :: 0 <= i < |exps| && indices[i].Some? ==>
      indices[i].value < |present| && present[indices[i].value] == exps[i]
  {
    indices := [];
    present := [];
    var i := 0;
    while i < |exps|
      invariant 0 <= i <= |exps|
      invariant present == Present(exps[..i])
      invariant |indices| == i
      invariant forall j :: 0 <= j < i ==> indices[j] == if IsBlank(exps[j]) then None else Some(Rank(exps, j))
    {
      assert exps[..i + 1][..i] == exps[..i];
      if IsBlank(exps[i]) {
        indices := indices + [None];
      } else {
        present := present + [exps[i]];
        indices := indices + [Some(|present| - 1)];
      }
      i := i + 1;
    }
    assert exps[..i] == exps;
  }

  /** What parseFormulas makes of formula i: blank when whitespace-only, otherwise the
      classification of its own parse result. */
  function EntryOf(nc: Numcore, rev: Revision, parse: seq<string> -> seq<ParseResult>, exps: seq<string>, i: nat): Outcome<Parsed>
    requires |parse(Present(exps))| == |Present(exps)| && i < |exps|
  {
    if IsBlank(exps[i]) then Done(Blank) else Classify(nc, rev, parse(Present(exps))[Rank(exps, i)])
  }

  /** parseFormulas: one result per formula, in order; whitespace-only ones are blank, the
      others are classified from their own parse result. An exception that is not caught
      per formula ends the whole call. */
  method ParseFormulas(nc: Numcore, rev: Revision, parse: seq<string> -> seq<ParseResult>, exps: seq<string>)
    returns (out: Outcome<seq<Parsed>>)
    requires |parse(Present(exps))| == |Present(exps)|
    ensures out.Done? <==> forall i :: 0 <= i < |exps| ==> EntryOf(nc, rev, parse, exps, i).Done?
    ensures out.Done? ==> |out.value| == |exps|
    ensures out.Done? ==> forall i :: 0 <= i < |exps| ==> out.value[i] == EntryOf(nc, rev, parse, exps, i).value
    ensures out.Escaped? ==> exists i :: 0 <= i < |exps| && !IsBlank(exps[i]) && EntryOf(nc, rev, parse, exps, i) == Escaped(out.message)
  {
    var indices, present := CompactIndices(exps);
    var results := parse(present);
    var res: seq<Parsed> := [];
    for i := 0 to |indices|
      invariant |res| == i
      invariant forall j :: 0 <= j < i ==> EntryOf(nc, rev, parse, exps, j).Done? && res[j] == EntryOf(nc, rev, parse, exps, j).value
    {
      if indices[i].None? {
        res := res + [Blank];
      } else {
        var c := Classify(nc, rev, results[indices[i].value]);
        if c.Escaped? {
          assert EntryOf(nc, rev, parse, exps, i) == c;
          return Escaped(c.message);
        }
        res := res + [c.value];
      }
    }
    out := Done(res);
  }
}
