/** The oldest formula reader: one formula at a time, always drawn on the
    x-y plane, where anything it cannot draw is an exception. numcore's
    parser is a parameter: `parseOne(exp)` parses a formula alone and
    `parseWith(exp, def)` parses `def` with the definition `exp` in scope
    (the second result of `parse([exp, def])`). The regular expression that
    splits `name(arg)` is the parameter `matchCall`. */
module Panel {
  import opened Common
  import opened Parser

  /** `s.split(c)[0]`: the text before the first c, or all of s. */
  function BeforeFirst(s: string, c: char): (r: string)
    ensures |r| <= |s| && r == s[..|r|]
    ensures c !in r
    ensures |r| < |s| ==> s[|r|] == c
  {
    if s == [] || s[0] == c then [] else [s[0]] + BeforeFirst(s[1..], c)
  }

  /** `[...new Set(s)]`: the elements of s, each once, in order of first occurrence. */
  function Dedup(s: seq<string>): (r: seq<string>)
    ensures forall x :: x in r <==> x in s
    ensures forall i, j :: 0 <= i < j < |r| ==> r[i] != r[j]
    ensures |r| <= |s|
  {
    if s == [] then []
    else
      var d := Dedup(s[..|s| - 1]);
      assert forall x :: x in s <==> x in s[..|s| - 1] || x == s[|s| - 1] by {
        assert s == s[..|s| - 1] + [s[|s| - 1]];
      }
      if s[|s| - 1] in d then d else d + [s[|s| - 1]]
  }

  /** Deduplicating keeps the first element first. */
  lemma {:induction false} DedupHead(s: seq<string>)
    requires s != []
    ensures Dedup(s) != [] && Dedup(s)[0] == s[0]
  {
    if |s| > 1 {
      DedupHead(s[..|s| - 1]);
    }
  }

  /** A list with a head has at least two distinct elements exactly when some element differs from the head. */
  lemma DedupTwo(a: string, vs: seq<string>)
    ensures |Dedup([a] + vs)| >= 2 <==> exists v :: v in vs && v != a
  {
    var s := [a] + vs;
    var d := Dedup(s);
    DedupHead(s);
    if |d| >= 2 {
      assert d[1] in s && d[1] != a;
    }
    if v :| v in vs && v != a {
      assert v in d && a in d;
    }
  }

  /** The tree `arg - ast`, read as the equation `arg = ast`. */
  function Equals(ast: Ast, arg: string): Ast
  {
    Binary("-", Name(arg), ast)
  }

  /** The end of parseExpression: an equation and its mode, reading a mode-less
      formula as `y = formula` or `x = formula` when that is the only way to draw it. */
  function Equate(nc: Numcore, p: ParseResult): (r: Outcome<(Ast, Mode)>)
    ensures p.error.Some? || p.ast.None? ==> r == Escaped(ErrorText(p.error))
    ensures p.error.None? && p.ast.Some? && p.kind != "eq" ==> r == Escaped("not an equation")
    ensures r.Done? ==> p.error.None? && p.ast.Some? && p.kind == "eq"
    ensures r.Done? && p.mode.Some? ==> r.value == (p.ast.value, p.mode.value)
    ensures p.error.None? && p.ast.Some? && p.kind == "eq" && p.mode.Some? ==> r.Done?
    ensures r.Done? && p.mode.None? ==> r.value.1 == Eq && |nc.variables(p.ast.value)| <= 1
    ensures p.ast.Some? && p.mode.None? && |nc.variables(p.ast.value)| >= 2 ==> r.Escaped?
    ensures p.error.None? && p.ast.Some? && p.kind == "eq" && p.mode.None? ==>
      var vs := nc.variables(p.ast.value);
      && (vs == [] || vs == ["x"] ==> r == Done((Equals(p.ast.value, "y"), Eq)))
      && (vs == ["y"] ==> r == Done((Equals(p.ast.value, "x"), Eq)))
      && (|vs| == 1 && vs[0] != "x" && vs[0] != "y" ==> r == Escaped("not an equation"))
  {
    if p.error.Some? || p.ast.None? then Escaped(ErrorText(p.error))
    else if p.kind != "eq" then Escaped("not an equation")
    else
      var ast := p.ast.value;
      var args := nc.variables(ast);
      if p.mode.Some? then Done((ast, p.mode.value))
      else if |args| >= 2 then Escaped("not an equation")
      else if |args| == 0 || args[0] == "x" then Done((Equals(ast, "y"), Eq))
      else if args[0] == "y" then Done((Equals(ast, "x"), Eq))
      else Escaped("not an equation")
  }

  /** The call that plots the one-parameter function `name`: `x = name(y)` for a
      parameter called y, `y = name(x)` for any other. */
  function PlotCall(name: string, arg: string): (d: string)
    ensures arg == "y" ==> d == "x=" + name + "(y)"
    ensures arg != "y" ==> d == "y=" + name + "(x)"
  {
    var v := if arg == "y" then "y" else "x";
    var axis := if arg == "y" then "x" else "y";
    axis + "=" + name + "(" + v + ")"
  }

  /** parseExpression: a variable definition is drawn as the variable itself, a
      one-parameter function definition as its plot, and then the result must be
      an equation. */
  function ParseExpression(nc: Numcore, parseOne: string -> ParseResult, parseWith: (string, string) -> ParseResult,
                           matchCall: string -> Option<(string, string)>, exp: string): (r: Outcome<(Ast, Mode)>)
    ensures parseOne(exp).kind != "var" && !(parseOne(exp).kind == "func" && parseOne(exp).ast.Some? && Truthy(parseOne(exp).ast.value)) ==>
      r == Equate(nc, parseOne(exp))
    ensures parseOne(exp).kind == "var" ==>
      var name := BeforeFirst(exp, '=');
      var p := parseWith(exp, name);
      r == if p.ast.Some? && |nc.variables(p.ast.value)| == 2 then Escaped("cannot render " + name) else Equate(nc, p)
    ensures parseOne(exp).kind == "func" && parseOne(exp).ast.Some? && Truthy(parseOne(exp).ast.value) ==>
      var funcPart := BeforeFirst(exp, '=');
      match matchCall(funcPart)
      case None => r == Escaped("cannot render " + funcPart)
      case Some((name, arg)) =>
        if exists v :: v in nc.variables(parseOne(exp).ast.value) && v != arg then r == Escaped("cannot render " + funcPart)
        else r == Equate(nc, parseWith(exp, PlotCall(name, arg)))
  {
    var parsed := parseOne(exp);
    if parsed.kind == "var" then
      var name := BeforeFirst(exp, '=');
      var p := parseWith(exp, name);
      if p.ast.Some? && |nc.variables(p.ast.value)| == 2 then Escaped("cannot render " + name)
      else Equate(nc, p)
    else if parsed.kind == "func" && parsed.ast.Some? && Truthy(parsed.ast.value) then
      var funcPart := BeforeFirst(exp, '=');
      var cannotRender := "cannot render " + funcPart;
      match matchCall(funcPart)
      case None => Escaped(cannotRender)
      case Some((name, arg)) =>
        var deps := Dedup([arg] + nc.variables(parsed.ast.value));
        DedupTwo(arg, nc.variables(parsed.ast.value));
        DedupHead([arg] + nc.variables(parsed.ast.value));
        if |deps| >= 2 then Escaped(cannotRender)
        else
          var funcCall := name + "(" + (if deps[0] == "y" then "y" else "x") + ")";
          var axis := if deps[0] == "y" then "x" else "y";
          assert axis + "=" + funcCall == PlotCall(name, arg);
          Equate(nc, parseWith(exp, axis + "=" + funcCall))
    else Equate(nc, parsed)
  }

  /** What parseFormula hands to the renderer: the two generated functions (as code) and the fill mode. */
  datatype Formula = Formula(valueCode: string, rangeCode: string, fillMode: FillMode)

  /** parseFormula: the equation of parseExpression compiled in x and y, filled on the
      signs its comparison names. */
  function ParseFormula(nc: Numcore, parseOne: string -> ParseResult, parseWith: (string, string) -> ParseResult,
                        matchCall: string -> Option<(string, string)>, exp: string): (r: Outcome<Formula>)
    ensures ParseExpression(nc, parseOne, parseWith, matchCall, exp).Escaped? ==>
      r == Escaped(ParseExpression(nc, parseOne, parseWith, matchCall, exp).message)
    ensures r.Done? ==>
      var e := ParseExpression(nc, parseOne, parseWith, matchCall, exp);
      && e.Done?
      && r.value.fillMode == FillModeOf(e.value.1)
      && nc.valueCode(e.value.0, ["x", "y"]) == Code(r.value.valueCode)
      && nc.rangeCode(e.value.0, ["x", "y"], RangeOptionOf(FillModeOf(e.value.1))) == Code(r.value.rangeCode)
  {
    match ParseExpression(nc, parseOne, parseWith, matchCall, exp)
    case Escaped(m) => Escaped(m)
    case Done((ast, mode)) =>
      var fm := FillModeOf(mode);
      match nc.valueCode(ast, ["x", "y"])
      case Thrown(m) => Escaped(m)
      case Code(vc) =>
        match nc.rangeCode(ast, ["x", "y"], RangeOptionOf(fm))
        case Thrown(m) => Escaped(m)
        case Code(rc) => Done(Formula(vc, rc, fm))
  }

  /** Where the newer reader (dist/parser.js's convertAST) also turns a mode-less
      formula into an equation, this one builds the same equation. */
  lemma EquateAgreesWithConvert(nc: Numcore, p: ParseResult)
    requires p.error.None? && p.ast.Some? && p.kind == "eq"
    requires p.mode.Some? || |nc.variables(p.ast.value)| <= 1
    requires ConvertAst(nc, p.ast.value, p.mode).1.Some?
    ensures Equate(nc, p) == Done((ConvertAst(nc, p.ast.value, p.mode).0, ConvertAst(nc, p.ast.value, p.mode).1.value))
  {
    var vs := nc.variables(p.ast.value);
    if p.mode.None? && vs != [] {
      assert vs[0] in vs;
      assert vs == [vs[0]];
    }
  }
}
