/**
 * A printer for the first-generation grammar (src/parser.rs) and the
 * proof that the parser reads printed text back: every natural number,
 * name, call and `def name(params):body` the printer emits parses to the
 * expression it came from, and a printed program parses to its items.
 *
 * Names that start with `def` are left out of variables and callees,
 * because `parse_expr` tries `parse_function_def` first and its bare
 * `tag("def")` would start on them.
 */
module OldParserRoundTrip {
  import opened Wrappers
  import opened Text
  import opened OldSyntax
  import opened OldParser
  import Base = BaseParser
  import RT = BaseParserRoundTrip
  import Facts = OldParserFacts

  // ---------------------------------------------------------------------
  // The printer

  /** A name the printer may use for a variable or a callee. */
  predicate OldName(x: string)
  {
    RT.IsName(x) && !StartsWith(x, "def")
  }

  predicate AllNames(ps: seq<string>)
  {
    forall i :: 0 <= i < |ps| ==> RT.IsName(ps[i])
  }

  /** The expressions the printer covers: naturals, names, calls of names, and definitions. */
  predicate Printable(e: Expr)
  {
    match e
    case Primitive(p) => p.Int? && p.i >= 0
    case Variable(x) => OldName(x)
    case FunctionCall(callee, args) =>
      callee.Variable? && OldName(callee.name) && forall i :: 0 <= i < |args| ==> Printable(args[i])
    case FunctionDef(name, params, body) => RT.IsName(name) && AllNames(params) && Printable(body)
  }

  predicate AllPrintable(es: seq<Expr>)
  {
    forall i :: 0 <= i < |es| ==> Printable(es[i])
  }

  function Show(e: Expr): string
    requires Printable(e)
    decreases e, 1
  {
    match e
    case Primitive(p) => NatToString(p.i)
    case Variable(x) => x
    case FunctionCall(callee, args) => callee.name + "(" + ShowArgs(args) + ")"
    case FunctionDef(name, params, body) => "def " + name + "(" + ShowList(params) + "):" + Show(body)
  }

  /** Arguments separated by `,` with no spaces. */
  function ShowArgs(args: seq<Expr>): string
    requires AllPrintable(args)
    decreases args, 1
  {
    if |args| == 0 then "" else Show(args[0]) + ShowRest(args[1..])
  }

  /** Each further argument after a comma. */
  function ShowRest(args: seq<Expr>): string
    requires AllPrintable(args)
    decreases args, 0
  {
    if |args| == 0 then "" else "," + Show(args[0]) + ShowRest(args[1..])
  }

  /** Parameter names separated by `,`. */
  function ShowList(ps: seq<string>): string
  {
    if |ps| == 0 then "" else ps[0] + MoreNames(ps[1..])
  }

  /** Each further parameter name after a comma. */
  function MoreNames(ps: seq<string>): string
  {
    if |ps| == 0 then "" else "," + ps[0] + MoreNames(ps[1..])
  }

  /** Every item followed by one space, the `multispace0` of `terminated`. */
  function ShowProgram(es: seq<Expr>): string
    requires AllPrintable(es)
  {
    if |es| == 0 then "" else Show(es[0]) + " " + ShowProgram(es[1..])
  }

  /**
   * What may follow a printed expression: no identifier character (a name
   * or number would run on) and, after spaces, no `(` (a name would become
   * a call).
   */
  predicate Closes(rest: string)
  {
    RT.EndsName(rest) && !StartsWith(Ms0(rest), "(")
  }

  predicate Starts(t: string)
  {
    |t| > 0 && (IsIdentStart(t[0]) || IsDigit(t[0]))
  }

  // ---------------------------------------------------------------------
  // Text facts, kept apart from the parser facts they feed

  lemma ShowStarts(e: Expr, rest: string)
    requires Printable(e)
    ensures Starts(Show(e) + rest)
  {
    match e {
      case Primitive(p) =>
        assert (Show(e) + rest)[0] == Show(e)[0];
      case Variable(x) =>
        assert (Show(e) + rest)[0] == x[0];
      case FunctionCall(callee, args) =>
        assert (Show(e) + rest)[0] == callee.name[0];
      case FunctionDef(name, params, body) =>
        assert (Show(e) + rest)[0] == 'd';
    }
  }

  lemma Ms0Start(t: string)
    requires Starts(t)
    ensures Ms0(t) == t
  {
    Facts.Ms0Stops(t);
  }

  lemma Ms0Space(t: string)
    ensures Ms0(" " + t) == Ms0(t)
  {
    var s := " " + t;
    assert s[1..] == t;
    assert Span(s, IsMultispace) == 1 + Span(t, IsMultispace);
    assert s[1 + Span(t, IsMultispace)..] == t[Span(t, IsMultispace)..];
  }

  lemma ClosesAtPunct(c: string)
    requires |c| > 0 && (c[0] == ',' || c[0] == ')')
    ensures Closes(c) && Ms0(c) == c
  {
    Facts.Ms0Stops(c);
    assert !IsIdentChar(c[0]);
    assert !StartsWith(c, "(") by {
      assert c[..1][0] == c[0];
    }
  }

  lemma TagOf(c: char, v: string)
    ensures Base.Tag([c] + v, [c]) == Some(v)
  {
    assert ([c] + v)[..1] == [c];
  }

  lemma TagNotAt(s: string, c: char)
    requires |s| == 0 || s[0] != c
    ensures Base.Tag(s, [c]).None?
  {
    if |s| > 0 {
      assert s[..1][0] == s[0];
    }
  }

  lemma EmptyArgsText(args: seq<Expr>, c: string)
    requires |args| == 0
    ensures ShowArgs(args) + c == c
  {
  }

  lemma ArgsSplit(args: seq<Expr>, c: string)
    requires AllPrintable(args) && |args| > 0
    ensures ShowArgs(args) + c == Show(args[0]) + (ShowRest(args[1..]) + c)
  {
  }

  lemma RestSplit(args: seq<Expr>, c: string)
    requires AllPrintable(args) && |args| > 0
    ensures ShowRest(args) + c == [','] + (Show(args[0]) + (ShowRest(args[1..]) + c))
  {
  }

  lemma EmptyRestText(args: seq<Expr>, c: string)
    requires AllPrintable(args) && |args| == 0
    ensures ShowRest(args) + c == c
  {
  }

  /** After an argument comes a comma or the `)`. */
  lemma RestStarts(args: seq<Expr>, c: string)
    requires |c| > 0 && c[0] == ')' && AllPrintable(args)
    ensures |ShowRest(args) + c| > 0 && ((ShowRest(args) + c)[0] == ',' || (ShowRest(args) + c)[0] == ')')
  {
    if |args| == 0 {
      EmptyRestText(args, c);
    } else {
      RestSplit(args, c);
    }
  }

  lemma ArgsStart(args: seq<Expr>, c: string)
    requires |c| > 0 && c[0] == ')' && AllPrintable(args)
    ensures Ms0(ShowArgs(args) + c) == ShowArgs(args) + c
  {
    if |args| == 0 {
      EmptyArgsText(args, c);
      Facts.Ms0Stops(c);
    } else {
      ArgsSplit(args, c);
      ShowStarts(args[0], ShowRest(args[1..]) + c);
      Ms0Start(ShowArgs(args) + c);
    }
  }

  lemma EmptyParamsText(ps: seq<string>, c: string)
    requires |ps| == 0
    ensures ShowList(ps) + c == c
  {
  }

  lemma ParamsSplit(ps: seq<string>, c: string)
    requires |ps| > 0
    ensures ShowList(ps) + c == ps[0] + (MoreNames(ps[1..]) + c)
  {
  }

  lemma MoreNamesSplit(ps: seq<string>, c: string)
    requires |ps| > 0
    ensures MoreNames(ps) + c == [','] + (ps[0] + (MoreNames(ps[1..]) + c))
  {
  }

  lemma EmptyNamesText(ps: seq<string>, c: string)
    requires |ps| == 0
    ensures MoreNames(ps) + c == c
  {
  }

  /** After a parameter name comes a comma or the `)`. */
  lemma MoreNamesEnds(ps: seq<string>, c: string)
    requires |c| > 0 && c[0] == ')'
    ensures RT.EndsName(MoreNames(ps) + c)
  {
    if |ps| == 0 {
      EmptyNamesText(ps, c);
    } else {
      MoreNamesSplit(ps, c);
    }
  }

  lemma NameStarts(x: string, rest: string)
    requires RT.IsName(x)
    ensures Starts(x + rest)
  {
    assert (x + rest)[0] == x[0];
  }

  lemma CallText(f: string, args: seq<Expr>, rest: string)
    requires AllPrintable(args)
    ensures f + "(" + ShowArgs(args) + ")" + rest == f + ([ '(' ] + (ShowArgs(args) + ([ ')' ] + rest)))
  {
  }

  lemma ShowCallText(f: string, args: seq<Expr>, rest: string)
    requires OldName(f) && AllPrintable(args)
    ensures Show(FunctionCall(Variable(f), args)) + rest == f + "(" + ShowArgs(args) + ")" + rest
  {
  }

  lemma ShowDefText(name: string, params: seq<string>, body: Expr, rest: string)
    requires RT.IsName(name) && AllNames(params) && Printable(body)
    ensures Show(FunctionDef(name, params, body)) + rest == "def " + name + "(" + ShowList(params) + "):" + Show(body) + rest
    ensures ("def " + name + "(" + ShowList(params) + "):" + Show(body) + rest)[0] == 'd'
  {
  }

  lemma DefText(name: string, params: seq<string>, body: Expr, rest: string)
    requires Printable(body)
    ensures "def " + name + "(" + ShowList(params) + "):" + Show(body) + rest ==
      "def" + ([' '] + (name + (['('] + (ShowList(params) + ([')'] + ([':'] + (Show(body) + rest)))))))
  {
  }

  lemma ProgramText(es: seq<Expr>, g: string)
    requires AllPrintable(es) && |es| > 0
    ensures ShowProgram(es) + g == Show(es[0]) + (" " + (ShowProgram(es[1..]) + g))
  {
    SpaceJoin(Show(es[0]), ShowProgram(es[1..]), g);
  }

  lemma SpaceJoin(a: string, b: string, g: string)
    ensures a + " " + b + g == a + (" " + (b + g))
  {
  }

  lemma EmptyProgramText(es: seq<Expr>, g: string)
    requires AllPrintable(es) && |es| == 0
    ensures ShowProgram(es) + g == g
  {
  }

  /** A space before printed text: `multispace0` takes it, and no name runs on or becomes a call. */
  lemma SpaceBefore(y: string)
    requires (Starts(y) || (Ms0(y) == y && !StartsWith(y, "(")))
    ensures Closes(" " + y) && Ms0(" " + y) == y
  {
    Ms0Space(y);
    if Starts(y) {
      Ms0Start(y);
      TagNotAt(y, '(');
    }
  }

  /** What follows an item, after its one space, starts the next item or is the given tail. */
  lemma AfterItem(es: seq<Expr>, g: string)
    requires AllPrintable(es) && Ms0(g) == g && !StartsWith(g, "(")
    ensures Closes(" " + (ShowProgram(es) + g))
    ensures Ms0(" " + (ShowProgram(es) + g)) == ShowProgram(es) + g
  {
    if |es| == 0 {
      EmptyProgramText(es, g);
    } else {
      ProgramText(es, g);
      ShowStarts(es[0], " " + (ShowProgram(es[1..]) + g));
    }
    SpaceBefore(ShowProgram(es) + g);
  }

  // ---------------------------------------------------------------------
  // One step of each parser, over abstract text

  lemma VariableOf(x: string, rest: string)
    requires RT.IsName(x) && RT.EndsName(rest)
    ensures ParseVariable(x + rest) == Some((x, rest))
  {
    RT.NameRoundTrip(x, rest);
  }

  lemma NotInt(s: string)
    requires Starts(s) && !IsDigit(s[0])
    ensures ParseInt(s).None?
  {
  }

  lemma DefNone(s: string)
    requires !StartsWith(s, "def")
    ensures ParseFunctionDef(s).None?
  {
  }

  lemma NameNotDef(x: string, rest: string)
    requires OldName(x) && RT.EndsName(rest)
    ensures !StartsWith(x + rest, "def")
  {
    RT.KeywordsAreWords("def");
    RT.KeywordNotPrefix(x, rest, "def");
  }

  lemma CallNone(s: string, f: string, t: string)
    requires ParseVariable(s) == Some((f, t)) && Base.Tag(Ms0(t), "(").None?
    ensures ParseFunctionCall(s).None?
  {
  }

  lemma ExprOfInt(s: string, e: Expr, rest: string)
    requires ParseInt(s) == Some((e, rest))
    ensures ParseExpr(s) == Some((e, rest))
  {
  }

  lemma ExprOfDef(s: string, e: Expr, rest: string)
    requires ParseInt(s).None? && ParseFunctionDef(s) == Some((e, rest))
    ensures ParseExpr(s) == Some((e, rest))
  {
  }

  lemma ExprOfCall(s: string, e: Expr, rest: string)
    requires ParseInt(s).None? && ParseFunctionDef(s).None? && ParseFunctionCall(s) == Some((e, rest))
    ensures ParseExpr(s) == Some((e, rest))
  {
  }

  lemma ExprOfVariable(s: string, x: string, rest: string)
    requires ParseInt(s).None? && ParseFunctionDef(s).None? && ParseFunctionCall(s).None?
    requires ParseVariable(s) == Some((x, rest))
    ensures ParseExpr(s) == Some((Variable(x), rest))
  {
  }

  lemma ExprNone(s: string)
    requires |s| > 0 && !IsDigit(s[0]) && !IsIdentStart(s[0])
    ensures ParseExpr(s).None?
  {
  }

  lemma ArgListOf(s: string, a: Expr, t: string, es: seq<Expr>, u: string)
    requires ParseExpr(Ms0(s)) == Some((a, t)) && ArgTail(t) == (es, u)
    ensures ArgList(s) == ([a] + es, u)
  {
  }

  lemma ArgListNone(s: string)
    requires ParseExpr(Ms0(s)).None?
    ensures ArgList(s) == ([], s)
  {
  }

  lemma ArgTailOf(s: string, t: string, a: Expr, w: string, es: seq<Expr>, u: string)
    requires Base.Tag(s, ",") == Some(t) && ParseExpr(Ms0(t)) == Some((a, w)) && ArgTail(w) == (es, u)
    ensures ArgTail(s) == ([a] + es, u)
  {
  }

  lemma ParamListOf(s: string, p: string, t: string, ps: seq<string>, u: string)
    requires ParseVariable(Ms0(s)) == Some((p, t)) && ParamTail(t) == (ps, u)
    ensures ParamList(s) == ([p] + ps, u)
  {
  }

  lemma ParamTailOf(s: string, t: string, p: string, w: string, ps: seq<string>, u: string)
    requires Base.Tag(s, ",") == Some(t) && ParseVariable(Ms0(t)) == Some((p, w)) && ParamTail(w) == (ps, u)
    ensures ParamTail(s) == ([p] + ps, u)
  {
  }

  lemma DefOf(s: string, t: string, name: string, u: string, v: string, params: seq<string>,
              w: string, x: string, y: string, body: Expr, z: string)
    requires Base.Tag(s, "def") == Some(t) && ParseVariable(Ms0(t)) == Some((name, u))
    requires Base.Tag(Ms0(u), "(") == Some(v) && ParamList(v) == (params, w)
    requires Base.Tag(w, ")") == Some(x) && Base.Tag(Ms0(x), ":") == Some(y)
    requires ParseExpr(Ms0(y)) == Some((body, z))
    ensures ParseFunctionDef(s) == Some((FunctionDef(name, params, body), z))
  {
  }

  lemma ProgramOf(s: string, e: Expr, t: string, es: seq<Expr>, u: string)
    requires ParseExpr(s) == Some((e, t)) && ParseProgram(Ms0(t)) == (es, u)
    ensures ParseProgram(s) == ([e] + es, u)
  {
  }

  lemma ProgramNone(s: string)
    requires ParseExpr(s).None?
    ensures ParseProgram(s) == ([], s)
  {
  }

  // ---------------------------------------------------------------------
  // Names and numbers

  /** A printed name, not followed by more of a name or by a `(`, is a variable. */
  lemma VariableRoundTrip(x: string, rest: string)
    requires OldName(x) && Closes(rest)
    ensures ParseExpr(x + rest) == Some((Variable(x), rest))
  {
    var s := x + rest;
    VariableOf(x, rest);
    NameStarts(x, rest);
    NotInt(s);
    NameNotDef(x, rest);
    DefNone(s);
    CallNone(s, x, rest);
    ExprOfVariable(s, x, rest);
  }

  /** A printed natural number, not followed by a digit, is an integer. */
  lemma NatRoundTrip(n: nat, rest: string)
    requires RT.EndsName(rest)
    ensures ParseExpr(NatToString(n) + rest) == Some((Expr.Primitive(Int(n)), rest))
  {
    Facts.IntRoundTrip(n, rest);
    ExprOfInt(NatToString(n) + rest, Expr.Primitive(Int(n)), rest);
  }

  // ---------------------------------------------------------------------
  // Expressions, calls and definitions, by mutual induction

  /** `parse_expr` reads every printed expression back. */
  lemma {:induction false} ExprRoundTrip(e: Expr, rest: string)
    requires Printable(e) && Closes(rest)
    ensures ParseExpr(Show(e) + rest) == Some((e, rest))
    decreases e, 2
  {
    match e {
      case Primitive(p) =>
        NatRoundTrip(p.i, rest);
      case Variable(x) =>
        VariableRoundTrip(x, rest);
      case FunctionCall(callee, args) =>
        var t := ['('] + (ShowArgs(args) + ([')'] + rest));
        CallRoundTrip(callee.name, args, rest);
        CallText(callee.name, args, rest);
        ShowCallText(callee.name, args, rest);
        CallStep(callee.name, t, e, rest);
      case FunctionDef(name, params, body) =>
        DefRoundTrip(name, params, body, rest);
        DefStep(name, params, body, rest);
    }
  }

  lemma CallStep(f: string, t: string, e: Expr, rest: string)
    requires OldName(f) && |t| > 0 && t[0] == '('
    requires ParseFunctionCall(f + t) == Some((e, rest))
    ensures ParseExpr(f + t) == Some((e, rest))
  {
    var s := f + t;
    assert ParseInt(s).None? by {
      NameStarts(f, t);
      assert s[0] == f[0];
      NotInt(s);
    }
    assert ParseFunctionDef(s).None? by {
      NameNotDef(f, t);
      DefNone(s);
    }
    ExprOfCall(s, e, rest);
  }

  lemma DefStep(name: string, params: seq<string>, body: Expr, rest: string)
    requires RT.IsName(name) && AllNames(params) && Printable(body)
    requires ParseFunctionDef("def " + name + "(" + ShowList(params) + "):" + Show(body) + rest) ==
      Some((FunctionDef(name, params, body), rest))
    ensures ParseExpr(Show(FunctionDef(name, params, body)) + rest) == Some((FunctionDef(name, params, body), rest))
  {
    var s := "def " + name + "(" + ShowList(params) + "):" + Show(body) + rest;
    ShowDefText(name, params, body, rest);
    ExprOfDef(s, FunctionDef(name, params, body), rest);
  }

  /** `parse_function_call` reads a printed call back, whatever follows it. */
  lemma {:induction false} CallRoundTrip(f: string, args: seq<Expr>, rest: string)
    requires RT.IsName(f) && AllPrintable(args)
    ensures ParseFunctionCall(f + "(" + ShowArgs(args) + ")" + rest) == Some((FunctionCall(Variable(f), args), rest))
    decreases args, 3
  {
    var c := [')'] + rest;
    var v := ShowArgs(args) + c;
    var t := ['('] + v;
    CallText(f, args, rest);
    VariableOf(f, t);
    Facts.Ms0Stops(t);
    TagOf('(', v);
    ArgsRoundTrip(args, c);
    TagOf(')', rest);
    Facts.CallOf(f + t, f, t, v, args, c, rest);
  }

  /** `separated_list0` reads printed arguments back and stops at the `)`. */
  lemma {:induction false} ArgsRoundTrip(args: seq<Expr>, c: string)
    requires AllPrintable(args) && |c| > 0 && c[0] == ')'
    ensures ArgList(ShowArgs(args) + c) == (args, c)
    decreases args, 2
  {
    if |args| == 0 {
      EmptyArgsText(args, c);
      ClosesAtPunct(c);
      ExprNone(c);
      ArgListNone(c);
    } else {
      var s := ShowArgs(args) + c;
      var w := ShowRest(args[1..]) + c;
      ArgsSplit(args, c);
      ArgsStart(args, c);
      RestStarts(args[1..], c);
      ClosesAtPunct(w);
      ExprRoundTrip(args[0], w);
      ArgTailRoundTrip(args[1..], c);
      ArgListOf(s, args[0], w, args[1..], c);
      RT.Recompose(args);
    }
  }

  /** The loop over `, argument` pairs reads the remaining arguments back. */
  lemma {:induction false} ArgTailRoundTrip(args: seq<Expr>, c: string)
    requires AllPrintable(args) && |c| > 0 && c[0] == ')'
    ensures ArgTail(ShowRest(args) + c) == (args, c)
    decreases args, 0
  {
    if |args| == 0 {
      EmptyRestText(args, c);
      TagNotAt(c, ',');
      Facts.ArgTailStops(c);
    } else {
      var w := ShowRest(args[1..]) + c;
      var v := Show(args[0]) + w;
      RestSplit(args, c);
      TagOf(',', v);
      ShowStarts(args[0], w);
      Ms0Start(v);
      RestStarts(args[1..], c);
      ClosesAtPunct(w);
      ExprRoundTrip(args[0], w);
      ArgTailRoundTrip(args[1..], c);
      ArgTailOf(ShowRest(args) + c, v, args[0], w, args[1..], c);
      RT.Recompose(args);
    }
  }

  /** `parse_function_def` reads a printed definition back. */
  lemma {:induction false} DefRoundTrip(name: string, params: seq<string>, body: Expr, rest: string)
    requires RT.IsName(name) && AllNames(params) && Printable(body) && Closes(rest)
    ensures ParseFunctionDef("def " + name + "(" + ShowList(params) + "):" + Show(body) + rest) ==
      Some((FunctionDef(name, params, body), rest))
    decreases FunctionDef(name, params, body), 0
  {
    var y := Show(body) + rest;
    var x := [':'] + y;
    var w := [')'] + x;
    var v := ShowList(params) + w;
    var u := ['('] + v;
    var t1 := name + u;
    var t := [' '] + t1;
    var s := "def" + t;
    DefText(name, params, body, rest);
    RT.DefWord(t);
    NameStarts(name, u);
    Ms0Space(t1);
    Ms0Start(t1);
    VariableOf(name, u);
    Facts.Ms0Stops(u);
    TagOf('(', v);
    ParamsRoundTrip(params, w);
    TagOf(')', x);
    Facts.Ms0Stops(x);
    TagOf(':', y);
    ShowStarts(body, rest);
    Ms0Start(y);
    ExprRoundTrip(body, rest);
    DefOf(s, t, name, u, v, params, w, x, y, body, rest);
  }

  /** `separated_list0(tag(","), preceded(multispace0, parse_variable))` reads printed names back. */
  lemma ParamsRoundTrip(ps: seq<string>, c: string)
    requires AllNames(ps) && |c| > 0 && c[0] == ')'
    ensures ParamList(ShowList(ps) + c) == (ps, c)
  {
    if |ps| == 0 {
      EmptyParamsText(ps, c);
      Facts.Ms0Stops(c);
    } else {
      var s := ShowList(ps) + c;
      var w := MoreNames(ps[1..]) + c;
      ParamsSplit(ps, c);
      NameStarts(ps[0], w);
      Ms0Start(s);
      MoreNamesEnds(ps[1..], c);
      VariableOf(ps[0], w);
      ParamTailRoundTrip(ps[1..], c);
      ParamListOf(s, ps[0], w, ps[1..], c);
      RT.Recompose(ps);
    }
  }

  /** The loop over `, name` pairs reads the remaining names back. */
  lemma {:induction false} ParamTailRoundTrip(ps: seq<string>, c: string)
    requires AllNames(ps) && |c| > 0 && c[0] == ')'
    ensures ParamTail(MoreNames(ps) + c) == (ps, c)
  {
    if |ps| == 0 {
      EmptyNamesText(ps, c);
      TagNotAt(c, ',');
    } else {
      var w := MoreNames(ps[1..]) + c;
      var v := ps[0] + w;
      MoreNamesSplit(ps, c);
      TagOf(',', v);
      NameStarts(ps[0], w);
      Ms0Start(v);
      MoreNamesEnds(ps[1..], c);
      VariableOf(ps[0], w);
      ParamTailRoundTrip(ps[1..], c);
      ParamTailOf(MoreNames(ps) + c, v, ps[0], w, ps[1..], c);
      RT.Recompose(ps);
    }
  }

  // ---------------------------------------------------------------------
  // Programs

  /**
   * `many0(terminated(parse_expr, multispace0))` reads every printed item
   * back and stops at the first text where no expression starts, which it
   * leaves unread.
   */
  lemma {:induction false} ProgramRoundTrip(es: seq<Expr>, g: string)
    requires AllPrintable(es) && Ms0(g) == g && !StartsWith(g, "(") && ParseExpr(g).None?
    ensures ParseProgram(ShowProgram(es) + g) == (es, g)
  {
    if |es| == 0 {
      EmptyProgramText(es, g);
      ProgramNone(g);
    } else {
      var y := ShowProgram(es[1..]) + g;
      var t := " " + y;
      ProgramText(es, g);
      AfterItem(es[1..], g);
      ExprRoundTrip(es[0], t);
      ProgramRoundTrip(es[1..], g);
      ProgramOf(Show(es[0]) + t, es[0], t, es[1..], g);
      RT.Recompose(es);
    }
  }

  /** A printed program is read back whole. */
  lemma PrintedProgram(es: seq<Expr>)
    requires AllPrintable(es)
    ensures ParseProgram(ShowProgram(es)) == (es, "")
  {
    Facts.Ms0Stops("");
    ProgramRoundTrip(es, "");
    RT.EmptyTail(ShowProgram(es));
  }

  /**
   * Text after the items that starts no expression, such as a stray `)`,
   * is not an error: `parse_program` returns the items and leaves it.
   */
  lemma TrailingTextLeft(es: seq<Expr>, g: string)
    requires AllPrintable(es) && |g| > 0 && (g[0] == ')' || g[0] == ',')
    ensures ParseProgram(ShowProgram(es) + g) == (es, g)
  {
    ClosesAtPunct(g);
    TagNotAt(g, '(');
    ExprNone(g);
    ProgramRoundTrip(es, g);
  }
}
