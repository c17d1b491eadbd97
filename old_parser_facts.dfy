/** Properties of the first-generation parser (src/parser.rs). */
module OldParserFacts {
  import opened Wrappers
  import opened Text
  import opened OldSyntax
  import opened OldParser
  import Base = BaseParser
  import BaseFacts = BaseParserFacts

  /** Leading whitespace is not skipped: the program is empty and nothing is read. */
  lemma LeadingWhitespace(s: string)
    requires |s| > 0 && IsMultispace(s[0])
    ensures ParseProgram(s) == ([], s)
  {
  }

  /** `parse_int` reads back the decimal rendering of any natural number. */
  lemma IntRoundTrip(n: nat, rest: string)
    requires |rest| == 0 || !IsDigit(rest[0])
    ensures ParseInt(NatToString(n) + rest) == Some((Expr.Primitive(Int(n)), rest))
  {
    var d := NatToString(n);
    SpanPrefix(d, rest, IsDigit);
    assert (d + rest)[..|d|] == d;
    assert (d + rest)[|d|..] == rest;
    DecimalOfNatToString(n);
  }

  /** There is no sign: `-1` is not an integer. */
  lemma NoNegativeInt(rest: string)
    ensures ParseInt("-" + rest).None? && ParseExpr("-" + rest).None?
  {
  }

  /** A one-letter name followed by a non-identifier character. */
  lemma VariableOne(c: char, rest: string)
    requires IsIdentStart(c)
    requires |rest| == 0 || !IsIdentChar(rest[0])
    ensures ParseVariable([c] + rest) == Some(([c], rest))
  {
    var s := [c] + rest;
    assert s[1..] == rest;
    assert s[..1] == [c];
  }

  lemma VariableX(rest: string)
    requires |rest| == 0 || !IsIdentChar(rest[0])
    ensures ParseVariable("x" + rest) == Some(("x", rest))
  {
    VariableOne('x', rest);
  }

  /** `x` not followed by an identifier character or, after spaces, a `(`, is a variable. */
  lemma ExprX(rest: string)
    requires |rest| == 0 || !IsIdentChar(rest[0])
    requires Base.Tag(Ms0(rest), "(").None?
    ensures ParseExpr("x" + rest) == Some((Variable("x"), rest))
  {
    VariableX(rest);
    assert ParseFunctionCall("x" + rest).None?;
  }

  /** `multispace0` leaves input that does not start with whitespace alone. */
  lemma Ms0Stops(s: string)
    requires |s| == 0 || !IsMultispace(s[0])
    ensures Ms0(s) == s
  {
  }

  /** The list tail is empty when no comma follows. */
  lemma ArgTailStops(t: string)
    requires Base.Tag(t, ",").None?
    ensures ArgTail(t) == ([], t)
  {
  }

  /** One argument and no comma after it: a one-element list. */
  lemma ArgListOne(s: string, a: Expr, t: string)
    requires ParseExpr(Ms0(s)) == Some((a, t))
    requires Base.Tag(t, ",").None?
    ensures ArgList(s) == ([a], t)
  {
    ArgTailStops(t);
    assert [a] + [] == [a];
  }

  /** The argument list of `f(x)`. */
  lemma ArgsOfCallX()
    ensures ArgList("x)") == ([Variable("x")], ")")
  {
    Ms0Stops(")");
    ExprX(")");
    assert "x" + ")" == "x)";
    Ms0Stops("x)");
    assert Base.Tag(")", ",").None?;
    ArgListOne("x)", Variable("x"), ")");
  }

  /** A call assembled from its four steps: name, `(`, arguments, and `)`. */
  lemma CallOf(s: string, f: string, t: string, u: string, args: seq<Expr>, v: string, w: string)
    requires ParseVariable(s) == Some((f, t))
    requires Base.Tag(Ms0(t), "(") == Some(u)
    requires ArgList(u) == (args, v)
    requires Base.Tag(v, ")") == Some(w)
    ensures ParseFunctionCall(s) == Some((FunctionCall(Variable(f), args), w))
  {
  }

  lemma CallFX()
    ensures ParseFunctionCall("f(x)") == Some((FunctionCall(Variable("f"), [Variable("x")]), ""))
  {
    VariableOne('f', "(x)");
    assert ['f'] + "(x)" == "f(x)";
    Ms0Stops("(x)");
    assert Base.Tag("(x)", "(") == Some("x)");
    ArgsOfCallX();
    assert Base.Tag(")", ")") == Some("");
    CallOf("f(x)", "f", "(x)", "x)", [Variable("x")], ")", "");
  }

  /**
   * The order of `alt` in `parse_expr`: input that does not start with a
   * digit or `def` is read as a call when a call parses, and as a plain
   * variable only otherwise.
   */
  lemma CallBeforeVariableOrder(s: string)
    requires |s| > 0 && !IsDigit(s[0]) && !StartsWith(s, "def")
    ensures ParseFunctionCall(s).Some? ==> ParseExpr(s) == ParseFunctionCall(s)
    ensures ParseFunctionCall(s).None? ==>
      ParseExpr(s) == (match ParseVariable(s) case Some((v, rest)) => Some((Variable(v), rest)) case None => None)
  {
  }

  /** `f(x)` is a call, not the variable `f`. */
  lemma CallBeforeVariable()
    ensures ParseExpr("f(x)") == Some((FunctionCall(Variable("f"), [Variable("x")]), ""))
  {
    CallFX();
    CallWins("f(x)", 'f');
  }

  /** A name whose call parses is read as the call. */
  lemma CallWins(s: string, c: char)
    requires |s| > 0 && s[0] == c && IsIdentStart(c) && c != 'd'
    requires ParseFunctionCall(s).Some?
    ensures ParseExpr(s) == ParseFunctionCall(s)
  {
    assert !StartsWith(s, "def") by { if |s| >= 3 { assert s[..3][0] == s[0]; } }
    CallBeforeVariableOrder(s);
  }

  /** The argument list of `f(x ,y)` stops before the space. */
  lemma ArgsOfSpacedComma()
    ensures ArgList("x ,y)") == ([Variable("x")], " ,y)")
  {
    assert Ms0(" ,y)") == ",y)";
    ExprX(" ,y)");
    assert "x" + " ,y)" == "x ,y)";
    Ms0Stops("x ,y)");
    assert Base.Tag(" ,y)", ",").None?;
    ArgListOne("x ,y)", Variable("x"), " ,y)");
  }

  lemma CallSpacedComma()
    ensures ParseFunctionCall("f(x ,y)").None?
  {
    VariableOne('f', "(x ,y)");
    assert ['f'] + "(x ,y)" == "f(x ,y)";
    assert Ms0("(x ,y)") == "(x ,y)";
    assert Base.Tag("(x ,y)", "(") == Some("x ,y)");
    ArgsOfSpacedComma();
    assert Base.Tag(" ,y)", ")").None?;
  }

  /**
   * Space before a comma is not allowed: `f(x ,y)` is no call, and the
   * expression read is just the variable `f`.
   */
  lemma SpaceBeforeCommaFails()
    ensures ParseFunctionCall("f(x ,y)").None?
    ensures ParseExpr("f(x ,y)") == Some((Variable("f"), "(x ,y)"))
  {
    CallSpacedComma();
    FallsBackToVariable("f(x ,y)", 'f', "(x ,y)");
  }

  /** A name whose call does not parse is read as the plain variable. */
  lemma FallsBackToVariable(s: string, c: char, rest: string)
    requires s == [c] + rest && IsIdentStart(c) && c != 'd'
    requires |rest| == 0 || !IsIdentChar(rest[0])
    requires ParseFunctionCall(s).None?
    ensures ParseExpr(s) == Some((Variable([c]), rest))
  {
    VariableOne(c, rest);
    assert !StartsWith(s, "def") by { if |s| >= 3 { assert s[..3][0] == s[0]; } }
    CallBeforeVariableOrder(s);
  }
}
