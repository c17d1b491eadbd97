/**
 * Round trips through the new-generation grammar: a printer for numbers,
 * names, calls, assignments, returns, definitions and programs, and lemmas
 * that the parsers read each printed form back, with the input after it
 * left untouched.
 */
module BaseParserRoundTrip {
  import opened Wrappers
  import opened Text
  import opened Syntax
  import opened BaseParser
  import opened BaseParserFacts

  // ---------------------------------------------------------------------
  // Number literals

  /** All characters of `d` are decimal digits, and there is at least one. */
  predicate Digits(d: string)
  {
    |d| > 0 && forall i :: 0 <= i < |d| ==> IsDigit(d[i])
  }

  // Regrouping of concatenations, kept apart from the parser facts they feed.

  lemma Regroup3(a: string, b: string, c: string)
    ensures a + (b + c) == a + b + c
  {
  }

  lemma Regroup(a: string, b: string, c: string, d: string)
    ensures a + (b + c + d) == a + b + c + d
    ensures a + (b + (c + d)) == a + b + c + d
  {
  }

  lemma RegroupCall(f: string, m: string, rest: string)
    ensures f + ("(" + m + ")" + rest) == f + "(" + m + ")" + rest
  {
  }

  lemma Recompose<T>(xs: seq<T>)
    requires |xs| > 0
    ensures [xs[0]] + xs[1..] == xs
  {
  }

  lemma ReturnSpace()
    ensures "return" + " " == "return "
  {
  }

  /**
   * A fraction `d1.d2` is read as a float although `parse_int` would accept
   * its integer part too: float is tried first.
   */
  lemma FloatBeforeInt(d1: string, d2: string, rest: string)
    requires Digits(d1) && Digits(d2)
    ensures ParseInt(d1 + "." + d2 + rest).Some?
    ensures ParseFloat(d1 + "." + d2 + rest).Some?
    ensures ParsePrimitive(d1 + "." + d2 + rest).Some?
    ensures ParsePrimitive(d1 + "." + d2 + rest).value.0 == Expr.Primitive(Float(ParseFloat(d1 + "." + d2 + rest).value.0))
  {
    var s := d1 + "." + d2 + rest;
    FractionText(d1, d2, rest);
    FloatOfFraction(s, |d1|);
    IntOfDigit(s);
    PrimitiveOfFloat(s);
  }

  lemma FractionText(d1: string, d2: string, rest: string)
    requires Digits(d1) && Digits(d2)
    ensures var s := d1 + "." + d2 + rest;
      |d1| + 1 < |s| && IsDigit(s[0]) && Span(s, IsDigit) == |d1| && s[|d1|] == '.' && IsDigit(s[|d1| + 1])
  {
    var u := "." + d2 + rest;
    var s := d1 + u;
    Regroup(d1, ".", d2, rest);
    assert s[0] == d1[0];
    SpanPrefix(d1, u, IsDigit);
    assert s[|d1|] == '.';
    assert s[|d1| + 1..] == d2 + rest;
    assert s[|d1| + 1] == d2[0];
  }

  /** Digits, a `.` and a digit start a float. */
  lemma FloatOfFraction(s: string, k: nat)
    requires 0 < k && k + 1 < |s| && IsDigit(s[0]) && Span(s, IsDigit) == k && s[k] == '.' && IsDigit(s[k + 1])
    ensures ParseFloat(s).Some?
  {
    assert s[0..] == s;
    assert s[k + 1..][0] == s[k + 1];
  }

  lemma IntOfDigit(s: string)
    requires |s| > 0 && IsDigit(s[0])
    ensures ParseInt(s).Some?
  {
  }

  lemma PrimitiveOfFloat(s: string)
    requires ParseFloat(s).Some?
    ensures ParsePrimitive(s) == Some((Expr.Primitive(Float(ParseFloat(s).value.0)), ParseFloat(s).value.1))
  {
  }

  /** A natural number not followed by a fraction is an integer primitive. */
  lemma PrimitiveOfNat(n: nat, rest: string)
    requires |rest| == 0 || !IsDigit(rest[0])
    requires |rest| < 2 || rest[0] != '.' || !IsDigit(rest[1])
    ensures ParsePrimitive(NatToString(n) + rest) == Some((Expr.Primitive(Int(n)), rest))
  {
    var d := NatToString(n);
    var s := d + rest;
    SpanPrefix(d, rest, IsDigit);
    assert s[|d|..] == rest;
    assert ParseFloat(s).None?;
    IntRoundTrip(n, rest);
  }

  // ---------------------------------------------------------------------
  // Names and keywords

  /** An identifier: a letter or `_`, then letters, digits and `_`. */
  predicate IsName(x: string)
  {
    |x| > 0 && IsIdentStart(x[0]) && forall i :: 0 <= i < |x| ==> IsIdentChar(x[i])
  }

  /**
   * A name that begins none of the keywords the grammar matches as bare
   * prefixes, so that it is always read back as a name.
   */
  predicate PlainName(x: string)
  {
    IsName(x) && !StartsWith(x, "true") && !StartsWith(x, "false") && !StartsWith(x, "return") &&
    !StartsWith(x, "def") && !StartsWith(x, "notation")
  }

  /** What may follow a name: the end of the input or a character no identifier contains. */
  predicate EndsName(rest: string)
  {
    |rest| == 0 || !IsIdentChar(rest[0])
  }

  /** `parse_variable` reads a whole name and stops where it ends. */
  lemma NameRoundTrip(x: string, rest: string)
    requires IsName(x) && EndsName(rest)
    ensures ParseVariable(x + rest) == Some((Variable(x), rest))
  {
    var s := x + rest;
    assert s[1..] == x[1..] + rest;
    SpanPrefix(x[1..], rest, IsIdentChar);
    assert s[..|x|] == x && s[|x|..] == rest;
  }

  /** A keyword made of identifier characters starts a name only if the name itself starts with it. */
  lemma KeywordNotPrefix(x: string, rest: string, w: string)
    requires IsName(x) && EndsName(rest) && !StartsWith(x, w)
    requires forall i :: 0 <= i < |w| ==> IsIdentChar(w[i])
    ensures !StartsWith(x + rest, w)
  {
    var s := x + rest;
    if |w| <= |x| {
      assert s[..|w|] == x[..|w|];
    } else if |w| <= |s| {
      assert s[|x|] == rest[0];
      assert s[..|w|][|x|] == s[|x|];
    }
  }

  /** The keywords as character sequences: each is made of identifier characters. */
  lemma KeywordsAreWords(w: string)
    requires w in {"true", "false", "return", "def", "notation"}
    ensures forall i :: 0 <= i < |w| ==> IsIdentChar(w[i])
  {
  }

  /** Text that starts with neither a digit nor `-` is no float. */
  lemma FloatOfNonDigit(s: string)
    requires |s| > 0 && !IsDigit(s[0]) && s[0] != '-'
    ensures ParseFloat(s).None?
  {
    assert s[0..] == s;
  }

  /** `alt` of the four literals fails when each of them fails. */
  lemma PrimitiveOfFailures(s: string)
    requires ParseFloat(s).None? && ParseInt(s).None? && ParseString(s).None? && ParseBool(s).None?
    ensures ParsePrimitive(s).None?
  {
  }

  /** A plain name is no primitive: it is no number, string or Boolean. */
  lemma PrimitiveOfName(x: string, rest: string)
    requires PlainName(x) && EndsName(rest)
    ensures ParsePrimitive(x + rest).None?
  {
    var s := x + rest;
    assert s[0] == x[0];
    assert !StartsWith(s, "true") && !StartsWith(s, "false") by {
      KeywordsAreWords("true");
      KeywordsAreWords("false");
      KeywordNotPrefix(x, rest, "true");
      KeywordNotPrefix(x, rest, "false");
    }
    FloatOfNonDigit(s);
    PrimitiveOfFailures(s);
  }

  // ---------------------------------------------------------------------
  // Printing expressions

  /** The printable expressions: plain names, natural numbers, calls of a plain name, assignments to a plain name and returns. */
  predicate Printable(e: Expr)
    decreases e
  {
    match e
    case Variable(x) => PlainName(x)
    case Primitive(p) => p.Int? && p.i >= 0
    case FunctionCall(callee, args) =>
      callee.Variable? && PlainName(callee.name) && forall i :: 0 <= i < |args| ==> Printable(args[i])
    case Assignment(x, rhs) => PlainName(x) && Printable(rhs)
    case Return(operand) => Printable(operand)
    case _ => false
  }

  /** Every expression of a list is printable. */
  predicate AllPrintable(es: seq<Expr>)
  {
    forall i :: 0 <= i < |es| ==> Printable(es[i])
  }

  /** The source text of a printable expression, without spaces except after `return`. */
  function Show(e: Expr): string
    decreases e, 1
  {
    match e
    case Variable(x) => x
    case Primitive(p) => if p.Int? && p.i >= 0 then NatToString(p.i) else ""
    case FunctionCall(callee, args) => (if callee.Variable? then callee.name else "") + "(" + ShowArgs(args) + ")"
    case Assignment(x, rhs) => x + "=" + Show(rhs)
    case Return(operand) => "return " + Show(operand)
    case _ => ""
  }

  /** Arguments separated by commas. */
  function ShowArgs(args: seq<Expr>): string
    decreases args, 0
  {
    if |args| == 0 then ""
    else if |args| == 1 then Show(args[0])
    else Show(args[0]) + "," + ShowArgs(args[1..])
  }

  /** The text after the first argument: the remaining arguments, each after a comma, then `c`. */
  function MoreArgs(args: seq<Expr>, c: string): string
  {
    if |args| == 0 then c else "," + ShowArgs(args) + c
  }

  /** Printed text starts with a letter, `_` or a digit. */
  predicate Starts(t: string)
  {
    |t| > 0 && (IsIdentStart(t[0]) || IsDigit(t[0]))
  }

  /** What may follow a printed expression: the end, or a character that continues no expression, such as `;`, `,` or `)`. */
  predicate Closes(rest: string)
  {
    |rest| == 0 || (Stopper(rest[0]) && rest[0] != '.')
  }

  lemma ShowCallText(f: string, args: seq<Expr>, rest: string)
    ensures Show(FunctionCall(Variable(f), args)) + rest == f + "(" + ShowArgs(args) + ")" + rest
  {
  }

  lemma ShowAssignmentText(x: string, rhs: Expr, rest: string)
    ensures Show(Assignment(x, rhs)) + rest == x + "=" + Show(rhs) + rest
  {
  }

  lemma ShowReturnText(e: Expr, rest: string)
    ensures Show(Return(e)) + rest == "return " + Show(e) + rest
  {
  }

  lemma EmptyArgsText(args: seq<Expr>, c: string)
    requires |args| == 0
    ensures ShowArgs(args) + c == c
  {
  }

  lemma MoreArgsText(args: seq<Expr>, c: string)
    requires |args| > 0
    ensures MoreArgs(args, c) == [','] + (ShowArgs(args) + c)
  {
  }

  /** Printed text, whatever follows it, starts a term and not an `=`. */
  lemma ShowThen(e: Expr, rest: string)
    requires Printable(e)
    ensures Starts(Show(e) + rest) && Char(Show(e) + rest, '=').None?
  {
    ShowStarts(e);
    assert (Show(e) + rest)[0] == Show(e)[0];
  }

  lemma ShowStarts(e: Expr)
    requires Printable(e)
    ensures Starts(Show(e))
  {
    match e {
      case Variable(x) =>
      case Primitive(p) =>
      case FunctionCall(callee, args) =>
        assert Show(e)[0] == callee.name[0];
      case Assignment(x, rhs) =>
        assert Show(e)[0] == x[0];
      case Return(operand) =>
    }
  }

  lemma ShowArgsSplit(args: seq<Expr>, c: string)
    requires |args| > 0
    ensures ShowArgs(args) + c == Show(args[0]) + MoreArgs(args[1..], c)
  {
    if |args| > 1 {
      var a, m := Show(args[0]), ShowArgs(args[1..]);
      assert ShowArgs(args) == a + "," + m;
      Regroup(a, ",", m, c);
    }
  }

  /** Text that starts with neither whitespace nor `/` is left alone by `ws`. */
  lemma WsStart(t: string)
    requires |t| == 0 || (!IsMultispace(t[0]) && t[0] != '/')
    ensures Ws(t) == t
  {
    if |t| > 0 {
      WsStopsAt(t);
    }
  }

  /** One space before printed text is all that `ws` skips. */
  lemma SpaceThenStart(u: string)
    requires Starts(u)
    ensures Ws(" " + u) == u
  {
    var t := " " + u;
    assert t[1..] == u;
    assert Span(t, IsMultispace) == 1;
    WsStart(u);
  }

  /** Nothing continues an expression at a closing character. */
  lemma ClosesStops(rest: string)
    requires Closes(rest)
    ensures Ws(rest) == rest
    ensures InfixTail(rest) == ([], rest)
    ensures CallArguments(rest).None? && Token(rest, '=').None?
  {
    WsStart(rest);
  }

  /** `delimited(ws, char(c), ws)` takes a single `c` that no whitespace surrounds. */
  lemma TokenOf(c: char, v: string)
    requires !IsMultispace(c) && c != '/' && Ws(v) == v
    ensures Token([c] + v, c) == Some(v)
  {
    var t := [c] + v;
    WsStart(t);
    assert t[1..] == v;
  }

  // One lemma per parser layer: each states how one parser combines the
  // results of the parsers it calls, so that no proof unfolds more than one.

  lemma ExprOfAssignment(s: string, e: Expr, rest: string)
    requires Ws(s) == s && ParseAssignment(s) == Some((e, rest)) && Ws(rest) == rest
    ensures ParseExpr(s) == Some((e, rest))
  {
  }

  lemma ExprOfAssignmentOf(s: string, x: string, t: string, u: string, rhs: Expr, rest: string)
    requires Ws(s) == s && ParseVariable(s) == Some((Variable(x), t)) && Token(t, '=') == Some(u)
    requires ParseExpr(u) == Some((rhs, rest)) && Ws(rest) == rest
    ensures ParseExpr(s) == Some((Assignment(x, rhs), rest))
  {
    AssignmentOf(s, x, t, u, rhs, rest);
    ExprOfAssignment(s, Assignment(x, rhs), rest);
  }

  lemma ExprOfReturn(s: string, e: Expr, rest: string)
    requires Ws(s) == s && ParseAssignment(s).None? && ParseReturn(s) == Some((e, rest)) && Ws(rest) == rest
    ensures ParseExpr(s) == Some((e, rest))
  {
  }

  lemma ExprOfTerm(s: string, e: Expr, rest: string)
    requires Ws(s) == s && ParseAssignment(s).None? && ParseReturn(s).None?
    requires ParseInfixExpr(s) == Some((e, rest)) && Ws(rest) == rest
    ensures ParseExpr(s) == Some((e, rest))
  {
  }

  lemma ExprNone(s: string)
    requires Ws(s) == s && ParseAssignment(s).None? && ParseReturn(s).None? && ParseInfixExpr(s).None?
    ensures ParseExpr(s).None?
  {
  }

  lemma InfixOfTerm(s: string, e: Expr, rest: string)
    requires ParseTerm(s) == Some((e, rest)) && InfixTail(rest) == ([], rest)
    ensures ParseInfixExpr(s) == Some((e, rest))
  {
  }

  lemma InfixNone(s: string)
    requires ParseTerm(s).None?
    ensures ParseInfixExpr(s).None?
  {
  }

  lemma AssignmentOf(s: string, x: string, t: string, u: string, rhs: Expr, rest: string)
    requires ParseVariable(s) == Some((Variable(x), t)) && Token(t, '=') == Some(u)
    requires ParseExpr(u) == Some((rhs, rest))
    ensures ParseAssignment(s) == Some((Assignment(x, rhs), rest))
  {
  }

  lemma AssignmentNone(s: string, v: Expr, t: string)
    requires ParseVariable(s) == Some((v, t)) && Token(t, '=').None?
    ensures ParseAssignment(s).None?
  {
  }

  lemma ReturnOf(s: string, t: string, e: Expr, rest: string)
    requires Tag(s, "return") == Some(t) && ParseExpr(Ws(t)) == Some((e, rest))
    ensures ParseReturn(s) == Some((Return(e), rest))
  {
  }

  lemma ReturnNone(s: string)
    requires !StartsWith(s, "return")
    ensures ParseReturn(s).None?
  {
  }

  lemma CallOf(s: string, f: string, t: string, args: seq<Expr>, rest: string)
    requires ParseVariable(s) == Some((Variable(f), t)) && CallArguments(t) == Some((args, rest))
    ensures ParseFunctionCall(s) == Some((FunctionCall(Variable(f), args), rest))
  {
  }

  lemma ExprListOf(s: string, e: Expr, t: string, es: seq<Expr>, u: string)
    requires ParseExpr(s) == Some((e, t)) && ExprListTail(t) == (es, u)
    ensures ExprList(s) == ([e] + es, u)
  {
  }

  lemma ExprListTailOf(s: string, t: string, e: Expr, w: string, es: seq<Expr>, u: string)
    requires Token(s, ',') == Some(t) && ParseExpr(t) == Some((e, w)) && ExprListTail(w) == (es, u)
    ensures ExprListTail(s) == ([e] + es, u)
  {
  }

  lemma ArgumentsOf(s: string, t: string, args: seq<Expr>, rest: string)
    requires |s| > 0 && s[0] == '(' && s[1..] == t && ExprList(t) == (args, ")" + rest)
    ensures CallArguments(s) == Some((args, rest))
  {
    assert (")" + rest)[1..] == rest;
  }

  /** The term alternatives, tried in order, with the trailing `ws` that skips nothing. */
  lemma TermStep(s: string, e: Expr, rest: string)
    requires Ws(s) == s
    requires Alt(ParsePrimitive(s), Alt(ParseFunctionCall(s), Alt(ParseVariable(s), ParseParenthesized(s)))) == Some((e, rest))
    requires Ws(rest) == rest
    ensures ParseTerm(s) == Some((e, rest))
  {
  }

  /** The text at a `)` or `}` holds no term. */
  lemma NoTermAtClose(c: string)
    requires |c| > 0 && (c[0] == ')' || c[0] == '}')
    ensures ParseTerm(c).None?
  {
    WsStart(c);
    PrimitiveNone(c);
    CallNoneAtClose(c);
    TermNone(c);
  }

  lemma CallNoneAtClose(c: string)
    requires |c| > 0 && (c[0] == ')' || c[0] == '}')
    ensures ParseVariable(c).None? && ParseFunctionCall(c).None? && ParseParenthesized(c).None?
  {
  }

  lemma TermNone(s: string)
    requires Ws(s) == s && ParsePrimitive(s).None? && ParseFunctionCall(s).None?
    requires ParseVariable(s).None? && ParseParenthesized(s).None?
    ensures ParseTerm(s).None?
  {
  }

  /** The text at a `)` or `}` holds no expression. */
  lemma NoExprAtClose(c: string)
    requires |c| > 0 && (c[0] == ')' || c[0] == '}')
    ensures ParseExpr(c).None?
  {
    WsStart(c);
    assert ParseInfixExpr(c).None? by {
      NoTermAtClose(c);
      InfixNone(c);
    }
    assert ParseAssignment(c).None? by {
      AssignmentNoneAtClose(c);
    }
    assert ParseReturn(c).None? by {
      ReturnNone(c);
    }
    ExprNone(c);
  }

  lemma AssignmentNoneAtClose(c: string)
    requires |c| > 0 && (c[0] == ')' || c[0] == '}')
    ensures ParseAssignment(c).None?
  {
  }

  /** The text at a `)` or `}` holds no top-level item. */
  lemma NoItemAtClose(c: string)
    requires |c| > 0 && (c[0] == ')' || c[0] == '}')
    ensures ParseTopLevelExpr(c).None?
  {
    NoExprAtClose(c);
    assert ParseFunctionDef(c).None?;
    assert ParseNotationDecl(c).None?;
  }

  lemma VariableInfix(x: string, rest: string)
    requires PlainName(x) && Closes(rest)
    ensures ParseInfixExpr(x + rest) == Some((Variable(x), rest))
  {
    var s := x + rest;
    WsStart(s);
    NameRoundTrip(x, rest);
    PrimitiveOfName(x, rest);
    ClosesStops(rest);
    TermStep(s, Variable(x), rest);
    InfixOfTerm(s, Variable(x), rest);
  }

  /** A plain name is a whole expression. */
  lemma VariableRoundTrip(x: string, rest: string)
    requires PlainName(x) && Closes(rest)
    ensures ParseExpr(x + rest) == Some((Variable(x), rest))
  {
    var s := x + rest;
    WsStart(s);
    NameRoundTrip(x, rest);
    ClosesStops(rest);
    AssignmentNone(s, Variable(x), rest);
    KeywordsAreWords("return");
    KeywordNotPrefix(x, rest, "return");
    ReturnNone(s);
    VariableInfix(x, rest);
    ExprOfTerm(s, Variable(x), rest);
  }

  lemma NatInfix(n: nat, rest: string)
    requires Closes(rest)
    ensures ParseInfixExpr(NatToString(n) + rest) == Some((Expr.Primitive(Int(n)), rest))
  {
    var s := NatToString(n) + rest;
    assert s[0] == NatToString(n)[0];
    WsStart(s);
    PrimitiveOfNat(n, rest);
    ClosesStops(rest);
    TermStep(s, Expr.Primitive(Int(n)), rest);
    InfixOfTerm(s, Expr.Primitive(Int(n)), rest);
  }

  /** A natural number is a whole expression. */
  lemma NatRoundTrip(n: nat, rest: string)
    requires Closes(rest)
    ensures ParseExpr(NatToString(n) + rest) == Some((Expr.Primitive(Int(n)), rest))
  {
    var s := NatToString(n) + rest;
    assert s[0] == NatToString(n)[0];
    WsStart(s);
    assert ParseVariable(s).None?;
    assert ParseAssignment(s).None?;
    ReturnNone(s);
    NatInfix(n, rest);
    ClosesStops(rest);
    ExprOfTerm(s, Expr.Primitive(Int(n)), rest);
  }

  lemma CallInfix(f: string, t: string, args: seq<Expr>, rest: string)
    requires PlainName(f) && Closes(rest) && |t| > 0 && t[0] == '('
    requires CallArguments(t) == Some((args, rest))
    ensures ParseInfixExpr(f + t) == Some((FunctionCall(Variable(f), args), rest))
  {
    var s := f + t;
    WsStart(s);
    NameRoundTrip(f, t);
    PrimitiveOfName(f, t);
    CallOf(s, f, t, args, rest);
    ClosesStops(rest);
    TermStep(s, FunctionCall(Variable(f), args), rest);
    InfixOfTerm(s, FunctionCall(Variable(f), args), rest);
  }

  /** A call of a plain name, given that its argument list reads back. */
  lemma CallStep(f: string, args: seq<Expr>, rest: string)
    requires PlainName(f) && Closes(rest)
    requires CallArguments("(" + ShowArgs(args) + ")" + rest) == Some((args, rest))
    ensures ParseExpr(f + "(" + ShowArgs(args) + ")" + rest) == Some((FunctionCall(Variable(f), args), rest))
  {
    var t := "(" + ShowArgs(args) + ")" + rest;
    var s := f + t;
    RegroupCall(f, ShowArgs(args), rest);
    WsStart(s);
    NameRoundTrip(f, t);
    WsStart(t);
    AssignmentNone(s, Variable(f), t);
    KeywordsAreWords("return");
    KeywordNotPrefix(f, t, "return");
    ReturnNone(s);
    CallInfix(f, t, args, rest);
    ClosesStops(rest);
    ExprOfTerm(s, FunctionCall(Variable(f), args), rest);
  }

  /** Printed text followed by a closing character is left alone by `ws`. */
  lemma ShowWs(e: Expr, rest: string)
    requires Printable(e)
    ensures Ws(Show(e) + rest) == Show(e) + rest
  {
    ShowStarts(e);
    assert (Show(e) + rest)[0] == Show(e)[0];
    WsStart(Show(e) + rest);
  }

  /** An assignment, given that its right-hand side reads back. */
  lemma AssignmentStep(x: string, rhs: Expr, rest: string)
    requires PlainName(x) && Printable(rhs) && Closes(rest)
    requires ParseExpr(Show(rhs) + rest) == Some((rhs, rest))
    ensures ParseExpr(x + "=" + Show(rhs) + rest) == Some((Assignment(x, rhs), rest))
  {
    ShowWs(rhs, rest);
    AssignmentTextStep(x, Show(rhs), rhs, rest);
  }

  /** The same step over the right-hand side's text. */
  lemma AssignmentTextStep(x: string, y: string, rhs: Expr, rest: string)
    requires PlainName(x) && Closes(rest)
    requires Ws(y + rest) == y + rest && ParseExpr(y + rest) == Some((rhs, rest))
    ensures ParseExpr(x + "=" + y + rest) == Some((Assignment(x, rhs), rest))
  {
    var u := y + rest;
    var t := "=" + u;
    var s := x + t;
    Regroup(x, "=", y, rest);
    assert s[0] == x[0];
    WsStart(s);
    assert t[0] == '=';
    NameRoundTrip(x, t);
    TokenOf('=', u);
    ClosesStops(rest);
    ExprOfAssignmentOf(s, x, t, u, rhs, rest);
  }

  /** The keyword `return` before a space: a name to `parse_variable`, a tag to `parse_return`. */
  lemma ReturnWord(t: string)
    requires |t| > 0 && t[0] == ' '
    ensures ParseVariable("return" + t) == Some((Variable("return"), t))
    ensures Tag("return" + t, "return") == Some(t)
  {
    var s := "return" + t;
    assert s[..6] == "return";
    KeywordsAreWords("return");
    NameRoundTrip("return", t);
  }

  /** A return, given that its operand reads back. */
  lemma ReturnStep(e: Expr, rest: string)
    requires Printable(e) && Closes(rest)
    requires ParseExpr(Show(e) + rest) == Some((e, rest))
    ensures ParseExpr("return " + Show(e) + rest) == Some((Return(e), rest))
  {
    var u := Show(e) + rest;
    var t := " " + u;
    var s := "return" + t;
    Regroup("return", " ", Show(e), rest);
    ReturnSpace();
    WsStart(s);
    ShowThen(e, rest);
    SpaceThenStart(u);
    ReturnWord(t);
    AssignmentNone(s, Variable("return"), t);
    ReturnOf(s, t, e, rest);
    ClosesStops(rest);
    ExprOfReturn(s, Return(e), rest);
  }

  /** `parse_expr` reads a printed expression back and leaves what follows it. */
  lemma {:induction false} ExprRoundTrip(e: Expr, rest: string)
    requires Printable(e) && Closes(rest)
    ensures ParseExpr(Show(e) + rest) == Some((e, rest))
    decreases e, 1
  {
    match e {
      case Variable(x) =>
        VariableRoundTrip(x, rest);
      case Primitive(p) =>
        NatRoundTrip(p.i, rest);
      case FunctionCall(callee, args) =>
        ArgsRoundTrip(args, rest);
        ShowCallText(callee.name, args, rest);
        CallStep(callee.name, args, rest);
      case Assignment(x, rhs) =>
        ExprRoundTrip(rhs, rest);
        ShowAssignmentText(x, rhs, rest);
        AssignmentStep(x, rhs, rest);
      case Return(operand) =>
        ExprRoundTrip(operand, rest);
        ShowReturnText(operand, rest);
        ReturnStep(operand, rest);
    }
  }

  /** The parenthesised argument list reads back, whatever follows it. */
  lemma {:induction false} ArgsRoundTrip(args: seq<Expr>, rest: string)
    requires AllPrintable(args)
    ensures CallArguments("(" + ShowArgs(args) + ")" + rest) == Some((args, rest))
    decreases args, 2
  {
    var c := ")" + rest;
    var v := ShowArgs(args) + c;
    var t := "(" + v;
    Regroup("(", ShowArgs(args), ")", rest);
    assert t[1..] == v;
    ExprListRoundTrip(args, c);
    ArgumentsOf(t, v, args, rest);
  }

  /** After the first argument comes a comma or the `)`. */
  lemma MoreArgsCloses(args: seq<Expr>, c: string)
    requires |c| > 0 && c[0] == ')'
    ensures Closes(MoreArgs(args, c)) && (MoreArgs(args, c)[0] == ',' || MoreArgs(args, c)[0] == ')')
  {
  }

  /** The arguments and the `)` after them are left alone by `ws`. */
  lemma ShowArgsWs(args: seq<Expr>, c: string)
    requires AllPrintable(args) && |c| > 0 && c[0] == ')'
    ensures Ws(ShowArgs(args) + c) == ShowArgs(args) + c
  {
    if |args| == 0 {
      assert ShowArgs(args) + c == c;
      WsStart(c);
    } else {
      ShowArgsSplit(args, c);
      ShowWs(args[0], MoreArgs(args[1..], c));
    }
  }

  /** `separated_list0` reads printed arguments back and stops at the `)`. */
  lemma {:induction false} ExprListRoundTrip(args: seq<Expr>, c: string)
    requires AllPrintable(args) && |c| > 0 && c[0] == ')'
    ensures ExprList(ShowArgs(args) + c) == (args, c)
    decreases args, 1
  {
    if |args| == 0 {
      EmptyArgsText(args, c);
      NoExprAtClose(c);
    } else {
      var w := MoreArgs(args[1..], c);
      ShowArgsSplit(args, c);
      MoreArgsCloses(args[1..], c);
      ExprRoundTrip(args[0], w);
      ExprListTailRoundTrip(args[1..], c);
      ExprListOf(ShowArgs(args) + c, args[0], w, args[1..], c);
      Recompose(args);
    }
  }

  /** The loop over `, argument` pairs reads the remaining arguments back. */
  lemma {:induction false} ExprListTailRoundTrip(args: seq<Expr>, c: string)
    requires AllPrintable(args) && |c| > 0 && c[0] == ')'
    ensures ExprListTail(MoreArgs(args, c)) == (args, c)
    decreases args, 0
  {
    if |args| == 0 {
      WsStart(c);
    } else {
      var v := ShowArgs(args) + c;
      var t := MoreArgs(args, c);
      MoreArgsText(args, c);
      ShowArgsWs(args, c);
      TokenOf(',', v);
      var w := MoreArgs(args[1..], c);
      ShowArgsSplit(args, c);
      MoreArgsCloses(args[1..], c);
      ExprRoundTrip(args[0], w);
      ExprListTailRoundTrip(args[1..], c);
      ExprListTailOf(t, v, args[0], w, args[1..], c);
      Recompose(args);
    }
  }

  /** `parse_function_call` reads a printed call back, whatever follows it. */
  lemma FunctionCallRoundTrip(f: string, args: seq<Expr>, rest: string)
    requires IsName(f) && AllPrintable(args)
    ensures ParseFunctionCall(f + "(" + ShowArgs(args) + ")" + rest) == Some((FunctionCall(Variable(f), args), rest))
  {
    var t := "(" + ShowArgs(args) + ")" + rest;
    RegroupCall(f, ShowArgs(args), rest);
    NameRoundTrip(f, t);
    ArgsRoundTrip(args, rest);
    CallOf(f + t, f, t, args, rest);
  }

  // ---------------------------------------------------------------------
  // Blocks and definitions

  /** Every statement printed `e;`, one after the other. */
  function ShowBlock(body: seq<Expr>): string
  {
    if |body| == 0 then "" else Show(body[0]) + ";" + ShowBlock(body[1..])
  }

  lemma EmptyBlockText(body: seq<Expr>, c: string)
    requires |body| == 0
    ensures ShowBlock(body) + c == c
  {
  }

  /** A printed statement does not start with `def` or `notation`. */
  lemma HeadNotKeyword(e: Expr, rest: string, w: string)
    requires Printable(e) && (w == "def" || w == "notation")
    requires EndsName(rest)
    ensures !StartsWith(Show(e) + rest, w)
  {
    KeywordsAreWords(w);
    match e {
      case Variable(x) =>
        KeywordNotPrefix(x, rest, w);
      case FunctionCall(callee, args) =>
        CallText(callee.name, args, rest);
        KeywordNotPrefix(callee.name, "(" + ShowArgs(args) + ")" + rest, w);
      case Assignment(x, rhs) =>
        AssignmentText(x, rhs, rest);
        KeywordNotPrefix(x, "=" + Show(rhs) + rest, w);
      case _ =>
        ShowStarts(e);
        FirstCharNotKeyword(Show(e), rest, w);
    }
  }

  lemma CallText(f: string, args: seq<Expr>, rest: string)
    ensures Show(FunctionCall(Variable(f), args)) + rest == f + ("(" + ShowArgs(args) + ")" + rest)
  {
  }

  lemma AssignmentText(x: string, rhs: Expr, rest: string)
    ensures Show(Assignment(x, rhs)) + rest == x + ("=" + Show(rhs) + rest)
  {
  }

  /** Text that starts with a digit or `r` starts neither keyword. */
  lemma FirstCharNotKeyword(t: string, rest: string, w: string)
    requires |t| > 0 && (IsDigit(t[0]) || t[0] == 'r') && (w == "def" || w == "notation")
    ensures !StartsWith(t + rest, w)
  {
    var s := t + rest;
    assert s[0] == t[0];
  }

  lemma DefNone(s: string)
    requires !StartsWith(s, "def")
    ensures ParseFunctionDef(s).None?
  {
    assert DefHeader(s).None?;
  }

  lemma NotationNone(s: string)
    requires !StartsWith(s, "notation")
    ensures ParseNotationDecl(s).None?
  {
  }

  /** A block and the `}` after it are left alone by `ws`. */
  lemma BlockWs(body: seq<Expr>, c: string)
    requires AllPrintable(body) && |c| > 0 && c[0] == '}'
    ensures Ws(ShowBlock(body) + c) == ShowBlock(body) + c
  {
    if |body| == 0 {
      assert ShowBlock(body) + c == c;
      WsStart(c);
    } else {
      BlockText(body, c);
      ShowWs(body[0], ";" + (ShowBlock(body[1..]) + c));
    }
  }

  // The text identities are kept apart from the parsers: next to parser
  // terms, the solver's work on sequence equality grows quickly.

  lemma BlockText(body: seq<Expr>, c: string)
    requires |body| > 0
    ensures ShowBlock(body) + c == Show(body[0]) + (";" + (ShowBlock(body[1..]) + c))
  {
  }

  lemma BlockOf(s: string, e: Expr, t: string, es: seq<Expr>, w: string)
    requires Alt(ParseFunctionDef(s), ParseExpr(s)) == Some((e, t)) && ParseBlock(OptSemicolon(t)) == (es, w)
    ensures ParseBlock(s) == ([e] + es, w)
  {
  }

  /** The block ends at the `}`. */
  lemma BlockEnd(c: string)
    requires |c| > 0 && c[0] == '}'
    ensures ParseBlock(c) == ([], c)
  {
    DefNoneAtClose(c);
    NoExprAtClose(c);
    BlockNone(c);
  }

  lemma DefNoneAtClose(c: string)
    requires |c| > 0 && (c[0] == ')' || c[0] == '}')
    ensures ParseFunctionDef(c).None?
  {
    DefNone(c);
  }

  lemma BlockNone(s: string)
    requires ParseFunctionDef(s).None? && ParseExpr(s).None?
    ensures ParseBlock(s) == ([], s)
  {
  }

  /** A block of printed statements reads back and stops at the `}`. */
  lemma {:induction false} BlockRoundTrip(body: seq<Expr>, c: string)
    requires AllPrintable(body) && |c| > 0 && c[0] == '}'
    ensures ParseBlock(ShowBlock(body) + c) == (body, c)
  {
    if |body| == 0 {
      EmptyBlockText(body, c);
      BlockEnd(c);
    } else {
      var x := ShowBlock(body[1..]) + c;
      var t := ";" + x;
      var s := Show(body[0]) + t;
      BlockText(body, c);
      ExprRoundTrip(body[0], t);
      HeadNotKeyword(body[0], t, "def");
      DefNone(s);
      SemicolonConsumed(x);
      BlockWs(body[1..], c);
      BlockRoundTrip(body[1..], c);
      BlockOf(s, body[0], t, body[1..], c);
      Recompose(body);
    }
  }

  /** Parameter names separated by commas. */
  function ShowParams(ps: seq<string>): string
  {
    if |ps| == 0 then ""
    else if |ps| == 1 then ps[0]
    else ps[0] + "," + ShowParams(ps[1..])
  }

  /** The text after the first parameter: the remaining ones, each after a comma, then `c`. */
  function MoreParams(ps: seq<string>, c: string): string
  {
    if |ps| == 0 then c else "," + ShowParams(ps) + c
  }

  lemma EmptyParamsText(ps: seq<string>, c: string)
    requires |ps| == 0
    ensures ShowParams(ps) + c == c
  {
  }

  lemma MoreParamsText(ps: seq<string>, c: string)
    requires |ps| > 0
    ensures MoreParams(ps, c) == [','] + (ShowParams(ps) + c)
  {
  }

  predicate AllNames(ps: seq<string>)
  {
    forall i :: 0 <= i < |ps| ==> IsName(ps[i])
  }

  /** What ends a printed name list: the `)` of a header or the `:=` after a `with` clause. */
  predicate ListEnd(c: string)
  {
    |c| > 0 && (c[0] == ')' || c[0] == ':')
  }

  lemma ShowParamsSplit(ps: seq<string>, c: string)
    requires |ps| > 0
    ensures ShowParams(ps) + c == ps[0] + MoreParams(ps[1..], c)
  {
    if |ps| == 1 {
      assert ShowParams(ps) == ps[0] && MoreParams(ps[1..], c) == c;
    } else {
      var b := ShowParams(ps[1..]);
      assert ShowParams(ps) == ps[0] + "," + b;
      assert MoreParams(ps[1..], c) == "," + b + c;
      CommaJoin(ps[0], b, c);
    }
  }

  lemma CommaJoin(a: string, b: string, c: string)
    ensures a + "," + b + c == a + ("," + b + c)
  {
  }

  lemma ShowParamsWs(ps: seq<string>, c: string)
    requires AllNames(ps) && ListEnd(c)
    ensures Ws(ShowParams(ps) + c) == ShowParams(ps) + c
  {
    if |ps| == 0 {
      assert ShowParams(ps) + c == c;
    } else {
      ShowParamsSplit(ps, c);
      assert (ShowParams(ps) + c)[0] == ps[0][0];
    }
    WsStart(ShowParams(ps) + c);
  }

  lemma VariableListOf(s: string, x: string, t: string, vs: seq<string>, u: string)
    requires ParseVariable(s) == Some((Variable(x), t)) && VariableListTail(t) == (vs, u)
    ensures VariableList(s) == ([x] + vs, u)
  {
  }

  lemma VariableListTailOf(s: string, t: string, x: string, w: string, vs: seq<string>, u: string)
    requires Token(s, ',') == Some(t) && ParseVariable(t) == Some((Variable(x), w)) && VariableListTail(w) == (vs, u)
    ensures VariableListTail(s) == ([x] + vs, u)
  {
  }

  /** `separated_list0` reads printed parameter names back and stops at the `)`. */
  lemma ParamsRoundTrip(ps: seq<string>, c: string)
    requires AllNames(ps) && ListEnd(c)
    ensures VariableList(ShowParams(ps) + c) == (ps, c)
  {
    if |ps| == 0 {
      EmptyParamsText(ps, c);
    } else {
      ShowParamsSplit(ps, c);
      var w := MoreParams(ps[1..], c);
      NameRoundTrip(ps[0], w);
      ParamsTailRoundTrip(ps[1..], c);
      VariableListOf(ShowParams(ps) + c, ps[0], w, ps[1..], c);
      Recompose(ps);
    }
  }

  /** The loop over `, name` pairs reads the remaining parameters back. */
  lemma {:induction false} ParamsTailRoundTrip(ps: seq<string>, c: string)
    requires AllNames(ps) && ListEnd(c)
    ensures VariableListTail(MoreParams(ps, c)) == (ps, c)
  {
    if |ps| == 0 {
      WsStart(c);
    } else {
      var v := ShowParams(ps) + c;
      var t := MoreParams(ps, c);
      MoreParamsText(ps, c);
      ShowParamsWs(ps, c);
      TokenOf(',', v);
      ShowParamsSplit(ps, c);
      var w := MoreParams(ps[1..], c);
      NameRoundTrip(ps[0], w);
      ParamsTailRoundTrip(ps[1..], c);
      VariableListTailOf(t, v, ps[0], w, ps[1..], c);
      Recompose(ps);
    }
  }

  /** A definition with a name, parameter names and printable statements. */
  predicate DefPrintable(e: Expr)
  {
    e.FunctionDef? && IsName(e.name) && AllNames(e.params) && AllPrintable(e.body)
  }

  /** `def f(x,y){s1;s2;}`. */
  function ShowDef(name: string, params: seq<string>, body: seq<Expr>): string
  {
    "def " + name + "(" + ShowParams(params) + "){" + ShowBlock(body) + "}"
  }

  lemma HeaderText(name: string, params: seq<string>, b: string)
    ensures "def " + name + "(" + ShowParams(params) + ")" + b == "def" + (" " + (name + ("(" + (ShowParams(params) + (")" + b)))))
  {
  }

  lemma DefWord(t: string)
    ensures Tag("def" + t, "def") == Some(t)
  {
    assert ("def" + t)[..3] == "def";
  }

  lemma DefText(name: string, params: seq<string>, body: seq<Expr>, rest: string)
    ensures ShowDef(name, params, body) + rest == "def " + name + "(" + ShowParams(params) + ")" + ("{" + ShowBlock(body) + "}" + rest)
  {
  }

  /** The header `def name(params)` reads back and leaves what follows the `)`. */
  lemma DefHeaderRoundTrip(name: string, params: seq<string>, b: string)
    requires IsName(name) && AllNames(params)
    ensures DefHeader("def " + name + "(" + ShowParams(params) + ")" + b) == Some(((name, params), b))
  {
    var c := ")" + b;
    var p := ShowParams(params) + c;
    var u := "(" + p;
    var t1 := name + u;
    var t := " " + t1;
    var s := "def" + t;
    HeaderText(name, params, b);
    DefWord(t);
    NameStarts(name, u);
    SpaceThenStart(t1);
    NameRoundTrip(name, u);
    CharOf('(', p);
    ParamsRoundTrip(params, c);
    CharOf(')', b);
    DefHeaderOf(s, t, t1, name, u, p, params, c, b);
  }

  lemma NameStarts(x: string, rest: string)
    requires IsName(x)
    ensures Starts(x + rest)
  {
    assert (x + rest)[0] == x[0];
  }

  lemma CharOf(c: char, v: string)
    ensures Char([c] + v, c) == Some(v)
  {
    assert ([c] + v)[1..] == v;
  }

  lemma DefHeaderOf(s: string, t: string, t1: string, name: string, u: string, p: string, params: seq<string>, c: string, b: string)
    requires Tag(s, "def") == Some(t) && Ws(t) == t1 && ParseVariable(t1) == Some((Variable(name), u))
    requires Char(u, '(') == Some(p) && VariableList(p) == (params, c) && Char(c, ')') == Some(b)
    ensures DefHeader(s) == Some(((name, params), b))
  {
  }

  lemma DefBodyOf(s: string, x: string, body: seq<Expr>, c: string, w: string)
    requires Token(s, '{') == Some(x) && ParseBlock(x) == (body, c) && Token(c, '}') == Some(w)
    ensures DefBody(s) == Some((body, w))
  {
  }

  /** The braced body reads back; the whitespace after the `}` is skipped. */
  lemma DefBodyRoundTrip(body: seq<Expr>, rest: string)
    requires AllPrintable(body)
    ensures DefBody("{" + ShowBlock(body) + "}" + rest) == Some((body, Ws(rest)))
  {
    var c := "}" + rest;
    var x := ShowBlock(body) + c;
    var s := "{" + x;
    Regroup("{", ShowBlock(body), "}", rest);
    BlockWs(body, c);
    TokenOf('{', x);
    BlockRoundTrip(body, c);
    WsStart(c);
    assert c[1..] == rest;
    DefBodyOf(s, x, body, c, Ws(rest));
  }

  /** `parse_function_def` reads a printed definition back. */
  lemma DefRoundTrip(name: string, params: seq<string>, body: seq<Expr>, rest: string)
    requires IsName(name) && AllNames(params) && AllPrintable(body)
    ensures ParseFunctionDef(ShowDef(name, params, body) + rest) == Some((FunctionDef(name, params, body), Ws(rest)))
  {
    var b := "{" + ShowBlock(body) + "}" + rest;
    DefText(name, params, body, rest);
    DefHeaderRoundTrip(name, params, b);
    DefBodyRoundTrip(body, rest);
  }

  // ---------------------------------------------------------------------
  // Programs

  /** A top-level item the printer covers: a printable statement or definition. */
  predicate Item(e: Expr)
  {
    Printable(e) || DefPrintable(e)
  }

  predicate AllItems(es: seq<Expr>)
  {
    forall i :: 0 <= i < |es| ==> Item(es[i])
  }

  /** A definition as it is written; any other item followed by `;`. */
  function ShowItem(e: Expr): string
  {
    if e.FunctionDef? then ShowDef(e.name, e.params, e.body) else Show(e) + ";"
  }

  function ShowProgram(es: seq<Expr>): string
  {
    if |es| == 0 then "" else ShowItem(es[0]) + ShowProgram(es[1..])
  }

  lemma TopLevelOfStatement(s: string, e: Expr, t: string)
    requires ParseFunctionDef(s).None? && ParseNotationDecl(s).None? && ParseStatement(s) == Some((e, t))
    ensures ParseTopLevelExpr(s) == Some((e, t))
  {
  }

  /** A statement whose expression is followed by `;` ends after the whitespace past it. */
  lemma StatementOf(s: string, e: Expr, u: string)
    requires ParseExpr(s) == Some((e, [';'] + u))
    ensures ParseStatement(s) == Some((e, Ws(u)))
  {
    SemicolonConsumed(u);
  }

  /** Printed statement text starts neither a definition nor a notation declaration. */
  lemma PrintedNoDecl(e: Expr, t: string)
    requires Printable(e) && EndsName(t)
    ensures ParseFunctionDef(Show(e) + t).None? && ParseNotationDecl(Show(e) + t).None?
  {
    HeadNotKeyword(e, t, "def");
    DefNone(Show(e) + t);
    HeadNotKeyword(e, t, "notation");
    NotationNone(Show(e) + t);
  }

  /** A printed statement and its `;` are one top-level item. */
  lemma StatementRoundTrip(e: Expr, rest: string)
    requires Printable(e)
    ensures ParseTopLevelExpr(Show(e) + ";" + rest) == Some((e, Ws(rest)))
  {
    Regroup3(Show(e), ";", rest);
    StatementAt(e, rest, Show(e) + (";" + rest));
  }

  /** The same fact about a variable equal to the text, which keeps the parsers folded. */
  lemma StatementAt(e: Expr, rest: string, s: string)
    requires Printable(e) && s == Show(e) + (";" + rest)
    ensures ParseTopLevelExpr(s) == Some((e, Ws(rest)))
  {
    var t := ";" + rest;
    assert ParseStatement(s) == Some((e, Ws(rest))) by {
      assert ParseExpr(s) == Some((e, [';'] + rest)) by {
        assert Closes(t);
        ExprRoundTrip(e, t);
        assert t == [';'] + rest;
      }
      StatementOf(s, e, rest);
    }
    assert ParseFunctionDef(s).None? && ParseNotationDecl(s).None? by {
      PrintedNoDecl(e, t);
    }
    TopLevelOfStatement(s, e, Ws(rest));
  }

  /** A printed item reads back as one top-level item. */
  lemma ItemRoundTrip(e: Expr, rest: string)
    requires Item(e)
    ensures ParseTopLevelExpr(ShowItem(e) + rest) == Some((e, Ws(rest)))
  {
    if e.FunctionDef? {
      DefRoundTrip(e.name, e.params, e.body, rest);
    } else {
      StatementRoundTrip(e, rest);
    }
  }

  /** A printed program, and text after it that `ws` leaves alone, are left alone by `ws`. */
  lemma ProgramWs(es: seq<Expr>, g: string)
    requires AllItems(es) && Ws(g) == g
    ensures Ws(ShowProgram(es) + g) == ShowProgram(es) + g
  {
    if |es| > 0 {
      var s := ShowProgram(es) + g;
      if es[0].FunctionDef? {
        assert s[0] == 'd';
      } else {
        ShowStarts(es[0]);
        assert s[0] == Show(es[0])[0];
      }
      WsStart(s);
    } else {
      assert ShowProgram(es) + g == g;
    }
  }

  lemma ProgramText(es: seq<Expr>, g: string)
    requires |es| > 0
    ensures ShowProgram(es) + g == ShowItem(es[0]) + (ShowProgram(es[1..]) + g)
  {
  }

  lemma ItemsOf(s: string, e: Expr, t: string, es: seq<Expr>, u: string)
    requires ParseTopLevelExpr(s) == Some((e, t)) && TopLevelItems(t) == (es, u)
    ensures TopLevelItems(s) == ([e] + es, u)
  {
  }

  /** The `many0` loop reads every printed item back and stops where no item starts. */
  lemma {:induction false} ItemsRoundTrip(es: seq<Expr>, g: string)
    requires AllItems(es) && Ws(g) == g && ParseTopLevelExpr(g).None?
    ensures TopLevelItems(ShowProgram(es) + g) == (es, g)
  {
    if |es| == 0 {
      assert ShowProgram(es) + g == g;
    } else {
      var y := ShowProgram(es[1..]) + g;
      ProgramText(es, g);
      ItemRoundTrip(es[0], y);
      ProgramWs(es[1..], g);
      ItemsRoundTrip(es[1..], g);
      ItemsOf(ShowItem(es[0]) + y, es[0], y, es[1..], g);
      Recompose(es);
    }
  }

  /** The empty text holds no item. */
  lemma NoItemAtEnd()
    ensures ParseTopLevelExpr("").None?
  {
    assert ParseFunctionDef("").None?;
    assert ParseNotationDecl("").None?;
    assert ParsePrimitive("").None?;
    assert ParseFunctionCall("").None?;
    assert ParseParenthesized("").None?;
    assert ParseTerm("").None?;
    assert ParseInfixExpr("").None?;
    assert ParseAssignment("").None?;
    assert ParseReturn("").None?;
    ExprNone("");
  }

  lemma EmptyTail(s: string)
    ensures s + "" == s
  {
  }

  /** The first printed item reads back, and the rest of the program follows it unchanged. */
  lemma FirstItem(es: seq<Expr>, g: string)
    requires |es| > 0 && AllItems(es) && Ws(g) == g
    ensures ParseTopLevelExpr(ShowProgram(es) + g) == Some((es[0], ShowProgram(es[1..]) + g))
  {
    var y := ShowProgram(es[1..]) + g;
    ProgramText(es, g);
    ItemRoundTrip(es[0], y);
    ProgramWs(es[1..], g);
  }

  /**
   * A printed program followed by text that `ws` leaves alone and where no item starts:
   * `all_consuming` accepts it exactly when nothing follows.
   */
  lemma ProgramFollowedBy(es: seq<Expr>, g: string)
    requires |es| > 0 && AllItems(es) && Ws(g) == g && ParseTopLevelExpr(g).None?
    ensures ParseProgram(ShowProgram(es) + g) == if g == [] then Some(es) else None
  {
    var s := ShowProgram(es) + g;
    var y := ShowProgram(es[1..]) + g;
    assert Ws(s) == s by {
      ProgramWs(es, g);
    }
    assert ParseTopLevelExpr(s) == Some((es[0], y)) by {
      FirstItem(es, g);
    }
    assert TopLevelItems(y) == (es[1..], g) by {
      ItemsRoundTrip(es[1..], g);
    }
    ProgramOf(s, es[0], y, es[1..], g);
    Recompose(es);
  }

  lemma ProgramOf(s: string, e: Expr, t: string, es: seq<Expr>, u: string)
    requires Ws(s) == s && ParseTopLevelExpr(s) == Some((e, t)) && TopLevelItems(t) == (es, u)
    ensures ParseProgram(s) == if Ws(u) == [] then Some([e] + es) else None
  {
  }

  /** `parse_program` reads a printed program back. */
  lemma ProgramRoundTrip(es: seq<Expr>)
    requires |es| > 0 && AllItems(es)
    ensures ParseProgram(ShowProgram(es)) == Some(es)
  {
    WsStart("");
    NoItemAtEnd();
    ProgramFollowedBy(es, "");
    EmptyTail(ShowProgram(es));
  }

  /** A printed program followed by a stray `)` or `}` is rejected as a whole. */
  lemma ProgramRejectsTrailing(es: seq<Expr>, g: string)
    requires |es| > 0 && AllItems(es)
    requires |g| > 0 && (g[0] == ')' || g[0] == '}')
    ensures ParseProgram(ShowProgram(es) + g) == None
  {
    WsStart(g);
    NoItemAtClose(g);
    ProgramFollowedBy(es, g);
  }

  /** The `many0` loop of `many1` stops only where no further item parses. */
  lemma {:induction false} TopLevelItemsMaximal(s: string)
    ensures ParseTopLevelExpr(TopLevelItems(s).1).None?
    decreases |s|
  {
    match ParseTopLevelExpr(s) {
      case None =>
      case Some((e, t)) =>
        TopLevelItemsMaximal(t);
    }
  }
}
