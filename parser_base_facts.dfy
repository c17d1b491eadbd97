/**
 * Properties of the new-generation grammar: what `ws` skips, the literal
 * round trips, the left fold of infix chains, keyword prefixes without word
 * boundaries and the defaults of notation clauses.
 */
module BaseParserFacts {
  import opened Wrappers
  import opened Text
  import opened Syntax
  import opened BaseParser

  // ---------------------------------------------------------------------
  // Whitespace and comments

  /** `ws` only ever drops a prefix of its input. */
  lemma {:induction false} WsIsSuffix(s: string)
    ensures IsSuffix(Ws(s), s)
    decreases |s|
  {
    match WsItem(s)
    case None =>
    case Some(t) =>
      WsItemIsSuffix(s);
      WsIsSuffix(t);
      SuffixTrans(Ws(t), t, s);
  }

  lemma WsItemIsSuffix(s: string)
    requires WsItem(s).Some?
    ensures IsSuffix(WsItem(s).value, s)
  {
  }

  /** What `ws` leaves behind starts with no whitespace and no complete comment. */
  lemma {:induction false} WsStops(s: string)
    ensures WsItem(Ws(s)).None?
    decreases |s|
  {
    match WsItem(s)
    case None =>
    case Some(t) => WsStops(t);
  }

  /** A character that is neither whitespace nor `/` starts no whitespace item. */
  lemma WsStopsAt(s: string)
    requires |s| > 0 && !IsMultispace(s[0]) && s[0] != '/'
    ensures Ws(s) == s
  {
    assert !StartsWith(s, "//") && !StartsWith(s, "/*");
  }

  /** A text without newlines holds no `\n` to find. */
  lemma NoNewline(c: string)
    requires '\n' !in c
    ensures Find(c, "\n").None?
  {
    forall i | 0 <= i
      ensures !OccursAt(c, i, "\n")
    {
      if i + 1 <= |c| {
        assert c[i..i + 1][0] == c[i];
      }
    }
  }

  /** A `//` comment that never reaches a newline is not whitespace: `take_until` fails. */
  lemma UnterminatedLineComment(c: string)
    requires '\n' !in c
    ensures Ws("//" + c) == "//" + c
  {
    var s := "//" + c;
    assert s[2..] == c;
    assert StartsWith(s, "//");
    NoNewline(c);
  }

  /** `Find` of a newline in `c + t`, where `c` holds none and `t` starts with one. */
  lemma FindAfterFree(c: string, t: string)
    requires '\n' !in c && |t| > 0 && t[0] == '\n'
    ensures Find(c + t, "\n") == Some(|c|)
  {
    var s := c + t;
    assert OccursAt(s, |c|, "\n") by { assert s[|c|..|c| + 1] == [t[0]]; }
    forall i | 0 <= i < |c|
      ensures !OccursAt(s, i, "\n")
    {
      assert s[i..i + 1][0] == s[i] == c[i];
    }
  }

  /** A `//` comment followed by a newline is skipped together with the newline. */
  lemma LineCommentSkipped(c: string, rest: string)
    requires '\n' !in c
    ensures Ws("//" + c + "\n" + rest) == Ws("\n" + rest)
  {
    var s := "//" + c + "\n" + rest;
    assert StartsWith(s, "//") && Span(s, IsMultispace) == 0;
    assert s[2..] == c + ("\n" + rest);
    FindAfterFree(c, "\n" + rest);
    assert s[2 + |c|..] == "\n" + rest;
    assert WsItem(s) == Some("\n" + rest);
  }

  /** Whitespace before a line comment and the comment itself are skipped. */
  lemma CommentThenCode()
    ensures Ws("  // c\nx") == "x"
  {
    var s := "  // c\nx";
    assert Span(s, IsMultispace) == 2;
    assert s[2..] == "//" + " c" + "\n" + "x";
    LineCommentSkipped(" c", "x");
    var t := "\n" + "x";
    assert Span(t, IsMultispace) == 1;
    assert t[1..] == "x";
    WsStopsAt("x");
  }

  /**
   * A program whose last statement is followed by an unterminated line
   * comment is rejected: the comment is neither whitespace nor a statement.
   * The steps below each evaluate one parser on one fixed input.
   */
  lemma TrailingLineCommentRejected()
    ensures ParseProgram("x; // note") == None
  {
    NoteWsStops();
    NoteTopLevel();
    OpenCommentIsNoItem();
    OpenCommentWs();
    assert TopLevelItems("// note") == ([], "// note");
  }

  lemma NoteWsStops()
    ensures Ws("x; // note") == "x; // note"
    ensures Ws("; // note") == "; // note"
  {
    WsStopsAt("x; // note");
    WsStopsAt("; // note");
  }

  lemma OpenCommentWs()
    ensures Ws("// note") == "// note"
    ensures Ws(" // note") == "// note"
  {
    UnterminatedLineComment(" note");
    assert "//" + " note" == "// note";
    var t := " // note";
    assert Span(t, IsMultispace) == 1;
    assert t[1..] == "// note";
  }

  /**
   * A character that ends a name and starts no whitespace, operator or
   * argument list, such as `;`.
   */
  predicate Stopper(ch: char)
  {
    !IsIdentChar(ch) && !IsMultispace(ch) && !IsOperatorChar(ch) && ch != '('
  }

  /** A one-character name followed by a non-identifier character. */
  lemma VariableStops(c: char, r: string)
    requires IsIdentStart(c) && (|r| == 0 || !IsIdentChar(r[0]))
    ensures ParseVariable([c] + r) == Some((Variable([c]), r))
  {
    var s := [c] + r;
    assert s[1..] == r;
    assert s[..1] == [c];
  }

  /**
   * The optional exponent of a float is the longest exponent prefix: what it
   * takes is an exponent and no digit follows it, and when it takes nothing,
   * no prefix of the text is an exponent.
   */
  lemma ExponentLengthLongest(s: string)
    ensures ExponentLength(s) > 0 ==> IsExponent(s[..ExponentLength(s)]) && (ExponentLength(s) < |s| ==> !IsDigit(s[ExponentLength(s)]))
    ensures ExponentLength(s) == 0 ==> forall k :: 0 < k <= |s| ==> !IsExponent(s[..k])
  {
  }

  /** Text that starts like no literal is not a primitive. */
  lemma PrimitiveNone(s: string)
    requires |s| > 0 && !IsDigit(s[0]) && s[0] != '-' && s[0] != '"' && s[0] != 't' && s[0] != 'f'
    ensures ParsePrimitive(s).None?
  {
    assert ParseFloat(s).None?;
    assert !StartsWith(s, "true") && !StartsWith(s, "false");
  }

  /** A name before a stopper is a variable term, not a call. */
  lemma TermOfName(c: char, r: string)
    requires IsIdentStart(c) && c != 't' && c != 'f'
    requires |r| > 0 && Stopper(r[0])
    ensures ParseTerm([c] + r) == Some((Variable([c]), r))
  {
    var s := [c] + r;
    WsStopsAt(s);
    VariableStops(c, r);
    PrimitiveNone(s);
    assert CallArguments(r).None?;
    WsStopsAt(r);
  }

  /** No operator follows a stopper, so an infix chain ends there. */
  lemma InfixTailStops(r: string)
    requires |r| > 0 && Stopper(r[0])
    ensures InfixTail(r) == ([], r)
  {
    WsStopsAt(r);
  }

  /** A name before a stopper is a whole expression: no `=`, no infix operator. */
  lemma ExprOfName(c: char, r: string)
    requires IsIdentStart(c) && c != 't' && c != 'f' && c != 'r'
    requires |r| > 0 && Stopper(r[0])
    ensures ParseExpr([c] + r) == Some((Variable([c]), r))
  {
    var s := [c] + r;
    WsStopsAt(s);
    WsStopsAt(r);
    TermOfName(c, r);
    InfixTailStops(r);
    assert ParseInfixExpr(s) == Some((Variable([c]), r));
    VariableStops(c, r);
    assert Token(r, '=').None?;
    assert ParseAssignment(s).None?;
    assert !StartsWith(s, "return");
    assert ParseReturn(s).None?;
  }

  /** A name before a stopper is a statement: it is neither a definition nor a notation. */
  lemma StatementOfName(c: char, r: string)
    requires IsIdentStart(c) && c != 't' && c != 'f' && c != 'r' && c != 'd' && c != 'n'
    requires |r| > 0 && Stopper(r[0])
    ensures ParseTopLevelExpr([c] + r) == Some((Variable([c]), OptSemicolon(r)))
  {
    var s := [c] + r;
    ExprOfName(c, r);
    assert !StartsWith(s, "def");
    assert DefHeader(s).None?;
    assert !StartsWith(s, "notation");
    assert ParseNotationDecl(s).None?;
  }

  /** The optional `;` after a statement, and the whitespace after it, are consumed. */
  lemma SemicolonConsumed(u: string)
    ensures OptSemicolon([';'] + u) == Ws(u)
  {
    var t := [';'] + u;
    WsStopsAt(t);
    assert t[1..] == u;
  }

  lemma NoteTopLevel()
    ensures ParseTopLevelExpr("x; // note") == Some((Variable("x"), "// note"))
  {
    NoteTopLevelAt("x; // note");
  }

  /** The same fact about a variable equal to the text, which keeps the parsers folded. */
  lemma NoteTopLevelAt(s: string)
    requires s == "x; // note"
    ensures ParseTopLevelExpr(s) == Some((Variable("x"), "// note"))
  {
    var r := [';'] + " // note";
    assert s == ['x'] + r;
    StatementOfName('x', r);
    SemicolonConsumed(" // note");
    OpenCommentWs();
  }

  lemma OpenCommentIsNoItem()
    ensures ParseTopLevelExpr("// note").None?
  {
    OpenCommentIsNoExpr();
    assert DefHeader("// note").None?;
    assert ParseNotationDecl("// note").None?;
  }

  lemma OpenCommentIsNoExpr()
    ensures ParseExpr("// note").None?
  {
    OpenCommentWs();
    OpenCommentIsNoTerm();
    OpenCommentIsNoVariable();
    assert ParseAssignment("// note").None?;
    assert ParseReturn("// note").None?;
    assert ParseInfixExpr("// note").None?;
  }

  lemma OpenCommentIsNoTerm()
    ensures ParseTerm("// note").None?
  {
    OpenCommentWs();
    OpenCommentIsNoVariable();
    assert ParsePrimitive("// note").None?;
    assert ParseFunctionCall("// note").None?;
    assert ParseParenthesized("// note").None?;
  }

  lemma OpenCommentIsNoVariable()
    ensures ParseVariable("// note").None?
  {
  }

  // ---------------------------------------------------------------------
  // Integer literals

  /** `parse_int` reads back the decimal rendering of a natural number. */
  lemma IntRoundTrip(n: nat, rest: string)
    requires |rest| == 0 || !IsDigit(rest[0])
    ensures ParseInt(NatToString(n) + rest) == Some((n, rest))
  {
    var d := NatToString(n);
    SpanPrefix(d, rest, IsDigit);
    assert (d + rest)[..|d|] == d;
    assert (d + rest)[|d|..] == rest;
    DecimalOfNatToString(n);
  }

  /** With a leading `-` the value is negated. */
  lemma NegativeIntRoundTrip(n: nat, rest: string)
    requires |rest| == 0 || !IsDigit(rest[0])
    ensures ParseInt("-" + NatToString(n) + rest) == Some((-(n as int), rest))
  {
    var d := NatToString(n);
    assert ("-" + d + rest)[1..] == d + rest;
    SpanPrefix(d, rest, IsDigit);
    assert (d + rest)[..|d|] == d;
    assert (d + rest)[|d|..] == rest;
    DecimalOfNatToString(n);
  }

  /** Without a digit after the optional sign there is no integer. */
  lemma IntNeedsDigit(s: string)
    requires |s| == 0 || (!IsDigit(s[0]) && (s[0] != '-' || |s| == 1 || !IsDigit(s[1])))
    ensures ParseInt(s).None?
  {
  }

  // ---------------------------------------------------------------------
  // String literals

  /** How a writer of string literals spells one character: the five escapes, or the character itself. */
  function EscapeChar(c: char): string
  {
    if c == '"' then "\\\""
    else if c == '\\' then "\\\\"
    else if c == '\n' then "\\n"
    else if c == '\r' then "\\r"
    else if c == '\t' then "\\t"
    else [c]
  }

  /** The escaping of a whole text, character by character. */
  function Escape(x: string): string
  {
    if |x| == 0 then "" else EscapeChar(x[0]) + Escape(x[1..])
  }

  /** The body loop decodes one escaped character and carries on with the rest. */
  lemma StringBodyStep(c: char, tail: string)
    ensures StringBody(EscapeChar(c) + tail) == ([c] + StringBody(tail).0, StringBody(tail).1)
  {
    var s := EscapeChar(c) + tail;
    if c == '"' || c == '\\' || c == '\n' || c == '\r' || c == '\t' {
      assert s == ['\\', s[1]] + tail;
      assert s[2..] == tail;
      assert Unescape(s[1]) == Some(c);
    } else {
      assert s == [c] + tail;
      assert s[1..] == tail;
    }
  }

  /** The body loop decodes an escaped text and stops at the closing quote. */
  lemma {:induction false} StringBodyOfEscape(x: string, rest: string)
    ensures StringBody(Escape(x) + "\"" + rest) == (x, "\"" + rest)
    decreases |x|
  {
    if |x| == 0 {
      assert Escape(x) + "\"" + rest == "\"" + rest;
    } else {
      var tail := Escape(x[1..]) + "\"" + rest;
      StringBodyOfEscape(x[1..], rest);
      StringBodyStep(x[0], tail);
      assert Escape(x) + "\"" + rest == EscapeChar(x[0]) + tail;
      assert [x[0]] + x[1..] == x;
    }
  }

  /** Quoting an escaped text parses back to the text itself. */
  lemma StringRoundTrip(x: string, rest: string)
    ensures ParseString("\"" + Escape(x) + "\"" + rest) == Some((x, rest))
  {
    var s := "\"" + Escape(x) + "\"" + rest;
    assert s[1..] == Escape(x) + "\"" + rest;
    StringBodyOfEscape(x, rest);
    assert ("\"" + rest)[1..] == rest;
  }

  /** A backslash that starts none of the five escapes makes the literal fail. */
  lemma {:induction false} BadEscapeRejected(x: string, c: char, rest: string)
    requires Unescape(c).None?
    ensures ParseString("\"" + Escape(x) + "\\" + [c] + rest) == None
  {
    var s := "\"" + Escape(x) + "\\" + [c] + rest;
    assert s[1..] == Escape(x) + "\\" + [c] + rest;
    StringBodyStopsAtBadEscape(x, c, rest);
  }

  lemma {:induction false} StringBodyStopsAtBadEscape(x: string, c: char, rest: string)
    requires Unescape(c).None?
    ensures StringBody(Escape(x) + "\\" + [c] + rest).1 == "\\" + [c] + rest
    decreases |x|
  {
    if |x| == 0 {
      var s := Escape(x) + "\\" + [c] + rest;
      assert s == "\\" + [c] + rest;
      assert s[1] == c;
    } else {
      var tail := Escape(x[1..]) + "\\" + [c] + rest;
      StringBodyStopsAtBadEscape(x[1..], c, rest);
      StringBodyStep(x[0], tail);
      assert Escape(x) + "\\" + [c] + rest == EscapeChar(x[0]) + tail;
    }
  }

  // ---------------------------------------------------------------------
  // Keywords, terms and infix chains

  /** `true` is a bare prefix: a term starting with it is the literal, whatever follows. */
  lemma TrueIsPrefix(rest: string)
    ensures ParseTerm("true" + rest) == Some((Expr.Primitive(Bool(true)), Ws(rest)))
  {
    var s := "true" + rest;
    WsStopsAt(s);
    assert s[..4] == "true" && s[4..] == rest;
    assert ParseBool(s) == Some((true, rest));
    assert ParseFloat(s).None? by { assert Span(s, IsDigit) == 0; }
    assert ParseInt(s).None? by { assert Span(s, IsDigit) == 0; }
    assert ParsePrimitive(s) == Some((Expr.Primitive(Bool(true)), rest));
  }

  /** So `trueX` is the literal `true` with `X` left over, not a variable. */
  lemma TrueXIsBool()
    ensures ParseTerm("trueX") == Some((Expr.Primitive(Bool(true)), "X"))
  {
    TrueIsPrefix("X");
    WsStopsAt("X");
    assert "true" + "X" == "trueX";
  }

  /** The fold makes the last operator the outermost node. */
  lemma {:induction false} FoldInfixSnoc(acc: Expr, ps: seq<(string, Expr)>, op: string, t: Expr)
    ensures FoldInfix(acc, ps + [(op, t)]) == InfixOp(FoldInfix(acc, ps), op, t)
    decreases |ps|
  {
    if |ps| == 0 {
      assert ps + [(op, t)] == [(op, t)];
    } else {
      assert (ps + [(op, t)])[1..] == ps[1..] + [(op, t)];
      FoldInfixSnoc(InfixOp(acc, ps[0].0, ps[0].1), ps[1..], op, t);
    }
  }

  /** Two operators nest to the left: `t0 op1 t1 op2 t2` is `(t0 op1 t1) op2 t2`. */
  lemma FoldInfixTwo(t0: Expr, op1: string, t1: Expr, op2: string, t2: Expr)
    ensures FoldInfix(t0, [(op1, t1), (op2, t2)]) == InfixOp(InfixOp(t0, op1, t1), op2, t2)
  {
    FoldInfixSnoc(t0, [(op1, t1)], op2, t2);
    assert [(op1, t1)] + [(op2, t2)] == [(op1, t1), (op2, t2)];
  }

  /** An operator is a maximal run: `+-` is one operator, not two. */
  lemma OperatorIsMaximal()
    ensures ParseInfixOp("+- x") == Some(("+-", " x"))
  {
    var s := "+- x";
    assert Span(s, IsOperatorChar) == 2 by {
      assert s[1..] == "- x";
      assert s[2..] == " x";
    }
    assert s[..2] == "+-" && s[2..] == " x";
  }

  // ---------------------------------------------------------------------
  // Notation declarations

  /** `as i32` does not change a value that already fits in 32 bits. */
  lemma AsI32InRange(n: int)
    requires -0x8000_0000 <= n < 0x8000_0000
    ensures AsI32(n) == n
  {
  }

  /** One past the largest `i32` wraps to the smallest. */
  lemma AsI32Wraps()
    ensures AsI32(0x8000_0000) == -0x8000_0000
    ensures AsI32(0x1_0000_0005) == 5
  {
  }

  /** Omitted clauses give no variables, no precedence and associativity `None`. */
  lemma NotationPatternDefaults(p: string, rest: string)
    requires '"' !in p
    requires WithClause(rest).None? && PrecedenceClause(rest).None? && AssociativityClause(rest).None?
    ensures ParseNotationPattern("\"" + p + "\"" + rest) == Some((NotationPattern(p, [], None, NoAssoc), rest))
  {
    var s := "\"" + p + "\"" + rest;
    var t := s[1..];
    assert t == p + "\"" + rest;
    FindQuote(p, rest);
    assert t[..|p|] == p;
    assert t[|p| + 1..] == rest;
    assert QuotedPattern(s) == Some((p, rest));
  }

  lemma FindQuote(p: string, rest: string)
    requires '"' !in p
    ensures Find(p + "\"" + rest, "\"") == Some(|p|)
  {
    var s := p + "\"" + rest;
    assert OccursAt(s, |p|, "\"") by { assert s[|p|..|p| + 1] == "\""; }
    forall i | 0 <= i < |p|
      ensures !OccursAt(s, i, "\"")
    {
      assert s[i..i + 1][0] == s[i] == p[i];
    }
  }
}
