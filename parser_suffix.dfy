/**
 * Every parser of the new-generation grammar (src/parser/base.rs) that
 * succeeds leaves a suffix of its input: nom combinators only ever drop a
 * prefix. The mutually recursive parsers get a mutually recursive family of
 * lemmas whose `decreases` clauses follow those of the parsers.
 */
module BaseParserSuffix {
  import opened Wrappers
  import opened Text
  import opened Syntax
  import opened BaseParser
  import opened BaseParserFacts

  /** On success the rest is a suffix of the input. */
  predicate SuffixOf<T>(r: Parsed<T>, s: string)
  {
    r.Some? ==> IsSuffix(r.value.1, s)
  }

  lemma SliceIsSuffix(s: string, k: nat)
    requires k <= |s|
    ensures IsSuffix(s[k..], s)
  {
  }

  lemma SuffixRefl(s: string)
    ensures IsSuffix(s, s)
  {
  }

  lemma ConcatIsSuffix(a: string, t: string, s: string)
    requires s == a + t
    ensures IsSuffix(t, s)
  {
    assert s[|s| - |t|..] == t;
  }

  // ---------------------------------------------------------------------
  // Tokens and literals

  lemma TokenSuffix(s: string, c: char)
    ensures Token(s, c).Some? ==> IsSuffix(Token(s, c).value, s)
  {
    WsIsSuffix(s);
    var t := Ws(s);
    if Char(t, c).Some? {
      var u := t[1..];
      WsIsSuffix(u);
      SuffixTrans(Ws(u), u, t);
      SuffixTrans(Ws(u), t, s);
    }
  }

  lemma OptSemicolonSuffix(s: string)
    ensures IsSuffix(OptSemicolon(s), s)
  {
    TokenSuffix(s, ';');
    WsIsSuffix(s);
  }

  lemma KeywordSuffix(s: string, keyword: string)
    ensures Keyword(s, keyword).Some? ==> IsSuffix(Keyword(s, keyword).value, s)
  {
    WsIsSuffix(s);
    var t := Ws(s);
    if Tag(t, keyword).Some? {
      var u := Tag(t, keyword).value;
      ConcatIsSuffix(keyword, u, t);
      WsIsSuffix(u);
      SuffixTrans(Ws(u), u, t);
      SuffixTrans(Ws(u), t, s);
    }
  }

  lemma VariableSuffix(s: string)
    ensures SuffixOf(ParseVariable(s), s)
  {
    if ParseVariable(s).Some? {
      ConcatIsSuffix(ParseVariable(s).value.0.name, ParseVariable(s).value.1, s);
    }
  }

  lemma IntSuffix(s: string)
    ensures SuffixOf(ParseInt(s), s)
  {
  }

  lemma FloatSuffix(s: string)
    ensures SuffixOf(ParseFloat(s), s)
  {
  }

  lemma {:induction false} StringBodySuffix(s: string)
    ensures IsSuffix(StringBody(s).1, s)
    decreases |s|
  {
    if |s| == 0 {
    } else if s[0] != '"' && s[0] != '\\' {
      StringBodySuffix(s[1..]);
      SuffixTrans(StringBody(s[1..]).1, s[1..], s);
    } else if s[0] == '\\' && |s| >= 2 && Unescape(s[1]).Some? {
      StringBodySuffix(s[2..]);
      SuffixTrans(StringBody(s[2..]).1, s[2..], s);
    }
  }

  lemma StringSuffix(s: string)
    ensures SuffixOf(ParseString(s), s)
  {
    if |s| > 0 {
      StringBodySuffix(s[1..]);
      SuffixTrans(StringBody(s[1..]).1, s[1..], s);
    }
  }

  lemma BoolSuffix(s: string)
    ensures SuffixOf(ParseBool(s), s)
  {
    if Tag(s, "true").Some? {
      ConcatIsSuffix("true", Tag(s, "true").value, s);
    } else if Tag(s, "false").Some? {
      ConcatIsSuffix("false", Tag(s, "false").value, s);
    }
  }

  lemma PrimitiveSuffix(s: string)
    ensures SuffixOf(ParsePrimitive(s), s)
  {
    FloatSuffix(s);
    IntSuffix(s);
    StringSuffix(s);
    BoolSuffix(s);
  }

  lemma {:induction false} VariableListTailSuffix(s: string)
    ensures IsSuffix(VariableListTail(s).1, s)
    decreases |s|
  {
    TokenSuffix(s, ',');
    match Token(s, ',')
    case None =>
    case Some(t) =>
      VariableSuffix(t);
      match ParseVariable(t)
      case None =>
      case Some((v, u)) =>
        VariableListTailSuffix(u);
        SuffixTrans(VariableListTail(u).1, u, t);
        SuffixTrans(VariableListTail(u).1, t, s);
  }

  lemma VariableListSuffix(s: string)
    ensures IsSuffix(VariableList(s).1, s)
  {
    VariableSuffix(s);
    match ParseVariable(s)
    case None =>
    case Some((v, t)) =>
      VariableListTailSuffix(t);
      SuffixTrans(VariableListTail(t).1, t, s);
  }

  /** The closing `ws` of `delimited(ws, p, ws)` keeps the rest a suffix. */
  lemma TrailingSuffix<T>(r: Parsed<T>, s1: string, s: string)
    requires Progress(r, s1) && |s1| <= |s|
    requires SuffixOf(r, s1) && IsSuffix(s1, s)
    ensures SuffixOf(Trailing(r, s1, s), s)
  {
    if r.Some? {
      WsIsSuffix(r.value.1);
      SuffixTrans(Ws(r.value.1), r.value.1, s1);
      SuffixTrans(Ws(r.value.1), s1, s);
    }
  }

  // ---------------------------------------------------------------------
  // Expressions, calls, definitions and blocks

  lemma {:induction false} ExprSuffix(s: string)
    ensures SuffixOf(ParseExpr(s), s)
    decreases |s|, 4
  {
    var s1 := Ws(s);
    WsIsSuffix(s);
    AssignmentSuffix(s1);
    ReturnSuffix(s1);
    InfixExprSuffix(s1);
    var inner := Alt(ParseAssignment(s1), Alt(ParseReturn(s1), ParseInfixExpr(s1)));
    TrailingSuffix(inner, s1, s);
  }

  lemma {:induction false} AssignmentSuffix(s: string)
    ensures SuffixOf(ParseAssignment(s), s)
    decreases |s|, 1
  {
    if ParseAssignment(s).Some? {
      var t := ParseVariable(s).value.1;
      var u := Token(t, '=').value;
      var w := ParseExpr(u).value.1;
      assert ParseAssignment(s).value.1 == w;
      VariableSuffix(s);
      TokenSuffix(t, '=');
      ExprSuffix(u);
      SuffixTrans(w, u, t);
      SuffixTrans(w, t, s);
    }
  }

  lemma {:induction false} ReturnSuffix(s: string)
    ensures SuffixOf(ParseReturn(s), s)
    decreases |s|, 1
  {
    match Tag(s, "return")
    case None =>
    case Some(t) =>
      ConcatIsSuffix("return", t, s);
      WsIsSuffix(t);
      SuffixTrans(Ws(t), t, s);
      ExprSuffix(Ws(t));
      match ParseExpr(Ws(t))
      case None =>
      case Some((e, u)) =>
        SuffixTrans(u, Ws(t), s);
  }

  lemma {:induction false} InfixExprSuffix(s: string)
    ensures SuffixOf(ParseInfixExpr(s), s)
    decreases |s|, 3
  {
    TermSuffix(s);
    match ParseTerm(s)
    case None =>
    case Some((first, t)) =>
      InfixTailSuffix(t);
      SuffixTrans(InfixTail(t).1, t, s);
  }

  lemma {:induction false} InfixTailSuffix(s: string)
    ensures IsSuffix(InfixTail(s).1, s)
    decreases |s|, 0
  {
    var s1 := Ws(s);
    WsIsSuffix(s);
    match ParseInfixOp(s1)
    case None =>
    case Some((op, t)) =>
      ConcatIsSuffix(op, t, s1);
      WsIsSuffix(t);
      SuffixTrans(Ws(t), t, s1);
      SuffixTrans(Ws(t), s1, s);
      TermSuffix(Ws(t));
      match ParseTerm(Ws(t))
      case None =>
      case Some((e, u)) =>
        InfixTailSuffix(u);
        SuffixTrans(u, Ws(t), s);
        SuffixTrans(InfixTail(u).1, u, s);
  }

  lemma {:induction false} TermSuffix(s: string)
    ensures SuffixOf(ParseTerm(s), s)
    decreases |s|, 2
  {
    var s1 := Ws(s);
    WsIsSuffix(s);
    PrimitiveSuffix(s1);
    FunctionCallSuffix(s1);
    VariableSuffix(s1);
    ParenthesizedSuffix(s1);
    var inner := Alt(ParsePrimitive(s1), Alt(ParseFunctionCall(s1), Alt(ParseVariable(s1), ParseParenthesized(s1))));
    TrailingSuffix(inner, s1, s);
  }

  /** The closing parenthesis after a suffix of a suffix leaves a suffix. */
  lemma CloseParenSuffix(u: string, t: string, s: string)
    requires IsSuffix(u, t) && IsSuffix(t, s)
    ensures Char(u, ')').Some? ==> IsSuffix(Char(u, ')').value, s)
  {
    SuffixTrans(u, t, s);
    if Char(u, ')').Some? {
      SuffixTrans(u[1..], u, s);
    }
  }

  lemma {:induction false} ParenthesizedSuffix(s: string)
    ensures SuffixOf(ParseParenthesized(s), s)
    decreases |s|, 1
  {
    if Char(s, '(').Some? {
      var t := Char(s, '(').value;
      ExprSuffix(t);
      if ParseExpr(t).Some? {
        CloseParenSuffix(ParseExpr(t).value.1, t, s);
      }
    }
  }

  lemma {:induction false} FunctionCallSuffix(s: string)
    ensures SuffixOf(ParseFunctionCall(s), s)
    decreases |s|, 1
  {
    VariableSuffix(s);
    match ParseVariable(s)
    case None =>
    case Some((f, t)) =>
      CallArgumentsSuffix(t);
      match CallArguments(t)
      case None =>
      case Some((args, u)) =>
        SuffixTrans(u, t, s);
  }

  lemma {:induction false} CallArgumentsSuffix(s: string)
    ensures SuffixOf(CallArguments(s), s)
    decreases |s|, 0
  {
    match Char(s, '(')
    case None =>
    case Some(t) =>
      ExprListSuffix(t);
      var u := ExprList(t).1;
      SuffixTrans(u, t, s);
      if Char(u, ')').Some? {
        SuffixTrans(u[1..], u, s);
      }
  }

  lemma {:induction false} ExprListSuffix(s: string)
    ensures IsSuffix(ExprList(s).1, s)
    decreases |s|, 5
  {
    ExprSuffix(s);
    match ParseExpr(s)
    case None =>
    case Some((e, t)) =>
      ExprListTailSuffix(t);
      SuffixTrans(ExprListTail(t).1, t, s);
  }

  lemma {:induction false} ExprListTailSuffix(s: string)
    ensures IsSuffix(ExprListTail(s).1, s)
    decreases |s|, 0
  {
    TokenSuffix(s, ',');
    match Token(s, ',')
    case None =>
    case Some(t) =>
      ExprSuffix(t);
      match ParseExpr(t)
      case None =>
      case Some((e, u)) =>
        ExprListTailSuffix(u);
        SuffixTrans(u, t, s);
        SuffixTrans(ExprListTail(u).1, u, s);
  }

  lemma DefHeaderSuffix(s: string)
    ensures SuffixOf(DefHeader(s), s)
  {
    if DefHeader(s).Some? {
      var t := Tag(s, "def").value;
      var u := ParseVariable(Ws(t)).value.1;
      var u1 := u[1..];
      var w := VariableList(u1).1;
      assert DefHeader(s).value.1 == w[1..];
      ConcatIsSuffix("def", t, s);
      WsIsSuffix(t);
      SuffixTrans(Ws(t), t, s);
      VariableSuffix(Ws(t));
      SuffixTrans(u, Ws(t), s);
      SuffixTrans(u1, u, s);
      VariableListSuffix(u1);
      SuffixTrans(w, u1, s);
      SuffixTrans(w[1..], w, s);
    }
  }

  lemma {:induction false} FunctionDefSuffix(s: string)
    ensures SuffixOf(ParseFunctionDef(s), s)
    decreases |s|, 1
  {
    DefHeaderSuffix(s);
    match DefHeader(s)
    case None =>
    case Some((header, t)) =>
      DefBodySuffix(t);
      match DefBody(t)
      case None =>
      case Some((body, u)) =>
        SuffixTrans(u, t, s);
  }

  lemma {:induction false} DefBodySuffix(s: string)
    ensures SuffixOf(DefBody(s), s)
    decreases |s|, 0
  {
    TokenSuffix(s, '{');
    match Token(s, '{')
    case None =>
    case Some(t) =>
      BlockSuffix(t);
      var u := ParseBlock(t).1;
      SuffixTrans(u, t, s);
      TokenSuffix(u, '}');
      if Token(u, '}').Some? {
        SuffixTrans(Token(u, '}').value, u, s);
      }
  }

  lemma {:induction false} BlockSuffix(s: string)
    ensures IsSuffix(ParseBlock(s).1, s)
    decreases |s|, 6
  {
    FunctionDefSuffix(s);
    ExprSuffix(s);
    match Alt(ParseFunctionDef(s), ParseExpr(s))
    case None =>
    case Some((e, t)) =>
      OptSemicolonSuffix(t);
      var u := OptSemicolon(t);
      SuffixTrans(u, t, s);
      BlockSuffix(u);
      SuffixTrans(ParseBlock(u).1, u, s);
  }

  // ---------------------------------------------------------------------
  // Notation declarations and programs

  lemma WithClauseSuffix(s: string)
    ensures SuffixOf(WithClause(s), s)
  {
    KeywordSuffix(s, "with");
    match Keyword(s, "with")
    case None =>
    case Some(t) =>
      VariableListSuffix(t);
      SuffixTrans(VariableList(t).1, t, s);
  }

  lemma PrecedenceClauseSuffix(s: string)
    ensures SuffixOf(PrecedenceClause(s), s)
  {
    KeywordSuffix(s, "precedence");
    match Keyword(s, "precedence")
    case None =>
    case Some(t) =>
      IntSuffix(t);
      if ParseInt(t).Some? {
        SuffixTrans(ParseInt(t).value.1, t, s);
      }
  }

  lemma AssociativityClauseSuffix(s: string)
    ensures SuffixOf(AssociativityClause(s), s)
  {
    KeywordSuffix(s, "associativity");
    match Keyword(s, "associativity")
    case None =>
    case Some(t) =>
      if Tag(t, "left").Some? {
        ConcatIsSuffix("left", Tag(t, "left").value, t);
        SuffixTrans(Tag(t, "left").value, t, s);
      } else if Tag(t, "right").Some? {
        ConcatIsSuffix("right", Tag(t, "right").value, t);
        SuffixTrans(Tag(t, "right").value, t, s);
      } else if Tag(t, "none").Some? {
        ConcatIsSuffix("none", Tag(t, "none").value, t);
        SuffixTrans(Tag(t, "none").value, t, s);
      }
  }

  lemma QuotedPatternSuffix(s: string)
    ensures SuffixOf(QuotedPattern(s), s)
  {
    match Char(s, '"')
    case None =>
    case Some(t) =>
      match Find(t, "\"")
      case None =>
      case Some(k) =>
        assert IsSuffix(t[k + 1..], s);
  }

  /** What an optional `with` clause leaves is a suffix of its input. */
  lemma OptWithSuffix(u: string)
    ensures IsSuffix(match WithClause(u) case Some(x) => x.1 case None => u, u)
  {
    WithClauseSuffix(u);
  }

  /** What an optional `precedence` clause leaves is a suffix of its input. */
  lemma OptPrecedenceSuffix(u: string)
    ensures IsSuffix(match PrecedenceClause(u) case Some((p, w)) => w case None => u, u)
  {
    PrecedenceClauseSuffix(u);
  }

  /** What an optional `associativity` clause leaves is a suffix of its input. */
  lemma OptAssociativitySuffix(u: string)
    ensures IsSuffix(match AssociativityClause(u) case Some(x) => x.1 case None => u, u)
  {
    AssociativityClauseSuffix(u);
  }

  lemma NotationPatternSuffix(s: string)
    ensures SuffixOf(ParseNotationPattern(s), s)
  {
    QuotedPatternSuffix(s);
    if QuotedPattern(s).Some? {
      var u := QuotedPattern(s).value.1;
      var u1 := match WithClause(u) case Some(x) => x.1 case None => u;
      var u2 := match PrecedenceClause(u1) case Some((p, w)) => w case None => u1;
      var u3 := match AssociativityClause(u2) case Some(x) => x.1 case None => u2;
      OptWithSuffix(u);
      OptPrecedenceSuffix(u1);
      OptAssociativitySuffix(u2);
      SuffixTrans(u2, u1, u);
      SuffixTrans(u3, u2, u);
      SuffixTrans(u3, u, s);
      assert ParseNotationPattern(s).value.1 == u3;
    }
  }

  lemma NotationDeclSuffix(s: string)
    ensures SuffixOf(ParseNotationDecl(s), s)
  {
    if ParseNotationDecl(s).Some? {
      var t := Tag(s, "notation").value;
      var u := ParseNotationPattern(Ws(t)).value.1;
      var w := Keyword(u, ":=").value;
      var x := ParseExpr(w).value.1;
      assert ParseNotationDecl(s).value.1 == x;
      ConcatIsSuffix("notation", t, s);
      WsIsSuffix(t);
      SuffixTrans(Ws(t), t, s);
      NotationPatternSuffix(Ws(t));
      SuffixTrans(u, Ws(t), s);
      KeywordSuffix(u, ":=");
      SuffixTrans(w, u, s);
      ExprSuffix(w);
      SuffixTrans(x, w, s);
    }
  }

  lemma StatementSuffix(s: string)
    ensures SuffixOf(ParseStatement(s), s)
  {
    ExprSuffix(s);
    if ParseExpr(s).Some? {
      var t := ParseExpr(s).value.1;
      OptSemicolonSuffix(t);
      SuffixTrans(OptSemicolon(t), t, s);
    }
  }

  lemma TopLevelExprSuffix(s: string)
    ensures SuffixOf(ParseTopLevelExpr(s), s)
  {
    FunctionDefSuffix(s);
    NotationDeclSuffix(s);
    StatementSuffix(s);
  }

  lemma {:induction false} TopLevelItemsSuffix(s: string)
    ensures IsSuffix(TopLevelItems(s).1, s)
    decreases |s|
  {
    TopLevelExprSuffix(s);
    match ParseTopLevelExpr(s)
    case None =>
    case Some((e, t)) =>
      TopLevelItemsSuffix(t);
      SuffixTrans(TopLevelItems(t).1, t, s);
  }
}
