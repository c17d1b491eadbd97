/**
 * Round trip of a notation declaration through the new-generation grammar
 * (src/parser/base.rs:251-303): `notation "p" with x,y:=e` reads back as the
 * declaration of pattern `p` with variables `x`, `y`, no precedence,
 * associativity `None` and expansion `e`, and at top level it is one item.
 */
module BaseParserNotationRoundTrip {
  import opened Wrappers
  import opened Text
  import opened Syntax
  import opened BaseParser
  import opened BaseParserFacts
  import opened BaseParserRoundTrip

  /** A pattern the printer can quote: `take_until("\"")` ends it at the next quote. */
  predicate Quotable(p: string)
  {
    '"' !in p
  }

  /** `notation "p" with x,y:=e`; an empty variable list is printed as `with :=`. */
  function ShowNotation(p: string, vars: seq<string>, e: Expr): string
  {
    "notation \"" + p + "\" with " + ShowParams(vars) + ":=" + Show(e)
  }

  // ---------------------------------------------------------------------
  // Text facts, kept apart from the parser facts they feed

  lemma NotationText(p: string, vars: seq<string>, e: Expr, rest: string)
    ensures ShowNotation(p, vars, e) + rest ==
      "notation" + ([' '] + (['"'] + (p + (['"'] + ([' '] + ("with" + ([' '] + (ShowParams(vars) + (":=" + (Show(e) + rest))))))))))
  {
  }

  lemma WordOf(w: string, t: string)
    ensures Tag(w + t, w) == Some(t)
  {
    assert (w + t)[..|w|] == w;
  }

  lemma WordNotAt(s: string, w: string)
    requires |s| > 0 && |w| > 0 && s[0] != w[0]
    ensures Tag(s, w).None?
  {
    if |w| <= |s| {
      assert s[..|w|][0] == s[0];
    }
  }

  lemma NotStartsWith(s: string, w: string)
    requires |s| > 0 && |w| > 0 && s[0] != w[0]
    ensures !StartsWith(s, w)
  {
    if |w| <= |s| {
      assert s[..|w|][0] == s[0];
    }
  }

  /** One space before text that `ws` leaves alone is all that `ws` skips. */
  lemma SpaceThen(u: string)
    requires |u| > 0 && !IsMultispace(u[0]) && u[0] != '/'
    ensures Ws([' '] + u) == u
  {
    var t := [' '] + u;
    assert t[1..] == u;
    assert Span(t, IsMultispace) == 1;
    WsStart(u);
  }

  /** The quoted pattern is read up to its closing quote. */
  lemma QuotedOf(p: string, u: string)
    requires Quotable(p)
    ensures QuotedPattern(['"'] + (p + (['"'] + u))) == Some((p, u))
  {
    var v := p + (['"'] + u);
    CharOf('"', v);
    Regroup3(p, "\"", u);
    FindQuote(p, u);
    assert v[..|p|] == p && v[|p| + 1..] == u;
  }

  /** A printed name list starts with a name or ends at once. */
  lemma ListStart(vars: seq<string>, c: string)
    requires AllNames(vars) && ListEnd(c)
    ensures |ShowParams(vars) + c| > 0
    ensures !IsMultispace((ShowParams(vars) + c)[0]) && (ShowParams(vars) + c)[0] != '/'
  {
    if |vars| == 0 {
      EmptyParamsText(vars, c);
    } else {
      ShowParamsSplit(vars, c);
      assert (ShowParams(vars) + c)[0] == vars[0][0];
    }
  }

  // ---------------------------------------------------------------------
  // One step of each parser, over abstract text

  lemma KeywordOf(s: string, w: string, t: string)
    requires Ws(s) == w + t
    ensures Keyword(s, w) == Some(Ws(t))
  {
    WordOf(w, t);
  }

  lemma KeywordNotAt(s: string, w: string)
    requires Ws(s) == s && |s| > 0 && |w| > 0 && s[0] != w[0]
    ensures Keyword(s, w).None?
  {
    WordNotAt(s, w);
  }

  lemma WithOf(s: string, t: string, vars: seq<string>, c: string)
    requires Keyword(s, "with") == Some(t) && VariableList(t) == (vars, c)
    ensures WithClause(s) == Some((vars, c))
  {
  }

  lemma ClausesNone(c: string)
    requires Ws(c) == c && |c| > 0 && c[0] == ':'
    ensures PrecedenceClause(c).None? && AssociativityClause(c).None?
  {
    KeywordNotAt(c, "precedence");
    KeywordNotAt(c, "associativity");
  }

  lemma PatternOf(s: string, p: string, u: string, vars: seq<string>, c: string)
    requires QuotedPattern(s) == Some((p, u))
    requires WithClause(u) == Some((vars, c)) && PrecedenceClause(c).None? && AssociativityClause(c).None?
    ensures ParseNotationPattern(s) == Some((NotationPattern(p, vars, None, NoAssoc), c))
  {
  }

  lemma DeclOf(s: string, t: string, pat: NotationPattern, c: string, y: string, e: Expr, rest: string)
    requires Tag(s, "notation") == Some(t) && ParseNotationPattern(Ws(t)) == Some((pat, c))
    requires Keyword(c, ":=") == Some(y) && ParseExpr(y) == Some((e, rest))
    ensures ParseNotationDecl(s) == Some((NotationDecl(pat, e), rest))
  {
  }

  lemma TopLevelOfDecl(s: string, d: Expr, rest: string)
    requires ParseFunctionDef(s).None? && ParseNotationDecl(s) == Some((d, rest))
    ensures ParseTopLevelExpr(s) == Some((d, rest))
  {
  }

  /** `ws ":=" ws` before a printed expansion takes just the `:=`. */
  lemma AssignStep(e: Expr, rest: string)
    requires Printable(e)
    ensures Keyword(":=" + (Show(e) + rest), ":=") == Some(Show(e) + rest)
  {
    var y := Show(e) + rest;
    WsStart(":=" + y);
    ShowThen(e, rest);
    WsStart(y);
    KeywordOf(":=" + y, ":=", y);
  }

  // ---------------------------------------------------------------------
  // The round trip

  /** The quoted pattern and its `with` clause read back, and the text from `:=` on is left. */
  lemma PatternRoundTrip(p: string, vars: seq<string>, c: string)
    requires Quotable(p) && AllNames(vars) && ListEnd(c) && Ws(c) == c
    requires c[0] == ':'
    ensures ParseNotationPattern(['"'] + (p + (['"'] + ([' '] + ("with" + ([' '] + (ShowParams(vars) + c))))))) ==
      Some((NotationPattern(p, vars, None, NoAssoc), c))
  {
    var w0 := ShowParams(vars) + c;
    var w1 := [' '] + w0;
    var u := [' '] + ("with" + w1);
    var v := p + (['"'] + u);
    var s := ['"'] + v;
    QuotedOf(p, u);
    SpaceThen("with" + w1);
    KeywordOf(u, "with", w1);
    ListStart(vars, c);
    SpaceThen(w0);
    ParamsRoundTrip(vars, c);
    WithOf(u, w0, vars, c);
    ClausesNone(c);
    PatternOf(s, p, u, vars, c);
  }

  /** `parse_notation_decl` reads a printed declaration back and leaves what follows it. */
  lemma NotationDeclRoundTrip(p: string, vars: seq<string>, e: Expr, rest: string)
    requires Quotable(p) && AllNames(vars) && Printable(e) && Closes(rest)
    ensures ParseNotationDecl(ShowNotation(p, vars, e) + rest) ==
      Some((NotationDecl(NotationPattern(p, vars, None, NoAssoc), e), rest))
  {
    var y := Show(e) + rest;
    var c := ":=" + y;
    var t1 := ['"'] + (p + (['"'] + ([' '] + ("with" + ([' '] + (ShowParams(vars) + c))))));
    var t := [' '] + t1;
    var s := ShowNotation(p, vars, e) + rest;
    var pat := NotationPattern(p, vars, None, NoAssoc);
    assert Tag(s, "notation") == Some(t) by {
      NotationText(p, vars, e, rest);
      WordOf("notation", t);
    }
    assert ParseNotationPattern(Ws(t)) == Some((pat, c)) by {
      SpaceThen(t1);
      WsStart(c);
      PatternRoundTrip(p, vars, c);
    }
    assert Keyword(c, ":=") == Some(y) by {
      AssignStep(e, rest);
    }
    assert ParseExpr(y) == Some((e, rest)) by {
      ExprRoundTrip(e, rest);
    }
    DeclOf(s, t, pat, c, y, e, rest);
  }

  /** At top level a printed declaration is one item: `def` does not start it. */
  lemma NotationItemRoundTrip(p: string, vars: seq<string>, e: Expr, rest: string)
    requires Quotable(p) && AllNames(vars) && Printable(e) && Closes(rest)
    ensures ParseTopLevelExpr(ShowNotation(p, vars, e) + rest) ==
      Some((NotationDecl(NotationPattern(p, vars, None, NoAssoc), e), rest))
  {
    var s := ShowNotation(p, vars, e) + rest;
    NotationDeclRoundTrip(p, vars, e, rest);
    NotationText(p, vars, e, rest);
    NotStartsWith(s, "def");
    DefNone(s);
    TopLevelOfDecl(s, NotationDecl(NotationPattern(p, vars, None, NoAssoc), e), rest);
  }
}
