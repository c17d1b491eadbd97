/**
 * The notation rewriter (src/parser/notation.rs): notation declarations are
 * pulled out of the program into a table from pattern text to (variables,
 * expansion), and every call that matches a pattern is replaced by the
 * expansion with the captured arguments substituted for the variables.
 *
 * The table is a Rust `HashMap`, and `expand_expr` tries its entries in the
 * map's iteration order and takes the first match. That order is not
 * specified, so here it is a parameter `order`: the keys in the order the
 * map visits them, each exactly once (`Enumerates`). The lemmas about a
 * single lookup allow any order.
 */
module Notation {
  import opened Wrappers
  import opened Text
  import opened Syntax
  import opened Bindings

  /** Pattern text to the declared variables and the expansion. */
  type Table = map<string, (seq<string>, Expr)>

  // ---------------------------------------------------------------------
  // extract_notations (notation.rs:12-26)

  /** The table after reading the declarations of `ast` in order: a later declaration of a pattern replaces an earlier one. */
  function TableOf(ast: seq<Expr>): Table
    decreases |ast|
  {
    if |ast| == 0 then map[]
    else
      var t := TableOf(ast[..|ast| - 1]);
      var e := ast[|ast| - 1];
      if e.NotationDecl? then t[e.notation.pattern := (e.notation.variables, e.expansion)] else t
  }

  /** The expressions of `ast` that are not notation declarations, in order. */
  function NonDecls(ast: seq<Expr>): (rest: seq<Expr>)
    ensures forall i :: 0 <= i < |rest| ==> !rest[i].NotationDecl?
    decreases |ast|
  {
    if |ast| == 0 then []
    else
      var e := ast[|ast| - 1];
      NonDecls(ast[..|ast| - 1]) + (if e.NotationDecl? then [] else [e])
  }

  /** The `for` loop that fills the table and the list of remaining expressions. */
  method ExtractNotations(ast: seq<Expr>) returns (notations: Table, rest: seq<Expr>)
    ensures notations == TableOf(ast) && rest == NonDecls(ast)
  {
    notations := map[];
    rest := [];
    for i := 0 to |ast|
      invariant notations == TableOf(ast[..i]) && rest == NonDecls(ast[..i])
    {
      assert ast[..i + 1][..i] == ast[..i];
      var e := ast[i];
      if e.NotationDecl? {
        notations := notations[e.notation.pattern := (e.notation.variables, e.expansion)];
      } else {
        rest := rest + [e];
      }
    }
    assert ast[..|ast|] == ast;
  }

  /** A pattern is in the table exactly when some declaration declares it. */
  lemma {:induction false} TableKeys(ast: seq<Expr>, p: string)
    ensures p in TableOf(ast) <==> exists i :: 0 <= i < |ast| && ast[i].NotationDecl? && ast[i].notation.pattern == p
    decreases |ast|
  {
    if |ast| > 0 {
      var init := ast[..|ast| - 1];
      TableKeys(init, p);
      if p in TableOf(init) {
        var i :| 0 <= i < |init| && init[i].NotationDecl? && init[i].notation.pattern == p;
        assert ast[i] == init[i];
      }
      if exists i :: 0 <= i < |ast| && ast[i].NotationDecl? && ast[i].notation.pattern == p {
        var i :| 0 <= i < |ast| && ast[i].NotationDecl? && ast[i].notation.pattern == p;
        if i < |ast| - 1 {
          assert init[i] == ast[i];
        }
      }
    }
  }

  /** The entry of a pattern comes from its last declaration. */
  lemma {:induction false} TableLastWins(ast: seq<Expr>, i: nat)
    requires i < |ast| && ast[i].NotationDecl?
    requires forall j :: i < j < |ast| ==> !(ast[j].NotationDecl? && ast[j].notation.pattern == ast[i].notation.pattern)
    ensures ast[i].notation.pattern in TableOf(ast)
    ensures TableOf(ast)[ast[i].notation.pattern] == (ast[i].notation.variables, ast[i].expansion)
    decreases |ast|
  {
    if i < |ast| - 1 {
      var init := ast[..|ast| - 1];
      assert init[i] == ast[i];
      forall j | i < j < |init|
        ensures !(init[j].NotationDecl? && init[j].notation.pattern == init[i].notation.pattern)
      {
        assert init[j] == ast[j];
      }
      TableLastWins(init, i);
    }
  }

  /** Dropping the declarations commutes with concatenation, so the order of the rest is kept. */
  lemma {:induction false} NonDeclsAppend(a: seq<Expr>, b: seq<Expr>)
    ensures NonDecls(a + b) == NonDecls(a) + NonDecls(b)
    decreases |b|
  {
    if |b| == 0 {
      assert a + b == a;
    } else {
      var b0 := b[..|b| - 1];
      assert (a + b)[..|a + b| - 1] == a + b0;
      NonDeclsAppend(a, b0);
    }
  }

  /** An expression is kept exactly when it occurs in the program and is no declaration. */
  lemma {:induction false} NonDeclsMembers(ast: seq<Expr>, x: Expr)
    ensures x in NonDecls(ast) <==> x in ast && !x.NotationDecl?
    decreases |ast|
  {
    if |ast| > 0 {
      var init := ast[..|ast| - 1];
      NonDeclsMembers(init, x);
      assert ast == init + [ast[|ast| - 1]];
    }
  }

  /** A program with no declarations is kept as it is. */
  lemma {:induction false} NonDeclsNone(ast: seq<Expr>)
    requires forall i :: 0 <= i < |ast| ==> !ast[i].NotationDecl?
    ensures NonDecls(ast) == ast
    ensures TableOf(ast) == map[]
    decreases |ast|
  {
    if |ast| > 0 {
      NonDeclsNone(ast[..|ast| - 1]);
      assert ast == ast[..|ast| - 1] + [ast[|ast| - 1]];
    }
  }

  // ---------------------------------------------------------------------
  // match_notation (notation.rs:70-97)

  /** The arithmetic symbols a pattern may place between its variables; they skip an argument. */
  predicate IsSkipSymbol(part: string)
  {
    part == "+" || part == "-" || part == "*" || part == "/"
  }

  /**
   * The loop over the arguments, given the pattern parts after the head:
   * a declared variable captures its argument, a skip symbol drops it, and
   * any other part fails the match. The variable test comes first.
   */
  function Captured(args: seq<Expr>, parts: seq<string>, vars: seq<string>): Option<seq<Expr>>
    requires |parts| == |args|
    decreases |args|
  {
    if |args| == 0 then Some([])
    else
      var n := |args| - 1;
      match Captured(args[..n], parts[..n], vars)
      case None => None
      case Some(c) =>
        if parts[n] in vars then Some(c + [args[n]])
        else if IsSkipSymbol(parts[n]) then Some(c)
        else None
  }

  /** `match_notation(func, args, pattern, vars)`. */
  function Matches(callee: Expr, args: seq<Expr>, pattern: string, vars: seq<string>): Option<seq<Expr>>
  {
    var parts := SplitWhitespace(pattern);
    if |parts| != |args| + 1 then None
    else if !(callee.Variable? && callee.name == parts[0]) then None
    else Captured(args, parts[1..], vars)
  }

  /** The imperative matcher: the early exits and the `push` loop. */
  method MatchNotation(callee: Expr, args: seq<Expr>, pattern: string, vars: seq<string>) returns (r: Option<seq<Expr>>)
    ensures r == Matches(callee, args, pattern, vars)
  {
    var parts := SplitWhitespace(pattern);
    if |parts| != |args| + 1 {
      return None;
    }
    if !callee.Variable? || callee.name != parts[0] {
      return None;
    }
    var matched := [];
    for i := 0 to |args|
      invariant Captured(args[..i], parts[1..][..i], vars) == Some(matched)
    {
      assert args[..i + 1][..i] == args[..i];
      assert parts[1..][..i + 1][..i] == parts[1..][..i];
      if parts[i + 1] in vars {
        matched := matched + [args[i]];
      } else if !IsSkipSymbol(parts[i + 1]) {
        CapturedPrefixNone(args, parts[1..], vars, i + 1);
        return None;
      }
    }
    assert args[..|args|] == args;
    assert parts[1..][..|args|] == parts[1..];
    r := Some(matched);
  }

  /** A failure on a prefix of the arguments is a failure on all of them. */
  lemma {:induction false} CapturedPrefixNone(args: seq<Expr>, parts: seq<string>, vars: seq<string>, k: nat)
    requires |parts| == |args| && k <= |args|
    requires Captured(args[..k], parts[..k], vars).None?
    ensures Captured(args, parts, vars).None?
    decreases |args| - k
  {
    if k < |args| {
      var n := k + 1;
      assert args[..n][..k] == args[..k];
      assert parts[..n][..k] == parts[..k];
      CapturedPrefixNone(args, parts, vars, n);
    } else {
      assert args[..k] == args && parts[..k] == parts;
    }
  }

  /** Each part after the head is a declared variable or a skip symbol. */
  predicate PartsAccepted(parts: seq<string>, vars: seq<string>)
  {
    forall i :: 0 <= i < |parts| ==> parts[i] in vars || IsSkipSymbol(parts[i])
  }

  lemma {:induction false} CapturedSome(args: seq<Expr>, parts: seq<string>, vars: seq<string>)
    requires |parts| == |args|
    ensures Captured(args, parts, vars).Some? <==> PartsAccepted(parts, vars)
    ensures Captured(args, parts, vars).Some? ==> |Captured(args, parts, vars).value| <= |args|
    decreases |args|
  {
    if |args| > 0 {
      var n := |args| - 1;
      CapturedSome(args[..n], parts[..n], vars);
      assert forall i :: 0 <= i < n ==> parts[..n][i] == parts[i];
    }
  }

  /**
   * The match succeeds exactly when the pattern has one part more than
   * there are arguments, the callee is the variable named by the first
   * part, and every other part is a declared variable or a skip symbol.
   */
  lemma MatchesIff(callee: Expr, args: seq<Expr>, pattern: string, vars: seq<string>)
    ensures var parts := SplitWhitespace(pattern);
      Matches(callee, args, pattern, vars).Some? <==>
        |parts| == |args| + 1 && callee == Variable(parts[0]) && PartsAccepted(parts[1..], vars)
  {
    var parts := SplitWhitespace(pattern);
    if |parts| == |args| + 1 {
      CapturedSome(args, parts[1..], vars);
    }
  }

  /** When every part after the head is a variable, all arguments are captured in order. */
  lemma {:induction false} CapturedAllVariables(args: seq<Expr>, parts: seq<string>, vars: seq<string>)
    requires |parts| == |args|
    requires forall i :: 0 <= i < |parts| ==> parts[i] in vars
    ensures Captured(args, parts, vars) == Some(args)
    decreases |args|
  {
    if |args| > 0 {
      var n := |args| - 1;
      var ps := parts[..n];
      assert forall i :: 0 <= i < |ps| ==> ps[i] == parts[i];
      CapturedAllVariables(args[..n], ps, vars);
      assert parts[n] in vars;
      assert Captured(args, parts, vars) == Some(args[..n] + [args[n]]);
      assert args[..n] + [args[n]] == args;
    }
  }

  /** When every part after the head is a skip symbol not declared as a variable, nothing is captured. */
  lemma {:induction false} CapturedAllSymbols(args: seq<Expr>, parts: seq<string>, vars: seq<string>)
    requires |parts| == |args|
    requires forall i :: 0 <= i < |parts| ==> IsSkipSymbol(parts[i]) && parts[i] !in vars
    ensures Captured(args, parts, vars) == Some([])
    decreases |args|
  {
    if |args| > 0 {
      CapturedAllSymbols(args[..|args| - 1], parts[..|args| - 1], vars);
    }
  }

  // ---------------------------------------------------------------------
  // substitute_expr (notation.rs:99-108)

  /** Bound variables are replaced; only calls are entered; every other node is copied. */
  function Substitute(e: Expr, env: map<string, Expr>): Expr
    decreases e
  {
    match e
    case Variable(name) => if name in env then env[name] else e
    case FunctionCall(callee, args) =>
      FunctionCall(Substitute(callee, env), seq(|args|, i requires 0 <= i < |args| => Substitute(args[i], env)))
    case _ => e
  }

  /** The variables substitution can reach: those under calls only. */
  predicate Mentions(e: Expr, name: string)
    decreases e
  {
    match e
    case Variable(n) => n == name
    case FunctionCall(callee, args) => Mentions(callee, name) || exists i :: 0 <= i < |args| && Mentions(args[i], name)
    case _ => false
  }

  /** An expression that mentions no bound name is left unchanged. */
  lemma {:induction false} SubstituteUnbound(e: Expr, env: map<string, Expr>)
    requires forall name :: name in env ==> !Mentions(e, name)
    ensures Substitute(e, env) == e
    decreases e
  {
    match e
    case Variable(n) =>
    case FunctionCall(callee, args) =>
      SubstituteUnbound(callee, env);
      forall i | 0 <= i < |args|
        ensures Substitute(args[i], env) == args[i]
      {
        forall name | name in env
          ensures !Mentions(args[i], name)
        {
          assert !Mentions(e, name);
        }
        SubstituteUnbound(args[i], env);
      }
    case _ =>
  }

  /** With nothing bound, substitution is the identity. */
  lemma SubstituteEmpty(e: Expr)
    ensures Substitute(e, map[]) == e
  {
    SubstituteUnbound(e, map[]);
  }

  /** Substitution does not look inside an infix node: `x + x` keeps its `x`s. */
  lemma SubstituteSkipsInfix(x: string, v: Expr)
    ensures Substitute(InfixOp(Variable(x), "+", Variable(x)), map[x := v]) == InfixOp(Variable(x), "+", Variable(x))
  {
  }

  // ---------------------------------------------------------------------
  // expand_expr and expand_notations (notation.rs:28-67)

  /** The expansion a call receives from one table entry, if that entry matches it. */
  function Rewrite(table: Table, key: string, callee: Expr, args: seq<Expr>): Option<Expr>
  {
    if key !in table then None
    else
      var (vars, expansion) := table[key];
      match Matches(callee, args, key, vars)
      case None => None
      case Some(captured) => Some(Substitute(expansion, Bind(map[], vars, captured)))
  }

  /** The loop over the table: the first entry in iteration order that matches. */
  function FirstRewrite(table: Table, order: seq<string>, callee: Expr, args: seq<Expr>): Option<Expr>
    decreases |order|
  {
    if |order| == 0 then None
    else
      match Rewrite(table, order[0], callee, args)
      case Some(r) => Some(r)
      case None => FirstRewrite(table, order[1..], callee, args)
  }

  /**
   * `expand_expr`, bottom-up: the callee and the arguments of a call are
   * expanded before the call is matched, and a substituted result is not
   * expanded again. Function bodies and `return` operands are entered;
   * every other node is returned as it is.
   */
  function Expand(e: Expr, table: Table, order: seq<string>): Expr
    decreases e
  {
    match e
    case FunctionCall(callee, args) =>
      var c := Expand(callee, table, order);
      var a := seq(|args|, i requires 0 <= i < |args| => Expand(args[i], table, order));
      (match FirstRewrite(table, order, c, a)
       case Some(r) => r
       case None => FunctionCall(c, a))
    case FunctionDef(name, params, body) =>
      FunctionDef(name, params, seq(|body|, i requires 0 <= i < |body| => Expand(body[i], table, order)))
    case Return(x) => Return(Expand(x, table, order))
    case _ => e
  }

  /**
   * `expand_expr` exactly as written: its `FunctionDef` arm expands the
   * boxed body, but the grammar always makes that body a `Block`, which
   * falls into the catch-all arm, so nothing inside a function body is
   * expanded.
   */
  function ExpandAsWritten(e: Expr, table: Table, order: seq<string>): Expr
    decreases e
  {
    match e
    case FunctionCall(callee, args) =>
      var c := ExpandAsWritten(callee, table, order);
      var a := seq(|args|, i requires 0 <= i < |args| => ExpandAsWritten(args[i], table, order));
      (match FirstRewrite(table, order, c, a)
       case Some(r) => r
       case None => FunctionCall(c, a))
    case FunctionDef(_, _, _) => e
    case Return(x) => Return(ExpandAsWritten(x, table, order))
    case _ => e
  }

  /** The recursive, looping `expand_expr`, with the early `return` of the first match. */
  method ExpandExpr(e: Expr, table: Table, order: seq<string>) returns (r: Expr)
    ensures r == Expand(e, table, order)
    decreases e, 1
  {
    match e
    case FunctionCall(callee, args) =>
      var c := ExpandExpr(callee, table, order);
      var a := ExpandNotations(args, table, order);
      var m := RewriteCall(table, order, c, a);
      if m.Some? {
        r := m.value;
      } else {
        r := FunctionCall(c, a);
      }
    case FunctionDef(name, params, body) =>
      var b := ExpandNotations(body, table, order);
      r := FunctionDef(name, params, b);
    case Return(x) =>
      var y := ExpandExpr(x, table, order);
      r := Return(y);
    case _ =>
      r := e;
  }

  /**
   * `expand_notations`: `expand_expr` over every expression, in order; the
   * same map expands the arguments of a call and the body of a definition.
   */
  method ExpandNotations(es: seq<Expr>, table: Table, order: seq<string>) returns (r: seq<Expr>)
    ensures r == seq(|es|, i requires 0 <= i < |es| => Expand(es[i], table, order))
    decreases es, 0
  {
    r := [];
    for i := 0 to |es|
      invariant r == seq(i, j requires 0 <= j < i => Expand(es[j], table, order))
    {
      var x := ExpandExpr(es[i], table, order);
      r := r + [x];
    }
  }

  /** The `for (pattern, (vars, expansion)) in notations` loop with its early return. */
  method RewriteCall(table: Table, order: seq<string>, c: Expr, a: seq<Expr>) returns (r: Option<Expr>)
    ensures r == FirstRewrite(table, order, c, a)
  {
    for k := 0 to |order|
      invariant FirstRewrite(table, order[k..], c, a) == FirstRewrite(table, order, c, a)
    {
      assert order[k..][1..] == order[k + 1..];
      var key := order[k];
      assert order[k..][0] == key;
      if key in table {
        var (vars, expansion) := table[key];
        var m := MatchNotation(c, a, key, vars);
        if m.Some? {
          var env := BindParams(map[], vars, m.value);
          assert Rewrite(table, key, c, a) == Some(Substitute(expansion, env));
          return Some(Substitute(expansion, env));
        }
      }
    }
    assert order[|order|..] == [];
    r := None;
  }

  /** With an empty table, expansion changes nothing. */
  lemma {:induction false} ExpandEmptyTable(e: Expr, order: seq<string>)
    ensures Expand(e, map[], order) == e
    decreases e
  {
    match e
    case FunctionCall(callee, args) =>
      ExpandEmptyTable(callee, order);
      forall i | 0 <= i < |args|
        ensures Expand(args[i], map[], order) == args[i]
      {
        ExpandEmptyTable(args[i], order);
      }
      assert seq(|args|, i requires 0 <= i < |args| => Expand(args[i], map[], order)) == args;
      NoRewriteInEmptyTable(order, callee, args);
    case FunctionDef(_, _, body) =>
      forall i | 0 <= i < |body|
        ensures Expand(body[i], map[], order) == body[i]
      {
        ExpandEmptyTable(body[i], order);
      }
      assert seq(|body|, i requires 0 <= i < |body| => Expand(body[i], map[], order)) == body;
    case Return(x) =>
      ExpandEmptyTable(x, order);
    case _ =>
  }

  lemma {:induction false} NoRewriteInEmptyTable(order: seq<string>, callee: Expr, args: seq<Expr>)
    ensures FirstRewrite(map[], order, callee, args).None?
    decreases |order|
  {
    if |order| > 0 {
      NoRewriteInEmptyTable(order[1..], callee, args);
    }
  }

  /** The table entries that rewrite a given call. */
  predicate Rewrites(table: Table, key: string, callee: Expr, args: seq<Expr>)
  {
    Rewrite(table, key, callee, args).Some?
  }

  /** When exactly one entry matches and the order lists it, that entry's expansion is chosen. */
  lemma {:induction false} FirstRewriteUnique(table: Table, order: seq<string>, callee: Expr, args: seq<Expr>, key: string)
    requires Rewrites(table, key, callee, args) && key in order
    requires forall k :: k in table && k != key ==> !Rewrites(table, k, callee, args)
    ensures FirstRewrite(table, order, callee, args) == Rewrite(table, key, callee, args)
    decreases |order|
  {
    if order[0] != key {
      assert key in order[1..];
      FirstRewriteUnique(table, order[1..], callee, args, key);
    }
  }

  /** When no entry matches, no rewrite happens, whatever the order. */
  lemma {:induction false} FirstRewriteNone(table: Table, order: seq<string>, callee: Expr, args: seq<Expr>)
    requires forall k :: k in table ==> !Rewrites(table, k, callee, args)
    ensures FirstRewrite(table, order, callee, args).None?
    decreases |order|
  {
    if |order| > 0 {
      FirstRewriteNone(table, order[1..], callee, args);
    }
  }

  /**
   * The rewrite of one call does not depend on the iteration order as long
   * as at most one entry matches it and both orders list every key.
   */
  lemma FirstRewriteOrderFree(table: Table, o1: seq<string>, o2: seq<string>, callee: Expr, args: seq<Expr>)
    requires forall k :: k in table ==> k in o1 && k in o2
    requires forall k1, k2 :: k1 in table && k2 in table && Rewrites(table, k1, callee, args) && Rewrites(table, k2, callee, args) ==> k1 == k2
    ensures FirstRewrite(table, o1, callee, args) == FirstRewrite(table, o2, callee, args)
  {
    if k :| k in table && Rewrites(table, k, callee, args) {
      FirstRewriteUnique(table, o1, callee, args, k);
      FirstRewriteUnique(table, o2, callee, args, k);
    } else {
      FirstRewriteNone(table, o1, callee, args);
      FirstRewriteNone(table, o2, callee, args);
    }
  }

  /**
   * A call is rewritten exactly when some key the order lists rewrites it,
   * and then by one of those keys.
   */
  lemma {:induction false} FirstRewriteFound(table: Table, order: seq<string>, callee: Expr, args: seq<Expr>)
    ensures FirstRewrite(table, order, callee, args).Some? ==>
      exists k :: k in order && Rewrites(table, k, callee, args) &&
        FirstRewrite(table, order, callee, args) == Rewrite(table, k, callee, args)
    ensures (exists k :: k in order && Rewrites(table, k, callee, args)) ==>
      FirstRewrite(table, order, callee, args).Some?
    decreases |order|
  {
    if |order| > 0 {
      FirstRewriteFound(table, order[1..], callee, args);
      if Rewrite(table, order[0], callee, args).None? {
        forall k | k in order && Rewrites(table, k, callee, args)
          ensures k in order[1..]
        {
          assert k != order[0];
        }
        if FirstRewrite(table, order, callee, args).Some? {
          var k :| k in order[1..] && Rewrites(table, k, callee, args) &&
            FirstRewrite(table, order[1..], callee, args) == Rewrite(table, k, callee, args);
          assert k in order;
        }
      }
    }
  }

  /** `order` lists every key of `table` exactly once, as one iteration over a `HashMap` does. */
  predicate Enumerates(order: seq<string>, table: Table)
  {
    (forall k :: k in table ==> k in order) &&
    (forall k :: k in order ==> k in table) &&
    (forall i, j :: 0 <= i < j < |order| ==> order[i] != order[j])
  }

  /** Under an iteration order of the table, a call is rewritten exactly when some declared pattern rewrites it. */
  lemma RewrittenIffDeclared(table: Table, order: seq<string>, callee: Expr, args: seq<Expr>)
    requires Enumerates(order, table)
    ensures FirstRewrite(table, order, callee, args).Some? <==> exists k :: k in table && Rewrites(table, k, callee, args)
  {
    FirstRewriteFound(table, order, callee, args);
  }

  // ---------------------------------------------------------------------
  // apply_notations (notation.rs:6-10, 28-35)

  /** What `apply_notations` returns: the non-declarations, each expanded against the table. */
  function Applied(ast: seq<Expr>, order: seq<string>): seq<Expr>
    requires Enumerates(order, TableOf(ast))
  {
    var rest := NonDecls(ast);
    seq(|rest|, i requires 0 <= i < |rest| => Expand(rest[i], TableOf(ast), order))
  }

  /** `apply_notations`, which never fails. */
  method ApplyNotations(ast: seq<Expr>, order: seq<string>) returns (r: Result<seq<Expr>, string>)
    requires Enumerates(order, TableOf(ast))
    ensures r == Ok(Applied(ast, order))
  {
    var notations, rest := ExtractNotations(ast);
    var expanded := ExpandNotations(rest, notations, order);
    return Ok(expanded);
  }

  /** A program without declarations comes out of the rewriter unchanged. */
  lemma AppliedWithoutDecls(ast: seq<Expr>, order: seq<string>)
    requires forall i :: 0 <= i < |ast| ==> !ast[i].NotationDecl?
    requires Enumerates(order, TableOf(ast))
    ensures Applied(ast, order) == ast
  {
    NonDeclsNone(ast);
    forall i | 0 <= i < |ast|
      ensures Expand(ast[i], map[], order) == ast[i]
    {
      ExpandEmptyTable(ast[i], order);
    }
  }

  /** The corrected expansion enters every statement of a function body. */
  lemma ExpandEntersBody(name: string, params: seq<string>, body: seq<Expr>, table: Table, order: seq<string>, i: nat)
    requires i < |body|
    ensures Expand(FunctionDef(name, params, body), table, order).body[i] == Expand(body[i], table, order)
  {
  }

  /** As written, a function definition is never changed by expansion. */
  lemma AsWrittenSkipsBody(name: string, params: seq<string>, body: seq<Expr>, table: Table, order: seq<string>)
    ensures ExpandAsWritten(FunctionDef(name, params, body), table, order) == FunctionDef(name, params, body)
  {
  }

  /** `SplitWhitespace("sq x")`, one step at a time. */
  lemma SquarePatternParts()
    ensures SplitWhitespace("sq x") == ["sq", "x"]
  {
    WordThenRest("sq", " x");
    SpaceThenRest(' ', "x");
    WordThenRest("x", "");
    assert "sq" + " x" == "sq x" && [' '] + "x" == " x" && "x" + "" == "x";
  }

  /** The table of `notation "sq x" with x := mul(x, x)`. */
  function SquareTable(): Table
  {
    map["sq x" := (["x"], FunctionCall(Variable("mul"), [Variable("x"), Variable("x")]))]
  }

  /** `sq(a)` matches the pattern `sq x`, capturing `a`. */
  lemma SquareMatches(a: Expr)
    ensures Matches(Variable("sq"), [a], "sq x", ["x"]) == Some([a])
  {
    SquarePatternParts();
    var parts := ["x"];
    assert ["sq", "x"][1..] == parts;
    CapturedAllVariables([a], parts, ["x"]);
  }

  /** The table's entry rewrites `sq(a)` to `mul(a, a)`. */
  lemma SquareRewrite(a: Expr)
    ensures Rewrite(SquareTable(), "sq x", Variable("sq"), [a]) ==
      Some(FunctionCall(Variable("mul"), [a, a]))
  {
    SquareRewriteAt(SquareTable(), "sq x", a);
  }

  lemma SquareRewriteAt(table: Table, key: string, a: Expr)
    requires table == SquareTable() && key == "sq x"
    ensures Rewrite(table, key, Variable("sq"), [a]) == Some(FunctionCall(Variable("mul"), [a, a]))
  {
    SquareMatches(a);
    assert table[key] == (["x"], FunctionCall(Variable("mul"), [Variable("x"), Variable("x")]));
    var env := Bind(map[], ["x"], [a]);
    assert env == map["x" := a];
    var xs := [Variable("x"), Variable("x")];
    assert seq(|xs|, i requires 0 <= i < |xs| => Substitute(xs[i], env)) == [a, a];
  }

  /** `sq(2)` rewrites to `mul(2, 2)` at top level. */
  lemma SquareCallRewrites()
    ensures Expand(FunctionCall(Variable("sq"), [Expr.Primitive(Int(2))]), SquareTable(), ["sq x"]) ==
      FunctionCall(Variable("mul"), [Expr.Primitive(Int(2)), Expr.Primitive(Int(2))])
  {
    var args := [Expr.Primitive(Int(2))];
    assert seq(|args|, i requires 0 <= i < |args| => Expand(args[i], SquareTable(), ["sq x"])) == args;
    SquareRewrite(Expr.Primitive(Int(2)));
  }

  /**
   * The discrepancy: inside `def f() { sq(2) }` the corrected expansion
   * rewrites the call, while the code as written leaves the body alone.
   */
  lemma BodyExpansionDiffers()
    ensures var body := [FunctionCall(Variable("sq"), [Expr.Primitive(Int(2))])];
      ExpandAsWritten(FunctionDef("f", [], body), SquareTable(), ["sq x"]) == FunctionDef("f", [], body) &&
      Expand(FunctionDef("f", [], body), SquareTable(), ["sq x"]) ==
        FunctionDef("f", [], [FunctionCall(Variable("mul"), [Expr.Primitive(Int(2)), Expr.Primitive(Int(2))])])
  {
    SquareCallRewrites();
    var body := [FunctionCall(Variable("sq"), [Expr.Primitive(Int(2))])];
    assert seq(|body|, i requires 0 <= i < |body| => Expand(body[i], SquareTable(), ["sq x"])) ==
      [FunctionCall(Variable("mul"), [Expr.Primitive(Int(2)), Expr.Primitive(Int(2))])];
  }
}
