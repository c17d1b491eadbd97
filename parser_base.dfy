/**
 * The new-generation grammar (src/parser/base.rs): nom combinators over
 * `&str`, written as functions from the input to `Some((value, rest))` on
 * success and `None` where nom returns `Err::Error`. Every alternative is
 * backtracking, as nom's `alt`, `opt` and `many0` are. The error context
 * chain (`VerboseError`) is not modelled.
 */
module BaseParser {
  import opened Wrappers
  import opened Text
  import opened Syntax

  /** A successful parse: the value and the unconsumed rest of the input. */
  type Parsed<T> = Option<(T, string)>

  /** On success the rest is no longer than the input. */
  predicate Rest<T>(r: Parsed<T>, s: string)
  {
    r.Some? ==> |r.value.1| <= |s|
  }

  /** On success at least one character was consumed. */
  predicate Progress<T>(r: Parsed<T>, s: string)
  {
    r.Some? ==> |r.value.1| < |s|
  }

  /** nom's `alt` on two parsers already applied to the same input. */
  function Alt<T>(first: Parsed<T>, second: Parsed<T>): Parsed<T>
  {
    if first.Some? then first else second
  }

  /** nom's `tag(t)` returning the rest. */
  function Tag(s: string, t: string): (r: Option<string>)
    ensures r.Some? <==> StartsWith(s, t)
    ensures r.Some? ==> |r.value| == |s| - |t| && s == t + r.value
  {
    if StartsWith(s, t) then
      assert s == s[..|t|] + s[|t|..];
      Some(s[|t|..])
    else None
  }

  /** nom's `char(c)`. */
  function Char(s: string, c: char): (r: Option<string>)
    ensures r.Some? <==> |s| > 0 && s[0] == c
    ensures r.Some? ==> r.value == s[1..]
  {
    if |s| > 0 && s[0] == c then Some(s[1..]) else None
  }

  /** The closing `ws` of `delimited(ws, p, ws)`, where `p` ran on `s1 = Ws(s)`. */
  function Trailing<T>(r: Parsed<T>, s1: string, s: string): (q: Parsed<T>)
    requires Progress(r, s1) && |s1| <= |s|
    ensures Progress(q, s)
    ensures q.Some? <==> r.Some?
    ensures q.Some? ==> q.value == (r.value.0, Ws(r.value.1))
  {
    match r
    case None => None
    case Some((e, t)) =>
      Some((e, Ws(t)))
  }

  // ---------------------------------------------------------------------
  // Whitespace and comments (base.rs:36-45)

  /**
   * One alternative of `ws`: a maximal run of spaces, tabs, carriage returns
   * and newlines; `//` up to but not including the next newline; or a
   * `/* ... */` block. `take_until` fails when its delimiter never comes.
   */
  function WsItem(s: string): (r: Option<string>)
    ensures r.Some? ==> |r.value| < |s|
  {
    var n := Span(s, IsMultispace);
    if n > 0 then Some(s[n..])
    else if StartsWith(s, "//") then
      match Find(s[2..], "\n")
      case Some(k) => Some(s[2 + k..])
      case None => None
    else if StartsWith(s, "/*") then
      match Find(s[2..], "*/")
      case Some(k) => Some(s[2 + k + 2..])
      case None => None
    else None
  }

  /** `ws = many0(alt(...))`: never fails. */
  function Ws(s: string): (r: string)
    ensures |r| <= |s|
    decreases |s|
  {
    match WsItem(s)
    case None => s
    case Some(t) => Ws(t)
  }

  // ---------------------------------------------------------------------
  // Literals (base.rs:47-110)

  /** `recognize(pair(opt(char('-')), digit1))` parsed as a decimal integer. */
  function ParseInt(s: string): (r: Parsed<int>)
    ensures Progress(r, s)
    ensures r.Some? <==> (|s| > 0 && IsDigit(s[0])) || (|s| > 1 && s[0] == '-' && IsDigit(s[1]))
    ensures r.Some? ==> (r.value.0 < 0 ==> s[0] == '-') && (|r.value.1| > 0 ==> !IsDigit(r.value.1[0]))
  {
    var neg := |s| > 0 && s[0] == '-';
    var t := if neg then s[1..] else s;
    var n := Span(t, IsDigit);
    if n == 0 then None
    else
      var v: int := DecimalValue(t[..n]);
      Some((if neg then -v else v, t[n..]))
  }

  /** `tuple((one_of("eE"), opt(one_of("+-")), digit1))`: a sign, when present, is always taken. */
  predicate IsExponent(x: string)
  {
    |x| >= 2 && (x[0] == 'e' || x[0] == 'E') &&
    var b := if x[1] == '+' || x[1] == '-' then 2 else 1;
    b < |x| && forall i :: b <= i < |x| ==> IsDigit(x[i])
  }

  /**
   * Length of the optional exponent: the longest exponent prefix, or 0 when
   * no prefix is one (see `BaseParserFacts.ExponentLengthLongest`).
   */
  function ExponentLength(s: string): (n: nat)
    ensures n <= |s|
  {
    if |s| > 0 && (s[0] == 'e' || s[0] == 'E') then
      var b := if |s| > 1 && (s[1] == '+' || s[1] == '-') then 2 else 1;
      var d := Span(s[b..], IsDigit);
      if d == 0 then 0 else b + d
    else 0
  }

  /** `-?digit1.digit1([eE][+-]?digit1)?`, yielding the recognised token text. */
  function ParseFloat(s: string): (r: Parsed<string>)
    ensures Progress(r, s)
  {
    var a := if |s| > 0 && s[0] == '-' then 1 else 0;
    var d1 := Span(s[a..], IsDigit);
    if d1 == 0 then None
    else
      var p := a + d1;
      if !(p < |s| && s[p] == '.') then None
      else
        var d2 := Span(s[p + 1..], IsDigit);
        if d2 == 0 then None
        else
          var q := p + 1 + d2;
          var e := ExponentLength(s[q..]);
          Some((s[..q + e], s[q + e..]))
  }

  /** The five escapes `parse_string` decodes. */
  function Unescape(c: char): Option<char>
  {
    if c == '"' then Some('"')
    else if c == '\\' then Some('\\')
    else if c == 'n' then Some('\n')
    else if c == 'r' then Some('\r')
    else if c == 't' then Some('\t')
    else None
  }

  /**
   * The `many0` loop inside a string literal: plain characters other than
   * `"` and `\`, and the five escapes. It stops at the first `"`, at a
   * backslash that starts no known escape, or at the end of the input.
   * Decoding character by character gives the same text as nom's chunks.
   */
  function StringBody(s: string): (r: (string, string))
    ensures |r.1| <= |s|
    ensures |r.1| > 0 ==> r.1[0] == '"' || r.1[0] == '\\'
  {
    if |s| == 0 then ([], s)
    else if s[0] != '"' && s[0] != '\\' then
      var t := StringBody(s[1..]);
      ([s[0]] + t.0, t.1)
    else if s[0] == '\\' && |s| >= 2 && Unescape(s[1]).Some? then
      var t := StringBody(s[2..]);
      ([Unescape(s[1]).value] + t.0, t.1)
    else ([], s)
  }

  function ParseString(s: string): (r: Parsed<string>)
    ensures Progress(r, s)
    ensures r.Some? ==> |s| >= 2 && s[0] == '"'
  {
    match Char(s, '"')
    case None => None
    case Some(t) =>
      var (body, u) := StringBody(t);
      match Char(u, '"')
      case None => None
      case Some(w) => Some((body, w))
  }

  /** `tag("true")` or `tag("false")`, with no word boundary. */
  function ParseBool(s: string): (r: Parsed<bool>)
    ensures Progress(r, s)
    ensures r.Some? <==> StartsWith(s, "true") || StartsWith(s, "false")
    ensures r.Some? ==> (r.value.0 <==> StartsWith(s, "true"))
    ensures r.Some? ==> |r.value.1| == |s| - (if r.value.0 then 4 else 5)
  {
    match Tag(s, "true")
    case Some(t) => Some((true, t))
    case None =>
      match Tag(s, "false")
      case Some(t) => Some((false, t))
      case None => None
  }

  /** float, then int, then string, then bool. */
  function ParsePrimitive(s: string): (r: Parsed<Expr>)
    ensures Progress(r, s)
    ensures r.Some? ==> r.value.0.Primitive?
  {
    match ParseFloat(s)
    case Some((f, t)) => Some((Expr.Primitive(Float(f)), t))
    case None =>
      match ParseInt(s)
      case Some((i, t)) => Some((Expr.Primitive(Int(i)), t))
      case None =>
        match ParseString(s)
        case Some((x, t)) => Some((Expr.Primitive(Str(x)), t))
        case None =>
          match ParseBool(s)
          case Some((b, t)) => Some((Expr.Primitive(Bool(b)), t))
          case None => None
  }

  // ---------------------------------------------------------------------
  // Identifiers and operators (base.rs:112-123, 235-237)

  /** `[A-Za-z_][A-Za-z0-9_]*`, longest match. */
  function ParseVariable(s: string): (r: Parsed<Expr>)
    ensures Progress(r, s)
    ensures r.Some? <==> |s| > 0 && IsIdentStart(s[0])
    ensures r.Some? ==> r.value.0.Variable? && s == r.value.0.name + r.value.1
    ensures r.Some? ==> forall i :: 0 <= i < |r.value.0.name| ==> IsIdentChar(r.value.0.name[i])
    ensures r.Some? ==> |r.value.1| == 0 || !IsIdentChar(r.value.1[0])
  {
    if |s| > 0 && IsIdentStart(s[0]) then
      var n := 1 + Span(s[1..], IsIdentChar);
      assert s == s[..n] + s[n..];
      Some((Variable(s[..n]), s[n..]))
    else None
  }

  /** The characters of `one_of("!@#$%^&*-+=|<>?/:~")`. */
  predicate IsOperatorChar(c: char)
  {
    c == '!' || c == '@' || c == '#' || c == '$' || c == '%' || c == '^' || c == '&' ||
    c == '*' || c == '-' || c == '+' || c == '=' || c == '|' || c == '<' || c == '>' ||
    c == '?' || c == '/' || c == ':' || c == '~'
  }

  /** `recognize(many1(one_of(...)))`: the longest non-empty operator run. */
  function ParseInfixOp(s: string): (r: Parsed<string>)
    ensures Progress(r, s)
    ensures r.Some? <==> |s| > 0 && IsOperatorChar(s[0])
    ensures r.Some? ==> s == r.value.0 + r.value.1
    ensures r.Some? ==> forall i :: 0 <= i < |r.value.0| ==> IsOperatorChar(r.value.0[i])
    ensures r.Some? ==> |r.value.1| == 0 || !IsOperatorChar(r.value.1[0])
  {
    var n := Span(s, IsOperatorChar);
    if n == 0 then None
    else
      assert s == s[..n] + s[n..];
      Some((s[..n], s[n..]))
  }

  /** `delimited(ws, char(c), ws)`. */
  function Token(s: string, c: char): (r: Option<string>)
    ensures r.Some? ==> |r.value| < |s|
  {
    var t := Ws(s);
    match Char(t, c)
    case None => None
    case Some(u) =>
      Some(Ws(u))
  }

  /** `delimited(ws, opt(char(';')), ws)`: never fails. */
  function OptSemicolon(s: string): (r: string)
    ensures |r| <= |s|
  {
    match Token(s, ';')
    case Some(u) => u
    case None => Ws(s)
  }

  /** `separated_list0(delimited(ws, char(','), ws), parse_variable)`, names only. */
  function VariableList(s: string): (r: (seq<string>, string))
    ensures |r.1| <= |s|
  {
    match ParseVariable(s)
    case None => ([], s)
    case Some((v, t)) =>
      var (vs, u) := VariableListTail(t);
      ([v.name] + vs, u)
  }

  /** The separator-then-element loop of `separated_list0`; a separator with no element after it is not consumed. */
  function VariableListTail(s: string): (r: (seq<string>, string))
    ensures |r.1| <= |s|
    decreases |s|
  {
    match Token(s, ',')
    case None => ([], s)
    case Some(t) =>
      match ParseVariable(t)
      case None => ([], s)
      case Some((v, u)) =>
        var (vs, w) := VariableListTail(u);
        ([v.name] + vs, w)
  }

  // ---------------------------------------------------------------------
  // Expressions (base.rs:125-249, 305-314). The mutually recursive parsers
  // terminate because every cycle passes a parser that consumed input; the
  // second component of each `decreases` orders calls on the same input.

  /** The fold of base.rs:245: `t0 op1 t1 ... opn tn` nests to the left. */
  function FoldInfix(acc: Expr, rest: seq<(string, Expr)>): Expr
    decreases |rest|
  {
    if |rest| == 0 then acc
    else FoldInfix(InfixOp(acc, rest[0].0, rest[0].1), rest[1..])
  }

  function ParseExpr(s: string): (r: Parsed<Expr>)
    ensures Progress(r, s)
    decreases |s|, 4
  {
    var s1 := Ws(s);
    var a := ParseAssignment(s1);
    var b := ParseReturn(s1);
    var c := ParseInfixExpr(s1);
    var inner := Alt(a, Alt(b, c));
    assert Progress(inner, s1);
    Trailing(inner, s1, s)
  }

  /** `variable ws '=' ws expr`. */
  function ParseAssignment(s: string): (r: Parsed<Expr>)
    ensures Progress(r, s)
    ensures r.Some? ==> r.value.0.Assignment?
    decreases |s|, 1
  {
    match ParseVariable(s)
    case None => None
    case Some((v, t)) =>
      match Token(t, '=')
      case None => None
      case Some(u) =>
        match ParseExpr(u)
        case None => None
        case Some((e, w)) =>
          Some((Assignment(v.name, e), w))
  }

  /** `"return" ws expr`; the keyword is a bare prefix. */
  function ParseReturn(s: string): (r: Parsed<Expr>)
    ensures Progress(r, s)
    ensures r.Some? ==> r.value.0.Return?
    decreases |s|, 1
  {
    match Tag(s, "return")
    case None => None
    case Some(t) =>
      match ParseExpr(Ws(t))
      case None => None
      case Some((e, u)) =>
        Some((Return(e), u))
  }

  /** A first term, then `many0((ws op ws, term))`, folded to the left. */
  function ParseInfixExpr(s: string): (r: Parsed<Expr>)
    ensures Progress(r, s)
    decreases |s|, 3
  {
    match ParseTerm(s)
    case None => None
    case Some((first, t)) =>
      var (rest, u) := InfixTail(t);
      Some((FoldInfix(first, rest), u))
  }

  /** `many0(tuple((delimited(ws, parse_infix_op, ws), parse_term)))`. */
  function InfixTail(s: string): (r: (seq<(string, Expr)>, string))
    ensures |r.1| <= |s|
    decreases |s|, 0
  {
    var s1 := Ws(s);
    match ParseInfixOp(s1)
    case None => ([], s)
    case Some((op, t)) =>
      match ParseTerm(Ws(t))
      case None => ([], s)
      case Some((e, u)) =>
        var (rest, w) := InfixTail(u);
        ([(op, e)] + rest, w)
  }

  /** `delimited(ws, alt((primitive, function_call, variable, '(' expr ')')), ws)`. */
  function ParseTerm(s: string): (r: Parsed<Expr>)
    ensures Progress(r, s)
    decreases |s|, 2
  {
    var s1 := Ws(s);
    var a := ParsePrimitive(s1);
    var b := ParseFunctionCall(s1);
    var c := ParseVariable(s1);
    var d := ParseParenthesized(s1);
    var inner := Alt(a, Alt(b, Alt(c, d)));
    assert Progress(inner, s1);
    Trailing(inner, s1, s)
  }

  /** `delimited(char('('), parse_expr, char(')'))`. */
  function ParseParenthesized(s: string): (r: Parsed<Expr>)
    ensures Progress(r, s)
    decreases |s|, 1
  {
    match Char(s, '(')
    case None => None
    case Some(t) =>
      match ParseExpr(t)
      case None => None
      case Some((e, u)) =>
        match Char(u, ')')
        case None => None
        case Some(w) =>
          Some((e, w))
  }

  /** `variable` immediately followed by the argument list: no space before `(`. */
  function ParseFunctionCall(s: string): (r: Parsed<Expr>)
    ensures Progress(r, s)
    ensures r.Some? ==> r.value.0.FunctionCall? && r.value.0.callee.Variable?
    decreases |s|, 1
  {
    match ParseVariable(s)
    case None => None
    case Some((f, t)) =>
      match CallArguments(t)
      case None => None
      case Some((args, u)) =>
        Some((FunctionCall(f, args), u))
  }

  /** `delimited(char('('), separated_list0(ws ',' ws, expr), char(')'))`. */
  function CallArguments(s: string): (r: Parsed<seq<Expr>>)
    ensures Progress(r, s)
    decreases |s|, 0
  {
    match Char(s, '(')
    case None => None
    case Some(t) =>
      var (args, u) := ExprList(t);
      match Char(u, ')')
      case None => None
      case Some(w) =>
        Some((args, w))
  }

  /** `separated_list0(delimited(ws, char(','), ws), parse_expr)`: never fails. */
  function ExprList(s: string): (r: (seq<Expr>, string))
    ensures |r.1| <= |s|
    decreases |s|, 5
  {
    match ParseExpr(s)
    case None => ([], s)
    case Some((e, t)) =>
      var (es, u) := ExprListTail(t);
      ([e] + es, u)
  }

  /** The separator-then-element loop of `separated_list0`; a separator with no element after it is not consumed. */
  function ExprListTail(s: string): (r: (seq<Expr>, string))
    ensures |r.1| <= |s|
    decreases |s|, 0
  {
    match Token(s, ',')
    case None => ([], s)
    case Some(t) =>
      match ParseExpr(t)
      case None => ([], s)
      case Some((e, u)) =>
        var (es, w) := ExprListTail(u);
        ([e] + es, w)
  }

  // ---------------------------------------------------------------------
  // Function definitions and blocks (base.rs:141-191)

  /** `"def" ws variable '(' params ')' ws '{' ws block ws '}' ws`. */
  function ParseFunctionDef(s: string): (r: Parsed<Expr>)
    ensures Progress(r, s)
    ensures r.Some? ==> r.value.0.FunctionDef?
    decreases |s|, 1
  {
    match DefHeader(s)
    case None => None
    case Some(((name, params), t)) =>
      match DefBody(t)
      case None => None
      case Some((body, u)) =>
        Some((FunctionDef(name, params, body), u))
  }

  /** `"def" ws variable` and the parenthesised parameter names. */
  function DefHeader(s: string): (r: Parsed<(string, seq<string>)>)
    ensures Progress(r, s)
  {
    match Tag(s, "def")
    case None => None
    case Some(t) =>
      match ParseVariable(Ws(t))
      case None => None
      case Some((name, u)) =>
        match Char(u, '(')
        case None => None
        case Some(u1) =>
          var (params, w) := VariableList(u1);
          match Char(w, ')')
          case None => None
          case Some(w1) =>
            Some(((name.name, params), w1))
  }

  /** `delimited(ws, char('{'), ws)`, the block, `delimited(ws, char('}'), ws)`. */
  function DefBody(s: string): (r: Parsed<seq<Expr>>)
    ensures Rest(r, s)
    decreases |s|, 0
  {
    match Token(s, '{')
    case None => None
    case Some(t) =>
      var (body, u) := ParseBlock(t);
      match Token(u, '}')
      case None => None
      case Some(w) =>
        Some((body, w))
  }

  /** `many0(terminated(alt((function_def, expr)), delimited(ws, opt(char(';')), ws)))`: never fails. */
  function ParseBlock(s: string): (r: (seq<Expr>, string))
    ensures |r.1| <= |s|
    decreases |s|, 6
  {
    match Alt(ParseFunctionDef(s), ParseExpr(s))
    case None => ([], s)
    case Some((e, t)) =>
      var u := OptSemicolon(t);
      var (es, w) := ParseBlock(u);
      ([e] + es, w)
  }

  // ---------------------------------------------------------------------
  // Notation declarations (base.rs:251-303)

  /** Rust's `as i32` on an integer: keep the low 32 bits, two's complement. */
  function AsI32(n: int): (r: int)
    ensures -0x8000_0000 <= r < 0x8000_0000
    ensures (r - n) % 0x1_0000_0000 == 0
  {
    (n + 0x8000_0000) % 0x1_0000_0000 - 0x8000_0000
  }

  /** `ws keyword ws`. */
  function Keyword(s: string, keyword: string): (r: Option<string>)
    ensures r.Some? ==> |r.value| <= |s|
  {
    var t := Ws(s);
    match Tag(t, keyword)
    case None => None
    case Some(u) =>
      Some(Ws(u))
  }

  /** `ws "with" ws separated_list0(ws ',' ws, variable)`. */
  function WithClause(s: string): (r: Parsed<seq<string>>)
    ensures Rest(r, s)
  {
    match Keyword(s, "with")
    case None => None
    case Some(t) =>
      var (vs, u) := VariableList(t);
      Some((vs, u))
  }

  /** `ws "precedence" ws parse_int`. */
  function PrecedenceClause(s: string): (r: Parsed<int>)
    ensures Rest(r, s)
  {
    match Keyword(s, "precedence")
    case None => None
    case Some(t) =>
      match ParseInt(t)
      case None => None
      case Some((n, u)) =>
        Some((n, u))
  }

  /** `ws "associativity" ws ("left" | "right" | "none")`. */
  function AssociativityClause(s: string): (r: Parsed<Associativity>)
    ensures Rest(r, s)
  {
    match Keyword(s, "associativity")
    case None => None
    case Some(t) =>
      var word: Parsed<Associativity> :=
        match Tag(t, "left")
        case Some(w) => Some((Left, w))
        case None =>
          match Tag(t, "right")
          case Some(w) => Some((Right, w))
          case None =>
            match Tag(t, "none")
            case Some(w) => Some((NoAssoc, w))
            case None => None;
      match word
      case None => None
      case Some((a, w)) =>
        Some((a, w))
  }

  /** `delimited(char('"'), take_until("\""), char('"'))`: no escapes, the pattern ends at the next `"`. */
  function QuotedPattern(s: string): (r: Parsed<string>)
    ensures Progress(r, s)
    ensures r.Some? ==> s == ['"'] + r.value.0 + ['"'] + r.value.1 && '"' !in r.value.0
    ensures r.None? <==> |s| == 0 || s[0] != '"' || '"' !in s[1..]
  {
    match Char(s, '"')
    case None => None
    case Some(t) =>
      match Find(t, "\"")
      case None =>
        assert forall i :: 0 <= i < |t| ==> t[i] != '"' by {
          forall i | 0 <= i < |t| ensures t[i] != '"' {
            assert !OccursAt(t, i, "\"");
            assert t[i..i + 1] == [t[i]];
          }
        }
        None
      case Some(k) =>
        assert t[k..k + 1] == [t[k]];
        assert forall i :: 0 <= i < k ==> t[..k][i] != '"' by {
          forall i | 0 <= i < k ensures t[..k][i] != '"' {
            assert !OccursAt(t, i, "\"");
            assert t[i..i + 1] == [t[i]];
          }
        }
        assert t == t[..k] + ['"'] + t[k + 1..];
        Some((t[..k], t[k + 1..]))
  }

  /**
   * A quoted pattern, then the optional `with`, `precedence` and
   * `associativity` clauses in that order. Absent clauses default to no
   * variables, no precedence and `None`.
   */
  function ParseNotationPattern(s: string): (r: Parsed<NotationPattern>)
    ensures Progress(r, s)
  {
    match QuotedPattern(s)
    case None => None
    case Some((pattern, u)) =>
      var (variables, u1) := match WithClause(u) case Some(x) => x case None => ([], u);
      var (precedence, u2) := match PrecedenceClause(u1) case Some((p, w)) => (Some(AsI32(p)), w) case None => (None, u1);
      var (associativity, u3) := match AssociativityClause(u2) case Some(x) => x case None => (NoAssoc, u2);
      Some((NotationPattern(pattern, variables, precedence, associativity), u3))
  }

  /** `"notation" ws pattern ws ":=" ws expr`. */
  function ParseNotationDecl(s: string): (r: Parsed<Expr>)
    ensures Progress(r, s)
    ensures r.Some? ==> r.value.0.NotationDecl?
  {
    match Tag(s, "notation")
    case None => None
    case Some(t) =>
      match ParseNotationPattern(Ws(t))
      case None => None
      case Some((pattern, u)) =>
        match Keyword(u, ":=")
        case None => None
        case Some(w) =>
          match ParseExpr(w)
          case None => None
          case Some((e, x)) =>
            Some((NotationDecl(pattern, e), x))
  }

  // ---------------------------------------------------------------------
  // Programs (base.rs:316-332)

  /** `terminated(parse_expr, delimited(ws, opt(char(';')), ws))`. */
  function ParseStatement(s: string): (r: Parsed<Expr>)
    ensures Progress(r, s)
  {
    match ParseExpr(s)
    case None => None
    case Some((e, t)) =>
      Some((e, OptSemicolon(t)))
  }

  /** `alt((function_def, notation_decl, terminated(expr, ws opt(';') ws)))`. */
  function ParseTopLevelExpr(s: string): (r: Parsed<Expr>)
    ensures Progress(r, s)
  {
    Alt(ParseFunctionDef(s), Alt(ParseNotationDecl(s), ParseStatement(s)))
  }

  /** The `many0` loop that follows the first item of `many1`. */
  function TopLevelItems(s: string): (r: (seq<Expr>, string))
    ensures |r.1| <= |s|
    decreases |s|
  {
    match ParseTopLevelExpr(s)
    case None => ([], s)
    case Some((e, t)) =>
      var (es, u) := TopLevelItems(t);
      ([e] + es, u)
  }

  /** `all_consuming(delimited(ws, many1(top_level_expr), ws))`. */
  function ParseProgram(s: string): (r: Option<seq<Expr>>)
    ensures r.Some? ==> |r.value| >= 1
  {
    match ParseTopLevelExpr(Ws(s))
    case None => None
    case Some((e, t)) =>
      var (es, u) := TopLevelItems(t);
      if Ws(u) == [] then Some([e] + es) else None
  }
}
