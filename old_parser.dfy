/**
 * The first-generation parser (src/parser.rs): integers, identifiers,
 * `def name(params): body` and calls `name(args)`, and a program rule
 * that reads as many expressions as it can.
 *
 * Each parser is a function from the input to `None` (nom's recoverable
 * error) or `Some((value, rest))`.
 */
module OldParser {
  import opened Wrappers
  import opened Text
  import opened OldSyntax
  import Base = BaseParser

  type Parsed<T> = Option<(T, string)>

  /** On success at least one character was consumed. */
  predicate Progress<T>(r: Parsed<T>, s: string)
  {
    r.Some? ==> |r.value.1| < |s|
  }

  /** nom's `multispace0`. */
  function Ms0(s: string): (t: string)
    ensures |t| <= |s|
  {
    s[Span(s, IsMultispace)..]
  }

  /** `parse_int`: `digit1`, read as a decimal number; there is no sign. */
  function ParseInt(s: string): (r: Parsed<Expr>)
    ensures Progress(r, s)
    ensures r.Some? <==> |s| > 0 && IsDigit(s[0])
  {
    var n := Span(s, IsDigit);
    if n == 0 then None else Some((Expr.Primitive(Int(DecimalValue(s[..n]))), s[n..]))
  }

  /** `parse_variable`: the longest `[A-Za-z_][A-Za-z0-9_]*` prefix, as in the new grammar. */
  function ParseVariable(s: string): (r: Parsed<string>)
    ensures Progress(r, s)
    ensures r.Some? <==> |s| > 0 && IsIdentStart(s[0])
    ensures r.Some? ==> s == r.value.0 + r.value.1
    ensures r.Some? ==> forall i :: 0 <= i < |r.value.0| ==> IsIdentChar(r.value.0[i])
    ensures r.Some? ==> |r.value.1| == 0 || !IsIdentChar(r.value.1[0])
  {
    match Base.ParseVariable(s)
    case None => None
    case Some((v, rest)) => Some((v.name, rest))
  }

  /** `separated_list0(tag(","), preceded(multispace0, parse_variable))`. */
  function ParamList(s: string): (r: (seq<string>, string))
    ensures |r.1| <= |s|
  {
    match ParseVariable(Ms0(s))
    case None => ([], s)
    case Some((p, t)) =>
      var (ps, u) := ParamTail(t);
      ([p] + ps, u)
  }

  /** The `, param` repetitions; a comma without a parameter after it is left unread. */
  function ParamTail(s: string): (r: (seq<string>, string))
    ensures |r.1| <= |s|
    decreases |s|
  {
    match Base.Tag(s, ",")
    case None => ([], s)
    case Some(t) =>
      match ParseVariable(Ms0(t))
      case None => ([], s)
      case Some((p, u)) =>
        var (ps, w) := ParamTail(u);
        ([p] + ps, w)
  }

  /** `parse_expr`: integer, then definition, then call, then variable. */
  function ParseExpr(s: string): (r: Parsed<Expr>)
    ensures Progress(r, s)
    ensures r.Some? ==> |s| > 0 && (IsDigit(s[0]) || IsIdentStart(s[0]))
    decreases |s|, 2
  {
    match ParseInt(s)
    case Some(x) => Some(x)
    case None =>
      match ParseFunctionDef(s)
      case Some(x) => Some(x)
      case None =>
        match ParseFunctionCall(s)
        case Some(x) => Some(x)
        case None =>
          match ParseVariable(s)
          case Some((v, rest)) => Some((Variable(v), rest))
          case None => None
  }

  /** `parse_function_def`: `def`, name, `(` params `)`, `:`, one body expression. */
  function ParseFunctionDef(s: string): (r: Parsed<Expr>)
    ensures Progress(r, s)
    ensures r.Some? ==> StartsWith(s, "def") && r.value.0.FunctionDef?
    decreases |s|, 1
  {
    match Base.Tag(s, "def")
    case None => None
    case Some(t) =>
      match ParseVariable(Ms0(t))
      case None => None
      case Some((name, u)) =>
        match Base.Tag(Ms0(u), "(")
        case None => None
        case Some(v) =>
          var (params, w) := ParamList(v);
          match Base.Tag(w, ")")
          case None => None
          case Some(x) =>
            match Base.Tag(Ms0(x), ":")
            case None => None
            case Some(y) =>
              match ParseExpr(Ms0(y))
              case None => None
              case Some((body, z)) => Some((FunctionDef(name, params, body), z))
  }

  /** `parse_function_call`: name, optional space, `(` args `)`. */
  function ParseFunctionCall(s: string): (r: Parsed<Expr>)
    ensures Progress(r, s)
    ensures r.Some? ==> |s| > 0 && IsIdentStart(s[0]) && r.value.0.FunctionCall?
    decreases |s|, 1
  {
    match ParseVariable(s)
    case None => None
    case Some((f, t)) =>
      match Base.Tag(Ms0(t), "(")
      case None => None
      case Some(u) =>
        var (args, v) := ArgList(u);
        match Base.Tag(v, ")")
        case None => None
        case Some(w) => Some((FunctionCall(Variable(f), args), w))
  }

  /** `separated_list0(tag(","), preceded(multispace0, parse_expr))`. */
  function ArgList(s: string): (r: (seq<Expr>, string))
    ensures |r.1| <= |s|
    decreases |s|, 3
  {
    match ParseExpr(Ms0(s))
    case None => ([], s)
    case Some((a, t)) =>
      var (as_, u) := ArgTail(t);
      ([a] + as_, u)
  }

  function ArgTail(s: string): (r: (seq<Expr>, string))
    ensures |r.1| <= |s|
    decreases |s|, 0
  {
    match Base.Tag(s, ",")
    case None => ([], s)
    case Some(t) =>
      match ParseExpr(Ms0(t))
      case None => ([], s)
      case Some((a, u)) =>
        var (as_, w) := ArgTail(u);
        ([a] + as_, w)
  }

  /**
   * `parse_program`: `many0(terminated(parse_expr, multispace0))`. It never
   * fails; it stops at the first place where no expression starts.
   */
  function ParseProgram(s: string): (r: (seq<Expr>, string))
    ensures |r.1| <= |s|
    ensures ParseExpr(r.1).None?
    decreases |s|
  {
    match ParseExpr(s)
    case None => ([], s)
    case Some((e, t)) =>
      var (es, u) := ParseProgram(Ms0(t));
      ([e] + es, u)
  }
}
