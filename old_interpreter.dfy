/**
 * The first-generation evaluator of src/interpreter.rs: the evaluator of
 * src/main.rs with every panic turned into an `InterpreterError`. The
 * debug printer it threads through produces output only and is not part of
 * this model.
 */
module OldInterpreter {
  import opened Wrappers
  import opened OldSyntax
  import opened Bindings
  import Main = OldMain

  /** `InterpreterError`, plus the fuel bound of this model. */
  datatype Error =
    | UndefinedVariable(name: string)
    | TypeMismatch(msg: string)
    | ArityMismatch(msg: string)
    | OutOfFuel

  /** `Display for InterpreterError`. */
  function Describe(e: Error): string
  {
    match e
    case UndefinedVariable(name) => "Undefined variable: " + name
    case TypeMismatch(msg) => "Type mismatch: " + msg
    case ArityMismatch(msg) => "Arity mismatch: " + msg
    case OutOfFuel => "Out of fuel"
  }

  /** `interpret`. */
  function Interpret(e: Expr, env: Environment, fuel: nat): Result<Value, Error>
    decreases fuel, 1, e
  {
    match e
    case Primitive(p) => Ok(Value.Primitive(p))
    case Variable(name) => if name in env then Ok(env[name]) else Err(UndefinedVariable(name))
    case FunctionDef(name, params, body) => Ok(Function(name, params, body, env))
    case FunctionCall(callee, args) =>
      match Interpret(callee, env, fuel)
      case Err(x) => Err(x)
      case Ok(f) =>
        match InterpretArgs(args, env, fuel)
        case Err(x) => Err(x)
        case Ok(vs) => Apply(f, vs, fuel)
  }

  /** `collect` into a `Result`: the arguments left to right, stopping at the first error. */
  function InterpretArgs(args: seq<Expr>, env: Environment, fuel: nat): (r: Result<seq<Value>, Error>)
    ensures r.Ok? ==> |r.value| == |args|
    decreases fuel, 1, args
  {
    if |args| == 0 then Ok([])
    else
      match Interpret(args[0], env, fuel)
      case Err(x) => Err(x)
      case Ok(v) =>
        match InterpretArgs(args[1..], env, fuel)
        case Err(x) => Err(x)
        case Ok(vs) => Ok([v] + vs)
  }

  /** `apply_function`. */
  function Apply(f: Value, args: seq<Value>, fuel: nat): Result<Value, Error>
    decreases fuel, 0, f
  {
    match f
    case Function(name, params, body, closure) =>
      if |args| < |params| then Ok(PartialApplication(f, args))
      else if |args| == |params| then
        if fuel == 0 then Err(OutOfFuel) else Interpret(body, Bind(closure, params, args), fuel - 1)
      else Err(ArityMismatch(Main.TooManyArguments(name)))
    case PartialApplication(g, prev) => Apply(g, prev + args, fuel)
    case Primitive(_) => Err(TypeMismatch(Main.NotAFunction))
  }

  /** What the panicking evaluator does where this one returns an error. */
  function AsPanic<T>(r: Result<T, Error>): (o: Main.Outcome<T>)
    ensures r.Ok? <==> o.Done?
    ensures r.Ok? ==> o.value == r.value
  {
    match r
    case Ok(v) => Main.Done(v)
    case Err(UndefinedVariable(name)) => Main.Panic(Main.VariableNotFound(name))
    case Err(TypeMismatch(msg)) => Main.Panic(msg)
    case Err(ArityMismatch(msg)) => Main.Panic(msg)
    case Err(OutOfFuel) => Main.OutOfFuel
  }

  /**
   * The two evaluators agree: where this one returns a value, the other
   * returns the same value, and where this one returns an error, the other
   * panics: with the error's own text for a type or arity mismatch, and with
   * `Variable not found: name` for `UndefinedVariable(name)`.
   */
  lemma {:induction false} AgreesWithMain(e: Expr, env: Environment, fuel: nat)
    ensures Main.Eval(e, env, fuel) == AsPanic(Interpret(e, env, fuel))
    decreases fuel, 1, e
  {
    match e
    case FunctionCall(callee, args) =>
      AgreesWithMain(callee, env, fuel);
      if Interpret(callee, env, fuel).Ok? {
        ArgsAgreeWithMain(args, env, fuel);
        if InterpretArgs(args, env, fuel).Ok? {
          ApplyAgreesWithMain(Interpret(callee, env, fuel).value, InterpretArgs(args, env, fuel).value, fuel);
        }
      }
    case _ =>
  }

  lemma {:induction false} ArgsAgreeWithMain(args: seq<Expr>, env: Environment, fuel: nat)
    ensures Main.EvalArgs(args, env, fuel) == AsPanic(InterpretArgs(args, env, fuel))
    decreases fuel, 1, args
  {
    if |args| > 0 {
      AgreesWithMain(args[0], env, fuel);
      if Interpret(args[0], env, fuel).Ok? {
        ArgsAgreeWithMain(args[1..], env, fuel);
      }
    }
  }

  lemma {:induction false} ApplyAgreesWithMain(f: Value, args: seq<Value>, fuel: nat)
    ensures Main.Apply(f, args, fuel) == AsPanic(Apply(f, args, fuel))
    decreases fuel, 0, f
  {
    match f
    case Function(name, params, body, closure) =>
      if |args| == |params| && fuel > 0 {
        AgreesWithMain(body, Bind(closure, params, args), fuel - 1);
      }
    case PartialApplication(g, prev) =>
      ApplyAgreesWithMain(g, prev + args, fuel);
    case Primitive(_) =>
  }

  /** Applying a chain of partial applications applies the innermost function to all the arguments. */
  lemma {:induction false} ApplyFlatten(f: Value, args: seq<Value>, fuel: nat)
    ensures Apply(f, args, fuel) == Apply(Flatten(f, args).0, Flatten(f, args).1, fuel)
    decreases f
  {
    match f
    case PartialApplication(g, prev) => ApplyFlatten(g, prev + args, fuel);
    case _ =>
  }

  /** The currying law, as in the panicking evaluator. */
  lemma Currying(f: Value, a: seq<Value>, b: seq<Value>, fuel: nat)
    requires Flatten(f, a).0.Function? && |Flatten(f, a).1| < |Flatten(f, a).0.params|
    ensures Apply(f, a, fuel) == Ok(PartialApplication(Flatten(f, a).0, Flatten(f, a).1))
    ensures Apply(Apply(f, a, fuel).value, b, fuel) == Apply(f, a + b, fuel)
  {
    ApplyFlatten(f, a, fuel);
    ApplyFlatten(f, a + b, fuel);
    FlattenAppend(f, a, b);
  }
}
