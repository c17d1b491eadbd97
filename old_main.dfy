/**
 * The first-generation evaluator of src/main.rs: `eval` and
 * `apply_function`. Environments are copied by value, so evaluation is a
 * function of the expression and the environment; nothing the caller holds
 * can change. Every misuse ends the process with a panic message.
 *
 * A function applied to too few arguments becomes a partial application,
 * which collects further arguments until there are enough. Evaluation can
 * recurse without end, so it takes a `fuel` bound that each function body
 * consumes.
 */
module OldMain {
  import opened OldSyntax
  import opened Bindings

  /** A value, a panic with its message, or the fuel bound reached. */
  datatype Outcome<+T> = Done(value: T) | Panic(msg: string) | OutOfFuel

  function VariableNotFound(name: string): string { "Variable not found: " + name }
  function TooManyArguments(name: string): string { "Too many arguments for function: " + name }
  const NotAFunction: string := "Attempted to call a non-function value"

  /** `eval`. */
  function Eval(e: Expr, env: Environment, fuel: nat): Outcome<Value>
    decreases fuel, 1, e
  {
    match e
    case Primitive(p) => Done(Value.Primitive(p))
    case Variable(name) => if name in env then Done(env[name]) else Panic(VariableNotFound(name))
    case FunctionDef(name, params, body) => Done(Function(name, params, body, env))
    case FunctionCall(callee, args) =>
      match Eval(callee, env, fuel)
      case Panic(m) => Panic(m)
      case OutOfFuel => OutOfFuel
      case Done(f) =>
        match EvalArgs(args, env, fuel)
        case Panic(m) => Panic(m)
        case OutOfFuel => OutOfFuel
        case Done(vs) => Apply(f, vs, fuel)
  }

  /** The arguments, left to right; the first panic ends the evaluation. */
  function EvalArgs(args: seq<Expr>, env: Environment, fuel: nat): (r: Outcome<seq<Value>>)
    ensures r.Done? ==> |r.value| == |args|
    decreases fuel, 1, args
  {
    if |args| == 0 then Done([])
    else
      match Eval(args[0], env, fuel)
      case Panic(m) => Panic(m)
      case OutOfFuel => OutOfFuel
      case Done(v) =>
        match EvalArgs(args[1..], env, fuel)
        case Panic(m) => Panic(m)
        case OutOfFuel => OutOfFuel
        case Done(vs) => Done([v] + vs)
  }

  /** `apply_function`. */
  function Apply(f: Value, args: seq<Value>, fuel: nat): Outcome<Value>
    decreases fuel, 0, f
  {
    match f
    case Function(name, params, body, closure) =>
      if |args| < |params| then Done(PartialApplication(f, args))
      else if |args| == |params| then
        if fuel == 0 then OutOfFuel else Eval(body, Bind(closure, params, args), fuel - 1)
      else Panic(TooManyArguments(name))
    case PartialApplication(g, prev) => Apply(g, prev + args, fuel)
    case Primitive(_) => Panic(NotAFunction)
  }

  /** Applying a chain of partial applications applies the innermost function to all the arguments. */
  lemma {:induction false} ApplyFlatten(f: Value, args: seq<Value>, fuel: nat)
    ensures Apply(f, args, fuel) == Apply(Flatten(f, args).0, Flatten(f, args).1, fuel)
    decreases f
  {
    match f
    case PartialApplication(g, prev) => ApplyFlatten(g, prev + args, fuel);
    case _ =>
  }

  /**
   * The currying law: while the arguments so far are too few, application
   * returns a partial application, and applying that to more arguments is
   * applying the original value to all of them at once.
   */
  lemma Currying(f: Value, a: seq<Value>, b: seq<Value>, fuel: nat)
    requires Flatten(f, a).0.Function? && |Flatten(f, a).1| < |Flatten(f, a).0.params|
    ensures Apply(f, a, fuel) == Done(PartialApplication(Flatten(f, a).0, Flatten(f, a).1))
    ensures Apply(Apply(f, a, fuel).value, b, fuel) == Apply(f, a + b, fuel)
  {
    ApplyFlatten(f, a, fuel);
    ApplyFlatten(f, a + b, fuel);
    FlattenAppend(f, a, b);
  }

  /** Too many arguments panics, naming the function. */
  lemma TooManyPanics(f: Value, args: seq<Value>, fuel: nat)
    requires Flatten(f, args).0.Function? && |Flatten(f, args).1| > |Flatten(f, args).0.params|
    ensures Apply(f, args, fuel) == Panic(TooManyArguments(Flatten(f, args).0.name))
  {
    ApplyFlatten(f, args, fuel);
  }

  /** With a parameter named twice, the body sees the later argument. */
  lemma DuplicateParameterLastWins(name: string, x: string, closure: Environment, a: Value, b: Value, fuel: nat)
    ensures Apply(Function(name, [x, x], Variable(x), closure), [a, b], fuel + 1) == Done(b)
  {
    BindLast(closure, [x, x], [a, b], 1);
  }

  /**
   * Fuel only bounds the computation: an outcome reached with some fuel is
   * the outcome with any larger fuel.
   */
  lemma {:induction false} EvalFuelMonotone(e: Expr, env: Environment, fuel: nat, more: nat)
    requires fuel <= more
    requires !Eval(e, env, fuel).OutOfFuel?
    ensures Eval(e, env, more) == Eval(e, env, fuel)
    decreases fuel, 1, e
  {
    match e
    case FunctionCall(callee, args) =>
      EvalFuelMonotone(callee, env, fuel, more);
      if Eval(callee, env, fuel).Done? {
        EvalArgsFuelMonotone(args, env, fuel, more);
        if EvalArgs(args, env, fuel).Done? {
          ApplyFuelMonotone(Eval(callee, env, fuel).value, EvalArgs(args, env, fuel).value, fuel, more);
        }
      }
    case _ =>
  }

  lemma {:induction false} EvalArgsFuelMonotone(args: seq<Expr>, env: Environment, fuel: nat, more: nat)
    requires fuel <= more
    requires !EvalArgs(args, env, fuel).OutOfFuel?
    ensures EvalArgs(args, env, more) == EvalArgs(args, env, fuel)
    decreases fuel, 1, args
  {
    if |args| > 0 {
      EvalFuelMonotone(args[0], env, fuel, more);
      if Eval(args[0], env, fuel).Done? {
        EvalArgsFuelMonotone(args[1..], env, fuel, more);
      }
    }
  }

  lemma {:induction false} ApplyFuelMonotone(f: Value, args: seq<Value>, fuel: nat, more: nat)
    requires fuel <= more
    requires !Apply(f, args, fuel).OutOfFuel?
    ensures Apply(f, args, more) == Apply(f, args, fuel)
    decreases fuel, 0, f
  {
    match f
    case Function(name, params, body, closure) =>
      if |args| == |params| {
        EvalFuelMonotone(body, Bind(closure, params, args), fuel - 1, more - 1);
      }
    case PartialApplication(g, prev) =>
      ApplyFuelMonotone(g, prev + args, fuel, more);
    case Primitive(_) =>
  }
}
