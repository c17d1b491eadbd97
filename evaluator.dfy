/**
 * The stateful evaluator (src/interpreter/evaluator.rs). The interpreter
 * holds the current environment object, which statements read and extend,
 * and the foreign-function router. A function value keeps a reference to
 * the environment it was defined in, so later definitions and assignments
 * in that environment are visible to it, including its own name. Calling a
 * function copies the closure's bindings into a new environment, binds the
 * parameters there, and makes that environment current; the caller's
 * environment is not restored afterwards.
 *
 * Evaluation need not terminate (a function may call itself), so every
 * entry point takes a `fuel` bound that one level of function body
 * consumes; running out yields `OutOfFuel`, which the source does not have.
 */
module Evaluator {
  import opened Wrappers
  import opened Text
  import opened Syntax
  import opened Bindings
  import opened Ffi

  /** `InterpreterError`, plus the fuel bound of this model. */
  datatype Error =
    | UndefinedVariable(name: string)
    | TypeMismatch(msg: string)
    | ArityMismatch(msg: string)
    | FFIError(msg: string)
    | NotReachable(msg: string)
    | OutOfFuel

  /** `Display for InterpreterError`: a fixed prefix naming the kind, then the payload. */
  function Describe(e: Error): string
  {
    match e
    case UndefinedVariable(name) => "Undefined variable: " + name
    case TypeMismatch(msg) => "Type mismatch: " + msg
    case ArityMismatch(msg) => "Arity mismatch: " + msg
    case FFIError(msg) => "FFI error: " + msg
    case NotReachable(msg) => "Not reachable: " + msg
    case OutOfFuel => "Out of fuel"
  }

  const InfixUnreachable: string := "Infix operations should be handled by the parser"
  const NotationUnreachable: string := "Notation declarations should be handled by the parser"
  const NotAFunction: string := "Attempted to call a non-function value"

  /** The message of an arity mismatch, with both counts in decimal. */
  function ArityMessage(name: string, expected: nat, got: nat): string
  {
    "Function '" + name + "' expects " + NatToString(expected) + " arguments, but got " + NatToString(got)
  }

  /**
   * The outcome of an expression whose evaluation neither calls, defines,
   * assigns nor loads anything, given the current bindings; `None` for
   * every other expression.
   */
  function Immediate(e: Expr, bindings: map<string, Value>): Option<Result<Value, Error>>
    decreases e
  {
    match e
    case Primitive(p) => Some(Ok(Value.Primitive(p)))
    case Variable(name) => Some(if name in bindings then Ok(bindings[name]) else Err(UndefinedVariable(name)))
    case Return(x) => Immediate(x, bindings)
    case InfixOp(_, _, _) => Some(Err(NotReachable(InfixUnreachable)))
    case NotationDecl(_, _) => Some(Err(NotReachable(NotationUnreachable)))
    case _ => None
  }

  /** No call anywhere in `e` that evaluation would reach. */
  predicate CallFree(e: Expr)
    decreases e
  {
    match e
    case FunctionCall(_, _) => false
    case Return(x) => CallFree(x)
    case Assignment(_, rhs) => CallFree(rhs)
    case _ => true
  }

  /**
   * A call's arguments evaluated left to right as `Immediate` does, up to
   * the first error, which is the result. `None` when an argument reached
   * before any error is one `Immediate` does not cover.
   */
  function ImmediateArgs(args: seq<Expr>, bindings: map<string, Value>): (r: Option<Result<seq<Value>, Error>>)
    ensures r.Some? && r.value.Ok? ==> |r.value.value| == |args|
    ensures r.Some? && r.value.Ok? ==>
      forall i :: 0 <= i < |args| ==> Immediate(args[i], bindings) == Some(Ok(r.value.value[i]))
    decreases |args|
  {
    if |args| == 0 then Some(Ok([]))
    else
      var init := args[..|args| - 1];
      assert forall i :: 0 <= i < |init| ==> init[i] == args[i];
      match ImmediateArgs(init, bindings)
      case Some(Ok(vs)) =>
        (match Immediate(args[|args| - 1], bindings)
         case None => None
         case Some(Ok(v)) => Some(Ok(vs + [v]))
         case Some(Err(x)) => Some(Err(x)))
      case other => other
  }

  /** An argument list that evaluates has evaluating prefixes, and an error in a prefix is the error of the whole list. */
  lemma {:induction false} ImmediateArgsPrefix(args: seq<Expr>, i: nat, bindings: map<string, Value>)
    requires i <= |args| && ImmediateArgs(args, bindings).Some?
    ensures ImmediateArgs(args[..i], bindings).Some?
    ensures ImmediateArgs(args[..i], bindings).value.Err? ==> ImmediateArgs(args[..i], bindings) == ImmediateArgs(args, bindings)
    decreases |args| - i
  {
    if i < |args| {
      var init := args[..|args| - 1];
      assert init[..i] == args[..i];
      ImmediateArgsPrefix(init, i, bindings);
    } else {
      assert args[..i] == args;
    }
  }

  /** The function a (possibly partial) application finally calls, with all its arguments in order. */
  function Flatten(f: Value, args: seq<Value>): (r: (Value, seq<Value>))
    ensures !r.0.PartialApplication?
    ensures |r.1| >= |args|
    decreases f
  {
    match f
    case PartialApplication(g, prev) =>
      Flatten(g, prev + args)
    case _ => (f, args)
  }

  /** Applying a partial application of a partial application is applying the inner function to all arguments. */
  lemma FlattenNested(g: Value, a: seq<Value>, b: seq<Value>, c: seq<Value>)
    ensures Flatten(PartialApplication(PartialApplication(g, a), b), c) == Flatten(g, a + b + c)
  {
    assert a + (b + c) == a + b + c;
  }

  /** How a backend error is reported by the evaluator. */
  function LiftFfi(r: Result<Value, string>): (q: Result<Value, Error>)
    ensures r.Ok? <==> q.Ok?
    ensures r.Ok? ==> q.value == r.value
    ensures r.Err? ==> q.error == FFIError(r.error)
  {
    match r
    case Ok(v) => Ok(v)
    case Err(e) => Err(FFIError(e))
  }

  /**
   * The outcome and the new bindings of a statement that neither calls,
   * nor loads, nor reaches a call, run in the environment `cur` whose
   * bindings are `bindings`: a literal, a lookup, a definition, an
   * assignment of such a value, or a node the parser removes. `None` for
   * every other statement.
   */
  function Step(e: Expr, bindings: map<string, Value>, cur: Env): Option<(Result<Value, Error>, map<string, Value>)>
  {
    match e
    case FunctionDef(name, params, body) =>
      var f := Value.Function(name, params, body, cur);
      Some((Ok(f), bindings[name := f]))
    case Assignment(name, rhs) =>
      (match Immediate(rhs, bindings)
       case None => None
       case Some(Ok(v)) => Some((Ok(v), bindings[name := v]))
       case Some(Err(x)) => Some((Err(x), bindings)))
    case _ =>
      (match Immediate(e, bindings)
       case None => None
       case Some(x) => Some((x, bindings)))
  }

  /**
   * The reference semantics of `interpret` on a program made of such
   * statements: run them in order from `last`, stop at the first error and
   * keep the bindings it left, or give the value of the last statement.
   * `None` when a statement on the way is not covered by `Step`.
   */
  function Straight(exprs: seq<Expr>, bindings: map<string, Value>, cur: Env, last: Value): Option<(Result<Value, Error>, map<string, Value>)>
    decreases |exprs|
  {
    if |exprs| == 0 then Some((Ok(last), bindings))
    else
      match Step(exprs[0], bindings, cur)
      case None => None
      case Some((Err(x), b)) => Some((Err(x), b))
      case Some((Ok(v), b)) => Straight(exprs[1..], b, cur, v)
  }

  /** An error ends the program: whatever follows it is never run. */
  lemma {:induction false} StraightStopsAtError(a: seq<Expr>, c: seq<Expr>, bindings: map<string, Value>, cur: Env, last: Value)
    requires Straight(a, bindings, cur, last).Some? && Straight(a, bindings, cur, last).value.0.Err?
    ensures Straight(a + c, bindings, cur, last) == Straight(a, bindings, cur, last)
    decreases |a|
  {
    assert (a + c)[0] == a[0];
    assert (a + c)[1..] == a[1..] + c;
    match Step(a[0], bindings, cur)
    case Some((Err(x), b)) =>
    case Some((Ok(v), b)) =>
      StraightStopsAtError(a[1..], c, b, cur, v);
  }

  /** Running two programs one after the other is running their concatenation. */
  lemma {:induction false} StraightAppend(a: seq<Expr>, c: seq<Expr>, bindings: map<string, Value>, cur: Env, last: Value)
    requires Straight(a, bindings, cur, last).Some? && Straight(a, bindings, cur, last).value.0.Ok?
    ensures var (v, b) := Straight(a, bindings, cur, last).value;
      Straight(a + c, bindings, cur, last) == Straight(c, b, cur, v.value)
    decreases |a|
  {
    if |a| == 0 {
      assert a + c == c;
    } else {
      assert (a + c)[0] == a[0];
      assert (a + c)[1..] == a[1..] + c;
      match Step(a[0], bindings, cur)
      case Some((Ok(v), b)) =>
        StraightAppend(a[1..], c, b, cur, v);
    }
  }

  /** Whether `Immediate` applies, and whether it fails, depends only on which names are bound. */
  lemma {:induction false} ImmediateKeys(e: Expr, b1: map<string, Value>, b2: map<string, Value>)
    requires b1.Keys == b2.Keys
    ensures Immediate(e, b1).Some? <==> Immediate(e, b2).Some?
    ensures Immediate(e, b1).Some? ==> (Immediate(e, b1).value.Ok? <==> Immediate(e, b2).value.Ok?)
    decreases e
  {
    match e
    case Return(x) => ImmediateKeys(x, b1, b2);
    case _ =>
  }

  /** The same holds for one statement, which also binds the same names in both runs. */
  lemma StepShape(e: Expr, b1: map<string, Value>, b2: map<string, Value>, c1: Env, c2: Env)
    requires b1.Keys == b2.Keys
    ensures Step(e, b1, c1).Some? <==> Step(e, b2, c2).Some?
    ensures Step(e, b1, c1).Some? ==>
      (Step(e, b1, c1).value.0.Ok? <==> Step(e, b2, c2).value.0.Ok?) &&
      Step(e, b1, c1).value.1.Keys == Step(e, b2, c2).value.1.Keys
  {
    match e {
      case Assignment(_, rhs) => ImmediateKeys(rhs, b1, b2);
      case FunctionDef(_, _, _) =>
      case _ => ImmediateKeys(e, b1, b2);
    }
  }

  /**
   * Whether the reference semantics applies, and whether it ends in an
   * error, depends neither on the values bound nor on the environment
   * object that definitions capture.
   */
  lemma {:induction false} StraightShape(exprs: seq<Expr>, b1: map<string, Value>, b2: map<string, Value>, c1: Env, c2: Env, l1: Value, l2: Value)
    requires b1.Keys == b2.Keys
    ensures Straight(exprs, b1, c1, l1).Some? <==> Straight(exprs, b2, c2, l2).Some?
    ensures Straight(exprs, b1, c1, l1).Some? ==>
      (Straight(exprs, b1, c1, l1).value.0.Ok? <==> Straight(exprs, b2, c2, l2).value.0.Ok?)
    decreases |exprs|
  {
    if |exprs| > 0 {
      StepShape(exprs[0], b1, b2, c1, c2);
      var s1 := Step(exprs[0], b1, c1);
      var s2 := Step(exprs[0], b2, c2);
      if s1.Some? && s1.value.0.Ok? {
        StraightShape(exprs[1..], s1.value.1, s2.value.1, c1, c2, s1.value.0.value, s2.value.0.value);
      }
    }
  }

  class Interpreter {
    /** The current environment (`Rc<RefCell<Environment>>`). */
    var env: Env
    /** The foreign-function router. */
    const ffi: Backend

    /** `Interpreter::new`: an empty environment and a router with nothing loaded. */
    constructor (python: Protocol)
      ensures env.bindings == map[] && fresh(env)
      ensures ffi.modules == map[] && ffi.functionToModule == map[] && ffi.python == python && fresh(ffi)
      ensures ffi.Valid()
    {
      env := new Env(map[]);
      ffi := new Backend(python);
    }

    /**
     * `interpret`: the statements in order, stopping at the first error;
     * the value of the last one, or `false` for none. On a program the
     * reference semantics covers, the result and the new bindings are the
     * ones `Straight` gives, and the environment and router are kept.
     */
    method Interpret(exprs: seq<Expr>, fuel: nat) returns (r: Result<Value, Error>)
      requires ffi.Valid()
      modifies this, env, ffi
      ensures ffi.Valid()
      ensures env == old(env) || fresh(env)
      ensures Straight(exprs, old(env.bindings), old(env), Value.Primitive(Bool(false))).Some? ==>
        env == old(env) && unchanged(ffi) &&
        (r, env.bindings) == Straight(exprs, old(env.bindings), old(env), Value.Primitive(Bool(false))).value
      decreases fuel, 3
    {
      var result := Value.Primitive(Bool(false));
      ghost var start := Straight(exprs, env.bindings, env, result);
      for i := 0 to |exprs|
        invariant ffi.Valid()
        invariant env == old(env) || fresh(env)
        invariant start.Some? ==>
          env == old(env) && unchanged(ffi) && Straight(exprs[i..], env.bindings, env, result) == start
      {
        assert exprs[i..][0] == exprs[i] && exprs[i..][1..] == exprs[i + 1..];
        var x := EvalExpr(exprs[i], fuel);
        if x.Err? {
          return x;
        }
        result := x.value;
      }
      assert exprs[|exprs|..] == [];
      r := Ok(result);
    }

    /** `eval_expr`. */
    method EvalExpr(e: Expr, fuel: nat) returns (r: Result<Value, Error>)
      requires ffi.Valid()
      modifies this, env, ffi
      ensures ffi.Valid()
      ensures env == old(env) || fresh(env)
      ensures CallFree(e) ==> env == old(env)
      ensures Step(e, old(env.bindings), old(env)).Some? ==>
        env == old(env) && unchanged(ffi) && (r, env.bindings) == Step(e, old(env.bindings), old(env)).value
      ensures e.Assignment? && r.Ok? ==> e.name in env.bindings && env.bindings[e.name] == r.value
      ensures e.FFIDecl? ==> env == old(env)
      ensures e.FFIDecl? && r.Ok? ==>
        r.value == Value.Primitive(Bool(true)) &&
        env.bindings == old(env.bindings)[(if e.alias.Some? then e.alias.value else e.name) := Value.Ffi(e.name)]
      ensures e.FFIDecl? && r.Err? ==> r.error.FFIError? && env.bindings == old(env.bindings)
      ensures e.FFIDecl? && Language(e.modulePath) !in old(ffi.modules) && Language(e.modulePath) != "python" ==>
        r == Err(FFIError("Unsupported language: " + Language(e.modulePath))) &&
        ffi.modules == old(ffi.modules) && ffi.functionToModule == old(ffi.functionToModule)
      ensures e.FFIDecl? && (Language(e.modulePath) in old(ffi.modules) || Language(e.modulePath) == "python") ==>
        ffi.modules == old(ffi.modules)[Language(e.modulePath) := ffi.python] &&
        (match ffi.python.load(ModuleName(e.modulePath))
         case Err(x) => r == Err(FFIError(x)) && ffi.functionToModule == old(ffi.functionToModule)
         case Ok(fs) =>
           (r.Ok? && ffi.functionToModule == Registered(old(ffi.functionToModule), fs, Language(e.modulePath), ModuleName(e.modulePath))))
      ensures (e.FunctionCall? && Immediate(e.callee, old(env.bindings)).Some? &&
        Immediate(e.callee, old(env.bindings)).value.Err?) ==>
        r == Immediate(e.callee, old(env.bindings)).value && env == old(env) && env.bindings == old(env.bindings) && unchanged(ffi)
      decreases fuel, 2, e, 2
    {
      match e
      case Primitive(p) =>
        r := Ok(Value.Primitive(p));
      case Variable(name) =>
        if name in env.bindings {
          r := Ok(env.bindings[name]);
        } else {
          r := Err(UndefinedVariable(name));
        }
      case FunctionDef(name, params, body) =>
        var f := Value.Function(name, params, body, env);
        env.bindings := env.bindings[name := f];
        r := Ok(f);
      case FunctionCall(callee, args) =>
        r := EvalCall(callee, args, fuel);
      case Return(x) =>
        assert Immediate(x, env.bindings).Some? ==> Step(x, env.bindings, env) == Step(e, env.bindings, env);
        r := EvalExpr(x, fuel);
      case Assignment(name, rhs) =>
        assert Immediate(rhs, env.bindings).Some? ==> Step(rhs, env.bindings, env).value == (Immediate(rhs, env.bindings).value, env.bindings);
        var v := EvalExpr(rhs, fuel);
        if v.Err? {
          return v;
        }
        env.bindings := env.bindings[name := v.value];
        r := v;
      case FFIDecl(modulePath, name, alias) =>
        var loaded := ffi.LoadModule(modulePath);
        if loaded.Err? {
          return Err(FFIError(loaded.error));
        }
        var ffiName := if alias.Some? then alias.value else name;
        env.bindings := env.bindings[ffiName := Value.Ffi(name)];
        r := Ok(Value.Primitive(Bool(true)));
      case InfixOp(_, _, _) =>
        r := Err(NotReachable(InfixUnreachable));
      case NotationDecl(_, _) =>
        r := Err(NotReachable(NotationUnreachable));
    }

    /**
     * The `FunctionCall` arm of `eval_expr`: the callee, then the arguments
     * left to right, stopping at the first error, then the application.
     */
    method EvalCall(callee: Expr, args: seq<Expr>, fuel: nat) returns (r: Result<Value, Error>)
      requires ffi.Valid()
      modifies this, env, ffi
      ensures ffi.Valid()
      ensures env == old(env) || fresh(env)
      ensures Immediate(callee, old(env.bindings)).Some? && Immediate(callee, old(env.bindings)).value.Err? ==>
        r == Immediate(callee, old(env.bindings)).value && env == old(env) && env.bindings == old(env.bindings) && unchanged(ffi)
      ensures var c := Immediate(callee, old(env.bindings)); var a := ImmediateArgs(args, old(env.bindings));
        c.Some? && c.value.Ok? && a.Some? && a.value.Err? ==>
          r == Err(a.value.error) && env == old(env) && env.bindings == old(env.bindings) && unchanged(ffi)
      ensures var c := Immediate(callee, old(env.bindings)); var a := ImmediateArgs(args, old(env.bindings));
        c.Some? && c.value.Ok? && a.Some? && a.value.Ok? ==>
          var (g, all) := Flatten(c.value.value, a.value.value);
          (!g.Function? && !g.Ffi? ==> r == Err(TypeMismatch(NotAFunction)) && env == old(env) && unchanged(ffi)) &&
          (g.Ffi? ==> env == old(env) && unchanged(ffi) && r == LiftFfi(ffi.CallFunction(g.name, all))) &&
          (g.Function? && |all| != |g.params| ==>
            r == Err(ArityMismatch(ArityMessage(g.name, |g.params|, |all|))) && env == old(env) && unchanged(ffi)) &&
          (g.Function? && |all| == |g.params| && fuel == 0 ==> r == Err(OutOfFuel) && env == old(env) && unchanged(ffi)) &&
          (g.Function? && |all| == |g.params| && fuel > 0 ==> fresh(env)) &&
          (g.Function? && |all| == |g.params| && fuel > 0 &&
           Straight(g.body, Bind(g.closure.bindings, g.params, all), env, Value.Primitive(Bool(false))).Some? ==>
             (r, env.bindings) == Straight(g.body, Bind(g.closure.bindings, g.params, all), env, Value.Primitive(Bool(false))).value)
      decreases fuel, 2, FunctionCall(callee, args), 1
    {
      assert Immediate(callee, env.bindings).Some? ==>
        Step(callee, env.bindings, env).value == (Immediate(callee, env.bindings).value, env.bindings);
      var f := EvalExpr(callee, fuel);
      if f.Err? {
        return f;
      }
      var values := EvalArgs(callee, args, fuel);
      if values.Err? {
        return Err(values.error);
      }
      r := ApplyFunction(f.value, values.value, fuel);
    }

    /**
     * The arguments of the call `callee(args)`, evaluated left to right,
     * stopping at the first error.
     */
    method EvalArgs(callee: Expr, args: seq<Expr>, fuel: nat) returns (r: Result<seq<Value>, Error>)
      requires ffi.Valid()
      modifies this, env, ffi
      ensures ffi.Valid()
      ensures env == old(env) || fresh(env)
      ensures r.Ok? ==> |r.value| == |args|
      ensures ImmediateArgs(args, old(env.bindings)).Some? ==>
        env == old(env) && env.bindings == old(env.bindings) && unchanged(ffi) && r == ImmediateArgs(args, old(env.bindings)).value
      decreases fuel, 2, FunctionCall(callee, args), 0
    {
      ghost var b0 := env.bindings;
      ghost var imm := ImmediateArgs(args, b0).Some?;
      var values: seq<Value> := [];
      for i := 0 to |args|
        invariant ffi.Valid()
        invariant env == old(env) || fresh(env)
        invariant |values| == i
        invariant imm ==> env == old(env) && env.bindings == b0 && unchanged(ffi)
        invariant imm ==> ImmediateArgs(args[..i], b0) == Some(Ok(values))
      {
        assert args[i] < FunctionCall(callee, args);
        if imm {
          ImmediateArgsPrefix(args, i + 1, b0);
          assert args[..i + 1][..i] == args[..i];
          assert Immediate(args[i], b0).Some? && Step(args[i], b0, env).value == (Immediate(args[i], b0).value, b0);
        }
        var a := EvalExpr(args[i], fuel);
        if a.Err? {
          return Err(a.error);
        }
        values := values + [a.value];
      }
      assert args[..|args|] == args;
      r := Ok(values);
    }

    /**
     * `apply_function`. A partial application is applied through to the
     * function it wraps. Application never writes to an environment that
     * existed before it: the frame names only the interpreter and the router.
     */
    method ApplyFunction(f: Value, args: seq<Value>, fuel: nat) returns (r: Result<Value, Error>)
      requires ffi.Valid()
      modifies this, ffi
      ensures ffi.Valid()
      ensures env == old(env) || fresh(env)
      ensures var (g, all) := Flatten(f, args);
        !g.Function? && !g.Ffi? ==>
          r == Err(TypeMismatch(NotAFunction)) && env == old(env) && unchanged(ffi)
      ensures var (g, all) := Flatten(f, args);
        g.Ffi? ==> env == old(env) && unchanged(ffi) && r == LiftFfi(ffi.CallFunction(g.name, all))
      ensures var (g, all) := Flatten(f, args);
        g.Function? && |all| != |g.params| ==>
          r == Err(ArityMismatch(ArityMessage(g.name, |g.params|, |all|))) && env == old(env) && unchanged(ffi)
      ensures var (g, all) := Flatten(f, args);
        g.Function? && |all| == |g.params| && fuel == 0 ==> r == Err(OutOfFuel) && env == old(env) && unchanged(ffi)
      ensures var (g, all) := Flatten(f, args);
        g.Function? && |all| == |g.params| && fuel > 0 ==> fresh(env)
      ensures var (g, all) := Flatten(f, args);
        (g.Function? && |all| == |g.params| && fuel > 0 &&
         Straight(g.body, Bind(g.closure.bindings, g.params, all), env, Value.Primitive(Bool(false))).Some?) ==>
          (r, env.bindings) == Straight(g.body, Bind(g.closure.bindings, g.params, all), env, Value.Primitive(Bool(false))).value
      decreases fuel, 1, f
    {
      match f
      case Function(name, params, body, closure) =>
        r := Invoke(name, params, body, closure, args, fuel);
      case Ffi(name) =>
        r := LiftFfi(ffi.CallFunction(name, args));
      case PartialApplication(g, prev) =>
        r := ApplyFunction(g, prev + args, fuel);
      case Primitive(_) =>
        r := Err(TypeMismatch(NotAFunction));
    }

    /**
     * The `Function` arm of `apply_function`: check the arity, copy the
     * closure's bindings into a new environment, bind the parameters there,
     * make it current and run the body like a program.
     */
    method Invoke(name: string, params: seq<string>, body: seq<Expr>, closure: Env, args: seq<Value>, fuel: nat)
      returns (r: Result<Value, Error>)
      requires ffi.Valid()
      modifies this, ffi
      ensures ffi.Valid()
      ensures env == old(env) || fresh(env)
      ensures |args| != |params| ==>
        r == Err(ArityMismatch(ArityMessage(name, |params|, |args|))) && env == old(env) && unchanged(ffi)
      ensures |args| == |params| && fuel == 0 ==> r == Err(OutOfFuel) && env == old(env) && unchanged(ffi)
      ensures |args| == |params| && fuel > 0 ==> fresh(env)
      ensures (|args| == |params| && fuel > 0 &&
        Straight(body, Bind(closure.bindings, params, args), env, Value.Primitive(Bool(false))).Some?) ==>
          (r, env.bindings) == Straight(body, Bind(closure.bindings, params, args), env, Value.Primitive(Bool(false))).value
      decreases fuel, 0
    {
      if |args| != |params| {
        return Err(ArityMismatch(ArityMessage(name, |params|, |args|)));
      }
      if fuel == 0 {
        return Err(OutOfFuel);
      }
      var bound := BindParams(closure.bindings, params, args);
      env := new Env(bound);
      ghost var local := env;
      r := Interpret(body, fuel - 1);
      StraightShape(body, bound, bound, env, local, Value.Primitive(Bool(false)), Value.Primitive(Bool(false)));
    }
  }

  /**
   * The top-level `interpret`: a fresh interpreter runs the program. The
   * interpreter is returned so that its environment, which the closures in
   * the result refer to, can be named.
   */
  method Run(exprs: seq<Expr>, python: Protocol, fuel: nat) returns (r: Result<Value, Error>, interpreter: Interpreter)
    ensures fresh(interpreter)
    ensures Straight(exprs, map[], interpreter.env, Value.Primitive(Bool(false))).Some? ==>
      (r, interpreter.env.bindings) == Straight(exprs, map[], interpreter.env, Value.Primitive(Bool(false))).value
  {
    interpreter := new Interpreter(python);
    ghost var initial := interpreter.env;
    r := interpreter.Interpret(exprs, fuel);
    StraightShape(exprs, map[], map[], interpreter.env, initial, Value.Primitive(Bool(false)), Value.Primitive(Bool(false)));
  }
}
