/**
 * Data model of the first-generation interpreter (src/syntax.rs): four
 * expression forms and values whose closures carry a copy of the
 * environment they were created in.
 */
module OldSyntax {

  /** Literals. Only integers are produced by the first-generation parser. */
  datatype Primitive = Int(i: int) | Str(s: string) | Bool(b: bool)

  datatype Expr =
    | Primitive(p: Primitive)
    | Variable(name: string)
    | FunctionDef(name: string, params: seq<string>, body: Expr)
    | FunctionCall(callee: Expr, args: seq<Expr>)

  /** `HashMap<String, Value>`, copied by value. */
  type Environment = map<string, Value>

  datatype Value =
    | Primitive(p: Primitive)
    | Function(name: string, params: seq<string>, body: Expr, closure: map<string, Value>)
    | PartialApplication(f: Value, supplied: seq<Value>)

  /** The function a chain of partial applications finally calls, with all arguments in order. */
  function Flatten(f: Value, args: seq<Value>): (r: (Value, seq<Value>))
    ensures !r.0.PartialApplication?
    ensures |r.1| >= |args|
    decreases f
  {
    match f
    case PartialApplication(g, prev) =>
      Flatten(g, prev + args)
    case _ => (f, args)
  }

  /** Flattening is compatible with supplying arguments in two batches. */
  lemma {:induction false} FlattenAppend(f: Value, a: seq<Value>, b: seq<Value>)
    ensures Flatten(f, a + b) == (Flatten(f, a).0, Flatten(f, a).1 + b)
    decreases f
  {
    match f
    case PartialApplication(g, prev) =>
      FlattenAppend(g, prev + a, b);
      assert prev + (a + b) == prev + a + b;
      assert Flatten(f, a + b) == Flatten(g, prev + a + b);
      assert Flatten(f, a) == Flatten(g, prev + a);
    case _ =>
  }
}
