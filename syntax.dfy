/**
 * Data model of the new-generation front end and evaluator: literals, the
 * expression tree the grammar builds, notation patterns, and runtime values.
 * Environments are mutable objects shared by reference, as the Rust code
 * shares `Rc<RefCell<Environment>>`.
 */
module Syntax {
  import opened Wrappers

  /** Literals. A float is kept as the text of its token; its f64 value is not modelled. */
  datatype Primitive = Int(i: int) | Float(lexeme: string) | Str(s: string) | Bool(b: bool)

  datatype Associativity = Left | Right | NoAssoc

  datatype NotationPattern = NotationPattern(
    pattern: string,
    variables: seq<string>,
    precedence: Option<int>,
    associativity: Associativity)

  /**
   * Expressions. A function body is the sequence of expressions of its
   * `{ ... }` block; the grammar's `Block` node is flattened into it.
   */
  datatype Expr =
    | Primitive(p: Primitive)
    | Variable(name: string)
    | FunctionDef(name: string, params: seq<string>, body: seq<Expr>)
    | FunctionCall(callee: Expr, args: seq<Expr>)
    | Return(operand: Expr)
    | Assignment(name: string, rhs: Expr)
    | InfixOp(left: Expr, op: string, right: Expr)
    | NotationDecl(notation: NotationPattern, expansion: Expr)
    | FFIDecl(modulePath: string, name: string, alias: Option<string>)

  /** Runtime values. A function value holds a reference to its closure environment. */
  datatype Value =
    | Primitive(p: Primitive)
    | Function(name: string, params: seq<string>, body: seq<Expr>, closure: Env)
    | PartialApplication(f: Value, supplied: seq<Value>)
    | Ffi(name: string)

  /** A mutable environment: one `RefCell<Environment>` cell. */
  class Env {
    var bindings: map<string, Value>

    constructor (initial: map<string, Value>)
      ensures bindings == initial
    {
      bindings := initial;
    }
  }
}
