/**
 * The parser front end (src/parser/mod.rs): the base grammar, then the
 * notation rewriter on its output.
 */
module Frontend {
  import opened Wrappers
  import opened Syntax
  import opened BaseParser
  import opened Notation

  /** The message a failed base parse is reported with; nom's rendering of its error is not modelled. */
  const ParseErrorMessage: string := "parse error"

  /**
   * `parse_program`: a base parse error becomes `Err`, otherwise the
   * rewritten program; `order` is the iteration order of the table the
   * program declares.
   */
  method Parse(input: string, order: seq<string>) returns (r: Result<seq<Expr>, string>)
    requires ParseProgram(input).Some? ==> Enumerates(order, TableOf(ParseProgram(input).value))
    ensures ParseProgram(input).None? <==> r.Err?
    ensures r.Err? ==> r.error == ParseErrorMessage
    ensures r.Ok? ==> r.value == Applied(ParseProgram(input).value, order)
  {
    match ParseProgram(input)
    case None => return Err(ParseErrorMessage);
    case Some(ast) =>
      r := ApplyNotations(ast, order);
  }

  /** A program that declares no notation comes out exactly as the grammar built it. */
  lemma ParseWithoutNotations(input: string, order: seq<string>)
    requires ParseProgram(input).Some?
    requires forall i :: 0 <= i < |ParseProgram(input).value| ==> !ParseProgram(input).value[i].NotationDecl?
    requires Enumerates(order, TableOf(ParseProgram(input).value))
    ensures Applied(ParseProgram(input).value, order) == ParseProgram(input).value
  {
    AppliedWithoutDecls(ParseProgram(input).value, order);
  }
}
