# Galois interpreter, modelled in Dafny

Galois is a small functional language written in Rust. The repository holds two generations of its front end and its evaluator. This project models both, together with the router for foreign-function calls.

**New generation**
- The nom grammar: `parse_program` and every parser it calls.
- The notation rewriter. It collects `notation "..." with ... := e` declarations and rewrites the calls that match them.
- The glue `parse_program` in `src/parser/mod.rs`, which parses and then applies the notations.
- The stateful evaluator. It is an `Interpreter` object holding a shared, mutable environment and an FFI backend.
- The FFI backend. It maps function names to a (language, module) pair and routes calls to the language's protocol object.

**Old generation**
- The nom parser of `src/parser.rs`.
- The panicking evaluator `eval`/`apply_function` of `src/main.rs`.
- The `Result`-returning evaluator `interpret`/`apply_function` of `src/interpreter.rs`.
- The types of `src/syntax.rs`.

**How the model is built**
- A parser is a function from the remaining input to `Option<(value, rest)>`. `None` stands for nom's recoverable `Error`.
- Both evaluators of the old generation are total functions, bounded by a `fuel` argument.
- The new evaluator is a class. Its `env` field is an `Env` object whose `bindings` map is updated in place. A call replaces `env` with a fresh object, and a function value keeps a reference to the `Env` it was defined in, just as `Rc<RefCell<Environment>>` does.
- The FFI backend is a class whose two maps are reassigned by `LoadModule`.
- The Python backend (`src/ffi/python.rs`) is not part of this model. It is a parameter: a `Protocol` value holding a `load` function and a `call` function.

**Files**

| file | contents |
|---|---|
| `text.dfy` | Character classes, `split`/`join`, `split_whitespace`, and decimal rendering. |
| `bindings.dfy` | The `zip`-and-insert loop that four source functions share. |
| `syntax.dfy`, `parser_base.dfy`, `parser_base_facts.dfy` | The new AST types and grammar, and lemmas about the grammar. |
| `parser_suffix.dfy` | For every parser of the grammar: what a successful parse leaves is a suffix of its input. |
| `parser_roundtrip.dfy`, `parser_notation_roundtrip.dfy` | A printer for a subset of the new AST, and the round trip of printed text through every parser it reaches. |
| `notation.dfy` | The notation rewriter. |
| `frontend.dfy` | The glue `parse_program`. |
| `ffi.dfy` | The FFI backend. |
| `evaluator.dfy` | The new evaluator. |
| `old_syntax.dfy`, `old_parser.dfy`, `old_parser_facts.dfy`, `old_main.dfy`, `old_interpreter.dfy` | The old generation. |
| `old_parser_roundtrip.dfy` | A printer for the old AST, and the round trip of printed text through the old parser. |

The types of the new AST (Expr with `Return`, `Assignment`, `InfixOp`, `NotationDecl` and `FFIDecl`, and Value with `Ffi`) are not defined in `src/syntax.rs`, which at this revision defines only the old AST. `syntax.dfy` rebuilds the new types from the way `base.rs`, `notation.rs` and `evaluator.rs` construct and match them.

Where the code and its description disagree, the model follows the code:

- **A trailing `// comment` is an infix operator.** `/` is an operator character, so `x // note` parses as the infix expression `x // note`. A line comment that reaches the end of the input without a newline is not whitespace. So `x; // note` is rejected as a whole, because the final `// note` is not an expression (`BaseParserFacts.TrailingLineCommentRejected`).
- **Booleans have no word boundary.** `trueX` parses as `true`, followed by the rest `X`.
- **The caller's environment is not restored after a call.** `apply_function` sets `self.env` to the callee's new environment and never restores the caller's. The model does the same: after a call, `env` is the fresh callee environment.

One behaviour follows the evident intention instead of the code. **Notations are expanded inside function bodies.** As written, `expand_expr` never reaches into a definition, because the parser wraps every body in a `Block` node that the rewriter passes over (see Findings). The model keeps no `Block` node: a body is its sequence of statements. The front end (`Notation.ApplyNotations`, `Frontend.Parse`) uses the corrected `Notation.Expand`, which rewrites every statement of a body. `Notation.ExpandAsWritten` keeps the behaviour as written, and only the finding uses it.

## Model

| member | source | states |
|---|---|---|
| Text.Span | src/parser/base.rs:112-123 | The result is the length of the longest prefix whose characters all satisfy the class, as nom's `alpha1`/`digit1`/`multispace0` consume. |
| Text.SpanPrefix | src/parser/base.rs:59-66 | A run of class characters that ends at a non-class character is consumed exactly. |
| Text.Find | src/parser/base.rs:41-42 | `take_until(pat)` finds the first occurrence of `pat`, or reports that there is none. |
| Text.Split | src/ffi/mod.rs:57 | `split('.')` always yields at least one part, and no part contains the separator. |
| Text.JoinSplit | src/ffi/mod.rs:57-59 | Joining the parts of `split(c)` with `c` gives back the original path. |
| Text.SplitWithoutSeparator | src/ffi/mod.rs:57-59 | Without a separator, `split` yields the whole path as its only part. |
| Text.SplitAtFirst | src/ffi/mod.rs:57-59 | `parts[0]` is the text before the first separator, and `parts[1..].join(c)` is the text after it. |
| Text.IndexOf | src/ffi/mod.rs:57 | The first index of the separator holds it and has no separator before it. |
| Text.SplitWhitespace | src/parser/notation.rs:70 | `split_whitespace` yields non-empty words that contain no Unicode whitespace. |
| Text.WordThenRest | src/parser/notation.rs:70 | A word followed by whitespace or the end is the first part of `split_whitespace`. |
| Text.SpaceThenRest | src/parser/notation.rs:70 | Leading whitespace contributes no part. |
| Text.NatToString | src/interpreter/evaluator.rs:115-120 | `{}` formatting of a count yields a non-empty string of decimal digits. |
| Text.DecimalOfNatToString | src/interpreter/evaluator.rs:115-120 | Reading the rendered count back as decimal gives the count. |
| Bindings.Bind | src/interpreter/evaluator.rs:126-129 | After the zip-insert loop, the keys are the old keys plus the first `min(len)` names. |
| Bindings.BindUntouched | src/parser/notation.rs:51-54 | A name that no bound pair mentions keeps its old binding, or stays unbound. |
| Bindings.BindLast | src/main.rs:39-41 | A name bound several times gets the value paired with its last occurrence. |
| Bindings.BindDistinct | src/interpreter.rs:56-58 | With distinct names of equal count, each name is bound to its own argument. |
| Bindings.BindParams | src/interpreter/evaluator.rs:126-129 | The insertion loop computes `Bind`. |
| Syntax.Env.constructor | src/interpreter/evaluator.rs:39 | A new environment holds exactly the given bindings. |
| BaseParser.Tag | src/parser/base.rs:36-45 | `tag(t)` succeeds iff the input starts with `t`, and the rest is what follows `t`. |
| BaseParser.Char | src/parser/base.rs:84-103 | `char(c)` succeeds iff the first character is `c`, and the rest is the remaining input. |
| BaseParser.WsItem | src/parser/base.rs:36-45 | A whitespace item (multispace1, a newline-terminated line comment or a block comment) consumes at least one character. |
| BaseParser.Ws | src/parser/base.rs:36-45 | `ws` never fails and never grows the input. |
| BaseParserFacts.WsIsSuffix | src/parser/base.rs:36-45 | What `ws` leaves is a suffix of its input. |
| BaseParserFacts.WsStops | src/parser/base.rs:36-45 | After `ws`, no further whitespace item can be consumed. |
| BaseParserFacts.WsStopsAt | src/parser/base.rs:36-45 | Input starting with neither whitespace nor `/` is left alone by `ws`. |
| BaseParserFacts.UnterminatedLineComment | src/parser/base.rs:41 | A `//` comment with no newline after it is not skipped, because `take_until` fails. |
| BaseParserFacts.LineCommentSkipped | src/parser/base.rs:41 | A `//` comment up to a newline is skipped, and the newline is left for the next item. |
| BaseParserFacts.CommentThenCode | src/parser/base.rs:36-45 | Leading spaces and a newline-terminated `//` comment are skipped before code. |
| BaseParserFacts.TrailingLineCommentRejected | src/parser/base.rs:316-332 | `x; // note` is rejected: an unterminated line comment is neither whitespace nor an item. |
| BaseParserFacts.NoteTopLevel | src/parser/base.rs:316-325 | The statement `x;` is read as one item and leaves `// note`. |
| BaseParserFacts.VariableStops | src/parser/base.rs:112-123 | A one-letter name before a non-identifier character is read as a variable. |
| BaseParserFacts.PrimitiveNone | src/parser/base.rs:47-57 | Input starting with none of the literal first characters is not a primitive. |
| BaseParserFacts.TermOfName | src/parser/base.rs:219-233 | A name before a character that ends it and starts nothing else is a variable term, not a call. |
| BaseParserFacts.InfixTailStops | src/parser/base.rs:239-249 | No operator after a term ends the infix chain. |
| BaseParserFacts.ExprOfName | src/parser/base.rs:305-314 | Such a name is a whole expression: no assignment and no return. |
| BaseParserFacts.StatementOfName | src/parser/base.rs:316-325 | Such a name is a statement item: neither a definition nor a notation. |
| BaseParserFacts.SemicolonConsumed | src/parser/base.rs:322 | A `;` after a statement and the whitespace after it are consumed. |
| BaseParser.ParseInt | src/parser/base.rs:59-66 | Succeeds iff the input starts with a digit, or with `-` and a digit. A negative value needs the sign, and the digit run is maximal. |
| BaseParserFacts.IntRoundTrip | src/parser/base.rs:59-66 | The decimal rendering of `n`, followed by a non-digit, parses to `n`. |
| BaseParserFacts.NegativeIntRoundTrip | src/parser/base.rs:59-66 | `-` followed by the decimal rendering of `n` parses to `-n`. |
| BaseParserFacts.IntNeedsDigit | src/parser/base.rs:59-66 | Without a leading digit, or `-` and a digit, there is no integer. |
| BaseParser.ExponentLength | src/parser/base.rs:68-82 | An optional exponent never reaches past the input. |
| BaseParserFacts.ExponentLengthLongest | src/parser/base.rs:77 | A non-zero length is a whole exponent (`e` or `E`, an optional sign, digits) followed by no further digit. A zero length means no prefix of the input is an exponent. |
| BaseParser.ParseFloat | src/parser/base.rs:68-82 | A float token consumes input when it succeeds. |
| BaseParser.StringBody | src/parser/base.rs:84-103 | The body scan stops only at a quote, a backslash or the end of the input. |
| BaseParser.ParseString | src/parser/base.rs:84-103 | A string literal starts with a quote and is at least two characters long. |
| BaseParserFacts.StringBodyOfEscape | src/parser/base.rs:84-103 | Scanning the escaped form of a text decodes it back, and stops at the closing quote. |
| BaseParserFacts.StringRoundTrip | src/parser/base.rs:84-103 | A quoted, escaped text parses back to the text, and the rest is untouched. |
| BaseParserFacts.StringBodyStep | src/parser/base.rs:88-99 | One escaped character decodes to itself, and the scan carries on after it. |
| BaseParserFacts.StringBodyStopsAtBadEscape | src/parser/base.rs:88-99 | The body scan stops at a backslash that starts none of the five escapes. |
| BaseParserFacts.BadEscapeRejected | src/parser/base.rs:84-103 | A literal with an unknown escape is rejected: no closing quote follows the body. |
| BaseParser.ParseBool | src/parser/base.rs:105-110 | Succeeds iff the input starts with `true` or `false`. The value says which, and exactly that keyword is consumed. |
| BaseParserFacts.TrueIsPrefix | src/parser/base.rs:219-233 | A term starting with `true` is the boolean `true`, whatever follows. |
| BaseParserFacts.TrueXIsBool | src/parser/base.rs:105-110 | `trueX` parses as `true` and leaves `X`, since there is no word boundary. |
| BaseParser.ParsePrimitive | src/parser/base.rs:47-57 | A primitive parse yields a literal and consumes input. |
| BaseParser.ParseVariable | src/parser/base.rs:112-123 | Succeeds iff the input starts with a letter or `_`. The name is the maximal run of identifier characters, and name plus rest is the input. |
| BaseParser.ParseInfixOp | src/parser/base.rs:235-237 | The operator is the maximal non-empty run of operator characters, and operator plus rest is the input. |
| BaseParserFacts.OperatorIsMaximal | src/parser/base.rs:235-237 | `+- x` reads the single operator `+-`. |
| BaseParserFacts.FoldInfixSnoc | src/parser/base.rs:245-247 | Folding a further operand wraps the previous fold, which makes infix chains left-associative. |
| BaseParserFacts.FoldInfixTwo | src/parser/base.rs:245-247 | `a op1 b op2 c` folds to `(a op1 b) op2 c`. |
| BaseParser.Token | src/parser/base.rs:125-139 | A `ws`-delimited tag consumes input. |
| BaseParser.OptSemicolon | src/parser/base.rs:141-178 | The optional `;` never grows the input. |
| BaseParser.VariableList | src/parser/base.rs:141-178 | A parameter list never grows the input. |
| BaseParser.VariableListTail | src/parser/base.rs:141-178 | The comma-separated tail never grows the input. |
| BaseParser.ParseExpr | src/parser/base.rs:305-314 | An expression parse consumes input. |
| BaseParser.ParseAssignment | src/parser/base.rs:125-139 | An assignment parse consumes input and yields an `Assignment`. |
| BaseParser.ParseReturn | src/parser/base.rs:210-217 | A return parse consumes input and yields a `Return`. |
| BaseParser.ParseInfixExpr | src/parser/base.rs:239-249 | An infix-expression parse consumes input. |
| BaseParser.InfixTail | src/parser/base.rs:239-249 | The `many0` of operator and term pairs never grows the input. |
| BaseParser.ParseTerm | src/parser/base.rs:219-233 | A term parse consumes input. |
| BaseParser.ParseParenthesized | src/parser/base.rs:228 | A parenthesised expression consumes input. |
| BaseParser.ParseFunctionCall | src/parser/base.rs:193-208 | A call parse consumes input and yields a `FunctionCall`. |
| BaseParser.CallArguments | src/parser/base.rs:193-208 | A parenthesised argument list consumes input. |
| BaseParser.ExprList | src/parser/base.rs:201 | An argument list never grows the input. |
| BaseParser.ExprListTail | src/parser/base.rs:201 | The comma-separated argument tail never grows the input. |
| BaseParser.ParseFunctionDef | src/parser/base.rs:141-178 | A definition parse consumes input and yields a `FunctionDef`. |
| BaseParser.DefHeader | src/parser/base.rs:141-178 | The `def name(params)` header consumes input. |
| BaseParser.DefBody | src/parser/base.rs:152-154 | The braced body (`{`, the block, `}`, each brace with whitespace around it) never grows the input. |
| BaseParser.ParseBlock | src/parser/base.rs:180-191 | The `many0` of statements inside a body never grows the input. It may consume nothing, as for an empty body. The braces around it are read by `DefBody`. |
| BaseParser.AsI32 | src/parser/base.rs:284 | `as i32` gives a value in the i32 range, congruent to the input modulo 2^32. |
| BaseParserFacts.AsI32Wraps | src/parser/base.rs:284 | 2^31 wraps to -2^31, and 2^32+5 wraps to 5. |
| BaseParserFacts.AsI32InRange | src/parser/base.rs:284 | An i32-range value is kept as it is. |
| BaseParserFacts.NotationPatternDefaults | src/parser/base.rs:271-286 | A quoted pattern without clauses has no variables, no precedence and associativity `None`. |
| BaseParser.Keyword | src/parser/base.rs:257-269 | A keyword tag after whitespace never grows the input. |
| BaseParser.WithClause | src/parser/base.rs:257-260 | The `with` variable list never grows the input. |
| BaseParser.PrecedenceClause | src/parser/base.rs:262-265 | The `precedence` clause never grows the input. |
| BaseParser.AssociativityClause | src/parser/base.rs:266-269 | The `associativity` clause never grows the input. |
| BaseParser.ParseNotationPattern | src/parser/base.rs:251-289 | A notation pattern consumes input. |
| BaseParser.ParseNotationDecl | src/parser/base.rs:291-303 | A notation declaration parse consumes input and yields a `NotationDecl`. |
| BaseParser.ParseStatement | src/parser/base.rs:322 | A statement (an expression and an optional `;`) consumes input. |
| BaseParser.ParseTopLevelExpr | src/parser/base.rs:316-325 | A top-level item consumes input. |
| BaseParser.TopLevelItems | src/parser/base.rs:327-332 | The `many0` of items never grows the input. |
| BaseParser.ParseProgram | src/parser/base.rs:327-332 | A successfully parsed program holds at least one item, as `many1` requires. |
| BaseParser.QuotedPattern | src/parser/base.rs:256 | Fails exactly when the input does not start with `"` or has no second `"`. Otherwise the input is the opening quote, the pattern, which holds no `"`, the closing quote, and the rest. |
| BaseParserSuffix.TokenSuffix | src/parser/base.rs:125-139 | What a `ws`-delimited token leaves is a suffix of its input. |
| BaseParserSuffix.OptSemicolonSuffix | src/parser/base.rs:141-178 | What the optional `;` leaves is a suffix of its input. |
| BaseParserSuffix.KeywordSuffix | src/parser/base.rs:257-269 | What a keyword tag leaves is a suffix of its input. |
| BaseParserSuffix.VariableSuffix | src/parser/base.rs:112-123 | What `parse_variable` leaves is a suffix of its input. |
| BaseParserSuffix.IntSuffix | src/parser/base.rs:59-66 | What `parse_int` leaves is a suffix of its input. |
| BaseParserSuffix.FloatSuffix | src/parser/base.rs:68-82 | What `parse_float` leaves is a suffix of its input. |
| BaseParserSuffix.StringBodySuffix | src/parser/base.rs:88-99 | What the body scan of a string leaves is a suffix of its input. |
| BaseParserSuffix.StringSuffix | src/parser/base.rs:84-103 | What `parse_string` leaves is a suffix of its input. |
| BaseParserSuffix.BoolSuffix | src/parser/base.rs:105-110 | What `parse_bool` leaves is a suffix of its input. |
| BaseParserSuffix.PrimitiveSuffix | src/parser/base.rs:47-57 | What `parse_primitive` leaves is a suffix of its input. |
| BaseParserSuffix.VariableListTailSuffix | src/parser/base.rs:141-178 | What the comma-separated parameter tail leaves is a suffix of its input. |
| BaseParserSuffix.VariableListSuffix | src/parser/base.rs:141-178 | What a parameter list leaves is a suffix of its input. |
| BaseParserSuffix.ExprSuffix | src/parser/base.rs:305-314 | What `parse_expr` leaves is a suffix of its input. |
| BaseParserSuffix.AssignmentSuffix | src/parser/base.rs:125-139 | What `parse_assignment` leaves is a suffix of its input. |
| BaseParserSuffix.ReturnSuffix | src/parser/base.rs:210-217 | What `parse_return` leaves is a suffix of its input. |
| BaseParserSuffix.InfixExprSuffix | src/parser/base.rs:239-249 | What `parse_infix_expr` leaves is a suffix of its input. |
| BaseParserSuffix.InfixTailSuffix | src/parser/base.rs:239-249 | What the `many0` of operator and term pairs leaves is a suffix of its input. |
| BaseParserSuffix.TermSuffix | src/parser/base.rs:219-233 | What `parse_term` leaves is a suffix of its input. |
| BaseParserSuffix.ParenthesizedSuffix | src/parser/base.rs:228 | What a parenthesised expression leaves is a suffix of its input. |
| BaseParserSuffix.FunctionCallSuffix | src/parser/base.rs:193-208 | What `parse_function_call` leaves is a suffix of its input. |
| BaseParserSuffix.CallArgumentsSuffix | src/parser/base.rs:193-208 | What a parenthesised argument list leaves is a suffix of its input. |
| BaseParserSuffix.ExprListSuffix | src/parser/base.rs:201 | What an argument list leaves is a suffix of its input. |
| BaseParserSuffix.ExprListTailSuffix | src/parser/base.rs:201 | What the comma-separated argument tail leaves is a suffix of its input. |
| BaseParserSuffix.DefHeaderSuffix | src/parser/base.rs:141-178 | What the `def name(params)` header leaves is a suffix of its input. |
| BaseParserSuffix.FunctionDefSuffix | src/parser/base.rs:141-178 | What `parse_function_def` leaves is a suffix of its input. |
| BaseParserSuffix.DefBodySuffix | src/parser/base.rs:152-154 | What the braced body leaves is a suffix of its input. |
| BaseParserSuffix.BlockSuffix | src/parser/base.rs:180-191 | What the `many0` of body statements leaves is a suffix of its input. |
| BaseParserSuffix.WithClauseSuffix | src/parser/base.rs:257-260 | What the `with` clause leaves is a suffix of its input. |
| BaseParserSuffix.PrecedenceClauseSuffix | src/parser/base.rs:262-265 | What the `precedence` clause leaves is a suffix of its input. |
| BaseParserSuffix.AssociativityClauseSuffix | src/parser/base.rs:266-269 | What the `associativity` clause leaves is a suffix of its input. |
| BaseParserSuffix.QuotedPatternSuffix | src/parser/base.rs:256 | What the quoted pattern leaves is a suffix of its input. |
| BaseParserSuffix.NotationPatternSuffix | src/parser/base.rs:251-289 | What `parse_notation_pattern` leaves is a suffix of its input. |
| BaseParserSuffix.NotationDeclSuffix | src/parser/base.rs:291-303 | What `parse_notation_decl` leaves is a suffix of its input. |
| BaseParserSuffix.StatementSuffix | src/parser/base.rs:322 | What a statement leaves is a suffix of its input. |
| BaseParserSuffix.TopLevelExprSuffix | src/parser/base.rs:316-325 | What `parse_top_level_expr` leaves is a suffix of its input. |
| BaseParserSuffix.TopLevelItemsSuffix | src/parser/base.rs:327-332 | What the `many0` of items leaves is a suffix of its input. |
| BaseParserRoundTrip.FloatBeforeInt | src/parser/base.rs:47-57 | On `digits.digits`, both the float and the integer parser succeed, and `parse_primitive` takes the float, because it tries the float first. |
| BaseParserRoundTrip.PrimitiveOfNat | src/parser/base.rs:47-66 | The decimal text of a natural number, not followed by a digit or by `.` and a digit, is read as that integer literal. |
| BaseParserRoundTrip.NameRoundTrip | src/parser/base.rs:112-123 | A name followed by a character that cannot continue it is read as that variable, and the rest is left. |
| BaseParserRoundTrip.PrimitiveOfName | src/parser/base.rs:47-57 | A name that starts with neither `true` nor `false`, followed by a character that ends it, is not a primitive. |
| BaseParserRoundTrip.VariableRoundTrip | src/parser/base.rs:305-314 | Such a name, followed by text that continues no expression, is a whole expression: the variable. |
| BaseParserRoundTrip.NatRoundTrip | src/parser/base.rs:305-314 | A printed natural number is a whole expression: the integer literal. |
| BaseParserRoundTrip.CallStep | src/parser/base.rs:219-233 | When the argument list of `f(...)` reads back, the whole `f(...)` is the call expression. |
| BaseParserRoundTrip.AssignmentStep | src/parser/base.rs:125-139 | `x=e` is read as the assignment of `e` to `x` when `e` reads back. |
| BaseParserRoundTrip.ReturnStep | src/parser/base.rs:210-217 | `return e` is read as the return of `e` when `e` reads back. |
| BaseParserRoundTrip.ExprRoundTrip | src/parser/base.rs:305-314 | Every printed expression (names, naturals, calls, assignments and returns) reads back as itself, and the text after it is left. |
| BaseParserRoundTrip.ArgsRoundTrip | src/parser/base.rs:193-208 | A printed, parenthesised argument list reads back as the same arguments in order. |
| BaseParserRoundTrip.ExprListRoundTrip | src/parser/base.rs:201 | The comma-separated list inside the parentheses reads back as the same arguments, and stops at `)`. |
| BaseParserRoundTrip.ExprListTailRoundTrip | src/parser/base.rs:201 | The tail after the first argument reads back as the remaining arguments. |
| BaseParserRoundTrip.FunctionCallRoundTrip | src/parser/base.rs:193-208 | `parse_function_call` reads `f(a,b,...)` back as the call of `f` on those arguments. |
| BaseParserRoundTrip.BlockRoundTrip | src/parser/base.rs:180-191 | The statements of a printed body read back in order, and the scan stops at `}`. |
| BaseParserRoundTrip.ParamsRoundTrip | src/parser/base.rs:141-178 | A printed parameter list reads back as the same names in order. |
| BaseParserRoundTrip.ParamsTailRoundTrip | src/parser/base.rs:141-178 | The tail after the first parameter reads back as the remaining names. |
| BaseParserRoundTrip.DefHeaderRoundTrip | src/parser/base.rs:141-178 | `def name(params)` reads back as that name and those parameters. |
| BaseParserRoundTrip.DefBodyRoundTrip | src/parser/base.rs:141-178 | A braced body reads back as its statements, and the whitespace after `}` is skipped. |
| BaseParserRoundTrip.DefRoundTrip | src/parser/base.rs:141-178 | `parse_function_def` reads a printed definition back as the same name, parameters and body. |
| BaseParserRoundTrip.StatementRoundTrip | src/parser/base.rs:316-325 | A printed expression with its `;` is one top-level item. |
| BaseParserRoundTrip.ItemRoundTrip | src/parser/base.rs:316-325 | A printed definition or statement is one top-level item, and it reads back as itself. |
| BaseParserRoundTrip.ItemsRoundTrip | src/parser/base.rs:327-332 | The `many0` of items reads a printed program back as its items, and stops where no item starts. |
| BaseParserRoundTrip.ProgramFollowedBy | src/parser/base.rs:327-332 | A printed program followed by text that starts no item is accepted iff that text is empty. |
| BaseParserRoundTrip.ProgramRoundTrip | src/parser/base.rs:327-332 | `parse_program` reads a printed program back as the same items. |
| BaseParserRoundTrip.ProgramRejectsTrailing | src/parser/base.rs:327-332 | A printed program followed by a stray `)` or `}` is rejected. |
| BaseParserRoundTrip.TopLevelItemsMaximal | src/parser/base.rs:327-332 | `many0` stops only where no further item can be parsed, for every input. |
| BaseParserNotationRoundTrip.QuotedOf | src/parser/base.rs:256 | A quoted pattern without a quote inside reads back as that text. |
| BaseParserNotationRoundTrip.PatternRoundTrip | src/parser/base.rs:251-289 | A printed pattern with a `with` clause reads back with the same text and variables, no precedence and associativity `None`. |
| BaseParserNotationRoundTrip.NotationDeclRoundTrip | src/parser/base.rs:291-303 | `notation "p" with x,y:=e` reads back as the declaration of that pattern with expansion `e`, and the text after it is left. |
| BaseParserNotationRoundTrip.NotationItemRoundTrip | src/parser/base.rs:316-325 | At top level, a printed notation declaration is one item. |
| Notation.NonDecls | src/parser/notation.rs:12-26 | The remaining AST holds no notation declarations. |
| Notation.ExtractNotations | src/parser/notation.rs:12-26 | The extraction loop yields the declaration table and the remaining expressions. |
| Notation.TableKeys | src/parser/notation.rs:12-26 | A pattern is in the table iff some declaration in the AST has that pattern. |
| Notation.TableLastWins | src/parser/notation.rs:17-19 | When a pattern is declared twice, the later declaration's variables and expansion win. |
| Notation.NonDeclsAppend | src/parser/notation.rs:12-26 | The filtering distributes over concatenation. |
| Notation.NonDeclsMembers | src/parser/notation.rs:20-22 | An expression is kept iff it is in the AST and is not a declaration. |
| Notation.NonDeclsNone | src/parser/notation.rs:12-26 | An AST without declarations is kept whole, with an empty table. |
| Notation.TableOf | src/parser/notation.rs:12-26 | The declarations are read in order into a map from pattern text to (variables, expansion). `TableKeys` and `TableLastWins` state its keys and values. |
| Notation.MatchNotation | src/parser/notation.rs:69-97 | The matching loop computes `Matches`. |
| Notation.CapturedPrefixNone | src/parser/notation.rs:81-93 | Once an argument position fails, the whole match fails, which is the early `return None`. |
| Notation.Captured | src/parser/notation.rs:81-93 | The loop over the arguments: a variable part captures its argument, a skip symbol drops it, and any other part fails. `CapturedSome`, `CapturedAllVariables` and `CapturedAllSymbols` state its results. |
| Notation.Matches | src/parser/notation.rs:69-97 | `match_notation`: the part count check, the head check, then the argument loop. `MatchesIff` states when it succeeds. |
| Notation.CapturedSome | src/parser/notation.rs:81-93 | Capture succeeds iff every pattern part is a variable or a skip symbol. Captures never outnumber the arguments. |
| Notation.MatchesIff | src/parser/notation.rs:69-97 | A call matches iff the part count is the argument count plus one, the callee is the first word, and every other part is accepted. |
| Notation.CapturedAllVariables | src/parser/notation.rs:84-85 | When every part is a variable, every argument is captured in order. |
| Notation.CapturedAllSymbols | src/parser/notation.rs:86-88 | When every part is a skip symbol, nothing is captured. |
| Notation.SubstituteUnbound | src/parser/notation.rs:99-108 | Substituting names an expression does not mention changes nothing. |
| Notation.SubstituteEmpty | src/parser/notation.rs:99-108 | Substituting with no bindings is the identity. |
| Notation.SubstituteSkipsInfix | src/parser/notation.rs:106 | Variables inside an infix expression are not substituted, since the source only recurses into calls. |
| Notation.Substitute | src/parser/notation.rs:99-108 | `substitute_expr`: a bound variable is replaced, a call is entered, every other node is copied. `SubstituteUnbound`, `SubstituteEmpty` and `SubstituteSkipsInfix` state its behaviour. |
| Notation.FirstRewrite | src/parser/notation.rs:44-58 | The loop over the table in iteration order, stopping at the first entry that rewrites the call. `FirstRewriteFound` states what it returns. |
| Notation.FirstRewriteFound | src/parser/notation.rs:44-58 | A call is rewritten iff some key of the order rewrites it, and the rewrite is that of one such key. |
| Notation.RewrittenIffDeclared | src/parser/notation.rs:44-58 | When the order lists every key of the table once, a call is rewritten iff some declared pattern rewrites it. |
| Notation.Expand | src/parser/notation.rs:37-67 | The corrected `expand_expr`: bottom-up rewriting of calls, entering definition bodies and `return` operands. `ExpandEmptyTable`, `ExpandEntersBody` and `SquareCallRewrites` state its behaviour. |
| Notation.ExpandAsWritten | src/parser/notation.rs:37-67 | `expand_expr` as written: a definition whose body the parser built is returned as it is. `AsWrittenSkipsBody` and `BodyExpansionDiffers` state that. |
| Notation.ExpandExpr | src/parser/notation.rs:37-67 | The recursive rewrite computes `Expand`. |
| Notation.RewriteCall | src/parser/notation.rs:47-57 | The loop over the table returns the first rewrite in iteration order, or none. |
| Notation.ExpandEmptyTable | src/parser/notation.rs:37-67 | With no notations, expansion is the identity. |
| Notation.NoRewriteInEmptyTable | src/parser/notation.rs:44-58 | An empty table produces no rewrite. |
| Notation.FirstRewriteUnique | src/parser/notation.rs:44-58 | When exactly one notation matches, the call is rewritten by it, whatever the iteration order. |
| Notation.FirstRewriteNone | src/parser/notation.rs:44-58 | When no notation matches, the call is not rewritten. |
| Notation.FirstRewriteOrderFree | src/parser/notation.rs:44-58 | When at most one notation matches, the result does not depend on the `HashMap` iteration order. |
| Notation.ExpandNotations | src/parser/notation.rs:28-35 | Every expression of the list is expanded, in order. The same map expands call arguments and definition bodies. |
| Notation.ApplyNotations | src/parser/notation.rs:6-10 | `apply_notations` always succeeds, with the expanded remaining AST. |
| Notation.AppliedWithoutDecls | src/parser/notation.rs:6-10 | A program without notations is returned unchanged. |
| Notation.ExpandEntersBody | src/parser/notation.rs:61-62 | The corrected expansion rewrites every expression of a definition body. |
| Notation.AsWrittenSkipsBody | src/parser/notation.rs:61-64 | As written, a definition whose body was built by the parser is returned unexpanded. |
| Notation.SquarePatternParts | src/parser/notation.rs:70 | The pattern `sq x` splits into `sq` and `x`. |
| Notation.SquareMatches | src/parser/notation.rs:69-97 | `sq(a)` matches the pattern `sq x` and captures `a`, for any argument `a`. |
| Notation.SquareRewrite | src/parser/notation.rs:50-56 | The notation `sq x := mul(x, x)` rewrites `sq(a)` to `mul(a, a)`, for any argument `a`. |
| Notation.SquareCallRewrites | src/parser/notation.rs:37-67 | Expanding `sq(2)` with that table gives `mul(2, 2)`. |
| Notation.BodyExpansionDiffers | src/parser/notation.rs:61-64 | For `def f() { sq(2) }`, the code as written keeps the body, while the corrected expansion rewrites it to `mul(2, 2)`. |
| Frontend.Parse | src/parser/mod.rs:11-14 | Parsing fails iff the grammar rejects the input. Otherwise the result is the grammar's AST with the notations applied. |
| Frontend.ParseWithoutNotations | src/parser/mod.rs:11-14 | Without notation declarations, the front end returns the grammar's AST unchanged. |
| Ffi.PathParts | src/ffi/mod.rs:57-59 | The language is the text before the first `.`, the module is the text after it, and together they rebuild the path. Without a `.`, the module is "". |
| Ffi.Language | src/ffi/mod.rs:57-58 | The language is the text before the first `.`, or the whole path when it has no `.`. |
| Ffi.ModuleName | src/ffi/mod.rs:57-59 | The module is the text after the first `.`, or "" when the path has no `.`. |
| Ffi.Registered | src/ffi/mod.rs:77-80 | Registering puts every loaded name in the map with (language, module) and leaves the other names alone. |
| Ffi.Backend.constructor | src/ffi/mod.rs:47-52 | A new backend has no languages and no functions. |
| Ffi.Backend.LoadModule | src/ffi/mod.rs:56-83 | An unsupported language fails with `Unsupported language: <lang>` and changes nothing. Otherwise python is installed; a load error is passed on with the function table unchanged, and on success the loaded names are returned and registered. The backend invariant is preserved. |
| Ffi.Backend.Register | src/ffi/mod.rs:77-80 | The `for_each` loop changes only the function table, to `Registered`. |
| Ffi.Backend.CallFunction | src/ffi/mod.rs:85-95 | An unknown function gives `Function not found: <f>`, and a missing language gives `Language not loaded: <lang>`. Otherwise the call goes to the language backend as `module.f`. |
| Ffi.Backend.KnownFunctionReachesPython | src/ffi/mod.rs:85-95 | Under the backend invariant, a registered function's call reaches python's `call_function` as `module.f`. |
| Evaluator.Describe | src/interpreter/evaluator.rs:24-34 | Each error prints as a fixed prefix naming its kind, followed by its payload. |
| Evaluator.Immediate | src/interpreter/evaluator.rs:56-63 | The outcome of a literal, a lookup, a `return` of one, or a node the parser removes. `EvalExpr` and `EvalCall` are tied to it. |
| Evaluator.Step | src/interpreter/evaluator.rs:55-107 | The reference semantics of one statement that reaches no call and no FFI load: a definition binds a closure over the current environment, an assignment binds its immediate value or returns its error with the bindings kept, and the other statements are `Immediate`. `EvalExpr` is tied to it. |
| Evaluator.ImmediateArgs | src/interpreter/evaluator.rs:77-78 | Arguments evaluated left to right up to the first error, which is the outcome. On success there is one value per argument, each that argument's `Immediate` value. |
| Evaluator.ImmediateArgsPrefix | src/interpreter/evaluator.rs:77-78 | A prefix of an evaluating argument list evaluates, and an error in the prefix is the error of the whole list: later arguments are never reached. |
| Evaluator.Straight | src/interpreter/evaluator.rs:45-53 | The reference semantics of `interpret` on call-free programs: statements run in order from `false`, the first error stops the run, otherwise the last value is the result. `Interpret`, `Invoke`, `ApplyFunction` and `Run` are tied to it. |
| Evaluator.StraightStopsAtError | src/interpreter/evaluator.rs:48-50 | After an error nothing further runs: appending statements does not change the outcome. |
| Evaluator.StraightAppend | src/interpreter/evaluator.rs:48-50 | Running two programs one after the other is running their concatenation. |
| Evaluator.ImmediateKeys | src/interpreter/evaluator.rs:56-63 | Whether a lookup applies and whether it fails depends only on which names are bound. |
| Evaluator.StepShape | src/interpreter/evaluator.rs:55-107 | The same holds for one statement, which also binds the same names in the two runs. |
| Evaluator.StraightShape | src/interpreter/evaluator.rs:45-53 | Whether the reference semantics applies, and whether it fails, depends neither on the bound values nor on the environment object that definitions capture. |
| Evaluator.Flatten | src/interpreter/evaluator.rs:152-156 | Unwrapping partial applications ends at a value that is not partial, and keeps every argument. |
| Evaluator.FlattenNested | src/interpreter/evaluator.rs:152-156 | A nested partial application collects its argument batches in order. |
| Evaluator.LiftFfi | src/interpreter/evaluator.rs:142-151 | An FFI result passes through unchanged, and an FFI failure becomes `FFIError` with the same text. |
| Evaluator.Interpreter.constructor | src/interpreter/evaluator.rs:37-43 | A new interpreter has an empty environment and an empty FFI backend. |
| Evaluator.Interpreter.Interpret | src/interpreter/evaluator.rs:45-53 | Expressions run in order and stop at the first error. Where `Straight` covers the program, the result and the new bindings are exactly those of `Straight`, and the environment object and the router are kept. The router invariant is preserved, and the environment is the old one or a fresh one. |
| Evaluator.Interpreter.EvalExpr | src/interpreter/evaluator.rs:55-107 | Where `Step` covers the statement, the result and the new bindings are those of `Step`, with the environment and router kept. A call whose callee fails at once returns that error. An assignment binds its value. An FFI declaration binds the alias or the name to `Ffi(name)` and reports `true`, or fails with `FFIError`, including `Unsupported language: <lang>`; on success the loaded functions are registered. Without calls the environment object is kept. |
| Evaluator.Interpreter.ApplyFunction | src/interpreter/evaluator.rs:110-161 | After unwrapping partial applications: a non-function gives `TypeMismatch`, and an FFI value routes through the backend with its error lifted. A wrong argument count gives `Function '<name>' expects <n> arguments, but got <m>`. Otherwise the body runs in a fresh environment; where `Straight` covers the body, the result and the callee's bindings are those of `Straight` from the closure's bindings plus the parameters. |
| Evaluator.Interpreter.EvalCall | src/interpreter/evaluator.rs:75-80 | The callee first, then the arguments, then the application. A callee that fails at once gives its error. With an immediate callee, the first failing argument gives its error with the environment and router kept. When all arguments evaluate, the `apply_function` cases follow after `Flatten`: `TypeMismatch` for a non-function, the backend's lifted result for an FFI value, the arity message, `OutOfFuel`, and otherwise `Straight` of the body in a fresh environment where it applies. |
| Evaluator.Interpreter.EvalArgs | src/interpreter/evaluator.rs:77-78 | One value per argument. Where `ImmediateArgs` covers the arguments, the result is exactly `ImmediateArgs`, with the environment, its bindings and the router kept. |
| Evaluator.Interpreter.Invoke | src/interpreter/evaluator.rs:112-140 | The arity check with its message, then a fresh environment made of the closure's bindings plus the parameters. Where `Straight` covers the body, the result and the new bindings are those of `Straight` in that environment. |
| Evaluator.Run | src/interpreter/evaluator.rs:164-171 | A fresh interpreter runs the program. Where `Straight` covers it, the result and the final bindings are those of `Straight` from no bindings. |
| OldSyntax.Flatten | src/main.rs:47-50 | Unwrapping partial applications ends at a value that is not partial, and keeps every argument. |
| OldSyntax.FlattenAppend | src/main.rs:47-50 | Applying in two batches collects the same arguments as one batch. |
| OldParser.Ms0 | src/parser.rs:35 | `multispace0` never grows the input. |
| OldParser.ParseInt | src/parser.rs:17-21 | Succeeds iff the input starts with a digit. There are no negative literals. |
| OldParserFacts.IntRoundTrip | src/parser.rs:17-21 | The decimal rendering of `n`, followed by a non-digit, parses to `n`. |
| OldParserFacts.NoNegativeInt | src/parser.rs:108-115 | Input starting with `-` is not an expression. |
| OldParser.ParseVariable | src/parser.rs:23-31 | Succeeds iff the input starts with a letter or `_`. The name is the maximal identifier run, and name plus rest is the input. |
| OldParserFacts.VariableOne | src/parser.rs:23-31 | A one-letter name stops at the first non-identifier character. |
| OldParserFacts.Ms0Stops | src/parser.rs:35 | `multispace0` leaves input that does not start with whitespace alone. |
| OldParser.ParamList | src/parser.rs:38-42 | The parameter list never grows the input. |
| OldParser.ParamTail | src/parser.rs:40 | The comma-separated tail never grows the input. |
| OldParser.ParseFunctionDef | src/parser.rs:33-69 | A definition starts with `def`, consumes input and yields a `FunctionDef`. |
| OldParser.ParseFunctionCall | src/parser.rs:71-84 | A call starts with an identifier, consumes input and yields a `FunctionCall`. |
| OldParser.ArgList | src/parser.rs:74-78 | The argument list never grows the input. |
| OldParser.ArgTail | src/parser.rs:76 | The comma-separated argument tail never grows the input. |
| OldParser.ParseExpr | src/parser.rs:108-115 | An expression starts with a digit or an identifier character and consumes input. |
| OldParserFacts.CallBeforeVariableOrder | src/parser.rs:108-115 | A call is tried before a plain variable, and the variable is the fallback. |
| OldParserFacts.CallBeforeVariable | src/parser.rs:108-115 | `f(x)` parses as a call of `f` on `x`. |
| OldParserFacts.CallWins | src/parser.rs:108-115 | Where a call parses, the expression is the call. |
| OldParserFacts.FallsBackToVariable | src/parser.rs:108-115 | Where the call does not parse, the expression is the plain variable. |
| OldParserFacts.CallOf | src/parser.rs:71-84 | A call is assembled from its name, `(`, the argument list and `)`. |
| OldParserFacts.ArgTailStops | src/parser.rs:76 | Without a comma, the argument tail is empty. |
| OldParserFacts.ArgListOne | src/parser.rs:74-78 | One argument with no comma after it is a one-element list. |
| OldParserFacts.ArgsOfSpacedComma | src/parser.rs:76 | A space before the comma ends the argument list. |
| OldParserFacts.CallSpacedComma | src/parser.rs:71-84 | `f(x ,y)` is not a call. |
| OldParserFacts.SpaceBeforeCommaFails | src/parser.rs:108-115 | `f(x ,y)` falls back to the variable `f` and leaves `(x ,y)`. |
| OldParser.ParseProgram | src/parser.rs:117-119 | `many0` stops only where no further expression can be parsed. |
| OldParserFacts.LeadingWhitespace | src/parser.rs:117-119 | A program starting with whitespace yields no expressions and consumes nothing. |
| OldParserRoundTrip.VariableRoundTrip | src/parser.rs:108-115 | A name followed by text that starts no call is read back as that variable. |
| OldParserRoundTrip.NatRoundTrip | src/parser.rs:108-115 | A printed natural number is read back as that integer literal. |
| OldParserRoundTrip.CallStep | src/parser.rs:108-115 | Where `f(...)` parses as a call, the expression parser takes the call. |
| OldParserRoundTrip.DefStep | src/parser.rs:108-115 | Where a printed definition parses, the expression parser takes the definition. |
| OldParserRoundTrip.ExprRoundTrip | src/parser.rs:108-115 | Every printed expression (naturals, names, calls and definitions) reads back as itself, and the rest is left. |
| OldParserRoundTrip.CallRoundTrip | src/parser.rs:71-84 | `f(a,b,...)` reads back as the call of `f` on those arguments. |
| OldParserRoundTrip.ArgsRoundTrip | src/parser.rs:74-78 | A printed argument list reads back as the same arguments, and stops at `)`. |
| OldParserRoundTrip.ArgTailRoundTrip | src/parser.rs:76 | The tail after the first argument reads back as the remaining arguments. |
| OldParserRoundTrip.DefRoundTrip | src/parser.rs:33-69 | `def name(params):body` reads back as that definition. |
| OldParserRoundTrip.ParamsRoundTrip | src/parser.rs:38-42 | A printed parameter list reads back as the same names. |
| OldParserRoundTrip.ParamTailRoundTrip | src/parser.rs:40 | The tail after the first parameter reads back as the remaining names. |
| OldParserRoundTrip.ProgramRoundTrip | src/parser.rs:117-119 | A printed program, each item followed by a space, reads back as its items, and `many0` stops where no expression starts. |
| OldParserRoundTrip.PrintedProgram | src/parser.rs:117-119 | A printed program is read back completely. |
| OldParserRoundTrip.TrailingTextLeft | src/parser.rs:117-119 | Text after the items that starts no expression is left unparsed. |
| OldMain.EvalArgs | src/main.rs:27 | Evaluating the arguments yields one value per argument. |
| OldMain.Eval | src/main.rs:12-31 | `eval`: literals, lookups that panic with `Variable not found: <name>`, closures over a copy of the environment, and calls that evaluate callee and arguments first. `EvalFuelMonotone` states that fuel only bounds it, and `OldInterpreter.AgreesWithMain` relates it to `interpret`. |
| OldMain.Apply | src/main.rs:33-53 | `apply_function`: too few arguments give a partial application, exactly enough run the body with the parameters bound in the closure, and too many panic. `Currying`, `TooManyPanics` and `DuplicateParameterLastWins` state its behaviour. |
| OldMain.ApplyFlatten | src/main.rs:47-50 | Applying a partial application is applying its function to all collected arguments. |
| OldMain.Currying | src/main.rs:36-37 | Too few arguments give a partial application, and applying that to more arguments equals one application to all of them. |
| OldMain.TooManyPanics | src/main.rs:43-44 | Too many arguments panic with `Too many arguments for function: <name>`. |
| OldMain.DuplicateParameterLastWins | src/main.rs:38-42 | With a parameter listed twice, the body sees the later argument. |
| OldMain.EvalFuelMonotone | src/main.rs:12-31 | A result reached with some fuel is the same with more fuel. |
| OldMain.EvalArgsFuelMonotone | src/main.rs:25-29 | The same holds for argument lists. |
| OldMain.ApplyFuelMonotone | src/main.rs:33-53 | The same holds for application. |
| OldInterpreter.InterpretArgs | src/interpreter.rs:39-40 | A successful argument evaluation yields one value per argument. |
| OldInterpreter.Describe | src/interpreter.rs:15-23 | Each error prints as a fixed prefix naming its kind, followed by its payload. |
| OldInterpreter.Interpret | src/interpreter.rs:25-48 | `interpret`: the evaluator of `main.rs` with errors in place of panics. `AgreesWithMain` states the correspondence. |
| OldInterpreter.Apply | src/interpreter.rs:50-70 | `apply_function`: partial application, binding and arity errors. `ApplyAgreesWithMain` and `Currying` state its behaviour. |
| OldInterpreter.AsPanic | src/interpreter.rs:25-48 | Success maps to a value and an error maps to a panic, with the value kept. |
| OldInterpreter.AgreesWithMain | src/interpreter.rs:25-48 | `interpret` agrees with `main.rs`'s `eval`: the same value, or an error exactly where `eval` panics. `TypeMismatch` and `ArityMismatch` carry `eval`'s panic text, and `UndefinedVariable(name)` corresponds to the panic `Variable not found: name`. |
| OldInterpreter.ArgsAgreeWithMain | src/interpreter.rs:39-40 | The same agreement holds for argument lists. |
| OldInterpreter.ApplyAgreesWithMain | src/interpreter.rs:50-70 | The same agreement holds for application. |
| OldInterpreter.ApplyFlatten | src/interpreter.rs:64-67 | Applying a partial application is applying its function to all collected arguments. |
| OldInterpreter.Currying | src/interpreter.rs:53-54 | Too few arguments give a partial application, and one application to all arguments equals applying twice. |

## Left out

- **The Python backend** (`src/ffi/python.rs`): embedding CPython runs foreign code. It is the `Protocol` parameter, a pure function pair. Its own errors, such as "Module not loaded", belong to that oracle. `PythonFFI::new()` failing is not modelled.
- **`src/debug.rs` and debug output**: the debug printer, `log_parse_attempt` and all `debug.log_*` calls produce output only.
- **`main()`**: file reading, the REPL and printing are I/O.
- **Floating point**: a float literal is kept as its lexeme, because f64 arithmetic is not part of the language core.
- **`List`, `Dict` and `Array` primitives** of `src/syntax.rs`: no parser or evaluator in the core produces or consumes them.
- **`str::parse::<i64>().unwrap()` overflowing on long digit runs**: integers are unbounded.
- **nom's error values**: the `VerboseError` context chain and `Failure`, `Incomplete` and `e.to_string()` text are left out. A parse error is `None`, and the front end reports the fixed text `parse error`.
- **`HashMap` iteration order** in `expand_expr`: it is unspecified in Rust. It is the explicit parameter `order`, which must enumerate the table's keys, each exactly once (`Notation.Enumerates`). `Notation.RewrittenIffDeclared` states that some rewrite happens iff a declared pattern matches, and `Notation.FirstRewriteOrderFree` states when the order does not matter.
- **Termination**: every evaluator takes `fuel`, and running out is the extra outcome `OutOfFuel`, which the source does not have.
- **`Rc`/`RefCell`**: reference counting and borrow checking become Dafny object references.
- **The `Block` node**: a function body is its sequence of expressions. The braced body's statements are stored as that sequence. This is also what lets the corrected expansion reach the statements of a body, which the code as written does not.
- **The printers** of the round-trip lemmas cover a subset of the AST: plain names, natural numbers, calls of a name, assignments, returns, `{ }` definitions and notation declarations without precedence or associativity. Negative numbers, floats, strings, booleans, infix chains and parenthesised expressions are not printed.
- **The notation declaration's shape**: `notation.rs:18` reads it as (pattern, variables, expansion). The `NotationPattern` record of `base.rs` keeps precedence and associativity, which the rewriter never reads.
- **The old parser's panics** (`src/parser.rs:59,67`): they cannot trigger, because `parse_variable` only returns variables.
- BaseParser.ExponentLength: the contract bounds the length only; `BaseParserFacts.ExponentLengthLongest` states that it is the longest exponent.
- BaseParser.ParsePrimitive: the contract states progress and that the node is a literal; the alternative order is stated by `BaseParserRoundTrip.FloatBeforeInt` and `PrimitiveOfNat`, and the suffix by `BaseParserSuffix.PrimitiveSuffix`.
- BaseParser.Token: the contract states progress only; the suffix is `BaseParserSuffix.TokenSuffix`.
- BaseParser.OptSemicolon: the contract bounds the rest's length only; the suffix is `BaseParserSuffix.OptSemicolonSuffix`.
- BaseParser.VariableList: the contract bounds the rest's length only; the suffix is `BaseParserSuffix.VariableListSuffix`, and the names read back by `BaseParserRoundTrip.ParamsRoundTrip`.
- BaseParser.VariableListTail: the contract bounds the rest's length only; the suffix is `BaseParserSuffix.VariableListTailSuffix`, and the names read back by `BaseParserRoundTrip.ParamsTailRoundTrip`.
- BaseParser.ParseParenthesized: the contract states progress only; the suffix is `BaseParserSuffix.ParenthesizedSuffix`. Parenthesised text is not printed, so it has no round trip.
- BaseParser.CallArguments: the contract states progress only; see `BaseParserSuffix.CallArgumentsSuffix` and `BaseParserRoundTrip.ArgsRoundTrip`.
- BaseParser.ExprList: the contract bounds the rest's length only; see `BaseParserSuffix.ExprListSuffix` and `BaseParserRoundTrip.ExprListRoundTrip`.
- BaseParser.ExprListTail: the contract bounds the rest's length only; see `BaseParserSuffix.ExprListTailSuffix` and `BaseParserRoundTrip.ExprListTailRoundTrip`.
- BaseParser.DefHeader: the contract states progress only; see `BaseParserSuffix.DefHeaderSuffix` and `BaseParserRoundTrip.DefHeaderRoundTrip`.
- BaseParser.DefBody: the contract bounds the rest's length only; see `BaseParserSuffix.DefBodySuffix` and `BaseParserRoundTrip.DefBodyRoundTrip`.
- BaseParser.ParseBlock: the contract bounds the rest's length only; see `BaseParserSuffix.BlockSuffix` and `BaseParserRoundTrip.BlockRoundTrip`.
- BaseParser.Keyword: the contract bounds the rest's length only; see `BaseParserSuffix.KeywordSuffix`.
- BaseParser.WithClause: the contract bounds the rest's length only; see `BaseParserSuffix.WithClauseSuffix` and `BaseParserNotationRoundTrip.PatternRoundTrip`.
- BaseParser.PrecedenceClause: the contract bounds the rest's length only; see `BaseParserSuffix.PrecedenceClauseSuffix`. No printed text carries the clause, so it has no round trip.
- BaseParser.AssociativityClause: the contract bounds the rest's length only; see `BaseParserSuffix.AssociativityClauseSuffix`. No printed text carries the clause, so it has no round trip.
- BaseParser.ParseNotationPattern: the contract states progress only; see `BaseParserSuffix.NotationPatternSuffix`, `BaseParserFacts.NotationPatternDefaults` and `BaseParserNotationRoundTrip.PatternRoundTrip`.
- BaseParser.ParseStatement: the contract states progress only; see `BaseParserSuffix.StatementSuffix` and `BaseParserRoundTrip.StatementRoundTrip`.
- BaseParser.ParseTopLevelExpr: the contract states progress only; see `BaseParserSuffix.TopLevelExprSuffix` and `BaseParserRoundTrip.ItemRoundTrip`.
- BaseParser.TopLevelItems: the contract bounds the rest's length only; see `BaseParserSuffix.TopLevelItemsSuffix`, `BaseParserRoundTrip.ItemsRoundTrip` and `BaseParserRoundTrip.TopLevelItemsMaximal`.
- BaseParser.ParseExpr: the contract states progress and the node's shape only; the suffix is `BaseParserSuffix.ExprSuffix`, and the alternatives read back by `BaseParserRoundTrip.ExprRoundTrip`.
- BaseParser.ParseTerm: the contract states progress only; see `BaseParserSuffix.TermSuffix`. The alternative order is shown by lemmas about particular inputs.
- BaseParser.ParseInfixExpr: the contract states progress only; left-associative folding is stated by `FoldInfixSnoc` and `FoldInfixTwo`. Infix chains are not printed and have no round trip.
- BaseParser.InfixTail: the contract bounds the rest's length only; see `BaseParserSuffix.InfixTailSuffix`.
- BaseParser.ParseFunctionCall: the contract states progress and the node's shape only; see `BaseParserRoundTrip.FunctionCallRoundTrip`.
- BaseParser.ParseFunctionDef: the contract states progress and the node's shape only; see `BaseParserRoundTrip.DefRoundTrip`.
- BaseParser.ParseAssignment: the contract states progress and the node's shape only; see `BaseParserRoundTrip.AssignmentStep`.
- BaseParser.ParseReturn: the contract states progress and the node's shape only; see `BaseParserRoundTrip.ReturnStep`.
- BaseParser.ParseNotationDecl: the contract states progress and the node's shape only; see `BaseParserNotationRoundTrip.NotationDeclRoundTrip`.
- BaseParser.ParseProgram: the contract states that a parsed program is non-empty; acceptance and rejection of printed programs are stated by `BaseParserRoundTrip.ProgramFollowedBy`.
- BaseParser.ParseFloat: the contract states progress only, and the value of the float is not modelled; `BaseParserRoundTrip.FloatBeforeInt` states when it succeeds.
- BaseParser.ParseString: the contract states the opening quote and progress. The decoded text is stated by `StringRoundTrip`.
- BaseParserRoundTrip.FloatBeforeInt: the float is kept as its lexeme, so the lemma states which parser wins, not the float's value.
- OldParser.ParseExpr: the contract states progress and the first character only; see `OldParserRoundTrip.ExprRoundTrip`.
- OldParser.ParseFunctionDef: the contract states progress, the `def` prefix and the node's shape only; see `OldParserRoundTrip.DefRoundTrip`.
- OldParser.ParseFunctionCall: the contract states progress, the first character and the node's shape only; see `OldParserRoundTrip.CallRoundTrip`.
- Evaluator.Interpreter.EvalExpr: a statement that calls a function is tied to the reference semantics only where its callee fails at once. `EvalCall` states the call arm further, for an immediate callee and immediate arguments. A call runs its body in a new `Env` allocated during the call, and definitions in the body capture that object. A function of values such as `Straight` cannot name an object that exists only after the call, so the reference semantics stops at the first statement that calls a function.
- Evaluator.Interpreter.Interpret: where a program calls a function, only the router invariant and the environment's freshness are stated. A call runs its body in a new `Env` allocated during the call, and definitions in the body capture that object. A function of values such as `Straight` cannot name an object that exists only after the call, so the reference semantics stops at the first statement that calls a function.
- Evaluator.Interpreter.ApplyFunction: a body that calls a function is not tied to a reference semantics. A call runs its body in a new `Env` allocated during the call, and definitions in the body capture that object. A function of values such as `Straight` cannot name an object that exists only after the call, so the reference semantics stops at the first statement that calls a function.
- Evaluator.Interpreter.EvalCall: a callee or an argument that itself calls a function, assigns or loads a module is not characterised, and neither is a body that calls a function. A call runs its body in a new `Env` allocated during the call, and definitions in the body capture that object. A function of values such as `Straight` cannot name an object that exists only after the call, so the reference semantics stops at the first statement that calls a function.
- Evaluator.Interpreter.EvalArgs: arguments that call a function, assign or load a module get only the count of values and the router invariant. A call runs its body in a new `Env` allocated during the call, and definitions in the body capture that object. A function of values such as `Straight` cannot name an object that exists only after the call, so the reference semantics stops at the first statement that calls a function.
- Evaluator.Interpreter.Invoke: a body that calls a function gets only the arity and fuel cases and a fresh environment. A call runs its body in a new `Env` allocated during the call, and definitions in the body capture that object. A function of values such as `Straight` cannot name an object that exists only after the call, so the reference semantics stops at the first statement that calls a function.
- Evaluator.Run: a program that calls a function gets only a fresh interpreter. A call runs its body in a new `Env` allocated during the call, and definitions in the body capture that object. A function of values such as `Straight` cannot name an object that exists only after the call, so the reference semantics stops at the first statement that calls a function.

## Findings

| source | as written | input that shows it | evidently intended | confidence | as-written member | corrected member |
|---|---|---|---|---|---|---|
| src/parser/notation.rs:61-64 with src/parser/base.rs:180-191 | The `FunctionDef` arm expands its boxed body. But the parser always builds that body as a `Block`, which falls into the `_ => expr` arm, so nothing inside a definition is rewritten. | `notation "sq x" with x := mul(x, x)` followed by `def f() { sq(2) }` | The notations are expanded inside function bodies too, so the body becomes `mul(2, 2)`. | not executed | `Notation.ExpandAsWritten` (`Notation.AsWrittenSkipsBody`, `Notation.BodyExpansionDiffers`) | `Notation.Expand` (`Notation.ExpandEntersBody`) |
