# apl: lexer, parser and evaluator in Dafny

This project models the three-stage pipeline of the `apl` toy language: the
text goes to tokens, the tokens go to a syntax tree, and the tree goes to a
value and a symbol table.

- `tokens.dfy` (module `Tokens`) holds the token record, its debug rendering
  `Token(TYPE, 'value')` and the ordered rule table. The table has two skip
  rules, seven single-character rules, and the NUMBER, IDENTIFIER and STRING
  patterns. The three patterns are written out by hand as longest-match
  functions.
- `lexer.dfy` (module `Lexer`) holds the three rule appliers and the `Lexer`
  class. The class has a `text`, an `index` and `GetNextToken`. The module
  also holds the batch tokenizer `Tokenize`, with the loop method
  `TokenizeText`.
  - The two loops differ, and the model keeps the difference:
    `get_next_token` goes on down the table after a skip rule, while
    `tokenize` restarts at the first rule after every match.
  - An index read past the end of the text (Python's `IndexError`) is the
    error `IndexOutOfRange`.
- `ast.dfy` (module `Ast`) holds one datatype for the seven node classes and
  the reflective dispatch `visit_<ClassName>` of `ASTNodeVisitor`.
  - `apl/parser/ast.py` defines only `BinaryOperator` and `Number`.
  - The other five classes (`Var`, `VarInit`, `VarEval`, `Assignation`,
    `Program`) take their shapes from the calls that build them in
    `apl/parser/parser.py` and from the test file of the interpreter. As
    written, building any of them raises an AttributeError (see "## Left
    out" and "## Findings").
- `visitors.dfy` (module `Visitors`) holds the other visitor base class. It
  derives the handler name by splitting the class name into camel-case words
  and joining them in snake case, so `BinaryOperator` becomes
  `visit_binary_operator`.
- `parser.dfy` (module `Parser`) models recursive descent with one token of
  lookahead.
  - The rules are functions over a token sequence and a position; reading
    past the end gives EOF.
  - The `Parser` class runs the same rules as methods that advance `pos`,
    each proved equal to its function.
- `parser_properties.dfy` (module `ParserProperties`) holds the parser's
  properties:
  - printing an arithmetic tree and parsing it back gives the tree, and
    printing a program and parsing it back gives the program;
  - worked examples of left associativity and precedence;
  - the EOF check of `parse` can never fire;
  - text that the lexer accepts parses to the empty program at most.
- `interpreter.dfy` (module `Interpreter`) holds two evaluators.
  - `EvalAsWritten` is the evaluator as the repository has it: handlers for
    numbers and operators only, and `default_visit` for everything else.
  - `Run` is the evaluator the interpreter's tests describe: it reads and
    writes a symbol table.
  - The `Interpreter` class runs `Run` over a symbol-table field that its
    `Visit` method updates in place.

`results.dfy` and `text.dfy` hold shared helpers: `Result`/`Option`,
character classes and decimal numerals.

Where the code and the written description of the language disagree, the
model follows the code:

- `tokenize("")` fails with an index error, because the loop body runs once
  before its end test and the space rule reads `text[0]`.
- `var` lexes as an IDENTIFIER and `;` does not lex at all, so no text the
  lexer accepts yields a non-empty program.
- `get_next_token` fails on a blank followed by a space, on two tabs in a
  row, and on a trailing blank.

## Model

| member | source | states |
|---|---|---|
| Text.NatToString | apl/lexer/lexer.py:144 | `str(n)` is a non-empty run of digits with no leading zero |
| Text.NatToStringRoundTrip | apl/lexer/lexer.py:144 | reading `str(n)` back as a decimal numeral gives `n` |
| Text.Spaces | apl/lexer/lexer.py:146 | `n * " "` is exactly `n` spaces |
| Tokens.Render | apl/tokens/tokens.py:34-35 | `str(token)`; its layout and injectivity are stated by `RenderLayout` and `RenderInjective` |
| Tokens.TypeNameRoundTrip | apl/tokens/tokens.py:34-35 | every token type's printed name reads back as that type and holds no comma |
| Tokens.RenderLayout | apl/tokens/tokens.py:34-35 | `str(token)` is `Token(`, the type name, `, '`, the value verbatim, then `')`, with the exact length |
| Tokens.RenderInjective | apl/tokens/tokens.py:30-35 | two tokens that print alike have the same type and the same value |
| Tokens.NoTerminatorOrVarRule | apl/tokens/tokens.py:7-20 | no rule of the table yields TERMINATOR or WORD_VAR |
| Tokens.NumberMatch | apl/tokens/tokens.py:17 | the NUMBER pattern `[0-9]+(\.[0-9]+)?` anchored at the start, as the length of its match; its meaning is stated by `NumberMatchLongest` |
| Tokens.IdentifierMatch | apl/tokens/tokens.py:18 | the IDENTIFIER pattern `_*[a-zA-Z0-9]*`; its meaning is stated by `IdentifierMatchLongest` |
| Tokens.StringMatch | apl/tokens/tokens.py:19 | the STRING pattern `".*"`, greedy and stopping at a newline; its meaning is stated by `StringMatchLongest` |
| Tokens.NumberMatchLongest | apl/tokens/tokens.py:17 | NUMBER matches exactly when the text starts with a digit, and then takes the longest prefix of the form digits, optionally `.` and digits |
| Tokens.IdentifierMatchLongest | apl/tokens/tokens.py:18 | IDENTIFIER always matches, takes the longest prefix of underscores then letters and digits, and matches the empty prefix exactly when the first character is none of those |
| Tokens.StringMatchLongest | apl/tokens/tokens.py:19 | STRING matches exactly when some prefix is a quoted run without a newline, and then takes the longest such prefix, up to the last quote of the line |
| Tokens.PatternMatch | apl/tokens/tokens.py:17-19 | a pattern match never extends past the text |
| Lexer.ApplyRule | apl/lexer/lexer.py:12-58 | a rule fails exactly at the end of the text, unless it is a pattern rule; a match stays inside the text |
| Lexer.ApplyRuleSemantics | apl/lexer/lexer.py:12-58 | close to the definition of the three appliers, spelled out per kind (the meaning of a pattern match is in the `*MatchLongest` lemmas): a skip rule consumes 1 character on its own character and yields no token; a single-character rule consumes 1 and yields that character's token; a pattern rule consumes the match and yields the matched prefix; reading past the end is an index error |
| Lexer.TryRules | apl/lexer/lexer.py:107-113 | the rule loop of `get_next_token` never moves the index backwards or past the end |
| Lexer.NextToken | apl/lexer/lexer.py:99-113 | `get_next_token` as a function of the text and the index; what it yields is stated by `NextTokenProgress`, `EofForever` and the worked lemmas below |
| Lexer.Lexer.constructor | apl/lexer/lexer.py:86-94 | a new lexer is at index 0 of its text |
| Lexer.Lexer.GetNextToken | apl/lexer/lexer.py:99-113 | the method's token or error and its new index are those of `NextToken` on the old index |
| Lexer.TryRulesProgress | apl/lexer/lexer.py:107-113 | for any table that skips only blanks, a token is non-empty, emittable and ends at the new index after blanks only; an error names the index reached after blanks |
| Lexer.NextTokenProgress | apl/lexer/lexer.py:99-113 | the same for `get_next_token` before the end of the text |
| Lexer.EofForever | apl/lexer/lexer.py:105-106 | the EOF branch, read off the definition: at the end of the text every call gives EOF with value `'\0'` and leaves the index unchanged |
| Lexer.RemainingRulesFail | apl/lexer/lexer.py:96-97 | when no remaining rule consumes, the call fails with a matching error at the current index |
| Lexer.UncoveredCharFails | apl/lexer/lexer.py:107-113 | a character that starts no rule fails with a matching error at its own index |
| Lexer.SemicolonFails | apl/tokens/tokens.py:7-20 | `;` cannot be lexed |
| Lexer.BlankThenSpaceFails | apl/lexer/lexer.py:107-113 | after a skip the table is not restarted, so a blank followed by a space fails at the space |
| Lexer.TwoTabsFail | apl/lexer/lexer.py:107-113 | the tab rule is the last skip rule, so two tabs in a row fail at the second tab |
| Lexer.TrailingBlankOverruns | apl/lexer/lexer.py:21 | a blank at the very end makes the next rule read past the end |
| Lexer.DigitStartsNumber | apl/tokens/tokens.py:17-18 | text that starts with a digit lexes as NUMBER, which is tried before IDENTIFIER |
| Lexer.WordStartsIdentifier | apl/tokens/tokens.py:18 | text that starts with a letter or an underscore lexes as IDENTIFIER |
| Lexer.VarIsIdentifier | apl/tokens/tokens.py:7-20 | `var` lexes as IDENTIFIER `var` |
| Lexer.Pulled | apl/lexer/lexer.py:99-113 | the tokens a consumer gets from repeated `get_next_token` calls, up to EOF or the first error |
| Lexer.PulledNeverTerminator | apl/tokens/tokens.py:7-20 | no token pulled from `get_next_token` is a `;` or a `var` |
| Lexer.NumberBeforeIdentifier | apl/tokens/tokens.py:17-18 | `12ab` gives NUMBER `12`, then IDENTIFIER `ab`, then EOF |
| Lexer.FirstMatch | apl/lexer/lexer.py:133-140 | the rule loop of `tokenize` takes the first rule that consumes; it fails only at the end of the text, and a match is non-empty and inside the text |
| Lexer.FirstMatchEmits | apl/lexer/lexer.py:133-140 | under a table that skips only blanks, every token `tokenize` appends is non-empty and never a blank, EOF, `;` or `var` |
| Lexer.FirstMatchAgrees | apl/lexer/lexer.py:107-113 | when no skip rule applies, `get_next_token` and one step of `tokenize` agree |
| Lexer.TokenizeStepOfToken | apl/lexer/lexer.py:133-140 | where `get_next_token` yields a token from a non-blank, the rule loop of `tokenize` matches the same token over the same text |
| Lexer.NextTokenAgreesWithTokenizeStep | apl/lexer/lexer.py:131-142 | at a non-blank character both loops consume the same text and give the same token or the same failure |
| Lexer.TokenizeLoop | apl/lexer/lexer.py:131-147 | the collected tokens only grow and are all emittable; an index error escapes only once the index has reached the end of the text |
| Lexer.TokenizeLoopRaises | apl/lexer/lexer.py:136-142 | a pass whose rules raise lets the error escape the loop |
| Lexer.TokenizeLoopUnmatched | apl/lexer/lexer.py:136-147 | a pass where no rule matches ends the loop inside the text with the collected tokens and the three lines for that index |
| Lexer.TokenizeLoopMatched | apl/lexer/lexer.py:133-142 | a pass that matches appends the token if there is one, then the loop stops with no message at the end of the text or goes on from the new index |
| Lexer.FirstMatchSlices | apl/lexer/lexer.py:133-140 | under a well-formed table, a match without a token consumes exactly one blank, and a token's value is exactly the text it consumed |
| Lexer.BlankIsSkipped | apl/tokens/tokens.py:8-9 | the two skip rules come first, so `tokenize` consumes a blank on its own with no token |
| Lexer.FirstMatchPiece | apl/lexer/lexer.py:133-140 | one match of `tokenize` is a single blank, or a token that does not start with a blank and whose value is the text consumed |
| Lexer.LexesPrepend | apl/lexer/lexer.py:133-140 | the blank or token that the table matches first at `i`, placed before a lexed text, gives a lexed text from `i` |
| Lexer.ConsumedAfterMatch | apl/lexer/lexer.py:136-144 | the text a run consumed after one match, with the matched blank or token in front, is the text it consumed from the match's start |
| Lexer.StoppedHere | apl/lexer/lexer.py:143-147 | a run that found no match at `i` consumed nothing further and reports the three lines for `i` |
| Lexer.StoppedAtEnd | apl/lexer/lexer.py:141-147 | a run that reached the end reports no message |
| Lexer.TokenizeLoopStops | apl/lexer/lexer.py:131-147 | the loop from `i` returns its earlier tokens followed by tokens that, with single blanks, make up `text[i..n]` for the index `n` where it stopped, each token being the first match of the table at its place, with its type and extent; there is no message exactly when `n` is the end of the text, and otherwise no rule matches at `n` and the three lines name `n` |
| Lexer.TokenizeLoopStopsAfter | apl/lexer/lexer.py:131-147 | the same, from a pass that matched at `i` |
| Lexer.FirstMatchAtEnd | apl/lexer/lexer.py:21 | at the end of the text the first rule of `tokenize`, the space skip, reads past the end and raises an index error |
| Lexer.TokenizeLoopStep | apl/lexer/lexer.py:131-142 | one pass of the loop: an index error escapes, no match stops with the three messages, and a match appends its token, then stops at the end or goes on |
| Lexer.TokenizeOutcome | apl/lexer/lexer.py:116-147 | `tokenize` raises exactly on empty text (an index error at 0); otherwise every token is emittable and, for the index `n` where it stopped, the tokens with single blanks between them make up `text[..n]`, each one the first match of the table at its place, with its type and extent; no message exactly when `n` is the end of the text, and otherwise no rule matches at `n` and the three lines report `n` |
| Lexer.IdentifierAtEnd | apl/lexer/lexer.py:133-140 | the `x` at the end of `  x` is one IDENTIFIER token |
| Lexer.SpaceMatchesFirst | apl/lexer/lexer.py:133-140 | a space is consumed by the first rule, with no token |
| Lexer.TokenizeRestartsAfterSkip | apl/lexer/lexer.py:131-142 | `tokenize("  x")` gives the single token `x`, while `get_next_token` fails at index 1 on the same text |
| Lexer.MatchAt | apl/lexer/lexer.py:133-140 | the `for` loop over the rules computes `FirstMatch` |
| Lexer.Tokenize | apl/lexer/lexer.py:116-147 | `tokenize` as a function of the text; what it returns is stated by `TokenizeOutcome` |
| Lexer.TokenizeText | apl/lexer/lexer.py:116-147 | the `while` loop computes `Tokenize` |
| Visitors.Words | apl/ast/visitors.py:6 | `split()` of the substituted name yields no empty word |
| Visitors.Lower | apl/ast/visitors.py:7 | lower-casing keeps the length |
| Visitors.VisitClass | apl/ast/visitors.py:5-12 | a handler is called exactly when the derived name is defined, and otherwise `default_visit` raises with the class name |
| Visitors.HandlerName | apl/ast/visitors.py:6-7 | the handler name derived from a class name; its shape is stated by `HandlerNameUnderscored` and `HandlerNameShape` |
| Visitors.HandlerNameUnderscored | apl/ast/visitors.py:6-7 | the handler name is `visit_` and the lower-cased class name with `_` before each capital that starts a word |
| Visitors.HandlerNameShape | apl/ast/visitors.py:6-7 | the handler name starts with `visit_`, has no capital, and is never split at position 0 |
| Visitors.SingleWord | apl/ast/visitors.py:6-7 | a name with no word start is only lower-cased |
| Visitors.TwoWords | apl/ast/visitors.py:6-7 | a name with one word start gives two words joined by `_` |
| Visitors.BinaryOperatorHandler | apl/ast/visitors.py:6-7 | `BinaryOperator` gives `visit_binary_operator` |
| Visitors.AstNodeHandler | apl/ast/visitors.py:6-7 | `ASTNode` gives `visit_ast_node`: the capitals stay together |
| Visitors.AstHandler | apl/ast/visitors.py:6-7 | `AST` gives `visit_ast` |
| Ast.ClassName | apl/parser/ast.py:20 | `type(node).__name__` for each of the seven node classes |
| Ast.Visit | apl/parser/ast.py:18-25 | a handler is called exactly when `visit_<ClassName>` is defined; otherwise the message is `No existing visitor method for <ClassName>` |
| Ast.DefinedNodes | apl/parser/ast.py:1-15 | of the seven node classes, exactly `Number` and `BinaryOperator` are defined by the module |
| Ast.InterpreterDispatch | apl/interpreter/interpreter.py:5-24 | for the interpreter's handlers, only `Number` and `BinaryOperator` reach a handler |
| Parser.ConsumeAt | apl/parser/parser.py:48-51 | `consume(k)` moves one token on exactly when the current token has type `k`, and otherwise fails on that token |
| Parser.ParseFactor | apl/parser/parser.py:63-76 | a factor always consumes at least one token and stays inside the stream |
| Parser.ParseTerm | apl/parser/parser.py:88-97 | a term consumes at least one token |
| Parser.TermTail | apl/parser/parser.py:89-96 | the loop of `term` never moves backwards |
| Parser.ParseExpr | apl/parser/parser.py:105-114 | an expression consumes at least one token |
| Parser.ExprTail | apl/parser/parser.py:106-113 | the loop of `expr` never moves backwards |
| Parser.ParseLeftOp | apl/parser/parser.py:130-138 | a left operand consumes at least one token |
| Parser.ParseAssign | apl/parser/parser.py:146-149 | an assignment consumes at least one token |
| Parser.ParseInstruction | apl/parser/parser.py:157-159 | an instruction consumes at least one token, so the loop of `program` terminates |
| Parser.ParseProgram | apl/parser/parser.py:161-170 | `program` from a position; its round trip is `ParsePrintedProgram`, its end at EOF `ProgramLoopEndsAtEof` |
| Parser.ParseTokens | apl/parser/parser.py:172-176 | `parse` from a position; `ParseIsProgram` states that its EOF check never fires |
| Parser.ProgramLoop | apl/parser/parser.py:167-170 | the loop of `program` stays inside the stream |
| Parser.Parser.constructor | apl/parser/parser.py:19-21 | a new parser stands on the first token |
| Parser.Parser.Consume | apl/parser/parser.py:48-51 | the method succeeds exactly when `ConsumeAt` does, moves to its position, and otherwise leaves the position unchanged |
| Parser.Parser.Factor | apl/parser/parser.py:63-76 | the method's node or error and its new position are those of `ParseFactor` |
| Parser.Parser.Term | apl/parser/parser.py:88-97 | the `while` loop computes `ParseTerm` |
| Parser.Parser.Expr | apl/parser/parser.py:105-114 | the `while` loop computes `ParseExpr` |
| Parser.Parser.LeftOp | apl/parser/parser.py:130-138 | the method computes `ParseLeftOp` |
| Parser.Parser.Assign | apl/parser/parser.py:146-149 | the method computes `ParseAssign` |
| Parser.Parser.Instruction | apl/parser/parser.py:157-159 | the method computes `ParseInstruction` |
| Parser.Parser.Program | apl/parser/parser.py:167-170 | the `while` loop computes `ParseProgram` |
| Parser.Parser.Parse | apl/parser/parser.py:172-176 | the method computes `ParseTokens`; on success the parser stands on EOF, at the position where `program` stopped |
| ParserProperties.FactorRoundTrip | apl/parser/parser.py:63-76 | a printed factor parses back to its tree and consumes exactly its tokens |
| ParserProperties.ParensRoundTrip | apl/parser/parser.py:67-71 | a printed sum or product between `(` and `)` parses as a factor to the same tree, consuming both parentheses |
| ParserProperties.ProductRoundTrip | apl/parser/parser.py:88-96 | a printed left term, a `*` or `/`, and a printed right factor parse as a term to the left-folded product |
| ParserProperties.TermTailRoundTrip | apl/parser/parser.py:89-96 | one turn of the loop of `term` rebuilds a product from its left operand |
| ParserProperties.TermRoundTrip | apl/parser/parser.py:88-97 | a printed term parses back to its tree, left-folded |
| ParserProperties.ExprTailRoundTrip | apl/parser/parser.py:106-113 | one turn of the loop of `expr` rebuilds a sum from its left operand |
| ParserProperties.SumRoundTrip | apl/parser/parser.py:105-113 | a printed left expression, a `+` or `-`, and a printed right term not followed by `*` or `/` parse as an expression to the left-folded sum |
| ParserProperties.ExprRoundTrip | apl/parser/parser.py:105-114 | a printed expression followed by anything but `*` or `/` parses back to its tree |
| ParserProperties.ParsePrintedExpr | apl/parser/parser.py:63-114 | parsing the printed tokens of any arithmetic tree gives the tree and consumes every token |
| ParserProperties.LeftAssociative | apl/parser/parser.py:105-114 | `a - b - c` parses as `(a - b) - c` |
| ParserProperties.ProductBindsTighter | apl/parser/parser.py:99-114 | in `a + b * c` the product is the right operand of the sum |
| ParserProperties.ParenthesesGroup | apl/parser/parser.py:67-71 | `( a + b ) * c` is the product of the sum, with no node for the parentheses |
| ParserProperties.TargetRoundTrip | apl/parser/parser.py:130-138 | `var name` parses to `VarInit`, `name` to `Var` |
| ParserProperties.InstructionParts | apl/parser/parser.py:146-158 | in a printed instruction the left operand parses up to `=`, and the expression after it parses up to the closing `;` |
| ParserProperties.InstructionRoundTrip | apl/parser/parser.py:146-159 | a printed `left = expr ;` parses back to its `Assignation` |
| ParserProperties.ProgramLoopSplit | apl/parser/parser.py:168-169 | one turn of the loop of `program` over a printed program takes its first instruction and leaves the rest printed after it |
| ParserProperties.ProgramLoopRoundTrip | apl/parser/parser.py:167-170 | the loop of `program` collects the printed instructions in order and stops at the EOF that follows them |
| ParserProperties.ParsePrintedProgram | apl/parser/parser.py:161-176 | parsing the printed tokens of any program gives the program back |
| ParserProperties.ProgramLoopEndsAtEof | apl/parser/parser.py:168 | `program` returns only when the current token is EOF |
| ParserProperties.ParseIsProgram | apl/parser/parser.py:172-176 | the EOF check of `parse` never fires: `parse` succeeds exactly when `program` does, with the same tree or the same error |
| ParserProperties.EmptyProgram | apl/parser/parser.py:167-176 | a stream that starts at EOF parses to `Program([])` |
| ParserProperties.InstructionNeedsTerminator | apl/parser/parser.py:157-159 | every instruction ends with the `;` it consumed |
| ParserProperties.NoTerminatorNoInstruction | apl/parser/parser.py:157-170 | a stream with no `;` parses to no instruction |
| ParserProperties.PulledProgramIsEmpty | apl/parser/parser.py:161-170 | the tokens a parser pulls from `get_next_token` on any text parse to the empty program, or fail |
| ParserProperties.LexedProgramIsEmpty | apl/tokens/tokens.py:7-20 | the tokens of any text the lexer accepts parse to the empty program, or fail |
| Interpreter.NumberValue | apl/interpreter/interpreter.py:20-24 | a number literal gives a numeric value, and any other text gives an invalid-number error |
| Interpreter.NumberLiteralEvaluates | apl/interpreter/interpreter.py:20-24 | every text the NUMBER pattern accepts evaluates, to an `int` exactly when it has no `.` |
| Interpreter.NumberValueOfRendering | apl/interpreter/interpreter.py:20-22 | `int(str(n))` is `n` |
| Interpreter.Arith | apl/interpreter/interpreter.py:9-18 | the four operators on two values; exactness and the error cases are stated by `ArithIsExact` |
| Interpreter.ArithIsExact | apl/interpreter/interpreter.py:9-18 | `+ - * /` succeed exactly on two numbers with a non-zero divisor for `/`; the result is the exact value, and it is an `int` exactly when both operands are and the operator is not `/` |
| Interpreter.Run | apl/interpreter/test_interpreter.py:27-155 | evaluation with a symbol table, as the tests describe it; its properties are `ReadOnly`, `StoreGrowth`, `AssignmentBinds`, `AssignThenRead`, `UndeclaredAssignment` and the test lemmas |
| Interpreter.RunFrom | apl/interpreter/test_interpreter.py:128-155 | a program's instructions run in order from index `i`, stopping at the first failure; see `ProgramsCompose` |
| Interpreter.ReadOnly | apl/interpreter/test_interpreter.py:27-107 | a tree without assignments leaves the symbol table unchanged |
| Interpreter.StoreGrowth | apl/interpreter/test_interpreter.py:109-155 | the symbol table only grows, and only by names the tree assigns |
| Interpreter.AssignmentBinds | apl/interpreter/test_interpreter.py:109-126 | `var x = e` or, for a declared `x`, `x = e` binds `x` to the value of `e` and changes nothing else |
| Interpreter.AssignThenRead | apl/interpreter/test_interpreter.py:92-126 | reading a variable after `var x = e` gives the value of `e` |
| Interpreter.UndeclaredAssignment | apl/interpreter/exceptions.py:15-18 | assigning to an undeclared name fails with `UndeclaredVariableError` before the right side runs, and the table is unchanged |
| Interpreter.ProgramsCompose | apl/interpreter/test_interpreter.py:128-155 | a program runs as its two halves in sequence, and stops at the first failure |
| Interpreter.EvalAsWritten | apl/interpreter/interpreter.py:9-24 | the evaluator as written: numbers and operators have handlers, every other node goes to `default_visit`; see `AsWrittenDispatch`, `AsWrittenAgrees` and `AsWrittenRejectsPrograms` |
| Interpreter.AsWrittenDispatch | apl/parser/ast.py:18-25 | as written, only `Number` and `BinaryOperator` reach a handler; every other node fails with the `default_visit` message |
| Interpreter.AsWrittenAgrees | apl/interpreter/interpreter.py:9-24 | on trees of numbers and operators, the evaluator as written and the evaluator the tests describe agree, and the table is unchanged |
| Interpreter.AsWrittenRejectsPrograms | apl/parser/ast.py:24-25 | with a `Program` class supplied, visiting any program fails with `No existing visitor method for Program`, since the interpreter has no `visit_Program` |
| Interpreter.TestBinaryOperator | apl/interpreter/test_interpreter.py:27-46 | `45 + 3 * 3` evaluates to the integer 54 |
| Interpreter.TestNumber | apl/interpreter/test_interpreter.py:48-59 | `100` evaluates to the integer 100 |
| Interpreter.TestVariables | apl/interpreter/test_interpreter.py:61-107 | `Var` and `VarInit` evaluate to their name, and `VarInit` needs no entry; `VarEval` gives the stored value, or an undeclared-variable error |
| Interpreter.TestAssignation | apl/interpreter/test_interpreter.py:109-126 | `var var_name = 0` leaves `{var_name: 0}` |
| Interpreter.TestProgramRuns | apl/interpreter/test_interpreter.py:128-155 | `var var_name = 0; var_name = var_name + 1;` leaves `{var_name: 1}`, which the evaluator as written rejects |
| Interpreter.InterpretTokens | apl/interpreter/interpreter.py:26-28 | `interpret` with the evaluator the tests describe: parse, then `Run`; a parse error leaves the table unchanged |
| Interpreter.InterpretAsWritten | apl/interpreter/interpreter.py:26-28 | `interpret` as written: parse, then `EvalAsWritten`; `InterpretAsWrittenFails` states that it never returns a value |
| Interpreter.InterpretAsWrittenFails | apl/interpreter/interpreter.py:26-28 | with the five missing node classes supplied, `interpret` still never returns a value: a parsed tree is always a program, which has no handler |
| Interpreter.ParsedRootUndefined | apl/parser/parser.py:170 | every tree `parse` returns has at its root a class that apl/parser/ast.py does not define, so as written `program` raises an AttributeError before `parse` can return |
| Interpreter.InterpretLexedText | apl/interpreter/interpreter.py:26-28 | interpreting lexed text computes nothing and leaves the table unchanged |
| Interpreter.Interpreter.constructor | apl/interpreter/interpreter.py:6-7 | a new interpreter keeps its parser and starts with an empty symbol table |
| Interpreter.Interpreter.Visit | apl/interpreter/test_interpreter.py:27-155 | the method's result and new symbol table are those of `Run` on the old table |
| Interpreter.Interpreter.VisitAll | apl/interpreter/test_interpreter.py:128-155 | the loop over a program's instructions computes `RunFrom` from the first instruction |
| Interpreter.Interpreter.Interpret | apl/interpreter/interpreter.py:26-28 | `interpret` parses from the parser's old position and evaluates the tree, with the new table; after a successful parse the parser stands on EOF, at the position where `program` stopped |

## Left out

- `apl.py`, the interactive read-print loop, is I/O and is not part of this model. The scripts under `tests/` print only and depend on a module that is not available.
- `apl/tokens/token_type.py` and `apl/tokens/regex_type.py` are not part of this model. Token types are an enumeration, and a type prints as the name of its constant.
- Python's regular-expression engine is not modelled. The three patterns of the table are written out as longest-match functions.
- The lambda closures of `get_matching_func_list` become a fixed list of rule values.
- The `getattr` reflection becomes `match`. Class names are ASCII letters, digits and underscores.
- Exception classes become error variants. Message texts are kept only for `default_visit` and for the three diagnostic lines of `tokenize`. The `ParsingError` message, which prints the `token_type` module at apl/parser/parser.py:51, is reduced to the expected type, if any, and the token found.
- Interpreter.NumberValue: evaluates only the literal shapes the NUMBER pattern produces. Python's `int` and `float` also accept signs, surrounding whitespace, underscores, exponents, `inf` and `nan`, and such text gives an invalid-number error here.
- Interpreter.Arith: floats are exact reals, so IEEE rounding and overflow are not modelled. `/` always gives a float and fails on a zero divisor, as in Python.
- Interpreter.Arith: Python's `+` and `*` on a name string (concatenation, repetition) are not modelled. An operand that is not a number gives a type-mismatch error.
- Interpreter.Run: how `Var`, `VarInit`, `VarEval`, `Assignation` and `Program` evaluate comes from the interpreter's tests; the repository's interpreter has no handler for them. An assignment whose target does not evaluate to a name is a type-mismatch error. A program's result is `None`.
- Interpreter.Interpreter.constructor: the repository's `__init__` stores only the parser, and the tests set `symbol_table = {}` themselves. The model starts with an empty table.
- The parser of the repository pulls its tokens lazily, one `get_next_token` call at a time (apl/parser/parser.py:21 and 49). The model's parser reads a finished token sequence, so a lexer error raised in the middle of a parse, and whether it comes before or after a `ParsingError` (on `x ;` the lexer error comes first), is not modelled. `LexedProgramIsEmpty` and `InterpretLexedText` feed the parser from the batch `tokenize`, which the read-print loop does not call; `Pulled` and `PulledProgramIsEmpty` state the same for the tokens pulled from `get_next_token`, where a lexer error ends the stream.
- apl/parser/ast.py defines only `AST`, `BinaryOperator` and `Number`. The model supplies `Var`, `VarInit`, `VarEval`, `Assignation` and `Program`, so it does not model the AttributeError that building them raises: in the parser at apl/parser/parser.py:74, 134, 138, 149 and 170, and in the tests at apl/interpreter/test_interpreter.py:65, 82, 96, 112 and 131. Because `program` always builds a `Program` (line 170), the repository's `parse` never returns a tree; `ParsedRootUndefined` states this, and the rest of the model runs the parser and evaluator as if the classes existed.
- Parser.Parser: after a `ParsingError` the methods' position is not stated, because the rule functions return the error without the position reached. The read-print loop discards the parser after an error.
- The mocked lexer and parser of the interpreter's tests are not modelled. Their trees are written out directly in the test lemmas.

## Findings

| source | as written | input that shows it | evidently intended | confidence | as-written member | corrected member |
|---|---|---|---|---|---|---|
| apl/parser/ast.py:1-15 | the module defines only `AST`, `BinaryOperator` and `Number`, while the parser builds `Var`, `VarInit`, `VarEval`, `Assignation` and `Program` (apl/parser/parser.py:74, 134, 138, 149, 170), so `parse` raises an AttributeError instead of returning a tree | the token stream holding only EOF: `program` skips its loop and raises at `ast.Program` on line 170 | define the five classes with the shapes the parser and the tests give them, so that `parse` returns `Program([])` | high; not executed | Interpreter.ParsedRootUndefined | ParserProperties.EmptyProgram |
| apl/interpreter/interpreter.py:5-28 | once the five missing node classes exist, only `visit_Number` and `visit_BinaryOperator` are handlers, so every `Var`, `VarInit`, `VarEval`, `Assignation` and `Program` node goes to `default_visit`, and `interpret` raises on every parsed tree | the tree of apl/interpreter/test_interpreter.py:131-145 for `var var_name = 0; var_name = var_name + 1;` (in the repository that test fails earlier, building `ast.Program`): visiting it fails with `No existing visitor method for Program` | run the instructions in order over the symbol table, leaving `{var_name: 1}` | high; not executed | Interpreter.AsWrittenRejectsPrograms | Interpreter.TestProgramRuns |
