# Two expression front ends, modelled and verified in Dafny

This project models the two toy expression front ends of the repository and
proves what they promise.

**The integer calculator** (`calculator/`) has three parts:

- `Lexer` is a cursor over a string. It hands out NUMBER, operator and
  parenthesis tokens and throws on any other character.
- `Parser` is a recursive-descent parser with one token of lookahead. It has
  the `expression` / `term` / `factor` layering and builds `NumberNode` and
  `BinaryOpNode` trees.
- `evaluate` is the recursive interpreter of those trees over C++ `int`.

The lexer and parser are classes whose methods are proved against pure
specification functions: `NextToken`/`LexStream` for the lexer, and the
grammar functions of `CalcGrammar` for the parser. On top of those:

- the lexer reproduces the input up to its first NUL character, without its
  whitespace;
- on every run of numbers and operators, parsing groups each operator to the
  left and binds `*` and `/` tighter than `+` and `-`: it returns the tree
  whose root is the last `+` or `-` (or, without one, the last `*` or `/`);
- every tree the grammar builds is one `evaluate` handles;
- printing any buildable tree fully parenthesised and running the whole
  pipeline on the text gives back the tree and, when its evaluation is
  defined (`Safe`), its value;
- `"3 + 4 * 2"` evaluates to 11.

**The Kaleidoscope parser** (`llvm-first-lang/my-lang.cc`) is the
precedence-climbing expression parser: `GetTokPrecedence`, `ParseBinOpRHS`,
`ParseExpression`, `ParsePrimary`, `ParseIdentifierExpr`, `ParseNumberExpr`,
`ParseParenExpr` and `ParseTopLevelExpr`.

- The global `CurTok` and `getNextToken` become a `Parser` object over the
  token list a working lexer would deliver. At the end of the list `CurTok` is
  `Eof`, and it stays `Eof`.
- Every parse method is proved against a grammar function of `KalGrammar`.
- The central result is about runs of operands and binary operators.
  `ParseExpression` returns the unique "well-shaped" tree for such a run:
  equal precedence groups left and tighter operators nest right. Conversely,
  every well-shaped tree is what the parser returns on its own token run.

`ParseParenExpr` is modelled exactly as written. Its test on `)` is inverted:
it refuses the closing `)` and eats any other token in its place. So in the
code, `(a)` is an error and `(a;` parses as `a`. A description of the
language would say parenthesised expressions parse normally. The model
follows the code (`KalProps.ParenthesesAsWritten`), and no other property
relies on parentheses in Kaleidoscope input.

Modules: `Wrappers`, `CalcToken`, `CalcLexer`, `CalcLexerProps`, `CalcAst`,
`CalcEval`, `CalcGrammar`, `CalcParser`, `CalcGrammarProps`, `CalcRoundTrip`,
`CalcGrouping`, `KalSyntax`, `KalGrammar`, `KalParser`, `KalProps`, `KalShape`.

## Model

| member | source | states |
|---|---|---|
| CalcLexer.OperatorKind | calculator/src/lexer.cpp:18-41 | exactly `+ - * / ( )` are one-character tokens, each with its own type whose spelling is that character |
| CalcLexer.DigitRun | calculator/src/lexer.cpp:56-63 | the digits collected are the maximal run of consecutive digits from the cursor: all digits, copied from the text in order, and followed by a non-digit |
| CalcLexer.NextToken | calculator/src/lexer.cpp:9-45 | a call returns a well-formed token; it moves past at least one character unless it returns END, which has empty value and stands at the end of the text; a NUMBER stops before a non-digit; a failure points at an unaccepted character |
| CalcLexer.LexStream | calculator/src/lexer.cpp:9-45 | the tokens successive calls return before END are all well formed and none is END |
| CalcLexer.Lexer.constructor | calculator/src/lexer.cpp:5-7 | the cursor starts at 0 on the first character, or on NUL for an empty input |
| CalcLexer.Lexer.Advance | calculator/src/lexer.cpp:47-54 | `pos` grows by exactly one and `current` is `text[pos]`, or NUL once past the end |
| CalcLexer.Lexer.Integer | calculator/src/lexer.cpp:56-63 | returns the maximal digit run under the cursor and leaves the cursor just after it |
| CalcLexer.Lexer.GetNextToken | calculator/src/lexer.cpp:9-45 | the loop returns exactly the token `NextToken` gives from the old cursor and moves the cursor to where `NextToken` says, or throws "Invalid character" with the cursor on that character |
| CalcLexerProps.NextTokenSpelling | calculator/src/lexer.cpp:9-45 | one call spells out exactly the non-space characters it moves over |
| CalcLexerProps.LexStreamSpelling | calculator/src/lexer.cpp:9-45 | for input that lexes without error, the token values up to END concatenate to the input with whitespace removed |
| CalcLexerProps.NextTokenLexable | calculator/src/lexer.cpp:42 | a call throws only if the text holds a character the lexer does not accept, and moves only over accepted characters |
| CalcLexerProps.LexStreamFailsIffInvalid | calculator/src/lexer.cpp:9-45 | lexing fails if and only if the input holds a character that is neither whitespace, a digit, an operator nor a parenthesis |
| CalcLexerProps.EndIsSticky | calculator/src/lexer.cpp:44 | once END is returned, every further call returns END again without moving |
| CalcLexerProps.BlankInputIsEnd | calculator/src/lexer.cpp:10-14 | whitespace is skipped: an empty or all-blank input gives END at once |
| CalcEval.TruncDiv | calculator/src/main.cpp:15 | C++ `/` on `int`: the remainder is smaller than the divisor and has the sign of the dividend (truncation toward zero) |
| CalcEval.Apply | calculator/src/main.cpp:12-17 | an operator step succeeds exactly for `+ - * /` and otherwise throws "Unknown operation" naming the operator |
| CalcEval.Evaluate | calculator/src/main.cpp:4-20 | on trees with defined behaviour, every value computed fits an `int` |
| CalcEval.FirstUnknownOp | calculator/src/main.cpp:8-17 | the operator `evaluate` reports is one that labels a node of the tree and is not `+ - * /` |
| CalcEval.EvaluateFailsIffUnknownOp | calculator/src/main.cpp:4-20 | `evaluate` throws exactly when the tree holds an operator other than `+ - * /`, and the message names the first such operator in evaluation order: left child, right child, then the node |
| CalcEval.TruncDivExamples | calculator/src/main.cpp:15 | C++ division agrees with Dafny's on non-negative operands and differs on negative ones (-7 / 2 is -3) |
| CalcGrammar.Advance | calculator/src/parser.cpp:10 | reading the next token moves one place, stays on END at the end, and throws exactly when the lexer fails on that call |
| CalcGrammar.Eat | calculator/src/parser.cpp:8-14 | `eat(t)` throws "Unexpected token" whenever the current token is not of type `t`; on success it moved one token on |
| CalcGrammar.Stoi | calculator/src/parser.cpp:44 | `std::stoi` on a token's text gives a value in `[0, INT_MAX]`, and throws exactly when the text is not a non-empty digit run of value at most INT_MAX |
| CalcGrammar.Expression | calculator/src/parser.cpp:16-26 | a parsed expression consumes at least one token and ends at a valid position |
| CalcGrammar.ExpressionTail | calculator/src/parser.cpp:19-24 | the `+`/`-` loop never moves backwards and ends at a valid position |
| CalcGrammar.Term | calculator/src/parser.cpp:28-39 | a parsed term consumes at least one token |
| CalcGrammar.TermTail | calculator/src/parser.cpp:31-36 | the `*`/`/` loop never moves backwards and ends at a valid position |
| CalcGrammar.Factor | calculator/src/parser.cpp:42-55 | a parsed factor consumes at least one token |
| CalcParser.Parser.Create | calculator/src/parser.cpp:4-6 | the constructor primes `currentToken` with the lexer's first token, and throws exactly when the lexer throws on that first call |
| CalcParser.Parser.Eat | calculator/src/parser.cpp:8-14 | `eat` advances exactly as the grammar's `Eat` says, and changes nothing when the type does not match |
| CalcParser.Parser.Expression | calculator/src/parser.cpp:16-26 | the loop builds exactly the tree and reaches exactly the token that `CalcGrammar.Expression` gives, or throws its error |
| CalcParser.Parser.Term | calculator/src/parser.cpp:28-39 | the loop computes exactly `CalcGrammar.Term` |
| CalcParser.Parser.Factor | calculator/src/parser.cpp:42-55 | computes exactly `CalcGrammar.Factor`, including the `stoi` errors and "Invalid factor" |
| CalcParser.Parser.Parse | calculator/src/parser.cpp:57-59 | `parse` is one expression, with the tokens after it left unread |
| CalcParser.Calculate | calculator/src/main.cpp:23-29 | lexer, parser and `evaluate` run on a text compute its value under the pure specification |
| CalcGrammarProps.MulBindsTighterThanAdd | calculator/src/parser.cpp:28-39 | "3 + 4 * 2" parses as 3 + (4 * 2) |
| CalcGrammarProps.SubtractionGroupsLeft | calculator/src/parser.cpp:16-26 | "2 - 3 - 4" parses as (2 - 3) - 4 |
| CalcGrammarProps.ParenthesesGroup | calculator/src/parser.cpp:48-53 | "(3 + 4) * 2" makes the parenthesised sum the left operand of `*` |
| CalcGrammarProps.TrailingTokensIgnored | calculator/src/parser.cpp:57-59 | in "3 4" the second number is left unread and no error is raised |
| CalcGrammarProps.LeadingMinusIsInvalidFactor | calculator/src/parser.cpp:54 | a leading `-` is an "Invalid factor": there is no unary minus |
| CalcGrammarProps.FactorRejectsOtherTokens | calculator/src/parser.cpp:42-55 | any token but NUMBER or `(` where a factor is due throws "Invalid factor", and so do `term` and `expression` |
| CalcGrammarProps.MissingCloseParen | calculator/src/parser.cpp:51 | a parenthesised expression not followed by `)` throws "Unexpected token" |
| CalcGrammarProps.UnbalancedParenthesis | calculator/src/parser.cpp:51 | "(3 + 4" throws "Unexpected token" |
| CalcGrammarProps.ExpressionBuildable | calculator/src/parser.cpp:16-26 | every tree `expression` builds from lexer tokens has only `+ - * /` operators and numbers in `[0, INT_MAX]`, so `evaluate` never meets an unknown operator |
| CalcGrammarProps.ExpressionTailBuildable | calculator/src/parser.cpp:19-24 | the `+`/`-` loop keeps the tree buildable |
| CalcGrammarProps.TermBuildable | calculator/src/parser.cpp:28-39 | every tree `term` builds is buildable |
| CalcGrammarProps.TermTailBuildable | calculator/src/parser.cpp:31-36 | the `*`/`/` loop keeps the tree buildable |
| CalcGrammarProps.FactorBuildable | calculator/src/parser.cpp:42-55 | every tree `factor` builds is buildable |
| CalcGrouping.LastAdditive | calculator/src/parser.cpp:19-23 | the last `+` or `-` of a token list, or none exactly when the list has no `+` or `-` |
| CalcGrouping.NextAdditive | calculator/src/parser.cpp:19-23 | the first `+` or `-` at or after a place, where the loop of `expression()` next stops `term()` |
| CalcGrouping.TermTailStep | calculator/src/parser.cpp:31-36 | one round of the loop of `term()` over an operator and a number makes the operator node over the tree so far and the number |
| CalcGrouping.TermTailStops | calculator/src/parser.cpp:31-38 | the loop of `term()` returns the tree so far on any token other than `*` and `/` |
| CalcGrouping.ExpressionTailStep | calculator/src/parser.cpp:19-24 | one round of the loop of `expression()` makes the operator node over the tree so far and the next term |
| CalcGrouping.TermTailRound | calculator/src/parser.cpp:31-36 | inside a run of numbers, `*` and `/`, one round of the loop turns the product of the tokens read so far into the product of two more |
| CalcGrouping.TermTailReadsProduct | calculator/src/parser.cpp:31-38 | the loop of `term()` reads the rest of a run of numbers, `*` and `/`, ending with the left-grouped product of the whole run |
| CalcGrouping.TermReadsProduct | calculator/src/parser.cpp:28-39 | for every run of numbers, `*` and `/` followed by another token, `term()` reads the whole run and returns it grouped to the left, the root being its last operator |
| CalcGrouping.ExpressionTailReadsSum | calculator/src/parser.cpp:19-25 | the loop of `expression()`, after the tokens up to a `+` or `-`, reads the rest of the run and returns the reading of the whole run |
| CalcGrouping.ExpressionReadsSum | calculator/src/parser.cpp:16-39 | for every run of numbers and operators followed by a non-operator, at any place in the stream, `expression()` reads the whole run and returns its reference reading `Sum`: root at the last `+` or `-`, sums to its left and `*`/`/` products to its right, all grouped left |
| CalcGrouping.ParseRun | calculator/src/parser.cpp:57-59 | `parse()` on the token stream of any run of numbers and operators returns its reference reading |
| CalcGrouping.SumOfProduct | calculator/src/parser.cpp:28-39 | a run without `+` or `-` is read as its product alone |
| CalcGrouping.AdditiveOperatorsGroupLeft | calculator/src/parser.cpp:16-25 | for any numbers `a`, `b`, `c` and any `+`/`-` operators, `a o1 b o2 c` parses as `(a o1 b) o2 c` |
| CalcGrouping.MultiplicativeOperatorsGroupLeft | calculator/src/parser.cpp:28-39 | for any numbers and any `*`/`/` operators, `a o1 b o2 c` parses as `(a o1 b) o2 c` |
| CalcGrouping.ProductBindsTighterOnTheRight | calculator/src/parser.cpp:16-39 | for any numbers, `a + b * c` (any `+`/`-` before any `*`/`/`) parses as `a + (b * c)` |
| CalcGrouping.ProductBindsTighterOnTheLeft | calculator/src/parser.cpp:16-39 | for any numbers, `a * b + c` (any `*`/`/` before any `+`/`-`) parses as `(a * b) + c` |
| CalcRoundTrip.StoiDecimal | calculator/src/parser.cpp:44 | `stoi` reads back the decimal numeral of every value in `[0, INT_MAX]` |
| CalcRoundTrip.FactorReadsBack | calculator/src/parser.cpp:42-55 | a fully parenthesised printed tree is read back by `factor` as that tree, consuming exactly its tokens |
| CalcRoundTrip.ParsePrinted | calculator/src/parser.cpp:16-59 | parsing the printed tokens of any buildable tree gives back that tree |
| CalcRoundTrip.LexOne | calculator/src/lexer.cpp:9-45 | one call reads one token written at the cursor, with a NUMBER ending before a non-digit |
| CalcRoundTrip.LexSpelled | calculator/src/lexer.cpp:9-45 | a text spelling out a token list, with no two numbers adjacent, lexes to exactly that list without error |
| CalcRoundTrip.LexSpaced | calculator/src/lexer.cpp:9-45 | a text writing a token list with one space between tokens lexes to exactly that list: the spaces are skipped and never become tokens |
| CalcRoundTrip.PipelineComputesEvaluate | calculator/src/main.cpp:23-29 | for any buildable tree, lexing and parsing its printed text gives the tree back, and the whole pipeline computes `evaluate` of it |
| CalcRoundTrip.LexExample | calculator/src/lexer.cpp:9-45 | "3 + 4 * 2" lexes to `3`, `+`, `4`, `*`, `2` |
| CalcRoundTrip.WorkedExample | calculator/src/main.cpp:23-29 | "3 + 4 * 2" parses as 3 + (4 * 2) and evaluates to 11 |
| KalSyntax.Precedence | llvm-first-lang/my-lang.cc:354-369 | a token has a non-negative precedence exactly when it is one of `< > + - * /`; the only values are -1, 10, 20 and 40 |
| KalSyntax.PrecedenceTable | llvm-first-lang/my-lang.cc:354-369 | `<` `>` are 10, `+` `-` are 20, `*` `/` are 40, every other token is -1 |
| KalGrammar.Next | llvm-first-lang/my-lang.cc:261-264 | `getNextToken` moves one token on, and stays put only at the end |
| KalGrammar.IdentifierAt | llvm-first-lang/my-lang.cc:293-317 | a parsed identifier expression consumes at least one token |
| KalGrammar.ArgsAt | llvm-first-lang/my-lang.cc:302-314 | the argument loop succeeds only on a closing `)`, adds at least one argument, and keeps the arguments already read, in order, in front |
| KalGrammar.ParenAt | llvm-first-lang/my-lang.cc:336-350 | as written, a successful parenthesised expression consumes at least one token |
| KalGrammar.PrimaryAt | llvm-first-lang/my-lang.cc:321-332 | a parsed primary consumes at least one token |
| KalGrammar.ExpressionAt | llvm-first-lang/my-lang.cc:285-291 | a parsed expression consumes at least one token and ends exactly on a token of precedence -1 |
| KalGrammar.BinOpRHSAt | llvm-first-lang/my-lang.cc:372-401 | `ParseBinOpRHS` never moves backwards and stops only on a token binding looser than its threshold |
| KalGrammar.TopLevelAt | llvm-first-lang/my-lang.cc:449-456 | a top-level expression succeeds exactly when the expression does, and then wraps it in a function with name "" and no parameters |
| KalParser.Parser.constructor | llvm-first-lang/my-lang.cc:261-264 | after the first `getNextToken`, `CurTok` is the first token |
| KalParser.Parser.GetNextToken | llvm-first-lang/my-lang.cc:261-264 | `CurTok` becomes the next token, or stays `Eof` at the end, and is returned |
| KalParser.Parser.GetTokPrecedence | llvm-first-lang/my-lang.cc:354-369 | returns the precedence of `CurTok` and changes nothing |
| KalParser.Parser.ParseNumberExpr | llvm-first-lang/my-lang.cc:276-280 | returns the number and moves one token on |
| KalParser.Parser.ParseExpression | llvm-first-lang/my-lang.cc:285-291 | returns exactly the tree `ExpressionAt` gives and leaves `CurTok` where it says, or returns null when it fails |
| KalParser.Parser.ParseIdentifierExpr | llvm-first-lang/my-lang.cc:293-317 | the argument loop builds exactly the variable or call `IdentifierAt` gives |
| KalParser.Parser.ParsePrimary | llvm-first-lang/my-lang.cc:321-332 | dispatches exactly as `PrimaryAt` |
| KalParser.Parser.ParseParenExpr | llvm-first-lang/my-lang.cc:336-350 | behaves exactly as `ParenAt`, the inverted test included |
| KalParser.Parser.ParseBinOpRHS | llvm-first-lang/my-lang.cc:372-401 | the `while (true)` loop computes exactly `BinOpRHSAt`, the recursive call for tighter operators and the null results included |
| KalParser.Parser.ParseTopLevelExpr | llvm-first-lang/my-lang.cc:449-456 | returns exactly the anonymous function `TopLevelAt` gives, or null |
| KalProps.BelowThresholdReturnsLhs | llvm-first-lang/my-lang.cc:379-380 | below the threshold, `ParseBinOpRHS` returns its LHS unchanged and consumes nothing |
| KalProps.NonOperatorEndsExpression | llvm-first-lang/my-lang.cc:285-291 | a primary followed by a token of precedence -1 is the whole expression |
| KalProps.MissingRightOperandFails | llvm-first-lang/my-lang.cc:384-397 | if the right-hand primary fails, the whole `ParseBinOpRHS` fails |
| KalProps.NestedFailureFails | llvm-first-lang/my-lang.cc:386-392 | if the nested call for a tighter operator fails, the whole `ParseBinOpRHS` fails |
| KalProps.PrimaryRejectsOtherTokens | llvm-first-lang/my-lang.cc:321-331 | any token but an identifier, a number or `(` makes the primary, the expression and the top-level expression fail |
| KalProps.IdentifierAloneIsVariable | llvm-first-lang/my-lang.cc:297-298 | an identifier not followed by `(` is a variable reference that consumes one token |
| KalProps.OperandAlone | llvm-first-lang/my-lang.cc:285-291 | an operand followed by a non-operator other than `(` is an expression by itself |
| KalProps.OperandArgument | llvm-first-lang/my-lang.cc:304-313 | one turn of the argument loop: after an argument, `)` ends the list and `,` goes on to the next |
| KalProps.OperandArgumentsInOrder | llvm-first-lang/my-lang.cc:302-314 | on "x1, ..., xn)" the loop appends the operands in source order and stops on the `)` |
| KalProps.CallOfOperands | llvm-first-lang/my-lang.cc:293-317 | "f(x1, ..., xn)" is a call of `f` with exactly those arguments, in order |
| KalProps.SubtractionGroupsLeft | llvm-first-lang/my-lang.cc:386-394 | "a - b - c" parses as (a - b) - c |
| KalProps.TighterOperatorNestsRight | llvm-first-lang/my-lang.cc:386-394 | "a + b * c" parses as a + (b * c) |
| KalProps.CallArgumentsInOrder | llvm-first-lang/my-lang.cc:300-316 | "f(a, b + c)" is a call of `f` with arguments `a` and `b + c`, in that order |
| KalProps.EmptyCall | llvm-first-lang/my-lang.cc:300-316 | "f()" is a call with no arguments |
| KalProps.BadArgumentSeparator | llvm-first-lang/my-lang.cc:309-311 | "f(a b)" fails: after an argument only `)` or `,` may follow |
| KalProps.ParenthesesAsWritten | llvm-first-lang/my-lang.cc:343-348 | as written, "(a)" fails and "(a;" parses as `a` with the `;` eaten |
| KalProps.TopLevelExample | llvm-first-lang/my-lang.cc:449-456 | "a + b" becomes the body of an anonymous function without parameters |
| KalShape.FlatPrimary | llvm-first-lang/my-lang.cc:321-332 | without `(` in the input, a primary is a single operand token, and anything else fails |
| KalShape.NodeShape | llvm-first-lang/my-lang.cc:393-394 | the node built from an operator and two well-shaped operands binding tighter is well shaped and reads back as the tokens consumed |
| KalShape.FlatStepKeep | llvm-first-lang/my-lang.cc:377-394 | one loop round where the next operator binds no tighter: the operand is not extended, and the loop goes on over the operator node |
| KalShape.FlatStepNest | llvm-first-lang/my-lang.cc:377-394 | one loop round where the next operator binds tighter: the operand first absorbs what the call at threshold `TokPrec + 1` reads, and its failure fails the loop |
| KalShape.BinOpRHSShape | llvm-first-lang/my-lang.cc:372-401 | the loop invariant of `ParseBinOpRHS`: on a run of operands and operators, the tree stays well shaped, binds at least as tightly as the threshold, and reads back as every token consumed |
| KalShape.ExpressionShape | llvm-first-lang/my-lang.cc:285-291 | soundness: on such a run, `ParseExpression` returns a well-shaped tree that reads back as exactly the tokens it consumed |
| KalShape.YieldAlternates | llvm-first-lang/my-lang.cc:386-394 | a well-shaped tree reads back as operand, operator, operand, and so on |
| KalShape.YieldOperators | llvm-first-lang/my-lang.cc:386-394 | no operator in a well-shaped tree binds looser than its root |
| KalShape.RootSplit | llvm-first-lang/my-lang.cc:386-394 | operators left of the root bind at least as tightly as the root, and those right of it strictly tighter |
| KalShape.ShapeDeterminesTree | llvm-first-lang/my-lang.cc:386-394 | two well-shaped trees with the same token run are equal: the well-shaped reading is unique |
| KalShape.BinOpRHSSucceeds | llvm-first-lang/my-lang.cc:376-400 | on an alternating operand/operator run, `ParseBinOpRHS` never fails and stops between operands |
| KalShape.ExpressionReadsChain | llvm-first-lang/my-lang.cc:285-291 | on an alternating run followed by a non-operator, `ParseExpression` succeeds and consumes exactly the run |
| KalShape.ParseYield | llvm-first-lang/my-lang.cc:372-401 | completeness: parsing the token run of any well-shaped tree gives back exactly that tree |

## Left out

- The Kaleidoscope `gettok` lexer, which reads `getchar`, and its `strtod` are not modelled. The parser works over an abstract token list, with numbers as `real`.
- `gettok` as written cannot produce a single-character token: on any character that is not whitespace, a letter, a digit or `#`, it calls itself again without reading on (llvm-first-lang/my-lang.cc:71-73) and never returns. So from source text, the operator, parenthesis and call paths of the parser are unreachable. The model's lemmas quantify over every token list, which is what the parser would see behind a working lexer.
- Floating point in general is left out: `NumVal` is a `double` in the source and a mathematical `real` here.
- The LLVM code generation is not modelled. It calls into a foreign library, and the code is unfinished.
- `ParseIfExpr` is not modelled. It refers to tokens that are never declared, and `ParsePrimary` never reaches it.
- `ParsePrototype`, `ParseDefinition` and `ParseExtern` are not modelled. Their loop body returns after the first parameter and can fall off the end without a return value.
- The drivers are not modelled: `MainLoop`, the `Handle*` functions, both `main` functions beyond the calculation they perform, and the messages written to stderr. These are console I/O.
- `LogError` is modelled as its null result; the message it prints is left out.
- KalGrammar.BinOpRHSAt: requires a threshold of at least 0. Every call in the source passes 0 or an operator precedence plus one. Under that bound, an operator accepted by the loop is always a character token.
- The Kaleidoscope shape theorems cover runs of numbers, identifiers and binary operators without `(`. They do not cover parenthesised sub-expressions, which `ParseParenExpr` mishandles as written, or calls. Calls are covered by the argument-order lemmas instead.
- CalcEval.Evaluate: requires `Safe`. Under `Safe`, no division is by zero and no intermediate result overflows an `int`. Signed overflow and division by zero are undefined behaviour in C++, so the model has no wrap-around.
- The "Unknown AST node" error of `evaluate` cannot happen: the tree datatype has only the two node kinds.
- CalcGrammar.Stoi: only covers the texts a NUMBER token can hold, which are digit runs. Other inputs give "invalid argument", without `std::stoi`'s handling of leading whitespace, signs or trailing characters. Texts above INT_MAX give the `out_of_range` error.
- The calculator grouping theorems (`CalcGrouping`) cover runs of numbers and operators without parentheses. Parenthesised sub-expressions are covered by the print and parse round trip, which uses full parentheses, and by the `(3 + 4) * 2` example.
- `std::isspace` is taken in the C locale, as the six ASCII whitespace characters. Characters outside ASCII are treated as non-space.
