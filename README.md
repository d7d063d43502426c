# rCalc expression evaluator in Dafny

rCalc evaluates arithmetic expressions such as `2+4-2*2/2^4` in three
stages, all in `src/parser.rs`:

1. `tokenize` (module `lexer`) scans the text with a three-state machine
   (`NONE`, `OPERATOR`, `NUMBER`) and a lexeme buffer, and turns every lexeme
   into a `Token` with `Token::new`;
2. `shunting_yard` (module `calculator`) reorders the tokens into reverse
   Polish order with an operator stack, using each operator's precedence and
   associativity;
3. `calculate` runs the reverse Polish sequence on a value stack.

`evaluate` chains the three and returns the first error.

The model keeps that structure:

| Dafny module | file | models |
|---|---|---|
| `Errors` | `errors.dfy` | the error strings of the program, as a datatype, and `Result` |
| `Tokens` | `tokens.dfy` | `Token`, `TokenType`, `Associativity`, `is_operator`, the getters (the datatype's fields), `Token::new`, the number pattern written out as predicates |
| `Lexer` | `lexer.dfy` | `tokenize`: the method `Tokenize` with its loop, and the function `Lexed` it is proved equal to |
| `Shunting` | `shunting_yard.dfy` | `shunting_yard`: the method `ShuntingYard` and the function `ReversePolish` |
| `Rpn` | `rpn.dfy` | `calculate`: the method `Calculate` and the function `Calculation` |
| `Calculator` | `calculator.dfy` | `evaluate` |
| `Scenarios` | `scenarios.dfy` | every expression with one or two operators and integer operands, and the expressions of `src/tests.rs` |

Each loop of the program is a Dafny `method` with a loop invariant that ties
its variables to a specification function: the lexer loop to a fold `Run`
over the characters, the shunting-yard loops to `Converted` and `Drain`, the
evaluator loop to `Stack`. The properties are proved about those functions.

Decisions the model makes:

- The `.unwrap()` calls on `Token::new` inside `tokenize` (lines 44, 51 and
  65) panic on a lexeme such as `1.2.3` or `-.5`. The model returns the
  error value `Panicked(lexeme)` there instead, and `Lexer.LexedShape` proves
  that only a number lexeme can cause it.
- `+`, `-` and `*` are exact on `real`. Division and `powf` are the two
  functions of a `FloatOps` parameter; lemmas that need exact division
  assume `ExactQuotients(f)` (quotients by non-zero reals are exact).
- `is_alphabetic` and `is_numeric` are restricted to ASCII letters and digits.
- The regular expression `^-?\d+\.?\d*$` is the predicate `IsNumberLiteral`.
  `Token::new` parses a matching lexeme into its exact decimal value.
- Parentheses: the program has no parenthesis token, so `(` and `)` are
  characters no state uses and the scanner skips them. `2*(12+6)` evaluates
  to 30 and unbalanced parentheses are no error (`Scenarios.ParenthesesIgnoredTest`,
  `Scenarios.OpenParenthesisTest`, `Scenarios.CloseParenthesisTest`).
- Two behaviours of the code that look accidental are modelled as written:
  a lexeme made of a single `-` that meets an operator or the end of input
  becomes a `MINUS` token (`Lexer.TrailingMinus`), and an operator that finds
  fewer than two values on the stack pops them and pushes nothing
  (`Rpn.DeficientOperatorForgets`).

## Model

| member | source | states |
|---|---|---|
| Tokens.Token.IsOperator | src/parser.rs:74-80 | a token is an operator exactly when its kind is not NUMBER |
| Tokens.NewToken | src/parser.rs:82-129 | every token it returns carries the precedence and associativity of its kind (operators from the table, numbers 0 and RIGHT); an error carries the rejected lexeme |
| Tokens.OperatorTable | src/parser.rs:83-117 | `+` and `-` give precedence 2 LEFT, `*` and `/` precedence 3 LEFT, `^` precedence 4 RIGHT, all with value 0 |
| Tokens.OperatorLexeme | src/parser.rs:83-117 | each one-character operator lexeme gives the operator token of its kind |
| Tokens.NumberLexemeIff | src/parser.rs:118-128 | the result is a NUMBER exactly when the lexeme matches the decimal pattern, and an error exactly when it is neither that nor one of the five operator characters |
| Tokens.SplitLiteralSpelling | src/parser.rs:118 | a lexeme matching the pattern splits into sign, whole digits, point and fraction digits that spell it back |
| Tokens.SplitSpelling | src/parser.rs:118 | conversely, the spelling of any valid literal matches the pattern and splits into the same parts |
| Tokens.LiteralToken | src/parser.rs:118-124 | the spelling of any valid literal becomes a NUMBER token with the literal's exact decimal value |
| Tokens.IntLiteralRoundTrip | src/parser.rs:118-124 | the decimal spelling of any integer is read back as that integer |
| Lexer.Tokenize | src/parser.rs:32-71 | the loop returns exactly `Lexed(content)`: the fold of the state machine over the characters, then the end-of-input check |
| Lexer.AlphabeticStops | src/parser.rs:37-39 | a letter anywhere makes the result an error, and the error names that letter when the scan reaches it |
| Lexer.EmptyInput | src/parser.rs:63-68 | empty input is an invalid end of expression |
| Lexer.TrailingOperator | src/parser.rs:40-68 | input ending in `+`, `*`, `/` or `^` is an invalid end of expression, unless the number before it panics |
| Lexer.TrailingMinus | src/parser.rs:40-68 | a trailing `-` after a number is an invalid end; alone or after an operator it becomes a MINUS token |
| Lexer.IgnoredCharacterSkipped | src/parser.rs:40-61 | a character that matches no transition of the current state can be deleted without changing the result |
| Lexer.InertCharactersDropped | src/parser.rs:40-61 | characters no state uses (parentheses, spaces, ...) can all be deleted without changing the result |
| Lexer.LexedShape | src/parser.rs:32-71 | a successful result has odd length and alternates number positions with operators; a panic names a number lexeme that `Token::new` rejects |
| Lexer.WellFormedTokens | src/parser.rs:40-68 | number literals separated by single operator characters are read back as those numbers and operators, in input order |
| Shunting.ShuntingYard | src/parser.rs:189-212 | the loops return `Ok(ReversePolish(tokens))`; the function never fails |
| Shunting.StackOrdered | src/parser.rs:193-206 | the operator stack never holds a number, and each entry has lower precedence than the one above it, or equal precedence and RIGHT associativity |
| Shunting.ConvertedPermutes | src/parser.rs:193-206 | output and stack together are always a rearrangement of the tokens read so far |
| Shunting.ConvertedKeepsNumbers | src/parser.rs:193-206 | the output holds the numbers read so far in input order |
| Shunting.ReversePolishPermutes | src/parser.rs:189-211 | the result is a permutation of the input of the same length, with the numbers in input order |
| Shunting.AlternatingGivesValidRpn | src/parser.rs:189-211 | alternating number/operator input converts to valid reverse Polish notation |
| Rpn.Calculate | src/parser.rs:159-187 | the loop returns `Calculation(tokens, f)`: `Ok` of the single value left on the stack, an error otherwise |
| Rpn.StackAppend | src/parser.rs:161-180 | running a concatenation runs the first part, then the second from the stack it left |
| Rpn.StackHeight | src/parser.rs:161-180 | when every prefix has more numbers than operators, the stack holds as many values as numbers minus operators |
| Rpn.ValidRpnEvaluates | src/parser.rs:159-186 | valid reverse Polish notation always evaluates to `Ok` |
| Rpn.DeficientOperatorForgets | src/parser.rs:165-168 | an operator that finds fewer than two values empties the stack, so everything before it is forgotten |
| Rpn.SilentSkipExample | src/parser.rs:165-168 | `2 + 3` read as reverse Polish evaluates to 3, not to an error |
| Rpn.CalculatePostorder | src/parser.rs:159-186 | on the postorder of any expression tree the evaluator returns the tree's value |
| Calculator.Evaluate | src/parser.rs:149-157 | the method returns `Evaluation(expression, f)`: tokenize, convert, calculate, first error wins |
| Calculator.WellFormedEvaluates | src/parser.rs:149-157 | number literals separated by single operator characters always evaluate to `Ok` |
| Calculator.EvaluationErrors | src/parser.rs:149-157 | `Token::new`'s own error never reaches the caller of `evaluate` |
| Scenarios.BinaryConversion | src/parser.rs:193-209 | `a op b` converts to `a b op` |
| Scenarios.ChainConversion | src/parser.rs:197-204 | `a o1 b o2 c` converts to `a b o1 c o2` when `o1` leaves the stack before `o2`, else to `a b c o2 o1` |
| Scenarios.AssociativityConversions | src/tests.rs:263-269 | `2 ^ 2 ^ 3` converts to `2 2 3 ^ ^` and `4 - 7 - 9` to `4 7 - 9 -` |
| Scenarios.BinaryCalculation | src/parser.rs:159-186 | two numbers followed by an operator evaluate to that operator applied to them |
| Scenarios.BinaryEvaluation | src/parser.rs:149-157 | the text `x op y` of two integers evaluates to `x op y` |
| Scenarios.ChainEvaluation | src/parser.rs:149-212 | for integers `x`, `y`, `z`, the text `x o1 y o2 z` evaluates to `(x o1 y) o2 z` when `o1` binds more tightly than `o2`, or equally and groups left, else to `x o1 (y o2 z)` |
| Scenarios.AdditionTest | src/tests.rs:224-227 | `2+5` evaluates to 7 |
| Scenarios.SubtractionTest | src/tests.rs:229-232 | `2-5` evaluates to -3 |
| Scenarios.MultiplyTest | src/tests.rs:234-237 | `2*5` evaluates to 10 |
| Scenarios.DivisionTest | src/tests.rs:239-242 | `6/2` evaluates to 3 |
| Scenarios.PowerTest | src/tests.rs:244-247 | `6^2` evaluates to `powf(6, 2)` |
| Scenarios.NegativeExponentTest | src/tests.rs:249-251 | `2^-2` evaluates to `powf(2, -2)` |
| Scenarios.NegativeAddendTest | src/tests.rs:249-252 | `3+-6` evaluates to -3 |
| Scenarios.NegativeSubtrahendTest | src/tests.rs:249-253 | `6--2` evaluates to 8 |
| Scenarios.NegativeFactorTest | src/tests.rs:249-254 | `4*-2` evaluates to -8 |
| Scenarios.NegativeDivisorTest | src/tests.rs:249-255 | `6/-2` evaluates to -3 |
| Scenarios.ProductChainTest | src/tests.rs:263-265 | `2*3*4` evaluates to 24 |
| Scenarios.DifferenceChainTest | src/tests.rs:263-266 | `4-7-9` evaluates to -12 (left grouping) |
| Scenarios.QuotientChainTest | src/tests.rs:263-267 | `18/3/2` evaluates to 3 (left grouping) |
| Scenarios.PowerChainTest | src/tests.rs:263-268 | `2^2^3` evaluates to `powf(2, powf(2, 3))` (right grouping) |
| Scenarios.ChainedConversion | src/parser.rs:189-211 | the tokens of `2+4-2*2/2^4` convert to the postorder of `(2+4) - ((2*2) / (2^4))` |
| Scenarios.ChainedEvaluation | src/parser.rs:149-157 | `2+4-2*2/2^4` evaluates to `2 + 4 - (2*2) / powf(2, 4)` |
| Scenarios.ChainedExpressionTest | src/tests.rs:258-261 | `2+4-2*2/2^4` evaluates to 5.75 |
| Scenarios.PrecedenceTest | src/parser.rs:197-204 | `2+3*4` evaluates to 14 |
| Scenarios.PrecedenceFirstTest | src/parser.rs:197-204 | `2*3+4` evaluates to 10 |
| Scenarios.ParenthesesIgnoredTest | src/parser.rs:36-61 | `2*(12+6)` evaluates to 30: the parentheses are skipped |
| Scenarios.OpenParenthesisTest | src/parser.rs:36-61 | `(1+2` evaluates to 3: an unmatched `(` is no error |
| Scenarios.CloseParenthesisTest | src/parser.rs:36-61 | `1+2)` evaluates to 3: an unmatched `)` is no error |
| Scenarios.InsertInert | src/parser.rs:36-61 | inserting a character no state uses, anywhere in the text, changes neither the tokens nor the value |
| Scenarios.TrailingOperatorTest | src/parser.rs:63-68 | `2+` is an invalid end of expression |
| Scenarios.LetterTest | src/parser.rs:37-39 | `abc` stops at the invalid character `a` |

## Left out

- `src/main.rs` is not part of this model: it reads the command line and prints the result of `evaluate`.
- Floating point: `content.parse()` (line 121) gives the exact decimal value instead of the nearest `f64`, and `+`, `-`, `*` are exact on `real`.
- Division and `powf` (lines 170 and 174) are parameters of type `FloatOps`; IEEE results for division by zero, infinities and NaN are not modelled.
- Scenarios.PowerTest: states the value as `powf(6, 2)` rather than 36, because `powf` is a parameter; the same holds for NegativeExponentTest and PowerChainTest.
- Scenarios.DivisionTest: holds only under `ExactQuotients(f)`; the same holds for NegativeDivisorTest and QuotientChainTest.
- The `regex` crate is replaced by the predicates `IsNumberLiteral` and equality with the five operator lexemes.
- Unicode: `is_alphabetic` and `is_numeric` accept only ASCII letters and digits.
- Panics: the `unwrap` calls at lines 44, 51 and 65 become the error value `Panicked(lexeme)` rather than aborting the program.
- Error strings built with `Box::leak` (lines 38-39, 126-127) are the constructors of `Errors.Error`; their text is not modelled.
- The unused local `token` at line 64 and the unreachable NUMBER arm at line 175 have no counterpart.
- Precedence: the model proves how every expression of one or two operators with integer operands groups (`Scenarios.ChainEvaluation`) and how the five-operator expression of the unit tests groups (`Scenarios.ChainedEvaluation`), not that the shunting yard agrees with a precedence parse of arbitrarily long expressions.
- Scenarios.ChainedExpressionTest: holds only under `ExactQuotients(f)` and `powf(2, 4) = 16`, because division and `powf` are parameters.
