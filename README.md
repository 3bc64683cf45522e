# Calculator: a verified model of the expression pipeline

The calculator reads one line of text and computes it in three stages:

1. **Tokenizing.** `Parser::parseLine` rejects characters outside the digits, the two decimal
   separators `.` and `,`, the six operator characters and blanks. It cuts the line into
   segments at blanks and operator characters. Each segment becomes a number or an operator.
   A leading `+` or `-` (at the start or after `(`) becomes a sign. An implicit `*` goes
   into `2(5)`, `(2)(5)` and `(3)5`. Finally the order check rejects a misplaced operator
   and a line without a number.
2. **Conversion.** `ShuntingYard::performAlgorithm` turns the infix token list into postfix
   with Dijkstra's shunting-yard algorithm. Precedence is 0 for `(` and `)`, 1 for `+` and
   `-`, and 2 for `*` and `/`. A `)` with no matching `(` is an error.
3. **Reduction.** `Calculator::Calculate` applies the first operator of the postfix list to
   the two tokens before it again and again, until at most one token is left. The result
   token prints as the value rounded half away from zero to hundredths. It prints as an
   integer when the rounded value is whole, and with exactly two decimals otherwise.

The Dafny modules follow the source files.

- `Outcomes` holds `Option`, `Result` and one `Error` constructor per exception message.
- `Tokens` models tokens.h and tokens.cpp: the `Token` variant, its accessors, `Round` and
  the rendering of `operator<<`.
- `Parser` models parser.h and parser.cpp.
- `ShuntingYard` models shunting_yard.h and shunting_yard.cpp.
- `Calculator` models calculator.h and calculator.cpp.

Every C++ member function that loops keeps its loop as a Dafny `method`. Each such method is
proved equal to a specification function: `SplitLine`, `ParseToken`, `ParseLine`,
`WrongTokenOrder`, `PerformAlgorithm`, `FindOperator` and `Calculate`. The properties the
pipeline promises are lemmas about those functions.

The three C++ classes hold only constant tables and have only `const` member functions, so
they are modelled as modules with constants rather than as classes.

`LineRules` states the rewriting rules of `parseLine` on whole lines of text, for every line.
An implicit `*` goes before a `(` that follows a number or a `)`, and before a number that
follows a `)`. Where a sign is one, `-(` reads as `-1*(`, `-` negates the number after it,
`+` is dropped, and `-` before another operator is an error. Blanks may stand between the
characters involved.

Three modules model no source file of their own:

- `Expressions` gives an independent reference semantics. It defines arithmetic expression
  trees, their value, their infix token list and their postfix form. It proves three things:
  - the shunting-yard conversion of any expression's infix tokens is its postfix form;
  - reducing that postfix form computes the expression's value;
  - the order check accepts every such token list.
- `Printing` prints expression trees with natural literals as calculator lines. It proves
  that such a line tokenizes back to the tree's infix tokens, and that it evaluates to the
  tree's value or to the error its evaluation raises.
- `TestCases` states the repository's own test cases (tests.h) on the model and proves them.
  Most cases are proved from the line's text to the printed result or the error. Two start
  from the line's token list: `ExtraParenthesisRejected` and `DivisionByZeroRejected`. The
  five `Renders` lemmas state only how a value prints, not the line that computes it.

## Model

| member | source | states |
|---|---|---|
| `Tokens.ExactlyOneAlternative` | tokens.h:40-48 | a token is an operator or a double, never both and never neither |
| `Tokens.TryAsOperator` | tokens.h:60-63 | yields the operator char exactly when the token is an operator, and that char rebuilds the token |
| `Tokens.TryAsDouble` | tokens.h:60-63 | yields the value exactly when the token is a double, and that value rebuilds the token |
| `Tokens.AsOperator` | tokens.h:50-58 | succeeds exactly on an operator token, returning its char; fails with a bad variant access on a double |
| `Tokens.AsDouble` | tokens.h:50-58 | succeeds exactly on a double token, returning its value; fails with a bad variant access on an operator |
| `Tokens.SetterLaws` | tokens.cpp:16-30 | `setDouble` and `setOperator` followed by the getter return what was set; a second write wins; writing the current value changes nothing |
| `Tokens.Trunc` | tokens.cpp:9-10 | the `static_cast<int>` truncation toward zero: the integer lies within one of its argument, on the side of zero |
| `Tokens.CentsNearestHalfAway` | tokens.cpp:3-12 | the count of hundredths `Round` keeps is within one half of 100·x; an exact half goes away from zero |
| `Tokens.RoundBounds` | tokens.cpp:3-12 | `Round` yields a whole number of hundredths at most 0.005 away from its argument |
| `Tokens.RoundSymmetric` | tokens.cpp:3-12 | rounding a negated value gives the negated rounding |
| `Tokens.RoundWholeCents` | tokens.cpp:3-12 | a value that already is a whole number of hundredths keeps its count of hundredths |
| `Tokens.RoundIdempotent` | tokens.cpp:3-12 | rounding a rounded value changes nothing |
| `Tokens.Cents` | tokens.cpp:9-10 | definition: `static_cast<int>` of 100·x plus one half for x ≥ 0, minus one half below; its meaning is `Tokens.CentsNearestHalfAway` |
| `Tokens.Round` | tokens.cpp:3-12 | definition: the hundredths `Cents` keeps, divided by 100; its properties are the `Round` lemmas above |
| `Tokens.IsInteger` | tokens.cpp:46-48 | definition: the value has no fractional part, compared exactly |
| `Tokens.RenderNumber` | tokens.cpp:55-62 | definition: round, then print the integer when the rounded value is whole, and two decimals otherwise; see `Tokens.RenderDecision` |
| `Tokens.OperatorNames` | tokens.cpp:37-42 | exactly the six operator chars have a name, and each has the name of the table |
| `Tokens.Render` | tokens.cpp:51-64 | a double prints by the number rule; an operator prints its name, and an operator missing from the table is an error |
| `Tokens.IntegralIffWholeHundreds` | tokens.cpp:46-48 | the rounded value is an integer exactly when its count of hundredths is a multiple of 100, and then it equals that count divided by 100 |
| `Tokens.RenderDecision` | tokens.cpp:55-62 | a whole rounded value prints as its integer with no decimal point; any other prints with a point followed by exactly two digits |
| `Parser.SymbolSets` | parser.h:42-44 | the delimiters are the allowed symbols minus the separators; operators are the delimiters minus the blanks; no digit is a symbol |
| `Parser.ForbiddenSymbolFound` | parser.cpp:3-12 | true exactly when the line holds a character that is neither a digit nor an allowed symbol |
| `Parser.CutOffWhiteSpaces` | parser.cpp:146-153 | the result is a suffix of the input whose dropped prefix is all blanks, and it does not start with a blank |
| `Parser.GetDelimPos` | parser.cpp:155-163 | the position of the first delimiter, with none before it; none found means no delimiter in the input |
| `Parser.SplitLine` | parser.cpp:165-185 | the loop yields the segments of the specification function `Segments` |
| `Parser.SegmentsSkipBlanks` | parser.cpp:168-171 | leading blanks do not change the segments |
| `Parser.SegmentsWhole` | parser.cpp:173-175 | a line without delimiters that starts with a non-blank is one segment |
| `Parser.SegmentsSplit` | parser.cpp:176-182 | a line whose first delimiter is at d > 0 yields its first d characters and then the segments of the rest |
| `Parser.Segments` | parser.cpp:165-185 | definition: blanks are skipped, each other delimiter is a segment of its own, and each run without delimiters is one segment; `Parser.SplitLine` yields it |
| `Parser.SegmentsTrailingBlanks` | parser.cpp:165-185 | trailing blanks do not change the segments |
| `Parser.SegmentsShape` | parser.cpp:165-185 | every segment is a single delimiter other than a blank, or a non-empty run without delimiters |
| `Parser.SegmentsConcat` | parser.cpp:165-185 | the segments put back together are the line with its blanks removed: nothing else is lost or reordered |
| `Parser.SegmentsEmpty` | parser.cpp:165-185 | a line has no segments exactly when it is all blanks |
| `Parser.SegmentsParseable` | parser.cpp:92-101 | every segment of a line without forbidden symbols is a number literal or a single operator char, as `parseToken` requires |
| `Parser.Normalize` | parser.cpp:48-58 | the text handed to `stod` has every separator replaced by `.` and every other character kept |
| `Parser.Stod` | parser.cpp:62 | definition: the longest prefix of digits, an optional point and digits, read as a decimal; a prefix without any digit is invalid |
| `Parser.StodInteger` | parser.cpp:62 | `stod` of a digit run is the run's decimal value; an empty run is invalid |
| `Parser.StodDecimal` | parser.cpp:62 | `stod` of digits, a point and digits is their decimal value; with no digit at all it is invalid |
| `Parser.ParseTokenSpec` | parser.cpp:44-88 | more than one separator is an error; a number literal yields a `NUMBER` double; an operator char yields that operator with its `TOKEN_TYPE` |
| `Parser.ParseToken` | parser.cpp:44-88 | the loop over the literal agrees with `ParseTokenSpec` |
| `Parser.ParseIntegerLiteral` | parser.cpp:44-62 | a digit run parses to a number of its decimal value, and an empty one is invalid |
| `Parser.ParseDecimalLiteral` | parser.cpp:44-62 | digits, one separator (`.` or `,`) and digits parse to a number of their decimal value |
| `Parser.ParseTokenAsWritten` | parser.cpp:46-60 | with the 8-bit separator counter: the error occurs when the count modulo 256 exceeds one; below 256 separators it agrees with `ParseTokenSpec` |
| `Parser.SeparatorCounterWraps` | parser.cpp:46-60 | "1" followed by n > 1 commas, with n modulo 256 equal to 1, parses as written to the number 1 instead of failing |
| `Parser.Negated` | parser.cpp:112-113 | a number after a negative sign becomes its negation |
| `Parser.Rewrite` | parser.cpp:100-139 | definition of the loop over the segments: a `+` or `-` first or after `(` is a sign, a `*` goes before `(` after a number or `)` and before a number after `)`, and every other token is kept |
| `Parser.AfterSign` | parser.cpp:102-117 | definition: after `-`, a number is negated, a `(` gets `-1 *` before it, anything else is an error; after `+` the next token is kept; a sign at the end stays |
| `Parser.Tokenize` | parser.cpp:90-144 | definition: the forbidden-symbol test, then the segments, the rewriting and the order check; `Parser.ParseLine` returns it |
| `Parser.TokenizePadded` | parser.cpp:90-144 | blanks around a line change neither its segments nor its tokens |
| `Parser.RewriteShape` | parser.cpp:100-139 | the sign and implicit-multiplication pass yields only numbers and the six operators, and fails only on a bad number or a wrong token after `-` |
| `Parser.AfterSignShape` | parser.cpp:102-117 | after a sign, the same holds for the tokens that follow |
| `Parser.TokenizeForbidden` | parser.cpp:92-94 | tokenizing fails with "forbidden symbols" exactly when the line has a forbidden character |
| `Parser.TokenizeShape` | parser.cpp:90-144 | accepted token lists pass the order check and use the token alphabet only; a rejection is one of the five parser errors |
| `Parser.TokenizeBlank` | parser.cpp:90-144 | an all-blank line yields no tokens |
| `Parser.ConsumeSegment` | parser.cpp:101-138 | one loop pass of `parseLine` either raises the error the specification gives for the remaining segments, or moves to a state with the same outcome on the rest |
| `Parser.ParseLine` | parser.cpp:90-144 | the method's loop returns exactly what `Tokenize` specifies, errors included |
| `Parser.OperatorsFollowOperandsStep` | parser.cpp:19-32 | appending a token keeps the "every binary operator follows a number" invariant exactly when a binary operator comes after a number |
| `Parser.MisorderedPrefix` | parser.cpp:26-28 | a violation in any prefix makes the list misordered, which warrants the early return |
| `Parser.OrderVerdict` | parser.cpp:33-41 | if the invariant holds throughout, the list is misordered exactly when it is non-empty and its last non-parenthesis is not a number |
| `Parser.WrongTokenOrder` | parser.cpp:14-42 | the loop's verdict is `WrongOrder` |
| `Parser.WrongOrder` | parser.cpp:14-42 | definition: with the parentheses left out, a binary operator comes first or right after another, or a non-empty list does not end with a number |
| `LineRules.SegmentsAppend` | parser.cpp:165-185 | two texts that meet at a delimiter split into the segments of the first and then those of the second |
| `LineRules.RewriteAppend` | parser.cpp:100-139 | segments that do not end in a sign rewrite as the first part, then the rest in the place the first part leaves; an error in the first part is the error of the whole |
| `LineRules.StarBeforeParenRule` | parser.cpp:128-132 | after a number or a `)`, segments starting with `(` rewrite as the same with `*` before them |
| `LineRules.StarBeforeNumberRule` | parser.cpp:133-136 | after a `)`, segments starting with a number literal rewrite as the same with `*` before them |
| `LineRules.NegatedParenRule` | parser.cpp:102-122 | where a sign is one, segments `-`, `(` rewrite as `-`, `1`, `*`, `(` |
| `LineRules.NegatedNumberRule` | parser.cpp:102-122 | where a sign is one, `-` and a number literal rewrite as the literal alone with its token negated |
| `LineRules.PlusDroppedRule` | parser.cpp:102-127 | where a sign is one, a `+` before anything but another sign is dropped |
| `LineRules.NegatedOperatorRule` | parser.cpp:102-122 | where a sign is one, `-` before `+ - * / )` is "wrong token after negative sign" |
| `LineRules.ImplicitProductBeforeParen` | parser.cpp:128-132 | any line: a `(` after text ending in a digit, a separator or `)`, blanks between allowed, tokenizes as if `*` stood before it |
| `LineRules.ImplicitProductBeforeNumber` | parser.cpp:133-136 | any line: a number after text ending in `)`, blanks between allowed, tokenizes as if `*` stood before it |
| `LineRules.NegativeParen` | parser.cpp:102-122 | any line: at its start or after `(`, `-(` tokenizes as `-1*(`, blanks allowed around the sign |
| `LineRules.NegativeNumber` | parser.cpp:102-122 | any line: at its start or after `(`, `-` and a number literal tokenize as the line without the `-` with that number negated; at the start of the line it is the first token |
| `LineRules.PlusSignDropped` | parser.cpp:102-127 | any line: at its start or after `(`, a `+` before a non-blank character other than a sign tokenizes as the line without it |
| `LineRules.NegativeSignBeforeOperator` | parser.cpp:102-122 | any line: at its start or after `(`, `-` before `+ - * / )` is "wrong token after negative sign"; only a forbidden symbol or an error in the text before the sign comes first |
| `LineRules.WrongOrderNegateAt` | parser.cpp:14-42 | negating a number never changes the order check's verdict |
| `ShuntingYard.PrecedenceTable` | shunting_yard.h:23-28 | the table's keys are the six operators, with precedences 0, 1 and 2; every operator ranks above `(` |
| `ShuntingYard.GetPrecedence` | shunting_yard.cpp:7-9 | yields the table entry exactly for a char in the table, and fails with an unknown operator otherwise |
| `ShuntingYard.GetTopPrecedence` | shunting_yard.cpp:11-14 | the precedence of the top of the stack |
| `ShuntingYard.PopUntilLeftPar` | shunting_yard.cpp:30-38 | definition: operators move from the stack to the output until a `(`, which is dropped; an empty stack is "mismatched parenthesis" |
| `ShuntingYard.PopWhileAtLeast` | shunting_yard.cpp:40-44 | definition: operators move to the output while the top ranks at least as high as the incoming operator |
| `ShuntingYard.Feed` | shunting_yard.cpp:22-46 | definition of one loop pass: a number goes to the output, `(` is pushed, `)` pops to its `(`, any other operator pops and is pushed |
| `ShuntingYard.Run` | shunting_yard.cpp:21-51 | definition: the tokens fed in order, stopping at the first error |
| `ShuntingYard.Drain` | shunting_yard.cpp:53-56 | definition: the remaining stack moved to the output, top first |
| `ShuntingYard.ToPostfix` | shunting_yard.cpp:16-58 | definition: run, then drain; `ShuntingYard.PerformAlgorithm` returns it |
| `ShuntingYard.FeedHolding` | shunting_yard.cpp:22-46 | one pass never makes output and stack together hold a token more often than before, plus the token fed |
| `ShuntingYard.RunHolding` | shunting_yard.cpp:21-51 | the same for the whole loop: output and stack hold no token more often than the start and the tokens fed |
| `ShuntingYard.ToPostfixEmpty` | shunting_yard.cpp:16-58 | no tokens convert to no tokens |
| `ShuntingYard.PerformAlgorithm` | shunting_yard.cpp:16-58 | the loop over the tokens and the final drain agree with `ToPostfix` |
| `ShuntingYard.PopWhileAtLeastStops` | shunting_yard.cpp:39-46 | an operator pops exactly the top run of operators whose precedence is at least its own, and stops below one of lower precedence |
| `ShuntingYard.LeftParSurvivesOperator` | shunting_yard.cpp:39-46 | an operator never pops a `(` |
| `ShuntingYard.PopUntilLeftParOk` | shunting_yard.cpp:29-38 | a `)` succeeds exactly when a `(` is on the stack, and otherwise raises "mismatched parenthesis" |
| `ShuntingYard.NumbersKeepOrder` | shunting_yard.cpp:16-58 | the numbers of the postfix output are the numbers of the input, in the same order |
| `ShuntingYard.OutputIsARearrangement` | shunting_yard.cpp:16-58 | the output is a permutation of the input's numbers and binary operators, holds no `)`, and holds no token more often than the input |
| `ShuntingYard.FeedDepth` | shunting_yard.cpp:26-46 | a token fails exactly when it is a `)` with no `(` on the stack; otherwise the count of `(` on the stack moves with the token's depth |
| `ShuntingYard.RunMismatch` | shunting_yard.cpp:21-52 | the loop fails exactly when some prefix of the tokens closes more parentheses than are open, and then with "mismatched parenthesis" |
| `ShuntingYard.OverdrawnStep` | shunting_yard.cpp:21-52 | a token that keeps the depth non-negative leaves the question to the rest of the tokens |
| `ShuntingYard.ToPostfixMismatch` | shunting_yard.cpp:16-58 | conversion fails exactly when a prefix of the input has more `)` than `(`, and only with "mismatched parenthesis" |
| `Calculator.ApplyOp` | calculator.h:25-29 | the four operations succeed except division by zero; a char outside the table is an unknown operator |
| `Calculator.NoFunctionForParentheses` | calculator.h:25-29 | `(` and `)` have no function in the table |
| `Calculator.FirstOperator` | calculator.cpp:8-10 | the position of the first operator, with only numbers before it; none means an all-number list |
| `Calculator.FirstOperatorAt` | calculator.cpp:8-10 | an operator with only numbers before it is the one `find_if` finds |
| `Calculator.FirstOperatorNone` | calculator.cpp:8-10 | an all-number list has no operator to find |
| `Calculator.FindOperator` | calculator.cpp:8-10 | the search loop finds `FirstOperator` |
| `Calculator.ReduceStep` | calculator.cpp:8-29 | no operator, or one at the front, is "operator not found"; one at position 1 is "lhs not found"; otherwise the operator and its two operands become the one result, with the rest of the list unchanged |
| `Calculator.ReduceStepNeedsThree` | calculator.cpp:8-29 | a successful pass consumes two operands and an operator |
| `Calculator.Reduce` | calculator.cpp:7-30 | a successful reduction leaves at most one token, none only for an empty list, and a number after any pass; its errors are the pass errors |
| `Calculator.ReduceFailsWith` | calculator.cpp:11-28 | a failing pass ends the reduction with that pass's error |
| `Calculator.ReducePass` | calculator.cpp:17-29 | both operands before the first operator are numbers; applying them either fails the reduction or continues it on the shortened list |
| `Calculator.Evaluate` | calculator.cpp:3-32 | definition: tokenize, convert, reduce, and take the front token; an empty result is no token |
| `Calculator.Calculate` | calculator.cpp:3-32 | the method agrees with `Evaluate`: tokenize, convert, reduce, take the front token |
| `Calculator.PostfixShape` | calculator.cpp:4-31 | a well-ordered, non-empty token list has a non-empty postfix form, and a single remaining token is a number |
| `Calculator.ConvertTokenized` | calculator.cpp:4 | the conversion of a tokenized line fails exactly when a prefix closes an unopened parenthesis |
| `Calculator.EvaluateNothing` | calculator.cpp:4-31 | the result is empty exactly when the line yields no tokens |
| `Calculator.EvaluateYieldsNumber` | calculator.cpp:3-32 | a result token is always a number, never an operator |
| `Calculator.EvaluateBlank` | calculator.cpp:3-32 | an all-blank line yields nothing |
| `Calculator.EvaluateErrors` | calculator.cpp:3-32 | the failures of the whole pipeline; a variant access error and "lhs or rhs is not a number" cannot occur |
| `Expressions.ApplyOpAgrees` | calculator.h:25-29 | the operations table computes the reference arithmetic of each binary operator |
| `Expressions.RankAgrees` | shunting_yard.h:23-28 | the precedence table agrees with the conventional ranks of the four operators |
| `Expressions.ConvertInfix` | shunting_yard.cpp:16-58 | the conversion of any expression tree's infix tokens is its postfix form |
| `Expressions.ExtraCloseMismatched` | shunting_yard.cpp:29-38 | any expression followed by an extra `)` is a mismatched parenthesis |
| `Expressions.ReduceToValue` | calculator.cpp:7-30 | reducing an expression's postfix form yields its value, or the error its evaluation raises |
| `Expressions.InfixComputesValue` | calculator.cpp:3-32 | conversion and reduction together compute the value of every expression from its infix tokens |
| `Expressions.InfixAlternates` | parser.cpp:14-42 | without parentheses, the infix tokens of an expression alternate number, operator, number |
| `Expressions.AlternatingAccepted` | parser.cpp:14-42 | any token list whose non-parenthesis tokens alternate, starting and ending with a number, passes the order check |
| `Expressions.InfixOrderAccepted` | parser.cpp:14-42 | the order check accepts every expression's infix tokens |
| `Printing.DigitsOfNat` | parser.cpp:62 | the decimal digits printed for a natural number read back as that number |
| `Printing.TokenTextParses` | parser.cpp:44-88 | the text of a natural number or an operator parses to that token and its type |
| `Printing.RewriteTexts` | parser.cpp:100-139 | the texts of tokens placed so that no sign and no implicit `*` arises rewrite to those tokens |
| `Printing.SegmentsSpell` | parser.cpp:165-185 | the line a token list spells, no two numbers meeting, splits into the texts of its tokens |
| `Printing.TokenizeSpell` | parser.cpp:90-144 | such a token list that also passes the order check tokenizes back from its line |
| `Printing.TokenizeText` | parser.cpp:90-144 | a printed expression tree with natural literals tokenizes to its infix tokens |
| `Printing.EvaluateText` | calculator.cpp:3-32 | a printed tree with natural literals evaluates to its value, or fails with the error its evaluation raises |
| `TestCases.BlankLineYieldsNothing` | tests.h:28-29 | a line of six blanks prints nothing |
| `TestCases.SumPrintsNine` | tests.h:32-39 | "5 + 4" prints 9 |
| `TestCases.PaddedSumPrintsNine` | tests.h:33-39 | "5 + 4" surrounded by any blanks prints 9 |
| `TestCases.LoneSignRejected` | tests.h:56 | "+" is rejected as misordered |
| `TestCases.LetterRejected` | tests.h:56 | "k" is rejected for a forbidden symbol |
| `TestCases.EmptyGroupRejected` | tests.h:56 | "()" is rejected as misordered |
| `TestCases.OpenSumRejected` | tests.h:56 | "13+" is rejected as misordered |
| `TestCases.DoublePlusRejected` | tests.h:57 | "31++" is rejected as misordered |
| `TestCases.EmptyFactorRejected` | tests.h:57 | "(15)()" is rejected as misordered |
| `TestCases.AdjacentNumbersRejected` | tests.h:57 | "14 14" fails with "operator not found" |
| `TestCases.OpenGroupRejected` | tests.h:58 | "(14+32-)" is rejected as misordered |
| `TestCases.TrailingOperatorRejected` | tests.h:58 | "13 12 +" is rejected as misordered |
| `TestCases.SpacedDigitsRejected` | tests.h:59 | "5 000 + 4" fails with "operator not found" |
| `TestCases.SpacedDoublePlusRejected` | tests.h:59 | "142 ++ 3" is rejected as misordered |
| `TestCases.UnclosedParenthesisRejected` | tests.h:74 | "((1)" fails with "lhs not found" |
| `TestCases.ExtraParenthesisRejected` | tests.h:74 | the tokens of "1 + (1+5))" are a mismatched parenthesis |
| `TestCases.LoneParenthesisRejected` | tests.h:74 | "(" is rejected as misordered |
| `TestCases.GroupSumPrintsHundred` | tests.h:89-90 | "(50)+(50)" prints 100 |
| `TestCases.GroupedPrintsHundred` | tests.h:94-95 | "(50 + 50)" prints 100 |
| `TestCases.ImplicitPrintsHundred` | tests.h:104-106 | "2(50)" prints 100 |
| `TestCases.SignedGroupPrintsHundred` | tests.h:110-112 | "(+1 + 1)(50)" prints 100 |
| `TestCases.DifferencePrintsMinusNine` | tests.h:121-122 | "5 - 14" prints -9 |
| `TestCases.NegatedGroupPrintsMinusNine` | tests.h:126-127 | "-(5 + 4)" prints -9 |
| `TestCases.NegativePrintsMinusNine` | tests.h:131-132 | "-5 - 4" prints -9 |
| `TestCases.RendersZero` | tests.h:140-141 | a zero result prints "0", as in "2.00000 - 2" and in "1,555 * 0" (lines 186-187) |
| `TestCases.RendersRoundedToInteger` | tests.h:151-152 | -4.999 rounds to a whole number and prints "-5" |
| `TestCases.CommaSumPrintsTwoDecimals` | tests.h:171-172 | "1,25 + 1,25" prints "2.50" |
| `TestCases.RendersTwoDecimals` | tests.h:171-172 | 2.5 prints with two decimals, "2.50" |
| `TestCases.RendersBelowTie` | tests.h:176-177 | 1.554 prints "1.55" |
| `TestCases.RendersTieUp` | tests.h:181-182 | 1.555 rounds half up and prints "1.56" |
| `TestCases.DivisionByZeroRejected` | tests.h:192-201 | the tokens of "15 / (5,00 - 5.000)" convert to `15 5 5 - /`, whose reduction fails with "division by zero" |

## Left out

- Console input and output (main.cpp) and the test driver's streams are not modelled. `TestCases` states which text `operator<<` produces.
- `double` arithmetic is modelled as exact `real` arithmetic. Rounding error in sums, products and quotients is not modelled. Neither is `ceilf`'s conversion to `float` in `isInteger`, or `std::stod`'s nearest-double conversion.
- `Parser.ParseToken`: counts separators in an unbounded integer, not in the `uint8_t` of parser.cpp:46, so `ParseLine`, `Tokenize`, `Evaluate` and `Calculate` follow the intended check. The as-written reading is `Parser.ParseTokenAsWritten` (see Findings).
- Tokens.Trunc: `static_cast<int>` in `Round` is modelled as truncation toward zero over unbounded integers. The undefined result above 2^31 hundredths is not modelled.
- `std::stod` is modelled only on the inputs `parseToken` can give it: digits with at most one `.`. It reads the longest prefix of digits, an optional point and digits. An input without any digit is an error.
- The C++ exception classes are not distinguished. Each message is one `Error` constructor.
- `Token` is one immutable datatype. `setDouble` and `setOperator` return a new token, and the list element the reduction overwrites in place is replaced by value.
- `std::list`, `std::stack` and `std::vector` are sequences. The operator stack holds chars, because only operator tokens are ever pushed onto it.
- `Set::Contains` is membership in a constant `set<char>`.
- `ShuntingYard::isOpFound` (shunting_yard.cpp:3-5) is never called in the source, so it is not modelled.
- `forbiddenSymbolsFound` (tokens.h:68) is declared and never defined or called, so it is not modelled.
- The "Invalid token" branch (shunting_yard.cpp:47-49) cannot be reached, because every token is an operator or a double (`Tokens.ExactlyOneAlternative`). The "Lhs or rhs is not a number" branch (calculator.cpp:26-27) cannot be reached either, because the two tokens before the first operator are numbers (`Calculator.ReducePass`).
- In the source, `Calculate` calls `output.front()` on an empty list for an empty or all-blank line, which has no defined result in C++. The model returns no token there, which is what the tests at tests.h:19-22 and 28-29 expect.
- The line "1 + (1+5))" (tests.h:74) and the division test (tests.h:194) are stated from their token lists, not their text. The other stages are covered by the general lemmas.
- The remaining cases of tests.h are not stated one by one: the tabs case (44), the long sum (49), the nested groups (99), the floating-point and large-number cases (140-237). Their rounding on doubles is outside a model on reals. The printing of the values 0, -4.999, 2.5, 1.554 and 1.555 is stated through the `Renders` lemmas.

## Findings

| source | as written | input that shows it | evidently intended | confidence | as-written member | corrected member |
|---|---|---|---|---|---|---|
| parser.cpp:46-60 | the separator counter `floating_points` is a `uint8_t`, so the count wraps modulo 256 before the `> 1` test | "1" followed by 257 commas: the count wraps to 1, `stod` reads "1." and the token is the number 1 | any literal with more than one separator is rejected with "Multiple floating points in single number" | not executed | `Parser.SeparatorCounterWraps` | `Parser.ParseTokenSpec` |
