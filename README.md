# cw-Calc in Dafny

A model of the arithmetic expression evaluator in `Calc.cs`. `Evaluator.Evaluate` takes a
string such as `3 * 2 * 3 + 10 / 5` through three stages:

1. **Tokenize.** The string is scanned right to left. Literals, operator tokens and
   parenthesised groups go into a `ParsingContext`. A stack of contexts tracks the open
   groups. A `-` is held back as a pending operator until the character to its left
   decides what it is.
2. **Split.** The token list is split at its *primary* operator. This is the operator
   token that `OperatorToken.CompareTo` ranks highest: the largest priority (`+` and `-`
   have 10, `*` and `/` have 1), and among equals the largest position. Each side is
   wrapped by `PartialCompletedExpression.Create`.
3. **Reduce and evaluate.** `Expression.Reduce` splits every group recursively into a
   tree. `Expression.Evaluate` applies the operator table's arithmetic bottom-up.

## Modules

- `Outcomes` (`outcomes.dfy`): `Option`, `Result`, and one `Error` constructor per
  exception the evaluator can throw.
- `Operators` (`operators.dfy`): the operator table, `Operator.CompareTo`,
  `Operator.Get` (a loop over the table) and `Operator.Execute`.
- `Tokens` (`tokens.dfy`):
  - the token variants and `Expression`;
  - `OperatorToken.CompareTo`;
  - `PartialCompletedExpression.Create`;
  - `ValueToken.CreateFromString`, with `Double.Parse` as an exact decimal parser;
  - `OperatorToken.CreateFromString`.
- `Tokenizer` (`tokenizer.dfy`):
  - `Context` is the value of a `ParsingContext`. Its member functions are one step
    each of `Tokenize`'s local functions.
  - `Step`, `ScanFrom` and `TokenizeSpec` are the scan written as a function.
  - `ParsingContext` is a class whose methods update its fields in place.
  - `Tokenize` is the method with the right-to-left `for` loop over an explicit stack of
    `ParsingContext` objects. It is proved equal to `TokenizeSpec`.
- `ScanSteps` (`scan_steps.dfy`): the rules for one character. These cover whitespace, a
  digit after a pending `-`, a pending `-` before anything else, operators emitting the
  literal, and `(` and end of input dropping a pending `-`.
- `ScanInvariants` (`scan_invariants.dfy`): properties of every input.
  - The parentheses balance: the stack depth counts unmatched `)`, and an unmatched `(`
    fails.
  - Only the tokenizer's own errors occur, and only on the characters it accepts.
  - The token lists are well formed: no one-token groups, no expression trees, and
    operators in source order in every group.
- `Expressions` (`expressions.dfy`): the primary-operator choice (`OrderByDescending(x =>
  x).First()` and `IndexOf`), `Expression.Partial`, both `Reduce` overloads, `Evaluate`
  and `EvaluateCore`.
- `Evaluator` (`evaluator.dfy`): `Evaluator.Evaluate` end to end, as a function and as a
  method.
- `Precedence` (`precedence.dfy`): a flat token list shaped as a sum of products, with
  operator positions increasing left to right, evaluates to the usual value under the
  split rule. `*` and `/` bind tighter than `+` and `-`, and equal priorities group to the
  left. The reference value is computed from the grammar alone.
- `PlainInput` (`plain_input.dfy`): the whole pipeline on strings of whole numbers,
  whitespace, `*`, `/` and `+`.
  - The literal buffer collects the non-blank characters between two operators, in order.
  - The right-to-left scan yields the tokens a left-to-right reading gives.
  - When every operator has an operand on each side, the string evaluates to the value of
    the sum of products it spells.
- `Samples` (`samples.dfy`): worked inputs followed through scan, split and evaluation.
  - `3 * 2 * 3 + 10 / 5` gives the nine tokens listed in `Calc.cs`, the tree
    `((3 * 2) * 3) + (10 / 5)` and the value 20.
  - `((80 - (19)))` gives 61.
  - `5-3` and `-(4)` show how a pending `-` is resolved.
  - `-1.25` and `.5` parse to -1.25 and 0.5.

### Where the code departs from ordinary arithmetic

`Program.cs:14` prints C#'s own value of its expression (computed at `Program.cs:10`) beside
the evaluator's. For the
inputs below the two readings differ. The model follows the code.

- **`5-3`.** Read as arithmetic, this is 2. In the code the digit `5` turns the pending
  `-` into a binary operator at position 1 without first emitting the buffered `3`. So
  `5` joins `3`, and the tokens are the literal `53` (at index -1) followed by `-`.
  Evaluation then fails with `NoOperator`, because the right side of `-` is an empty
  group. See `Samples.DifferenceTokenize` and `Samples.DifferenceEvaluate`.
- **`-(4)`.** Read as arithmetic, this is -4. In the code the one-token group is unwrapped
  to `4`. The `-` is still pending at the end of the input, so it is dropped. The tokens
  are `4` alone, and evaluation fails with `NoOperator`. See
  `Samples.NegatedGroupTokenize` and `Samples.NegatedGroupEvaluate`.
- **`12 * 123 / -(-5 + 2)`.** Read as arithmetic, this is 1476 / 3 = 492. In the code the
  inner `-` is pending when its `(` is reached, so it is dropped
  (`ScanSteps.PendingMinusDroppedAtOpenParen`). The outer `-` negates the group `5 + 2`
  (`ScanSteps.PendingMinusBeforeOther`). The tokens therefore describe
  `12 * 123 / (-1 * (5 + 2))`. No concrete lemma covers this input.
- **Unmatched `)`.** Arithmetic rejects it, but the code never reports one. Everything to
  its right sits in a context left on the stack, and the end of the input discards it
  (`ScanSteps.FinishReadsOnlyTheInnermostContext`).

## Model

| member | source | states |
|---|---|---|
| Operators.CompareOperators | Calc.cs:418-421 | The sign of the result is the priority comparison: positive exactly when the first priority is greater, zero exactly when they are equal. |
| Operators.Lookup | Calc.cs:411-416 | The table has an entry exactly for `*`, `/`, `+` and `-`. The entry found is in the table and has the symbol looked up. |
| Operators.Get | Calc.cs:423-434 | The loop over the table succeeds exactly for the four symbols and returns the table entry with that symbol. Any other string fails with `InvalidToken` carrying that string. |
| Operators.Execute | Calc.cs:411-416 | Fails exactly for a division whose right operand is 0. Otherwise the result inverts back to the left operand: `+` undone by `-`, `-` undone by `+`, `*` (right operand non-zero) undone by `/`, and `/` undone by `*`. |
| Tokens.CompareTokens | Calc.cs:376-386 | Positive exactly when the first token has the greater priority, or equal priority and the greater position. Zero exactly when priority and position are both equal. |
| Tokens.CompareTokensIsTotalPreorder | Calc.cs:376-386 | The comparison is reflexive, antisymmetric in sign and transitive, so the descending sort has a well-defined first element. |
| Tokens.Create | Calc.cs:328-333 | A list of any length other than one becomes a group. The result has the list's leaves in order. It is well grouped, or free of sub-trees, exactly when every element is. Its size is bounded by the list's. |
| Tokens.ParseLiteral | Calc.cs:359 | `Double.Parse` on the characters a literal buffer can hold. Succeeds exactly for an optional leading `-`, then digits and at most one `.`, with at least one digit. A leading `-` negates the value of the unsigned literal after it; otherwise the value is that of the unsigned literal. A string of digits gives its decimal value. |
| Tokens.DigitsAppend | Calc.cs:359 | The digits of a + b spell the number of a shifted left by the length of b, plus the number of b. |
| Tokens.UnsignedValue | Calc.cs:359 | An unsigned literal denotes its digits with the `.` removed, over ten to the number of digits after the `.` ("1.25" is 125 / 100). |
| Tokens.LiteralValue | Calc.cs:359 | Every literal's value: the unsigned value above, negated exactly when the literal starts with `-`. |
| Tokens.CreateValueToken | Calc.cs:357-362 | Succeeds exactly when the string is a literal, giving a value token at the given position whose value is the parsed literal's. Otherwise fails with `InvalidNumber` carrying the string. |
| Tokens.OperatorTokenFrom | Calc.cs:388-391 | Succeeds exactly for the four operator symbols, giving a token with that table entry. Otherwise fails with `InvalidToken`. |
| Tokens.CreateOperatorToken | Calc.cs:388-391 | The method's result is `OperatorTokenFrom` of the same string and position. |
| Tokenizer.Context.AddToken | Calc.cs:55-64 | Inserts one token at the front, with the old tokens as the tail. The leaves are the added token's leaves followed by the old ones, including when a one-token group is replaced by its only token. The literal buffer and the pending operator are unchanged. |
| Tokenizer.MinusOneIsALiteral | Calc.cs:132-136 | The literal `"-1"` of a negated group always parses, to -1 at the given index. |
| Tokenizer.ScanFailureIsFinal | Calc.cs:156-211 | Once the scan of a suffix fails, tokenizing fails with that same error: the exception ends the loop. |
| Tokenizer.ParsingContext.constructor | Calc.cs:44-48 | A new context has no tokens, an empty buffer and no pending operator. |
| Tokenizer.ParsingContext.AppendToPartiallyCompletedToken | Calc.cs:50-53 | The character is inserted at the front of the literal buffer. Nothing else changes. |
| Tokenizer.ParsingContext.AddToken | Calc.cs:55-64 | The fields after the call are `Context.AddToken` of the fields before. |
| Tokenizer.ParsingContext.ReplaceLastToken | Calc.cs:68-71 | The front token, which is the one `LastToken` returns, is replaced. Nothing else changes. |
| Tokenizer.ParsingContext.ReduceRoot | Calc.cs:73-85 | A context holding exactly one group gets that group's tokens. Any other context is unchanged. |
| Tokenizer.CompleteUnfinishedToken | Calc.cs:94-100 | The context's new fields, or the reported error, are those of the functional step. A non-empty buffer is emitted at the index without being cleared. |
| Tokenizer.CompleteNumber | Calc.cs:102-111 | As the functional step: a non-empty buffer is emitted, and the buffer is always cleared. |
| Tokenizer.CompleteMinusExpression | Calc.cs:113-153 | As the functional step. A pending `-` becomes an operator at index + 1, or negates a front group as `[-1, *, group]`, or is prepended to the buffer. The flag is cleared. |
| Tokenizer.ScanSymbol | Calc.cs:191-210 | A `-`, a digit or `.`, or any other character changes the context, or reports the error, exactly as the functional step does. |
| Tokenizer.ScanCloseParen | Calc.cs:167-174 | After emitting the literal, the context is pushed and a fresh one becomes current. The stack's contexts, read as values, are the step's. |
| Tokenizer.ScanOpenParen | Calc.cs:177-189 | Emits the literal and pops the enclosing context, which receives the group. An empty stack gives `StackEmpty`. The stack's contexts, read as values, are the step's. |
| Tokenizer.ScanCharacter | Calc.cs:156-211 | One loop iteration on the object stack agrees with `Step` on the values. The stack stays made of distinct objects other than the current one. |
| Tokenizer.Tokenize | Calc.cs:88-217 | The loop and the final steps return `TokenizeSpec` of the input: the same tokens, or the same error. |
| ScanSteps.WhiteSpaceIsSkipped | Calc.cs:161-164 | A whitespace character leaves the whole scan state as it was. |
| ScanSteps.DigitJoinsLiteral | Calc.cs:198-203 | A digit or `.` is prepended to the buffer. If a `-` was pending, a `-` operator at index + 1 is added first, and the buffer is not flushed. |
| ScanSteps.PendingMinusBeforeOther | Calc.cs:113-153 | A pending `-` before a non-digit does one of two things. If the front token is a group, the group becomes `[-1 at index, * at index, group]`. Otherwise the `-` is prepended to the buffer. |
| ScanSteps.OperatorFlushesLiteral | Calc.cs:204-210 | Before any other character, the buffered literal is emitted first. A malformed literal gives `InvalidNumber`. A character other than `*`, `/` and `+` gives `InvalidToken`. Otherwise the result is the operator followed by the literal, with an empty buffer. |
| ScanSteps.LiteralFlushed | Calc.cs:102-111 | `CompleteNumber` in closed form: no change for an empty buffer, the value token in front for a literal, `InvalidNumber` otherwise. |
| ScanSteps.SymbolLookedUp | Calc.cs:209 | A one-character symbol other than `-` is an operator token exactly for `*`, `/` and `+`. Otherwise it is `InvalidToken`. |
| ScanSteps.PendingMinusDroppedAtOpenParen | Calc.cs:177-189 | The result of a `(` does not depend on the pending operator, so a `-` pending there is dropped. |
| ScanSteps.FinishReadsOnlyTheInnermostContext | Calc.cs:213-216 | The end of input depends only on the current context's tokens and buffer. A pending `-` and all contexts on the stack are dropped. |
| ScanInvariants.StackDepth | Calc.cs:167-189 | After scanning a suffix, the stack depth plus the number of `(` equals the number of `)` in that suffix. |
| ScanInvariants.UnmatchedOpenParenFails | Calc.cs:177-189 | A `(` with no unmatched `)` to its right makes tokenizing fail. If the scan to its right succeeded, the failure is `StackEmpty` or a malformed literal. |
| ScanInvariants.ScannedParenthesesMatch | Calc.cs:167-189 | In a suffix that scans without error, every suffix of it has no more `(` than `)`. |
| ScanInvariants.TokenizedParenthesesMatch | Calc.cs:88-217 | In an input that tokenizes, every `(` has a matching `)` to its right. |
| ScanInvariants.StepErrors | Calc.cs:156-211 | A failing iteration reports `InvalidNumber`, `InvalidToken` or `StackEmpty`. |
| ScanInvariants.ScanErrors | Calc.cs:156-211 | A failing scan of any suffix reports one of the tokenizer's three errors. |
| ScanInvariants.TokenizeErrors | Calc.cs:88-217 | Tokenizing fails only with `InvalidNumber`, `InvalidToken` or `StackEmpty`. |
| ScanInvariants.StepNeedsAlphabet | Calc.cs:156-211 | An iteration succeeds only on whitespace, an ASCII digit or one of `( ) . + - * /`. |
| ScanInvariants.ScannedCharactersAreInAlphabet | Calc.cs:156-211 | Every character of a suffix that scans without error is in that alphabet. |
| ScanInvariants.TokenizedInputIsInAlphabet | Calc.cs:88-217 | Every character of an input that tokenizes is in that alphabet. |
| ScanInvariants.SoundIsWellGrouped | Calc.cs:328-333 | A token as the tokenizer builds it holds no one-token group and no expression tree. |
| ScanInvariants.CreateIsSound | Calc.cs:328-333 | `Create` of a well-formed list is well formed. An operator token it returns has a position from the list. |
| ScanInvariants.CompleteUnfinishedTokenKeeps | Calc.cs:94-100 | Emitting the literal keeps a context well formed and its operator positions unchanged. |
| ScanInvariants.CompleteNumberKeeps | Calc.cs:102-111 | The same for `CompleteNumber`. |
| ScanInvariants.NegatedGroupKeeps | Calc.cs:130-145 | Replacing the front group by `[-1, *, group]` keeps the context well formed. The new `*` lies left of every operator already there. |
| ScanInvariants.CompleteMinusExpressionKeeps | Calc.cs:113-153 | Resolving a pending `-` keeps the context well formed, with all operators at or right of the index. |
| ScanInvariants.OperatorSymbolKeeps | Calc.cs:204-210 | Adding an operator at the index keeps the context's operators in source order. |
| ScanInvariants.ScanSymbolKeeps | Calc.cs:191-210 | Any character other than whitespace and parentheses keeps the context well formed and in order. |
| ScanInvariants.SymbolStepKeeps | Calc.cs:191-210 | The same for the scan state: the loop invariant survives such a step. |
| ScanInvariants.CloseParenKeeps | Calc.cs:167-174 | A `)` keeps the loop invariant. |
| ScanInvariants.AddGroupKeeps | Calc.cs:55-64 | Adding a well-formed group whose operators all lie left of the parent's keeps the parent well formed. |
| ScanInvariants.OpenParenKeeps | Calc.cs:177-189 | A `(` keeps the loop invariant. |
| ScanInvariants.StepKeeps | Calc.cs:156-211 | Every successful iteration keeps the loop invariant. |
| ScanInvariants.ScanKeepsInvariant | Calc.cs:156-211 | Every suffix that scans without error gives a state satisfying the loop invariant. Every context is well formed, and deeper contexts hold operators further left. |
| ScanInvariants.TokenizedTokensAreSound | Calc.cs:88-217 | Tokenize returns well-formed tokens: no expression trees, no one-token groups, operators in source order in every list, and never a lone group. |
| Expressions.PrimaryOperatorIndex | Calc.cs:28-29 | There is no index exactly when there is no operator token. Otherwise the index is the token the descending sort puts first: nothing ranks above it, and everything to its left ranks strictly below. |
| Expressions.PrimaryIsUnique | Calc.cs:28-29 | At most one index has that property. |
| Expressions.Partial | Calc.cs:235-242 | The root has the given operator. Its leaves are the left list's, then the operator, then the right list's. |
| Expressions.Split | Calc.cs:28-35 | Fails with `NoOperator` exactly when there is no operator token. Otherwise it splits at the primary operator and keeps all leaves in order. |
| Expressions.SplitAtOperator | Calc.cs:31-35 | Splitting at any operator token keeps the leaves in order and shrinks both sides. |
| Expressions.SplitKeepsFlatness | Calc.cs:28-35 | If the list has no sub-trees, neither side of the split has any. |
| Expressions.ReduceOperand | Calc.cs:247-256 | Reducing an operand keeps its leaves, leaves no group behind and, on a sub-tree-free input, yields a full tree. Its only failure is `NoOperator`. |
| Expressions.ReduceGroup | Calc.cs:261-274 | A group becomes an expression token with the same leaves. A group without an operator fails with `NoOperator`. |
| Expressions.Reduce | Calc.cs:244-259 | Keeps the root operator and the leaves. On sub-tree-free sides it yields a tree of values and operators only. |
| Expressions.Evaluate | Calc.cs:276-282 | Fails only with `UnreducedToken`, `UnknownTokenType` or `DivisionByZero`. A full tree never gives `UnknownTokenType`, and a tree of values only fails just on division by zero. |
| Expressions.EvaluateCore | Calc.cs:284-302 | A value token gives its value. An operator token gives `UnreducedToken`. A group gives `UnknownTokenType`. The failure guarantees of `Evaluate` also hold. |
| Evaluator.EvaluateTokens | Calc.cs:28-41 | A list without an operator fails with `NoOperator`. On sub-tree-free lists the only failures are `NoOperator`, `UnreducedToken` and `DivisionByZero`. |
| Evaluator.EvaluateString | Calc.cs:9-42 | A tokenizer error is passed on unchanged. Every failure is a tokenizer error, `NoOperator`, `UnreducedToken` or `DivisionByZero`, never `UnknownTokenType`. |
| Evaluator.Evaluate | Calc.cs:9-42 | The method's result is `EvaluateString` of the input. |
| Precedence.SplitAt | Calc.cs:28-35 | At the primary operator, the split cuts the list exactly there. |
| Precedence.OrderedFromIncreasing | Calc.cs:376-386 | Increasing operator positions, the tokenizer's invariant, order every pair of operator tokens by position. |
| Precedence.LastFactorIsPrimary | Calc.cs:376-386 | In a product whose operators stand in increasing position order, the rightmost `*` or `/` is primary: equal priorities are broken by the greater position. |
| Precedence.LastAddendIsPrimary | Calc.cs:376-386 | In a sum whose operators stand in increasing position order, the rightmost `+` or `-` is primary, above every `*` and `/` on either side. |
| Precedence.ReduceAtPrimary | Calc.cs:261-274 | Reducing a group whose primary operator separates two reducible sides gives the node of that operator over the two reduced sides. |
| Precedence.EvaluateAtPrimary | Calc.cs:276-302 | The value of that group is the operator applied to the values of the two sides. |
| Precedence.TermReduces | Calc.cs:244-302 | A product whose operators stand in increasing position order reduces and evaluates to the left-to-right product/quotient. |
| Precedence.SumReduces | Calc.cs:244-302 | A sum of such products, its operators in increasing position order, reduces and evaluates to the left-to-right sum of the products' values. |
| Precedence.SplitRuleIsPrecedence | Calc.cs:9-42 | For a sum of products with at least one operator, whose operator positions increase left to right as in every tokenized list, the evaluation equals the standard precedence and left-associative value computed from the grammar. A lone literal fails with `NoOperator`. |
| Precedence.SumOfRenders | Calc.cs:9-42 | Every alternating list of values and table operators is the token list of a sum of products, the one `SumOf` reads from it. |
| Precedence.FlatListValue | Calc.cs:9-42 | Every alternating list of values and table operators with increasing positions evaluates to the value of the sum of products it spells: `*` and `/` first, then `+` and `-`, each left to right. A lone value fails with `NoOperator`. |
| PlainInput.BufferCollectsLiteral | Calc.cs:156-203 | From any scan state with no `-` pending, a run of digits, `.` and whitespace prepends its non-blank characters, in source order, to the literal buffer. Nothing else changes. |
| PlainInput.ScanPlain | Calc.cs:156-210 | On input of digits, whitespace, `*`, `/` and `+`, after any suffix the stack is empty and no `-` is pending. The buffer holds the non-blank characters before the next operator, and the tokens are the left-to-right reading from that operator on. |
| PlainInput.ScanPlainOperator | Calc.cs:204-210 | At an operator of such input, the buffered number is emitted at the operator's index and the operator is put in front of it. |
| PlainInput.TokenizePlain | Calc.cs:88-217 | Tokenizing such input gives its numbers and operators in source order, blanks dropped. Each number is positioned at the operator before it, the first at -1. |
| PlainInput.EvaluatePlain | Calc.cs:9-42 | Such input with an operand on each side of every operator evaluates to the value of the sum of products it spells: `*` and `/` before `+`, each left to right. A lone number fails with `NoOperator`. |
| Samples.NestedGroupsTokenize | Calc.cs:88-217 | `((80 - (19)))` tokenizes to `80`, `-`, `19`. The redundant groups vanish and the `-` sits at position 4. |
| Samples.NestedGroupsEvaluate | Calc.cs:9-42 | `((80 - (19)))` evaluates to 61. |
| Samples.SumOfProductsTokenize | Calc.cs:11-21 | `3 * 2 * 3 + 10 / 5` tokenizes to the nine tokens listed in the comment, in that order. |
| Samples.SumOfProductsTree | Calc.cs:23-25 | Those nine tokens reduce to `((3 * 2) * 3) + (10 / 5)`. |
| Samples.SumOfProductsEvaluate | Calc.cs:9-42 | `3 * 2 * 3 + 10 / 5` evaluates to 20, the grammar's value of the sum of products its tokens spell. |
| Samples.DifferenceTokenize | Calc.cs:191-203 | `5-3` tokenizes to the literal `53` at index -1 followed by `-` at position 1. |
| Samples.DifferenceEvaluate | Calc.cs:28-37 | `5-3` fails with `NoOperator`: the right side of the `-` is an empty group. |
| Samples.NegatedGroupTokenize | Calc.cs:177-196 | `-(4)` tokenizes to `4` alone, and the `-` is dropped. |
| Samples.NegatedGroupEvaluate | Calc.cs:28-29 | `-(4)` fails with `NoOperator`. |
| Samples.NegativeDecimalLiteral | Calc.cs:359 | `-1.25` parses to -1.25. |
| Samples.FractionLiteral | Calc.cs:359 | `.5` parses to 0.5. |

## Left out

- `Program.cs` is not part of this model. It evaluates the fixed string `((80 - (19)))`, prints the result beside C#'s own value of that expression, and waits for one key. `Samples.NestedGroupsEvaluate` states the value, 61.
- `ToString` overrides and exception message texts are not modelled. Each exception is one `Error` constructor.
- IEEE-754 doubles are not modelled: values are exact reals, so rounding, overflow, infinities and NaN do not occur.
- Operators.Execute: a division by zero is the error `DivisionByZero`, where the C# code returns an infinity or NaN. For `*` with a zero right operand, the contract does not pin the value.
- `Double.Parse` is modelled only on the strings a literal buffer can hold, with `.` as the decimal separator. The current culture's separators, exponents, thousands separators and the rounding to the nearest double are not modelled.
- `Char.IsDigit` is modelled as the ASCII digits. Other Unicode decimal digits are not modelled, and the error differs on them. On `(٣` the C# code buffers the Arabic-Indic digit and `Double.Parse` then rejects it at the `(` (`InvalidNumber`, Calc.cs:179 and 359). The model instead treats the digit as an operator symbol and fails with `InvalidToken` at the digit.
- A Dafny `string` is a sequence of Unicode scalar values; a C# `string` is a sequence of UTF-16 code units. A character outside the Basic Multilingual Plane is one `char` in the model but two surrogate `char`s in C#. Both fail on such a character, but with a different `InvalidToken` payload (the whole character in the model, one surrogate in C#).
- `List.IndexOf` and `Array.IndexOf` compare tokens by reference. The model works with indices directly. `ReplaceToken(LastToken, …)` replaces the front token, and the primary operator is found by its index.
- The LINQ sort (`OrderByDescending(x => x).First()`) is modelled as one scan that keeps the first maximal token. A stable sort would pick the same token.
- Precedence.SplitRuleIsPrecedence: shown only for flat sums of products. Expressions with groups are not covered by this lemma.
- PlainInput.EvaluatePlain: covers only input without `-`, `.` and parentheses, with an operand on each side of every operator. For input with a missing operand it states nothing.
- The integer subtraction in `OperatorToken.CompareTo` cannot overflow on string positions, so positions are unbounded integers.
