/** Worked expressions: the scan, the split rule and the evaluation followed through on
    concrete input. */
module Samples {
  import opened Outcomes
  import opened Operators
  import opened Tokens
  import opened Tokenizer
  import opened Expressions
  import opened Evaluator
  import opened ScanSteps
  import opened ScanInvariants
  import opened Precedence

  /** A literal of decimal digits becomes the value the digits denote. */
  lemma DigitsLiteral(raw: string, v: nat, index: int)
    requires |raw| > 0 && AllDigits(raw) && DigitsValue(raw) == v
    ensures CreateValueToken(raw, index) == Ok(ValueToken(v as real, index))
  {
  }

  lemma Nineteen(index: int)
    ensures CreateValueToken("19", index) == Ok(ValueToken(19.0, index))
  {
    assert "19"[..1] == "1" && "1"[..0] == [];
    DigitsLiteral("19", 19, index);
  }

  lemma Eighty(index: int)
    ensures CreateValueToken("80", index) == Ok(ValueToken(80.0, index))
  {
    assert "80"[..1] == "8" && "8"[..0] == [];
    DigitsLiteral("80", 80, index);
  }

  // One scan step each, on a given state and character. The worked examples below join
  // them with ScanVia, so the solver never unfolds the scan of a whole string at once.

  lemma StepClose(stack: seq<Context>, k: int)
    ensures Step(ScanState(stack, EmptyContext), ')', k) == Ok(ScanState(stack + [EmptyContext], EmptyContext))
  {
  }

  lemma StepMinus(stack: seq<Context>, c: Context, k: int)
    ensures Step(ScanState(stack, c), '-', k) == Ok(ScanState(stack, c.(pendingOperator := '-')))
  {
  }

  lemma StepDigit(stack: seq<Context>, c: Context, ch: char, k: int)
    requires IsDigit(ch) && c.pendingOperator == NoPendingOperator
    ensures Step(ScanState(stack, c), ch, k) ==
      Ok(ScanState(stack, Context(c.tokens, [ch] + c.currentToken, NoPendingOperator)))
  {
    DigitJoinsLiteral(c, ch, k);
  }

  /** The first digit of a literal (its rightmost one). */
  lemma StepFirstDigit(stack: seq<Context>, tokens: seq<Token>, ch: char, k: int)
    requires IsDigit(ch)
    ensures Step(ScanState(stack, Context(tokens, [], NoPendingOperator)), ch, k) ==
      Ok(ScanState(stack, Context(tokens, [ch], NoPendingOperator)))
  {
    StepDigit(stack, Context(tokens, [], NoPendingOperator), ch, k);
    assert [ch] + [] == [ch];
  }

  /** The second digit of a literal. */
  lemma StepSecondDigit(stack: seq<Context>, tokens: seq<Token>, ch: char, d: char, k: int)
    requires IsDigit(ch)
    ensures Step(ScanState(stack, Context(tokens, [d], NoPendingOperator)), ch, k) ==
      Ok(ScanState(stack, Context(tokens, [ch, d], NoPendingOperator)))
  {
    StepDigit(stack, Context(tokens, [d], NoPendingOperator), ch, k);
    assert [ch] + [d] == [ch, d];
  }

  lemma StepDigitAfterMinus(stack: seq<Context>, c: Context, ch: char, k: int)
    requires IsDigit(ch) && c.pendingOperator == '-'
    ensures Step(ScanState(stack, c), ch, k) ==
      Ok(ScanState(stack, Context([OpToken(OperatorToken(Minus, k + 1))] + c.tokens, [ch] + c.currentToken, NoPendingOperator)))
  {
    DigitJoinsLiteral(c, ch, k);
  }

  lemma OperatorStepAt(c: Context, ch: char, k: int, v: Token, op: Operator)
    requires ch in "*/+" && Lookup([ch]) == Some(op) && c.pendingOperator == NoPendingOperator
    requires c.currentToken != [] && CreateValueToken(c.currentToken, k) == Ok(v)
    ensures c.ScanSymbol(ch, k) == Ok(Context([OpToken(OperatorToken(op, k)), v] + c.tokens, [], NoPendingOperator))
  {
    var o := OpToken(OperatorToken(op, k));
    var c2 := Context([v] + c.tokens, [], NoPendingOperator);
    assert ch != '-' && !IsDigit(ch) && ch != '.';
    assert c.CompleteMinusExpression(false, k) == Ok(c);
    LiteralEmitted(c, k, v);
    SymbolLookedUp(ch, k);
    assert c.ScanSymbol(ch, k) == Ok(c2.AddToken(o));
    OperatorAdded(c2, o);
    assert [o] + ([v] + c.tokens) == [o, v] + c.tokens;
  }

  lemma LiteralEmitted(c: Context, k: int, v: Token)
    requires c.currentToken != [] && CreateValueToken(c.currentToken, k) == Ok(v)
    ensures c.CompleteNumber(k) == Ok(Context([v] + c.tokens, [], c.pendingOperator))
  {
  }

  lemma OperatorAdded(c: Context, o: Token)
    requires o.OpToken?
    ensures c.AddToken(o) == c.(tokens := [o] + c.tokens)
  {
  }

  lemma StepOperator(stack: seq<Context>, c: Context, ch: char, k: int, v: Token, op: Operator)
    requires ch in "*/+" && Lookup([ch]) == Some(op) && c.pendingOperator == NoPendingOperator
    requires c.currentToken != [] && CreateValueToken(c.currentToken, k) == Ok(v)
    ensures Step(ScanState(stack, c), ch, k) ==
      Ok(ScanState(stack, Context([OpToken(OperatorToken(op, k)), v] + c.tokens, [], NoPendingOperator)))
  {
    OperatorStepAt(c, ch, k, v, op);
    assert !IsWhiteSpace(ch) && ch != '(' && ch != ')';
  }

  lemma StepOpen(stack: seq<Context>, c: Context, group: seq<Token>, k: int)
    requires stack != [] && c.CompleteUnfinishedToken(k) == Ok(c.(tokens := group))
    ensures Step(ScanState(stack, c), '(', k) ==
      Ok(ScanState(stack[..|stack| - 1], stack[|stack| - 1].AddToken(Create(group))))
  {
  }

  /** "((80 - (19)))": the parentheses around 19 and the outer pair vanish, the '-' before
      the digit 0 becomes a binary operator one place to its right. */
  lemma NestedGroupsTokenize()
    ensures TokenizeSpec("((80 - (19)))") ==
      Ok([ValueToken(80.0, 1), OpToken(OperatorToken(Minus, 4)), ValueToken(19.0, 7)])
  {
    var s := "((80 - (19)))";
    assert |s| == 13 && s[12] == ')' && s[11] == ')' && s[10] == ')' && s[9] == '9' && s[8] == '1';
    assert s[7] == '(' && s[6] == ' ' && s[5] == '-' && s[4] == ' ' && s[3] == '0' && s[2] == '8';
    assert s[1] == '(' && s[0] == '(';
    NestedGroupsScan(s);
  }

  // The scan of "((80 - (19)))", a few characters at a time; each lemma reads only the
  // characters it names, so the solver never evaluates the whole string at once.

  const ThreeOuter := [EmptyContext, EmptyContext, EmptyContext]
  const TwoOuter := [EmptyContext, EmptyContext]
  const Nineteen7 := ValueToken(19.0, 7)
  const Minus4 := OpToken(OperatorToken(Minus, 4))
  const Eighty1 := ValueToken(80.0, 1)
  const NestedGroup := PartialCompletedExpression([Eighty1, Minus4, Nineteen7])

  // The scan states of "((80 - (19)))": NestedK is the state once s[K..] has been read.
  const Nested13 := ScanState([], EmptyContext)
  const Nested10 := ScanState(ThreeOuter, EmptyContext)
  const Nested9 := ScanState(ThreeOuter, Context([], "9", NoPendingOperator))
  const Nested8 := ScanState(ThreeOuter, Context([], "19", NoPendingOperator))
  const Nested7 := ScanState(TwoOuter, Context([Nineteen7], [], NoPendingOperator))
  const Nested5 := ScanState(TwoOuter, Context([Nineteen7], [], '-'))
  const Nested3 := ScanState(TwoOuter, Context([Minus4, Nineteen7], "0", NoPendingOperator))
  const Nested2 := ScanState(TwoOuter, Context([Minus4, Nineteen7], "80", NoPendingOperator))
  const Nested1 := ScanState([EmptyContext], Context([NestedGroup], [], NoPendingOperator))
  const Nested0 := ScanState([], Context([NestedGroup], [], NoPendingOperator))

  /** Three ')' open three contexts. */
  lemma NestedGroupsClose(s: string)
    requires |s| == 13 && s[12] == ')' && s[11] == ')' && s[10] == ')'
    ensures ScanFrom(s, 10) == Ok(Nested10)
  {
    var E := EmptyContext;
    StepClose([], 12);
    StepClose([E], 11);
    StepClose([E, E], 10);
    assert [] + [E] == [E] && [E] + [E] == [E, E] && [E, E] + [E] == ThreeOuter;
    ScanVia(s, 12, Nested13, ScanState([E], E));
    ScanVia(s, 11, ScanState([E], E), ScanState([E, E], E));
    ScanVia(s, 10, ScanState([E, E], E), Nested10);
  }

  /** The digits 9 and 1 build the literal "19" from the right. */
  lemma NestedGroupsInnerLiteral(s: string)
    requires 9 < |s| && s[9] == '9' && s[8] == '1' && ScanFrom(s, 10) == Ok(Nested10)
    ensures ScanFrom(s, 8) == Ok(Nested8)
  {
    StepFirstDigit(ThreeOuter, [], '9', 9);
    StepSecondDigit(ThreeOuter, [], '1', '9', 8);
    ScanVia(s, 9, Nested10, Nested9);
    ScanVia(s, 8, Nested9, Nested8);
  }

  /** The inner '(' emits 19 at its index and closes the innermost context. */
  lemma NestedGroupsInnerGroup(s: string)
    requires 7 < |s| && s[7] == '(' && ScanFrom(s, 8) == Ok(Nested8)
    ensures ScanFrom(s, 7) == Ok(Nested7)
  {
    NestedInnerStep();
    ScanVia(s, 7, Nested8, Nested7);
  }

  lemma NestedInnerStep()
    ensures Step(Nested8, '(', 7) == Ok(Nested7)
  {
    var c19 := Nested8.current;
    NineteenEmitted();
    StepOpen(ThreeOuter, c19, [Nineteen7], 7);
    assert ThreeOuter[..2] == TwoOuter;
    NineteenAdded();
  }

  lemma NineteenEmitted()
    ensures Nested8.current.CompleteUnfinishedToken(7) == Ok(Nested8.current.(tokens := [Nineteen7]))
  {
    Nineteen(7);
  }

  lemma NineteenAdded()
    ensures EmptyContext.AddToken(Create([Nineteen7])) == Nested7.current
  {
  }

  /** The '-' is held back as pending. */
  lemma NestedGroupsMinus(s: string)
    requires 6 < |s| && s[6] == ' ' && s[5] == '-' && s[4] == ' ' && ScanFrom(s, 7) == Ok(Nested7)
    ensures ScanFrom(s, 4) == Ok(Nested5)
  {
    WhiteSpaceIsSkipped(Nested7, ' ', 6);
    ScanVia(s, 6, Nested7, Nested7);
    StepMinus(TwoOuter, Nested7.current, 5);
    ScanVia(s, 5, Nested7, Nested5);
    WhiteSpaceIsSkipped(Nested5, ' ', 4);
    ScanVia(s, 4, Nested5, Nested5);
  }

  /** The digit 0 turns the pending '-' into a binary operator at index 4, and 8 joins it. */
  lemma NestedGroupsOuterLiteral(s: string)
    requires 3 < |s| && s[3] == '0' && s[2] == '8' && ScanFrom(s, 4) == Ok(Nested5)
    ensures ScanFrom(s, 2) == Ok(Nested2)
  {
    StepDigitAfterMinus(TwoOuter, Nested5.current, '0', 3);
    assert ['0'] + [] == "0" && [Minus4] + [Nineteen7] == [Minus4, Nineteen7];
    ScanVia(s, 3, Nested5, Nested3);
    StepSecondDigit(TwoOuter, [Minus4, Nineteen7], '8', '0', 2);
    ScanVia(s, 2, Nested3, Nested2);
  }

  /** At the outer '(' the literal 80 is emitted in front of the '-' and 19. */
  lemma EightyEmitted()
    ensures Nested2.current.CompleteUnfinishedToken(1) ==
      Ok(Context([Eighty1, Minus4, Nineteen7], "80", NoPendingOperator))
  {
    Eighty(1);
    assert [Eighty1] + [Minus4, Nineteen7] == [Eighty1, Minus4, Nineteen7];
  }

  /** The three tokens, added to the enclosing context, stay one group. */
  lemma OuterGroupAdded()
    ensures EmptyContext.AddToken(Create([Eighty1, Minus4, Nineteen7])) == Nested1.current
  {
    assert Create([Eighty1, Minus4, Nineteen7]) == NestedGroup;
    assert [NestedGroup] + [] == [NestedGroup];
  }

  lemma NestedGroupsOuterGroup(s: string)
    requires 1 < |s| && s[1] == '(' && ScanFrom(s, 2) == Ok(Nested2)
    ensures ScanFrom(s, 1) == Ok(Nested1)
  {
    EightyEmitted();
    OuterGroupAdded();
    assert TwoOuter[..1] == [EmptyContext] && TwoOuter[1] == EmptyContext;
    StepOpen(TwoOuter, Nested2.current, [Eighty1, Minus4, Nineteen7], 1);
    ScanVia(s, 1, Nested2, Nested1);
  }

  /** The outermost '(' wraps the group once more; the one-token group is unwrapped. */
  lemma RootOpened()
    ensures Step(Nested1, '(', 0) == Ok(Nested0)
  {
    var outer := Nested1.current;
    assert outer.CompleteUnfinishedToken(0) == Ok(outer) && outer.(tokens := [NestedGroup]) == outer;
    StepOpen([EmptyContext], outer, [NestedGroup], 0);
    assert [EmptyContext][..0] == [] && Create([NestedGroup]) == NestedGroup;
    assert [NestedGroup] + [] == [NestedGroup] && EmptyContext.AddToken(NestedGroup) == outer;
  }

  lemma NestedGroupsRoot(s: string)
    requires 0 < |s| && s[0] == '(' && ScanFrom(s, 1) == Ok(Nested1)
    ensures ScanFrom(s, 0) == Ok(Nested0)
  {
    RootOpened();
    ScanVia(s, 0, Nested1, Nested0);
  }

  lemma NestedGroupsScan(s: string)
    requires |s| == 13 && s[12] == ')' && s[11] == ')' && s[10] == ')' && s[9] == '9' && s[8] == '1'
    requires s[7] == '(' && s[6] == ' ' && s[5] == '-' && s[4] == ' ' && s[3] == '0' && s[2] == '8'
    requires s[1] == '(' && s[0] == '('
    ensures TokenizeSpec(s) == Ok([Eighty1, Minus4, Nineteen7])
  {
    NestedGroupsClose(s);
    NestedGroupsInnerLiteral(s);
    NestedGroupsInnerGroup(s);
    NestedGroupsMinus(s);
    NestedGroupsOuterLiteral(s);
    NestedGroupsOuterGroup(s);
    NestedGroupsRoot(s);
    assert Finish(Nested0) == Ok([Eighty1, Minus4, Nineteen7]);
  }

  /** Two values around one operator split at that operator ... */
  lemma OneOperatorSplit(a: Token, op: OperatorToken, b: Token)
    requires a.ValueToken? && b.ValueToken?
    ensures Split([a, OpToken(op), b]) == Ok(Expression(a, op, b))
  {
    assert [a, OpToken(op), b] == [a] + [OpToken(op)] + [b];
    assert IsPrimary([a, OpToken(op), b], 1);
    SplitAt([a], op, [b]);
    assert Create([a]) == a && Create([b]) == b;
  }

  /** ... and evaluate to the operator applied to them. */
  lemma OneOperator(x: real, i: int, op: OperatorToken, y: real, j: int)
    ensures EvaluateTokens([ValueToken(x, i), OpToken(op), ValueToken(y, j)]) == Execute(op.operator, x, y)
  {
    var a, b := ValueToken(x, i), ValueToken(y, j);
    OneOperatorSplit(a, op, b);
    assert Reduce(Expression(a, op, b)) == Ok(Expression(a, op, b));
  }

  /** ... and evaluate to 80 - 19. */
  lemma NestedGroupsEvaluate()
    ensures EvaluateString("((80 - (19)))") == Ok(61.0)
  {
    NestedGroupsTokenize();
    OneOperator(80.0, 1, OperatorToken(Minus, 4), 19.0, 7);
  }

  // "3 * 2 * 3 + 10 / 5": nine tokens, split first at '+', then at the second '*'.

  /** A one-digit literal. */
  lemma OneDigit(ch: char, index: int)
    requires IsDigit(ch)
    ensures CreateValueToken([ch], index) == Ok(ValueToken((ch as int - '0' as int) as real, index))
  {
    assert [ch][..0] == [];
    DigitsLiteral([ch], ch as int - '0' as int, index);
  }

  lemma Ten(index: int)
    ensures CreateValueToken("10", index) == Ok(ValueToken(10.0, index))
  {
    assert "10"[..1] == "1" && "1"[..0] == [];
    DigitsLiteral("10", 10, index);
  }

  const Five15 := ValueToken(5.0, 15)
  const Over15 := OpToken(OperatorToken(Over, 15))
  const Ten10 := ValueToken(10.0, 10)
  const Plus10 := OpToken(OperatorToken(Plus, 10))
  const Three6 := ValueToken(3.0, 6)
  const Times6 := OpToken(OperatorToken(Times, 6))
  const Two2 := ValueToken(2.0, 2)
  const Times2 := OpToken(OperatorToken(Times, 2))
  const ThreeEnd := ValueToken(3.0, -1)

  /** The token lists the scan builds, each the one before with two tokens in front. */
  const Quotient := [Over15, Five15]
  const Addition := [Plus10, Ten10] + Quotient
  const Multiplication := [Times6, Three6] + Addition
  const Tail := [Times2, Two2] + Multiplication
  const NineTokens := [ThreeEnd] + Tail

  // The scan states of "3 * 2 * 3 + 10 / 5": SumOfProductsK is the state once s[K..] has
  // been read.
  const SumOfProducts18 := ScanState([], EmptyContext)
  const SumOfProducts17 := ScanState([], Context([], "5", NoPendingOperator))
  const SumOfProducts15 := ScanState([], Context(Quotient, [], NoPendingOperator))
  const SumOfProducts13 := ScanState([], Context(Quotient, "0", NoPendingOperator))
  const SumOfProducts12 := ScanState([], Context(Quotient, "10", NoPendingOperator))
  const SumOfProducts10 := ScanState([], Context(Addition, [], NoPendingOperator))
  const SumOfProducts8 := ScanState([], Context(Addition, "3", NoPendingOperator))
  const SumOfProducts6 := ScanState([], Context(Multiplication, [], NoPendingOperator))
  const SumOfProducts4 := ScanState([], Context(Multiplication, "2", NoPendingOperator))
  const SumOfProducts2 := ScanState([], Context(Tail, [], NoPendingOperator))
  const SumOfProducts0 := ScanState([], Context(Tail, "3", NoPendingOperator))

  /** A blank leaves the state as it is. */
  lemma SumOfProductsBlank(s: string, k: nat, st: ScanState)
    requires k < |s| && s[k] == ' ' && ScanFrom(s, k + 1) == Ok(st)
    ensures ScanFrom(s, k) == Ok(st)
  {
    WhiteSpaceIsSkipped(st, ' ', k);
    ScanVia(s, k, st, st);
  }

  /** "5", then '/' emits 5 and itself at index 15. */
  lemma SumOfProductsQuotient(s: string)
    requires |s| == 18 && s[17] == '5' && s[16] == ' ' && s[15] == '/'
    ensures ScanFrom(s, 15) == Ok(SumOfProducts15)
  {
    StepFirstDigit([], [], '5', 17);
    ScanVia(s, 17, SumOfProducts18, SumOfProducts17);
    SumOfProductsBlank(s, 16, SumOfProducts17);
    OneDigit('5', 15);
    LookupEntry(Over);
    StepOperator([], SumOfProducts17.current, '/', 15, Five15, Over);
    assert [Over15, Five15] + [] == Quotient;
    ScanVia(s, 15, SumOfProducts17, SumOfProducts15);
  }

  lemma SumOfProductsTen(s: string)
    requires 14 < |s| && s[14] == ' ' && s[13] == '0' && s[12] == '1' && ScanFrom(s, 15) == Ok(SumOfProducts15)
    ensures ScanFrom(s, 12) == Ok(SumOfProducts12)
  {
    SumOfProductsBlank(s, 14, SumOfProducts15);
    StepFirstDigit([], Quotient, '0', 13);
    ScanVia(s, 13, SumOfProducts15, SumOfProducts13);
    StepSecondDigit([], Quotient, '1', '0', 12);
    ScanVia(s, 12, SumOfProducts13, SumOfProducts12);
  }

  lemma SumOfProductsSum(s: string)
    requires 11 < |s| && s[11] == ' ' && s[10] == '+' && ScanFrom(s, 12) == Ok(SumOfProducts12)
    ensures ScanFrom(s, 10) == Ok(SumOfProducts10)
  {
    SumOfProductsBlank(s, 11, SumOfProducts12);
    Ten(10);
    LookupEntry(Plus);
    StepOperator([], SumOfProducts12.current, '+', 10, Ten10, Plus);
    ScanVia(s, 10, SumOfProducts12, SumOfProducts10);
  }

  lemma SumOfProductsThree(s: string)
    requires 9 < |s| && s[9] == ' ' && s[8] == '3' && s[7] == ' ' && ScanFrom(s, 10) == Ok(SumOfProducts10)
    ensures ScanFrom(s, 7) == Ok(SumOfProducts8)
  {
    SumOfProductsBlank(s, 9, SumOfProducts10);
    StepFirstDigit([], Addition, '3', 8);
    ScanVia(s, 8, SumOfProducts10, SumOfProducts8);
    SumOfProductsBlank(s, 7, SumOfProducts8);
  }

  lemma SumOfProductsProduct(s: string)
    requires 6 < |s| && s[6] == '*' && s[5] == ' ' && ScanFrom(s, 7) == Ok(SumOfProducts8)
    ensures ScanFrom(s, 5) == Ok(SumOfProducts6)
  {
    OneDigit('3', 6);
    LookupEntry(Times);
    StepOperator([], SumOfProducts8.current, '*', 6, Three6, Times);
    ScanVia(s, 6, SumOfProducts8, SumOfProducts6);
    SumOfProductsBlank(s, 5, SumOfProducts6);
  }

  lemma SumOfProductsTwo(s: string)
    requires 4 < |s| && s[4] == '2' && s[3] == ' ' && ScanFrom(s, 5) == Ok(SumOfProducts6)
    ensures ScanFrom(s, 3) == Ok(SumOfProducts4)
  {
    StepFirstDigit([], Multiplication, '2', 4);
    ScanVia(s, 4, SumOfProducts6, SumOfProducts4);
    SumOfProductsBlank(s, 3, SumOfProducts4);
  }

  lemma SumOfProductsTail(s: string)
    requires 2 < |s| && s[2] == '*' && s[1] == ' ' && ScanFrom(s, 3) == Ok(SumOfProducts4)
    ensures ScanFrom(s, 1) == Ok(SumOfProducts2)
  {
    OneDigit('2', 2);
    LookupEntry(Times);
    StepOperator([], SumOfProducts4.current, '*', 2, Two2, Times);
    ScanVia(s, 2, SumOfProducts4, SumOfProducts2);
    SumOfProductsBlank(s, 1, SumOfProducts2);
  }

  lemma SumOfProductsHead(s: string)
    requires 0 < |s| && s[0] == '3' && ScanFrom(s, 1) == Ok(SumOfProducts2)
    ensures ScanFrom(s, 0) == Ok(SumOfProducts0)
  {
    StepFirstDigit([], Tail, '3', 0);
    ScanVia(s, 0, SumOfProducts2, SumOfProducts0);
  }

  /** At the end the buffered 3 is emitted at index -1. */
  lemma SumOfProductsFinish()
    ensures Finish(SumOfProducts0) == Ok(NineTokens)
  {
    OneDigit('3', -1);
  }

  lemma SumOfProductsScan(s: string)
    requires |s| == 18 && s[17] == '5' && s[16] == ' ' && s[15] == '/' && s[14] == ' '
    requires s[13] == '0' && s[12] == '1' && s[11] == ' ' && s[10] == '+' && s[9] == ' '
    requires s[8] == '3' && s[7] == ' ' && s[6] == '*' && s[5] == ' '
    requires s[4] == '2' && s[3] == ' ' && s[2] == '*' && s[1] == ' ' && s[0] == '3'
    ensures TokenizeSpec(s) == Ok(NineTokens)
  {
    SumOfProductsQuotient(s);
    SumOfProductsTen(s);
    SumOfProductsSum(s);
    SumOfProductsThree(s);
    SumOfProductsProduct(s);
    SumOfProductsTwo(s);
    SumOfProductsTail(s);
    SumOfProductsHead(s);
    SumOfProductsFinish();
  }

  /** "3 * 2 * 3 + 10 / 5" becomes nine tokens in source order; each literal carries the
      index of the operator that ended it, the leftmost one the index -1. */
  lemma SumOfProductsTokenize()
    ensures TokenizeSpec("3 * 2 * 3 + 10 / 5") == Ok(NineTokens)
  {
    var s := "3 * 2 * 3 + 10 / 5";
    assert |s| == 18 && s[17] == '5' && s[16] == ' ' && s[15] == '/' && s[14] == ' ';
    assert s[13] == '0' && s[12] == '1' && s[11] == ' ' && s[10] == '+' && s[9] == ' ';
    assert s[8] == '3' && s[7] == ' ' && s[6] == '*' && s[5] == ' ';
    assert s[4] == '2' && s[3] == ' ' && s[2] == '*' && s[1] == ' ' && s[0] == '3';
    SumOfProductsScan(s);
  }

  /** A single value token, as an operand, is left as it is. */
  lemma ValueOperand(t: Token)
    requires t.ValueToken?
    ensures ReduceOperand(Create([t])) == Ok(t)
  {
  }

  /** Two values around one operator reduce to the one-node tree. */
  lemma OneNode(a: Token, op: OperatorToken, b: Token)
    requires a.ValueToken? && b.ValueToken?
    ensures ReduceOperand(Create([a, OpToken(op), b])) == Ok(ExpressionToken(Expression(a, op, b)))
  {
    assert [a, OpToken(op), b] == [a] + [OpToken(op)] + [b];
    assert IsPrimary([a, OpToken(op), b], 1);
    ValueOperand(a);
    ValueOperand(b);
    ReduceAtPrimary([a], op, [b]);
  }

  const ThreeTimesTwo := ExpressionToken(Expression(ThreeEnd, Times2.opToken, Two2))
  const TimesThree := ExpressionToken(Expression(ThreeTimesTwo, Times6.opToken, Three6))
  const TenOverFive := ExpressionToken(Expression(Ten10, Over15.opToken, Five15))
  /** ((3 * 2) * 3) + (10 / 5) */
  const NineTokensTree := ExpressionToken(Expression(TimesThree, Plus10.opToken, TenOverFive))

  /** The five tokens left of '+' split at the second '*', the later of two equal operators. */
  lemma ProductTree()
    ensures ReduceOperand(Create([ThreeEnd, Times2, Two2, Times6, Three6])) == Ok(TimesThree)
  {
    var pre := [ThreeEnd, Times2, Two2];
    assert [ThreeEnd, Times2, Two2, Times6, Three6] == pre + [Times6] + [Three6];
    assert IsPrimary(pre + [Times6] + [Three6], 3);
    OneNode(ThreeEnd, Times2.opToken, Two2);
    ValueOperand(Three6);
    ReduceAtPrimary(pre, Times6.opToken, [Three6]);
  }

  /** The nine tokens split at '+', the operator of lowest binding, and rebuild its sides. */
  lemma SumTree()
    ensures ReduceOperand(Create([ThreeEnd, Times2, Two2, Times6, Three6, Plus10, Ten10, Over15, Five15])) ==
      Ok(NineTokensTree)
  {
    var pre, post := [ThreeEnd, Times2, Two2, Times6, Three6], [Ten10, Over15, Five15];
    assert [ThreeEnd, Times2, Two2, Times6, Three6, Plus10, Ten10, Over15, Five15] == pre + [Plus10] + post;
    assert IsPrimary(pre + [Plus10] + post, 5);
    ProductTree();
    OneNode(Ten10, Over15.opToken, Five15);
    ReduceAtPrimary(pre, Plus10.opToken, post);
  }

  lemma NineTokensListed()
    ensures NineTokens == [ThreeEnd, Times2, Two2, Times6, Three6, Plus10, Ten10, Over15, Five15]
  {
  }

  /** The tree is ((3 * 2) * 3) + (10 / 5) ... */
  lemma SumOfProductsTree()
    ensures ReduceOperand(Create(NineTokens)) == Ok(NineTokensTree)
  {
    NineTokensListed();
    SumTree();
  }

  /** The sum of products the nine tokens spell: 3 * 2 * 3 + 10 / 5 with the tokens'
      positions. */
  const NineSum := Precedence.Sum(Term(3.0, -1, [Factor(true, 2, 2.0, 2), Factor(true, 6, 3.0, 6)]),
                                  [Addend(true, 10, Term(10.0, 10, [Factor(false, 15, 5.0, 15)]))])

  lemma NineSumRendered()
    ensures RenderSum(NineSum) == NineTokens
  {
    var product := Term(3.0, -1, [Factor(true, 2, 2.0, 2), Factor(true, 6, 3.0, 6)]);
    var quotient := Term(10.0, 10, [Factor(false, 15, 5.0, 15)]);
    assert RenderTerm(Term(3.0, -1, [])) == [ThreeEnd];
    assert RenderTerm(Term(3.0, -1, [Factor(true, 2, 2.0, 2)])) == [ThreeEnd, Times2, Two2];
    assert RenderTerm(product) == [ThreeEnd, Times2, Two2, Times6, Three6];
    assert RenderTerm(quotient) == [Ten10, Over15, Five15];
    NineTokensListed();
  }

  lemma NineSumValue()
    ensures SumValue(NineSum) == Ok(20.0)
  {
    assert TermValue(Term(3.0, -1, [Factor(true, 2, 2.0, 2)])) == Ok(6.0);
    assert TermValue(NineSum.first) == Ok(18.0);
    assert TermValue(NineSum.addends[0].term) == Ok(2.0);
  }

  /** ... and the string evaluates to 20, the value the precedence grammar gives it. */
  lemma SumOfProductsEvaluate()
    ensures EvaluateString("3 * 2 * 3 + 10 / 5") == Ok(20.0)
  {
    SumOfProductsTokenize();
    TokenizedTokensAreSound("3 * 2 * 3 + 10 / 5");
    NineSumRendered();
    SplitRuleIsPrecedence(NineSum);
    NineSumValue();
  }

  // "5-3" and "-(4)": a pending '-' as the scan resolves it.

  const Difference2 := ScanState([], Context([], "3", NoPendingOperator))
  const Difference1 := ScanState([], Context([], "3", '-'))
  const Difference0 := ScanState([], Context([OpToken(OperatorToken(Minus, 1))], "53", NoPendingOperator))

  /** The 3, then the '-' held back as pending. */
  lemma DifferenceDigitAndMinus(s: string)
    requires |s| == 3 && s[2] == '3' && s[1] == '-'
    ensures ScanFrom(s, 1) == Ok(Difference1)
  {
    StepFirstDigit([], [], '3', 2);
    ScanVia(s, 2, ScanState([], EmptyContext), Difference2);
    StepMinus([], Difference2.current, 1);
    ScanVia(s, 1, Difference2, Difference1);
  }

  /** The 5 turns the pending '-' into an operator at position 1 and joins the 3. */
  lemma DifferenceJoined()
    ensures Step(Difference1, '5', 0) == Ok(Difference0)
  {
    StepDigitAfterMinus([], Difference1.current, '5', 0);
    assert ['5'] + "3" == "53" && [OpToken(OperatorToken(Minus, 1))] + [] == [OpToken(OperatorToken(Minus, 1))];
  }

  lemma DifferenceFirstDigit(s: string)
    requires 0 < |s| && s[0] == '5' && ScanFrom(s, 1) == Ok(Difference1)
    ensures ScanFrom(s, 0) == Ok(Difference0)
  {
    DifferenceJoined();
    ScanVia(s, 0, Difference1, Difference0);
  }

  const Fifty3 := ValueToken(53.0, -1)
  const Minus1 := OperatorToken(Minus, 1)

  /** After the loop the literal 53 is emitted at index -1. */
  lemma DifferenceFinish()
    ensures Finish(Difference0) == Ok([Fifty3, OpToken(Minus1)])
  {
    assert "53"[..1] == "5" && "5"[..0] == [];
    DigitsLiteral("53", 53, -1);
    assert [Fifty3] + [OpToken(Minus1)] == [Fifty3, OpToken(Minus1)];
  }

  /** "5-3": the digit 5 turns the pending '-' into a binary operator at position 1, but the
      3 is still buffered, so 5 joins it and the literal 53 is emitted after the loop, at
      index -1. */
  lemma DifferenceTokenize()
    ensures TokenizeSpec("5-3") == Ok([ValueToken(53.0, -1), OpToken(OperatorToken(Minus, 1))])
  {
    var s := "5-3";
    assert |s| == 3 && s[2] == '3' && s[1] == '-' && s[0] == '5';
    DifferenceDigitAndMinus(s);
    DifferenceFirstDigit(s);
    DifferenceFinish();
  }

  /** The split puts an empty group on the right of the '-'. */
  lemma DifferenceSplit()
    ensures Split([Fifty3, OpToken(Minus1)]) == Ok(Expression(Fifty3, Minus1, PartialCompletedExpression([])))
  {
    var ts := [Fifty3, OpToken(Minus1)];
    assert ts == [Fifty3] + [OpToken(Minus1)] + [];
    assert IsPrimary(ts, 1);
    SplitAt([Fifty3], Minus1, []);
    assert Create([Fifty3]) == Fifty3;
  }

  /** "5-3" therefore fails: the '-' has nothing on its right. */
  lemma DifferenceEvaluate()
    ensures EvaluateString("5-3") == Err(NoOperator)
  {
    DifferenceTokenize();
    DifferenceSplit();
    assert ReduceGroup([]) == Err(NoOperator);
  }

  const Negated3 := ScanState([EmptyContext], EmptyContext)
  const Negated2 := ScanState([EmptyContext], Context([], "4", NoPendingOperator))
  const Negated1 := ScanState([], Context([ValueToken(4.0, 1)], [], NoPendingOperator))
  const Negated0 := ScanState([], Context([ValueToken(4.0, 1)], [], '-'))

  /** The ')' opens a context and 4 starts a literal in it. */
  lemma NegatedInner(s: string)
    requires |s| == 4 && s[3] == ')' && s[2] == '4'
    ensures ScanFrom(s, 2) == Ok(Negated2)
  {
    StepClose([], 3);
    assert [] + [EmptyContext] == [EmptyContext];
    ScanVia(s, 3, ScanState([], EmptyContext), Negated3);
    StepFirstDigit([EmptyContext], [], '4', 2);
    ScanVia(s, 2, Negated3, Negated2);
  }

  /** The '(' emits 4 and hands the one-token group, unwrapped, to the root context. */
  lemma NegatedOpen()
    ensures Step(Negated2, '(', 1) == Ok(Negated1)
  {
    var c4 := Negated2.current;
    OneDigit('4', 1);
    assert c4.CompleteUnfinishedToken(1) == Ok(c4.(tokens := [ValueToken(4.0, 1)]));
    StepOpen([EmptyContext], c4, [ValueToken(4.0, 1)], 1);
    assert Create([ValueToken(4.0, 1)]) == ValueToken(4.0, 1) && [EmptyContext][..0] == [];
    assert EmptyContext.AddToken(ValueToken(4.0, 1)) == Negated1.current;
  }

  lemma NegatedOuter(s: string)
    requires 1 < |s| && s[1] == '(' && s[0] == '-' && ScanFrom(s, 2) == Ok(Negated2)
    ensures ScanFrom(s, 0) == Ok(Negated0)
  {
    NegatedOpen();
    ScanVia(s, 1, Negated2, Negated1);
    StepMinus([], Negated1.current, 0);
    ScanVia(s, 0, Negated1, Negated0);
  }

  /** "-(4)": the one-token group is unwrapped to the literal 4, and the '-' in front of it
      is still pending when the loop ends, so it is dropped. */
  lemma NegatedGroupTokenize()
    ensures TokenizeSpec("-(4)") == Ok([ValueToken(4.0, 1)])
  {
    var s := "-(4)";
    assert |s| == 4 && s[3] == ')' && s[2] == '4' && s[1] == '(' && s[0] == '-';
    NegatedInner(s);
    NegatedOuter(s);
  }

  /** "-(4)" therefore fails: there is no operator to split at. */
  lemma NegatedGroupEvaluate()
    ensures EvaluateString("-(4)") == Err(NoOperator)
  {
    NegatedGroupTokenize();
  }

  /** "-1.25" is the literal -(125 / 100). */
  lemma NegativeDecimalLiteral()
    ensures ParseLiteral("-1.25") == Some(-1.25)
  {
    var u := "1.25";
    assert |u| == 4 && u[0] == '1' && u[1] == '.' && u[2] == '2' && u[3] == '5';
    assert Magnitude("-1.25") == u;
    assert IsLiteral("-1.25") by {
      assert IsDigit(u[0]);
    }
    assert DotIndex(u) == 1 by {
      assert u[1..][0] == '.';
    }
    assert WholePart(u) + FractionPart(u) == "125" && |FractionPart(u)| == 2;
    assert DigitsValue("125") == 125 by {
      assert "125"[..2] == "12" && "12"[..1] == "1" && "1"[..0] == "";
    }
    assert Pow10(2) == 100;
    LiteralValue("-1.25");
  }

  /** ".5" is the literal 5 / 10. */
  lemma FractionLiteral()
    ensures ParseLiteral(".5") == Some(0.5)
  {
    var h := ".5";
    assert |h| == 2 && h[0] == '.' && h[1] == '5';
    assert IsLiteral(h) by {
      assert IsDigit(h[1]);
    }
    assert Magnitude(h) == h && DotIndex(h) == 0;
    assert WholePart(h) + FractionPart(h) == "5" && |FractionPart(h)| == 1;
    assert DigitsValue("5") == 5 by {
      assert "5"[..0] == "";
    }
    assert Pow10(1) == 10;
    LiteralValue(h);
  }
}
