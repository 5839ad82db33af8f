/** Evaluator.Tokenize with its ParsingContext: a right-to-left scan over the expression that
    keeps one parsing context per open parenthesis on a stack. The functions on Context and
    ScanFrom are the specification of the scan; the class ParsingContext and the method
    Tokenize are the scan itself, proved equal to it. */
module Tokenizer {
  import opened Outcomes
  import opened Operators
  import opened Tokens

  /** Char.MinValue, the "no pending operator" value of PossiblePendingOperator. */
  const NoPendingOperator: char := 0 as char

  /** Char.IsWhiteSpace: the Unicode space, line and paragraph separators and the control
      characters U+0009 to U+000D and U+0085. */
  predicate IsWhiteSpace(c: char) {
    || c == ' ' || ('\t' <= c <= '\r') || c == 0x85 as char || c == 0xA0 as char
    || c == 0x1680 as char || (0x2000 as char <= c <= 0x200A as char)
    || c == 0x2028 as char || c == 0x2029 as char || c == 0x202F as char
    || c == 0x205F as char || c == 0x3000 as char
  }

  /** The state of one ParsingContext: Tokens (front-inserted, so in source order),
      CurrentToken (the literal being built, front-inserted too) and PossiblePendingOperator. */
  datatype Context = Context(tokens: seq<Token>, currentToken: string, pendingOperator: char) {

    /** AppendToPartiallyCompletedToken: the buffer grows at the front. */
    function AppendToPartiallyCompletedToken(c: char): Context {
      this.(currentToken := [c] + currentToken)
    }

    /** AddToken: a one-token group is unwrapped, then the token is inserted at the front. */
    function AddToken(token: Token): (r: Context)
      ensures |r.tokens| == |tokens| + 1 && r.tokens[1..] == tokens
      ensures LeavesOf(r.tokens) == Leaves(token) + LeavesOf(tokens)
      ensures r.currentToken == currentToken && r.pendingOperator == pendingOperator
    {
      var t := if token.PartialCompletedExpression? && |token.tokens| == 1 then token.tokens[0] else token;
      assert Leaves(t) == Leaves(token) by {
        if t != token { LeavesOfSingle(t); assert token.tokens == [t]; }
      }
      LeavesOfConcat([t], tokens);
      LeavesOfSingle(t);
      this.(tokens := [t] + tokens)
    }

    /** LastToken: the token most recently added, which is the leftmost one. */
    function LastToken(): Option<Token> {
      if |tokens| == 0 then None else Some(tokens[0])
    }

    /** ReplaceToken(LastToken, replacement), the only way the source calls it. */
    function ReplaceLastToken(replacement: Token): Context
      requires tokens != []
    {
      this.(tokens := [replacement] + tokens[1..])
    }

    /** ReduceRoot: a root holding a single group becomes the group's tokens. */
    function ReduceRoot(): Context {
      if |tokens| == 1 && tokens[0].PartialCompletedExpression? then
        this.(tokens := tokens[0].tokens)
      else this
    }

    /** Tokenize's local CompleteUnfinishedToken: emits the buffered literal, if any, at
        position index; the buffer is not cleared. */
    function CompleteUnfinishedToken(index: int): Result<Context> {
      if |currentToken| > 0 then
        var v :- CreateValueToken(currentToken, index);
        Ok(AddToken(v))
      else Ok(this)
    }

    /** Tokenize's local CompleteNumber: emits the buffered literal, if any, and clears the
        buffer. */
    function CompleteNumber(index: int): Result<Context> {
      if |currentToken| > 0 then
        var v :- CreateValueToken(currentToken, index);
        Ok(AddToken(v).(currentToken := []))
      else Ok(this.(currentToken := []))
    }

    /** Tokenize's local CompleteMinusExpression: resolves a pending '-'. Before a digit
        (isOperator) it becomes a binary '-' at index + 1 and the buffer is left alone;
        before another character it negates a group at the front as -1 * group, or else
        is prepended to the literal buffer. */
    function CompleteMinusExpression(isOperator: bool, index: int): Result<Context> {
      if pendingOperator != '-' then Ok(this)
      else if isOperator then
        var op :- OperatorTokenFrom("-", index + 1);
        Ok(AddToken(OpToken(op)).(pendingOperator := NoPendingOperator))
      else
        var c :-
          if LastToken().Some? && LastToken().value.PartialCompletedExpression? then
            var g := LastToken().value;
            var minusOne :- CreateValueToken("-1", index);
            var times :- OperatorTokenFrom("*", index);
            Ok(ReplaceLastToken(Create([minusOne, OpToken(times), g])))
          else Ok(AppendToPartiallyCompletedToken(pendingOperator));
        Ok(c.(pendingOperator := NoPendingOperator))
    }

    /** The part of one loop iteration that stays inside the current context: any character
        other than whitespace and parentheses. A '-' is held back as pending; a digit or '.'
        first resolves a pending '-' as a binary operator, then joins the literal; any other
        character resolves a pending '-' as a sign, emits the literal, and is looked up as an
        operator. */
    function ScanSymbol(ch: char, index: int): Result<Context> {
      if ch == '-' then Ok(this.(pendingOperator := ch))
      else if IsDigit(ch) || ch == '.' then
        var c :- CompleteMinusExpression(true, index);
        Ok(c.AppendToPartiallyCompletedToken(ch))
      else
        var c1 :- CompleteMinusExpression(false, index);
        var c2 :- c1.CompleteNumber(index);
        var op :- OperatorTokenFrom([ch], index);
        Ok(c2.AddToken(OpToken(op)))
    }
  }

  const EmptyContext := Context([], [], NoPendingOperator)

  /** The synthetic "-1" of a negated group always parses. */
  lemma MinusOneIsALiteral(index: int)
    ensures CreateValueToken("-1", index) == Ok(ValueToken(-1.0, index))
  {
    assert "-1"[1..] == "1" && IsDigit("1"[0]);
    assert ParseUnsigned("1") == Some(1.0) by {
      assert DotIndex("1") == 1;
      assert "1"[..1] == "1";
      assert DigitsValue("1") == 1 by { assert "1"[..0] == []; }
    }
  }

  /** The scan's state: the stack of enclosing contexts (top at the end) and the context of
      the innermost open group. */
  datatype ScanState = ScanState(stack: seq<Context>, current: Context)

  /** One iteration of Tokenize's loop, for character ch at position index. */
  function Step(st: ScanState, ch: char, index: int): Result<ScanState> {
    if IsWhiteSpace(ch) then Ok(st)
    else if ch == ')' then
      var c :- st.current.CompleteNumber(index);
      Ok(ScanState(st.stack + [c], EmptyContext))
    else if ch == '(' then
      var group :- st.current.CompleteUnfinishedToken(index);
      if |st.stack| == 0 then Err(StackEmpty)
      else
        var parent := st.stack[|st.stack| - 1];
        Ok(ScanState(st.stack[..|st.stack| - 1], parent.AddToken(Create(group.tokens))))
    else
      var c :- st.current.ScanSymbol(ch, index);
      Ok(st.(current := c))
  }

  /** The state after the loop has processed s[k..], right to left. */
  function ScanFrom(s: string, k: nat): Result<ScanState>
    requires k <= |s|
    decreases |s| - k
  {
    if k == |s| then Ok(ScanState([], EmptyContext))
    else
      var st :- ScanFrom(s, k + 1);
      Step(st, s[k], k)
  }

  /** What Tokenize returns: after the loop the last literal is emitted at index -1 and a
      root holding one group is unwrapped. */
  function TokenizeSpec(s: string): Result<seq<Token>> {
    var st :- ScanFrom(s, 0);
    Finish(st)
  }

  /** After the loop: the innermost context's literal is emitted and its root unwrapped. */
  function Finish(st: ScanState): Result<seq<Token>> {
    var c :- st.current.CompleteUnfinishedToken(-1);
    Ok(c.ReduceRoot().tokens)
  }

  lemma {:induction false} ScanFailureIsFinal(s: string, k: nat)
    requires k <= |s| && ScanFrom(s, k).Err?
    ensures TokenizeSpec(s) == Err(ScanFrom(s, k).error)
    decreases k
  {
    if k > 0 {
      FailurePropagates(s, k);
      ScanFailureIsFinal(s, k - 1);
    }
  }

  /** An error in the scan of s[k..] is also the outcome of the scan of s[k - 1..]. */
  lemma FailurePropagates(s: string, k: nat)
    requires 0 < k <= |s| && ScanFrom(s, k).Err?
    ensures ScanFrom(s, k - 1) == ScanFrom(s, k)
  {
  }

  // ---------------------------------------------------------------------------------------
  // The scan itself

  /** Evaluator.ParsingContext. */
  class ParsingContext {
    var tokens: seq<Token>
    var currentToken: string
    var possiblePendingOperator: char

    function Model(): Context
      reads this
    {
      Context(tokens, currentToken, possiblePendingOperator)
    }

    constructor ()
      ensures Model() == EmptyContext
    {
      tokens := [];
      currentToken := [];
      possiblePendingOperator := NoPendingOperator;
    }

    method AppendToPartiallyCompletedToken(value: char)
      modifies this
      ensures Model() == old(Model()).AppendToPartiallyCompletedToken(value)
    {
      currentToken := [value] + currentToken;
    }

    method AddToken(token: Token)
      modifies this
      ensures Model() == old(Model()).AddToken(token)
    {
      var t := token;
      if t.PartialCompletedExpression? && |t.tokens| == 1 {
        t := t.tokens[0];
      }
      tokens := [t] + tokens;
    }

    method ReplaceLastToken(replacement: Token)
      requires tokens != []
      modifies this
      ensures Model() == old(Model()).ReplaceLastToken(replacement)
    {
      tokens := [replacement] + tokens[1..];
    }

    method ReduceRoot()
      modifies this
      ensures Model() == old(Model()).ReduceRoot()
    {
      if |tokens| == 1 {
        var token := tokens[0];
        if token.PartialCompletedExpression? {
          tokens := token.tokens;
        }
      }
    }
  }

  /** True when the imperative step agrees with its specification: on success the context
      holds the specified state, on failure the same error is reported. */
  ghost predicate Agrees(spec: Result<Context>, now: Context, err: Option<Error>) {
    match spec
    case Ok(c) => err == None && now == c
    case Err(e) => err == Some(e)
  }

  method CompleteUnfinishedToken(ctx: ParsingContext, index: int) returns (err: Option<Error>)
    modifies ctx
    ensures Agrees(old(ctx.Model()).CompleteUnfinishedToken(index), ctx.Model(), err)
  {
    if |ctx.currentToken| > 0 {
      var v := CreateValueToken(ctx.currentToken, index);
      if v.Err? {
        return Some(v.error);
      }
      ctx.AddToken(v.value);
    }
    return None;
  }

  method CompleteNumber(ctx: ParsingContext, index: int) returns (err: Option<Error>)
    modifies ctx
    ensures Agrees(old(ctx.Model()).CompleteNumber(index), ctx.Model(), err)
  {
    if |ctx.currentToken| > 0 {
      var v := CreateValueToken(ctx.currentToken, index);
      if v.Err? {
        return Some(v.error);
      }
      ctx.AddToken(v.value);
    }
    ctx.currentToken := [];
    return None;
  }

  method CompleteMinusExpression(ctx: ParsingContext, isOperator: bool, index: int) returns (err: Option<Error>)
    modifies ctx
    ensures Agrees(old(ctx.Model()).CompleteMinusExpression(isOperator, index), ctx.Model(), err)
  {
    if ctx.possiblePendingOperator != '-' {
      return None;
    }
    if isOperator {
      var op := CreateOperatorToken("-", index + 1);
      ctx.AddToken(OpToken(op.value));
      ctx.possiblePendingOperator := NoPendingOperator;
      return None;
    }
    var last := ctx.Model().LastToken();
    if last.Some? && last.value.PartialCompletedExpression? {
      var minusOne := CreateValueToken("-1", index);
      MinusOneIsALiteral(index);
      var times := CreateOperatorToken("*", index);
      ctx.ReplaceLastToken(Create([minusOne.value, OpToken(times.value), last.value]));
    } else {
      ctx.AppendToPartiallyCompletedToken(ctx.possiblePendingOperator);
    }
    ctx.possiblePendingOperator := NoPendingOperator;
    return None;
  }

  method ScanSymbol(ctx: ParsingContext, ch: char, index: int) returns (err: Option<Error>)
    modifies ctx
    ensures Agrees(old(ctx.Model()).ScanSymbol(ch, index), ctx.Model(), err)
  {
    if ch == '-' {
      ctx.possiblePendingOperator := ch;
      return None;
    }
    if IsDigit(ch) || ch == '.' {
      err := CompleteMinusExpression(ctx, true, index);
      if err.None? {
        ctx.AppendToPartiallyCompletedToken(ch);
      }
      return;
    }
    err := CompleteMinusExpression(ctx, false, index);
    if err.Some? {
      return;
    }
    err := CompleteNumber(ctx, index);
    if err.Some? {
      return;
    }
    var op := CreateOperatorToken([ch], index);
    if op.Err? {
      return Some(op.error);
    }
    ctx.AddToken(OpToken(op.value));
  }

  /** The states of the contexts on the stack, bottom first. */
  ghost function Models(stack: seq<ParsingContext>): (r: seq<Context>)
    reads stack
    ensures |r| == |stack|
  {
    if stack == [] then [] else Models(stack[..|stack| - 1]) + [stack[|stack| - 1].Model()]
  }

  /** Each context is owned once: the current context is not on the stack and no context is
      on the stack twice, so updating one leaves the others as they were. */
  ghost predicate Owned(stack: seq<ParsingContext>, current: ParsingContext) {
    && current !in stack
    && forall i, j :: 0 <= i < j < |stack| ==> stack[i] != stack[j]
  }

  /** A ')' (a group starts, reading right to left): the literal is emitted, the context is
      pushed and a fresh one begins. */
  method ScanCloseParen(stack: seq<ParsingContext>, parsingContext: ParsingContext, index: int)
    returns (stack': seq<ParsingContext>, parsingContext': ParsingContext, err: Option<Error>)
    requires Owned(stack, parsingContext)
    modifies parsingContext
    ensures Owned(stack', parsingContext')
    ensures forall i :: 0 <= i < |stack'| ==> stack'[i] in stack || stack'[i] == parsingContext
    ensures parsingContext' == parsingContext || fresh(parsingContext')
    ensures var spec := Step(ScanState(old(Models(stack)), old(parsingContext.Model())), ')', index);
            match spec
            case Ok(st) => err == None && ScanState(Models(stack'), parsingContext'.Model()) == st
            case Err(e) => err == Some(e)
  {
    stack', parsingContext' := stack, parsingContext;
    err := CompleteNumber(parsingContext, index);
    if err.None? {
      assert (stack + [parsingContext])[..|stack|] == stack;
      stack' := stack + [parsingContext];
      parsingContext' := new ParsingContext();
    }
  }

  /** A '(' (the group ends, reading right to left): the literal is emitted, the enclosing
      context is popped and receives the group. Popping an empty stack is an error. */
  method ScanOpenParen(stack: seq<ParsingContext>, parsingContext: ParsingContext, index: int)
    returns (stack': seq<ParsingContext>, parsingContext': ParsingContext, err: Option<Error>)
    requires Owned(stack, parsingContext)
    modifies stack, parsingContext
    ensures Owned(stack', parsingContext')
    ensures forall i :: 0 <= i < |stack'| ==> stack'[i] in stack
    ensures parsingContext' in stack || parsingContext' == parsingContext
    ensures var spec := Step(ScanState(old(Models(stack)), old(parsingContext.Model())), '(', index);
            match spec
            case Ok(st) => err == None && ScanState(Models(stack'), parsingContext'.Model()) == st
            case Err(e) => err == Some(e)
  {
    stack', parsingContext' := stack, parsingContext;
    ghost var models := Models(stack);
    err := CompleteUnfinishedToken(parsingContext, index);
    assert Models(stack) == models;
    if err.None? {
      if |stack| == 0 {
        err := Some(StackEmpty);
      } else {
        var groupContext := parsingContext;
        parsingContext' := stack[|stack| - 1];
        stack' := stack[..|stack| - 1];
        assert models == Models(stack') + [parsingContext'.Model()];
        assert Models(stack') == models[..|stack| - 1] && parsingContext'.Model() == models[|stack| - 1];
        assert parsingContext' !in stack';
        parsingContext'.AddToken(Create(groupContext.tokens));
        assert Models(stack') == models[..|stack| - 1];
      }
    }
  }

  /** One iteration of Tokenize's loop, for the character ch at position index. */
  method ScanCharacter(stack: seq<ParsingContext>, parsingContext: ParsingContext, ch: char, index: int)
    returns (stack': seq<ParsingContext>, parsingContext': ParsingContext, err: Option<Error>)
    requires Owned(stack, parsingContext)
    modifies stack, parsingContext
    ensures Owned(stack', parsingContext')
    ensures forall i :: 0 <= i < |stack'| ==> stack'[i] in stack || stack'[i] == parsingContext
    ensures parsingContext' in stack || parsingContext' == parsingContext || fresh(parsingContext')
    ensures var spec := Step(ScanState(old(Models(stack)), old(parsingContext.Model())), ch, index);
            match spec
            case Ok(st) => err == None && ScanState(Models(stack'), parsingContext'.Model()) == st
            case Err(e) => err == Some(e)
  {
    ghost var before := ScanState(Models(stack), parsingContext.Model());
    ghost var spec := Step(before, ch, index);
    stack', parsingContext', err := stack, parsingContext, None;
    if IsWhiteSpace(ch) {
      // whitespace does not matter
      assert spec == Ok(before);
    } else if ch == ')' {
      stack', parsingContext', err := ScanCloseParen(stack, parsingContext, index);
    } else if ch == '(' {
      stack', parsingContext', err := ScanOpenParen(stack, parsingContext, index);
    } else {
      err := ScanSymbol(parsingContext, ch, index);
      if err.None? {
        assert spec == Ok(ScanState(Models(stack'), parsingContext'.Model()));
      } else {
        assert spec == Err(err.value);
      }
    }
  }

  /** Evaluator.Tokenize. */
  method Tokenize(expression: string) returns (r: Result<seq<Token>>)
    ensures r == TokenizeSpec(expression)
  {
    var stack: seq<ParsingContext> := [];
    var parsingContext := new ParsingContext();
    var index := |expression| - 1;
    while index >= 0
      invariant -1 <= index < |expression|
      invariant fresh(parsingContext)
      invariant forall i :: 0 <= i < |stack| ==> fresh(stack[i])
      invariant Owned(stack, parsingContext)
      invariant ScanFrom(expression, index + 1) == Ok(ScanState(Models(stack), parsingContext.Model()))
      decreases index
    {
      var err;
      stack, parsingContext, err := ScanCharacter(stack, parsingContext, expression[index], index);
      if err.Some? {
        ScanFailureIsFinal(expression, index);
        return Err(err.value);
      }
      index := index - 1;
    }
    assert ScanFrom(expression, 0) == Ok(ScanState(Models(stack), parsingContext.Model()));
    var err := CompleteUnfinishedToken(parsingContext, -1);
    if err.Some? {
      return Err(err.value);
    }
    parsingContext.ReduceRoot();
    return Ok(parsingContext.tokens);
  }
}
