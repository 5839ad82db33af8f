/** Invariants of the tokenizer's scan over the whole input: how deep the context stack is,
    which characters a successful scan can have met, and the shape of every token list it
    builds (no sub-trees, no one-token groups, operators in source order). */
module ScanInvariants {
  import opened Outcomes
  import opened Operators
  import opened Tokens
  import opened Tokenizer
  import opened ScanSteps

  // ---------------------------------------------------------------------------------------
  // Parentheses

  /** The number of occurrences of x in s. */
  function Count(s: string, x: char): nat {
    if s == [] then 0 else (if s[0] == x then 1 else 0) + Count(s[1..], x)
  }

  /** After s[k..] has been scanned, one context is on the stack for every ')' in s[k..]
      that no '(' in s[k..] has closed. */
  lemma {:induction false} StackDepth(s: string, k: nat)
    requires k <= |s| && ScanFrom(s, k).Ok?
    ensures |ScanFrom(s, k).value.stack| + Count(s[k..], '(') == Count(s[k..], ')')
    decreases |s| - k
  {
    if k < |s| {
      ScanFromPrevious(s, k);
      ScanFromStep(s, k);
      StackDepth(s, k + 1);
      assert s[k..][1..] == s[k + 1..];
    }
  }

  /** A successful scan of s[k..] extends a successful scan of s[k + 1..]. */
  lemma ScanFromPrevious(s: string, k: nat)
    requires k < |s| && ScanFrom(s, k).Ok?
    ensures ScanFrom(s, k + 1).Ok?
  {
  }

  /** The scan of s[k..] is one step after the scan of s[k + 1..]. */
  lemma ScanFromStep(s: string, k: nat)
    requires k < |s| && ScanFrom(s, k + 1).Ok?
    ensures ScanFrom(s, k) == Step(ScanFrom(s, k + 1).value, s[k], k)
  {
  }

  /** A '(' with no unmatched ')' to its right makes tokenizing fail: it pops an empty stack
      (StackEmpty), unless the literal it ends is malformed or the scan to its right has
      already failed. */
  lemma UnmatchedOpenParenFails(s: string, k: nat)
    requires k < |s| && s[k] == '(' && Count(s[k + 1..], '(') >= Count(s[k + 1..], ')')
    ensures TokenizeSpec(s).Err?
    ensures ScanFrom(s, k + 1).Ok? ==>
      TokenizeSpec(s) == Err(StackEmpty) || TokenizeSpec(s).error.InvalidNumber?
  {
    if ScanFrom(s, k + 1).Ok? {
      StackDepth(s, k + 1);
    }
    ScanFailureIsFinal(s, k);
  }

  /** In a suffix that scans without error, every '(' has a matching ')' to its right. */
  lemma {:induction false} ScannedParenthesesMatch(s: string, k: nat)
    requires k <= |s| && ScanFrom(s, k).Ok?
    ensures forall j :: k <= j <= |s| ==> Count(s[j..], '(') <= Count(s[j..], ')')
    decreases |s| - k
  {
    StackDepth(s, k);
    if k < |s| {
      ScanFromPrevious(s, k);
      ScannedParenthesesMatch(s, k + 1);
    }
  }

  /** Every '(' of an input that tokenizes has a matching ')' to its right. */
  lemma TokenizedParenthesesMatch(s: string)
    requires TokenizeSpec(s).Ok?
    ensures forall k :: 0 <= k <= |s| ==> Count(s[k..], '(') <= Count(s[k..], ')')
  {
    ScannedParenthesesMatch(s, 0);
  }

  // ---------------------------------------------------------------------------------------
  // Errors

  /** The failures the tokenizer can report: a malformed literal, a character outside the
      operator table, and a '(' that finds the stack empty. */
  predicate IsTokenizeError(e: Error) {
    e.InvalidNumber? || e.InvalidToken? || e == StackEmpty
  }

  lemma StepErrors(st: ScanState, ch: char, index: int)
    ensures Step(st, ch, index).Err? ==> IsTokenizeError(Step(st, ch, index).error)
  {
  }

  /** Every failure of the scan is one of the tokenizer's own. */
  lemma {:induction false} ScanErrors(s: string, k: nat)
    requires k <= |s|
    ensures ScanFrom(s, k).Err? ==> IsTokenizeError(ScanFrom(s, k).error)
    decreases |s| - k
  {
    if k < |s| {
      ScanErrors(s, k + 1);
      if ScanFrom(s, k + 1).Ok? {
        ScanFromStep(s, k);
        StepErrors(ScanFrom(s, k + 1).value, s[k], k);
      }
    }
  }

  lemma TokenizeErrors(s: string)
    ensures TokenizeSpec(s).Err? ==> IsTokenizeError(TokenizeSpec(s).error)
  {
    ScanErrors(s, 0);
  }

  // ---------------------------------------------------------------------------------------
  // Alphabet

  /** The characters the tokenizer accepts. */
  predicate InAlphabet(c: char) {
    IsWhiteSpace(c) || IsDigit(c) || c in "().+-*/"
  }

  /** A step succeeds only on a character of the alphabet; any other character reaches the
      operator lookup and fails there. */
  lemma StepNeedsAlphabet(st: ScanState, ch: char, index: int)
    requires Step(st, ch, index).Ok?
    ensures InAlphabet(ch)
  {
  }

  /** Every character of a suffix that scans without error is in the alphabet. */
  lemma {:induction false} ScannedCharactersAreInAlphabet(s: string, k: nat)
    requires k <= |s| && ScanFrom(s, k).Ok?
    ensures forall j :: k <= j < |s| ==> InAlphabet(s[j])
    decreases |s| - k
  {
    if k < |s| {
      ScannedCharacter(s, k);
      ScannedCharactersAreInAlphabet(s, k + 1);
    }
  }

  lemma ScannedCharacter(s: string, k: nat)
    requires k < |s| && ScanFrom(s, k).Ok?
    ensures ScanFrom(s, k + 1).Ok? && InAlphabet(s[k])
  {
    ScanFromPrevious(s, k);
    ScanFromStep(s, k);
    StepNeedsAlphabet(ScanFrom(s, k + 1).value, s[k], k);
  }

  /** An input that tokenizes consists of whitespace, digits, '.', parentheses and the four
      operator symbols only. */
  lemma TokenizedInputIsInAlphabet(s: string)
    requires TokenizeSpec(s).Ok?
    ensures forall j :: 0 <= j < |s| ==> InAlphabet(s[j])
  {
    ScannedCharactersAreInAlphabet(s, 0);
  }

  // ---------------------------------------------------------------------------------------
  // Shape of the token lists

  /** The positions of the operator tokens of ts, left to right. */
  function OpPositions(ts: seq<Token>): seq<int> {
    if ts == [] then []
    else (if ts[0].OpToken? then [ts[0].opToken.position] else []) + OpPositions(ts[1..])
  }

  predicate Increasing(xs: seq<int>) {
    forall i, j :: 0 <= i < j < |xs| ==> xs[i] < xs[j]
  }

  predicate AllAbove(xs: seq<int>, p: int) {
    forall x :: x in xs ==> x > p
  }

  predicate AllBelow(xs: seq<int>, ys: seq<int>) {
    forall x, y :: x in xs && y in ys ==> x < y
  }

  /** A token as the tokenizer builds it: no sub-tree, no one-token group, and in every group
      the operator tokens stand in the order of their source positions. */
  predicate Sound(t: Token) {
    match t
    case PartialCompletedExpression(ts) =>
      |ts| != 1 && Increasing(OpPositions(ts)) && forall i :: 0 <= i < |ts| ==> Sound(ts[i])
    case ExpressionToken(_) => false
    case _ => true
  }

  predicate SoundList(ts: seq<Token>) {
    (forall i :: 0 <= i < |ts| ==> Sound(ts[i])) && Increasing(OpPositions(ts))
  }

  /** A sound token is well grouped and holds no sub-tree. */
  lemma {:induction false} SoundIsWellGrouped(t: Token)
    requires Sound(t)
    ensures WellGrouped(t) && WithoutSubtrees(t)
  {
    if t.PartialCompletedExpression? {
      forall i | 0 <= i < |t.tokens|
        ensures WellGrouped(t.tokens[i]) && WithoutSubtrees(t.tokens[i])
      {
        SoundIsWellGrouped(t.tokens[i]);
      }
    }
  }

  lemma IncreasingCons(p: int, xs: seq<int>)
    requires Increasing(xs) && AllAbove(xs, p)
    ensures Increasing([p] + xs)
  {
    forall i, j | 0 <= i < j < |[p] + xs|
      ensures ([p] + xs)[i] < ([p] + xs)[j]
    {
      assert ([p] + xs)[j] == xs[j - 1];
      if i > 0 {
        assert ([p] + xs)[i] == xs[i - 1];
      } else {
        assert xs[j - 1] in xs;
      }
    }
  }

  /** Prepending one token to a sound list: the new token must be sound and, if it is an
      operator, stand left of every operator already there. */
  lemma SoundPrepend(t: Token, ts: seq<Token>)
    requires Sound(t) && SoundList(ts)
    requires t.OpToken? ==> AllAbove(OpPositions(ts), t.opToken.position)
    ensures SoundList([t] + ts)
    ensures OpPositions([t] + ts) == (if t.OpToken? then [t.opToken.position] else []) + OpPositions(ts)
  {
    assert ([t] + ts)[1..] == ts;
    if t.OpToken? {
      IncreasingCons(t.opToken.position, OpPositions(ts));
    }
    forall i | 0 <= i < |[t] + ts|
      ensures Sound(([t] + ts)[i])
    {
      if i > 0 {
        assert ([t] + ts)[i] == ts[i - 1];
      }
    }
  }

  /** The group Create builds from a sound list is sound, and its only possible operator
      position is one the list already has. */
  lemma CreateIsSound(ts: seq<Token>)
    requires SoundList(ts)
    ensures Sound(Create(ts))
    ensures Create(ts).OpToken? ==> Create(ts).opToken.position in OpPositions(ts)
  {
    if |ts| == 1 {
      assert Create(ts) == ts[0];
    }
  }

  /** The tokens of a context are sound and its operators in source order. */
  predicate ContextSound(c: Context) {
    SoundList(c.tokens)
  }

  /** What holds after the scan has processed s[k..]: every context is sound; no operator of
      a context lies left of position k (none left of k + 1 on the stack, or while a '-' is
      pending); and the operators of a deeper context all lie left of those of any
      shallower one. */
  predicate ScanInvariant(st: ScanState, k: int) {
    && (forall i :: 0 <= i < |st.stack| ==> ContextSound(st.stack[i]) && AllAbove(OpPositions(st.stack[i].tokens), k))
    && ContextSound(st.current)
    && AllAbove(OpPositions(st.current.tokens), k - 1)
    && (st.current.pendingOperator == '-' ==> AllAbove(OpPositions(st.current.tokens), k))
    && (forall i, j :: 0 <= i < j < |st.stack| ==>
          AllBelow(OpPositions(st.stack[j].tokens), OpPositions(st.stack[i].tokens)))
    && (forall i :: 0 <= i < |st.stack| ==>
          AllBelow(OpPositions(st.current.tokens), OpPositions(st.stack[i].tokens)))
  }

  /** Emitting the literal adds a value token and no operator. */
  lemma CompleteUnfinishedTokenKeeps(c: Context, index: int)
    requires ContextSound(c) && c.CompleteUnfinishedToken(index).Ok?
    ensures ContextSound(c.CompleteUnfinishedToken(index).value)
    ensures OpPositions(c.CompleteUnfinishedToken(index).value.tokens) == OpPositions(c.tokens)
  {
    if |c.currentToken| > 0 {
      SoundPrepend(CreateValueToken(c.currentToken, index).value, c.tokens);
    }
  }

  lemma CompleteNumberKeeps(c: Context, index: int)
    requires ContextSound(c) && c.CompleteNumber(index).Ok?
    ensures ContextSound(c.CompleteNumber(index).value)
    ensures OpPositions(c.CompleteNumber(index).value.tokens) == OpPositions(c.tokens)
  {
    if |c.currentToken| > 0 {
      SoundPrepend(CreateValueToken(c.currentToken, index).value, c.tokens);
    }
  }

  /** The tail of a sound list is sound. */
  lemma SoundTail(ts: seq<Token>)
    requires SoundList(ts) && ts != [] && !ts[0].OpToken?
    ensures SoundList(ts[1..]) && OpPositions(ts[1..]) == OpPositions(ts)
  {
    assert OpPositions(ts) == [] + OpPositions(ts[1..]);
    assert [] + OpPositions(ts[1..]) == OpPositions(ts[1..]);
    forall i | 0 <= i < |ts[1..]|
      ensures Sound(ts[1..][i])
    {
      assert ts[1..][i] == ts[i + 1];
    }
  }

  /** The group [-1, *, g] that negates g is sound when g is, and adds no operator at the
      level of the context it replaces g in. */
  lemma NegatedGroupKeeps(c: Context, index: int)
    requires ContextSound(c) && c.tokens != [] && c.tokens[0].PartialCompletedExpression?
    ensures var r := c.ReplaceLastToken(Create([ValueToken(-1.0, index), OpToken(OperatorToken(Times, index)), c.tokens[0]]));
      ContextSound(r) && OpPositions(r.tokens) == OpPositions(c.tokens)
  {
    var g := c.tokens[0];
    var times := OperatorToken(Times, index);
    var triple := [ValueToken(-1.0, index), OpToken(times), g];
    assert OpPositions([g]) == [] by {
      assert [g][1..] == [];
    }
    assert OpPositions([OpToken(times), g]) == [index] by {
      assert [OpToken(times), g][1..] == [g];
    }
    assert OpPositions(triple) == [index] by {
      assert triple[1..] == [OpToken(times), g];
    }
    assert Sound(Create(triple));
    SoundTail(c.tokens);
    SoundPrepend(Create(triple), c.tokens[1..]);
  }

  /** Resolving a pending '-' at position index: before a digit the new operator sits at
      index + 1; otherwise no operator is added at this level. */
  lemma CompleteMinusExpressionKeeps(c: Context, isOperator: bool, index: int)
    requires ContextSound(c) && c.CompleteMinusExpression(isOperator, index).Ok?
    requires AllAbove(OpPositions(c.tokens), index)
    requires c.pendingOperator == '-' ==> AllAbove(OpPositions(c.tokens), index + 1)
    ensures var r := c.CompleteMinusExpression(isOperator, index).value;
      && ContextSound(r)
      && AllAbove(OpPositions(r.tokens), index)
      && (forall x :: x in OpPositions(r.tokens) ==> x in OpPositions(c.tokens) || x == index + 1)
      && (r.pendingOperator == '-' ==> r == c)
  {
    if c.pendingOperator == '-' {
      if isOperator {
        var op := OperatorTokenFrom("-", index + 1).value;
        SoundPrepend(OpToken(op), c.tokens);
      } else if c.LastToken().Some? && c.LastToken().value.PartialCompletedExpression? {
        LookupEntry(Times);
        MinusOneIsALiteral(index);
        NegatedGroupKeeps(c, index);
      }
    }
  }

  /** An operator character at position index: the pending '-' is resolved, the literal
      flushed and the operator put in front, left of every operator already there. */
  lemma OperatorSymbolKeeps(c: Context, ch: char, index: int)
    requires ContextSound(c) && ch != '-' && !IsDigit(ch) && ch != '.' && c.ScanSymbol(ch, index).Ok?
    requires AllAbove(OpPositions(c.tokens), index)
    requires c.pendingOperator == '-' ==> AllAbove(OpPositions(c.tokens), index + 1)
    ensures var r := c.ScanSymbol(ch, index).value;
      && ContextSound(r)
      && AllAbove(OpPositions(r.tokens), index - 1)
      && r.pendingOperator != '-'
      && (forall x :: x in OpPositions(r.tokens) ==> x in OpPositions(c.tokens) || x <= index + 1)
  {
    CompleteMinusExpressionKeeps(c, false, index);
    var c1 := c.CompleteMinusExpression(false, index).value;
    CompleteNumberKeeps(c1, index);
    var c2 := c1.CompleteNumber(index).value;
    var op := OperatorTokenFrom([ch], index).value;
    SoundPrepend(OpToken(op), c2.tokens);
  }

  /** One step inside the current context (any character but whitespace and parentheses). */
  lemma ScanSymbolKeeps(c: Context, ch: char, index: int)
    requires ContextSound(c) && c.ScanSymbol(ch, index).Ok?
    requires AllAbove(OpPositions(c.tokens), index)
    requires c.pendingOperator == '-' ==> AllAbove(OpPositions(c.tokens), index + 1)
    ensures var r := c.ScanSymbol(ch, index).value;
      && ContextSound(r)
      && AllAbove(OpPositions(r.tokens), index - 1)
      && (r.pendingOperator == '-' ==> AllAbove(OpPositions(r.tokens), index))
      && (forall x :: x in OpPositions(r.tokens) ==> x in OpPositions(c.tokens) || x <= index + 1)
  {
    if ch == '-' {
    } else if IsDigit(ch) || ch == '.' {
      CompleteMinusExpressionKeeps(c, true, index);
    } else {
      OperatorSymbolKeeps(c, ch, index);
    }
  }

  /** A character other than whitespace and parentheses, at position k. */
  lemma SymbolStepKeeps(st: ScanState, ch: char, k: int)
    requires ScanInvariant(st, k + 1) && !IsWhiteSpace(ch) && ch != ')' && ch != '('
    requires Step(st, ch, k).Ok?
    ensures ScanInvariant(Step(st, ch, k).value, k)
  {
    ScanSymbolKeeps(st.current, ch, k);
    var r := st.current.ScanSymbol(ch, k).value;
    assert Step(st, ch, k).value == st.(current := r);
    forall i | 0 <= i < |st.stack|
      ensures AllBelow(OpPositions(r.tokens), OpPositions(st.stack[i].tokens))
    {
      assert AllBelow(OpPositions(st.current.tokens), OpPositions(st.stack[i].tokens));
      assert AllAbove(OpPositions(st.stack[i].tokens), k + 1);
    }
  }

  /** A ')' at position k: the current context, its literal emitted, is pushed. */
  lemma CloseParenKeeps(st: ScanState, k: int)
    requires ScanInvariant(st, k + 1) && Step(st, ')', k).Ok?
    ensures ScanInvariant(Step(st, ')', k).value, k)
  {
    CompleteNumberKeeps(st.current, k);
    var c := st.current.CompleteNumber(k).value;
    var stack := st.stack + [c];
    assert Step(st, ')', k).value == ScanState(stack, EmptyContext);
    assert forall i :: 0 <= i < |st.stack| ==> stack[i] == st.stack[i];
    assert stack[|st.stack|] == c;
  }

  /** Closing a group: its tokens, as one token, go in front of the parent's tokens. */
  lemma AddGroupKeeps(parent: Context, group: Context)
    requires ContextSound(parent) && ContextSound(group)
    requires AllBelow(OpPositions(group.tokens), OpPositions(parent.tokens))
    ensures var r := parent.AddToken(Create(group.tokens));
      && ContextSound(r)
      && (forall x :: x in OpPositions(r.tokens) ==> x in OpPositions(parent.tokens) || x in OpPositions(group.tokens))
  {
    var t := Create(group.tokens);
    CreateIsSound(group.tokens);
    assert parent.AddToken(t).tokens == [t] + parent.tokens;
    SoundPrepend(t, parent.tokens);
  }

  /** A '(' at position k: the current context, its literal emitted, becomes one token of
      the context popped from the stack. */
  lemma OpenParenKeeps(st: ScanState, k: int)
    requires ScanInvariant(st, k + 1) && Step(st, '(', k).Ok?
    ensures ScanInvariant(Step(st, '(', k).value, k)
  {
    CompleteUnfinishedTokenKeeps(st.current, k);
    var group := st.current.CompleteUnfinishedToken(k).value;
    var n := |st.stack| - 1;
    var parent := st.stack[n];
    assert AllBelow(OpPositions(st.current.tokens), OpPositions(parent.tokens));
    AddGroupKeeps(parent, group);
    var r := parent.AddToken(Create(group.tokens));
    assert Step(st, '(', k).value == ScanState(st.stack[..n], r);
    forall i | 0 <= i < n
      ensures AllBelow(OpPositions(r.tokens), OpPositions(st.stack[i].tokens))
    {
      assert AllBelow(OpPositions(parent.tokens), OpPositions(st.stack[i].tokens));
      assert AllBelow(OpPositions(st.current.tokens), OpPositions(st.stack[i].tokens));
    }
  }

  lemma StepKeeps(st: ScanState, ch: char, k: int)
    requires ScanInvariant(st, k + 1) && Step(st, ch, k).Ok?
    ensures ScanInvariant(Step(st, ch, k).value, k)
  {
    if IsWhiteSpace(ch) {
    } else if ch == ')' {
      CloseParenKeeps(st, k);
    } else if ch == '(' {
      OpenParenKeeps(st, k);
    } else {
      SymbolStepKeeps(st, ch, k);
    }
  }

  /** The invariant holds after every prefix of the right-to-left scan. */
  lemma {:induction false} ScanKeepsInvariant(s: string, k: nat)
    requires k <= |s| && ScanFrom(s, k).Ok?
    ensures ScanInvariant(ScanFrom(s, k).value, k)
    decreases |s| - k
  {
    if k < |s| {
      ScanFromPrevious(s, k);
      ScanKeepsInvariant(s, k + 1);
      var prev := ScanFrom(s, k + 1).value;
      ScanFromStep(s, k);
      StepKeeps(prev, s[k], k);
      assert ScanFrom(s, k).value == Step(prev, s[k], k).value;
    }
  }

  /** What Tokenize returns: sound tokens, hence no sub-tree and no one-token group at any
      depth, operators of every list in source order, and never a single group. */
  lemma TokenizedTokensAreSound(s: string)
    requires TokenizeSpec(s).Ok?
    ensures SoundList(TokenizeSpec(s).value)
    ensures forall i :: 0 <= i < |TokenizeSpec(s).value| ==>
      WellGrouped(TokenizeSpec(s).value[i]) && WithoutSubtrees(TokenizeSpec(s).value[i])
    ensures !(|TokenizeSpec(s).value| == 1 && TokenizeSpec(s).value[0].PartialCompletedExpression?)
  {
    ScanKeepsInvariant(s, 0);
    var st := ScanFrom(s, 0).value;
    CompleteUnfinishedTokenKeeps(st.current, -1);
    var ts := TokenizeSpec(s).value;
    forall i | 0 <= i < |ts|
      ensures WellGrouped(ts[i]) && WithoutSubtrees(ts[i])
    {
      SoundIsWellGrouped(ts[i]);
    }
  }
}
