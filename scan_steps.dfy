/** What one iteration of the tokenizer loop does, character class by character class, and
    what the end of the scan keeps and drops. */
module ScanSteps {
  import opened Outcomes
  import opened Operators
  import opened Tokens
  import opened Tokenizer

  /** The scan of s[k..] is one step on top of the scan of s[k + 1..]. */
  lemma ScanVia(s: string, k: nat, st: ScanState, st': ScanState)
    requires k < |s| && ScanFrom(s, k + 1) == Ok(st) && Step(st, s[k], k) == Ok(st')
    ensures ScanFrom(s, k) == Ok(st')
  {
  }

  /** Whitespace adds no token, leaves the literal buffer alone and keeps a pending '-'. */
  lemma WhiteSpaceIsSkipped(st: ScanState, ch: char, index: int)
    requires IsWhiteSpace(ch)
    ensures Step(st, ch, index) == Ok(st)
  {
  }

  /** Looking up an entry's own symbol finds that entry: the four symbols are distinct. */
  lemma LookupEntry(op: Operator)
    requires op in AllOperators
    ensures Lookup(op.symbol) == Some(op)
  {
    assert Lookup(op.symbol).value in AllOperators;
  }

  /** A digit or '.' joins the front of the literal buffer. A pending '-' before it (to its
      right in the source) first becomes a binary '-' at index + 1, and the buffer is not
      flushed, so the literals on both sides of that '-' merge. */
  lemma DigitJoinsLiteral(c: Context, ch: char, index: int)
    requires IsDigit(ch) || ch == '.'
    ensures c.pendingOperator == '-' ==>
      c.ScanSymbol(ch, index) ==
      Ok(Context([OpToken(OperatorToken(Minus, index + 1))] + c.tokens, [ch] + c.currentToken, NoPendingOperator))
    ensures c.pendingOperator != '-' ==>
      c.ScanSymbol(ch, index) == Ok(Context(c.tokens, [ch] + c.currentToken, c.pendingOperator))
  {
    LookupEntry(Minus);
  }

  /** A pending '-' met by a character that is neither a digit nor '.': a group at the front
      of the tokens is replaced by the group [-1, *, group]; otherwise the '-' is prepended
      to the literal buffer. Either way the flag is cleared. */
  lemma PendingMinusBeforeOther(c: Context, index: int)
    requires c.pendingOperator == '-'
    ensures c.CompleteMinusExpression(false, index) ==
      Ok(if c.tokens != [] && c.tokens[0].PartialCompletedExpression? then
           Context([PartialCompletedExpression([ValueToken(-1.0, index), OpToken(OperatorToken(Times, index)), c.tokens[0]])] + c.tokens[1..],
                   c.currentToken, NoPendingOperator)
         else Context(c.tokens, "-" + c.currentToken, NoPendingOperator))
  {
    LookupEntry(Times);
    MinusOneIsALiteral(index);
  }

  /** Any other character, once no '-' is pending, flushes the literal buffer into a value
      token and clears it, then is added as an operator token to the left of that value.
      A malformed literal fails first, then a character outside the operator table. */
  lemma OperatorFlushesLiteral(c: Context, ch: char, index: int)
    requires ch != '-' && !IsDigit(ch) && ch != '.'
    requires c.pendingOperator != '-'
    ensures c.currentToken != [] && !IsLiteral(c.currentToken) ==>
      c.ScanSymbol(ch, index) == Err(InvalidNumber(c.currentToken))
    ensures (c.currentToken == [] || IsLiteral(c.currentToken)) && ch !in "*/+" ==>
      c.ScanSymbol(ch, index) == Err(InvalidToken([ch]))
    ensures (c.currentToken == [] || IsLiteral(c.currentToken)) && ch in "*/+" ==> c.ScanSymbol(ch, index).Ok?
    ensures c.ScanSymbol(ch, index).Ok? ==>
      && ch in "*/+"
      && c.ScanSymbol(ch, index).value ==
         Context([OpToken(OperatorToken(Lookup([ch]).value, index))]
                 + (if c.currentToken == [] then [] else [ValueToken(ParseLiteral(c.currentToken).value, index)])
                 + c.tokens,
                 [], c.pendingOperator)
  {
    assert c.CompleteMinusExpression(false, index) == Ok(c);
    LiteralFlushed(c, index);
    SymbolLookedUp(ch, index);
    if c.CompleteNumber(index).Ok? && ch in "*/+" {
      var c2 := c.CompleteNumber(index).value;
      assert c2.AddToken(OpToken(OperatorToken(Lookup([ch]).value, index))).tokens ==
        [OpToken(OperatorToken(Lookup([ch]).value, index))] + c2.tokens;
    }
  }

  /** CompleteNumber: an empty buffer emits nothing, a literal is emitted as a value token at
      the given index, anything else fails; the buffer is cleared. */
  lemma LiteralFlushed(c: Context, index: int)
    ensures c.CompleteNumber(index) ==
      if c.currentToken == [] then Ok(Context(c.tokens, [], c.pendingOperator))
      else if IsLiteral(c.currentToken) then
        Ok(Context([ValueToken(ParseLiteral(c.currentToken).value, index)] + c.tokens, [], c.pendingOperator))
      else Err(InvalidNumber(c.currentToken))
  {
    if c.currentToken != [] && IsLiteral(c.currentToken) {
      var v := ValueToken(ParseLiteral(c.currentToken).value, index);
      assert CreateValueToken(c.currentToken, index) == Ok(v);
    }
  }

  /** A one-character symbol other than '-' is an operator exactly when it is '*', '/' or '+'. */
  lemma SymbolLookedUp(ch: char, index: int)
    requires ch != '-'
    ensures OperatorTokenFrom([ch], index) ==
      if ch in "*/+" then Ok(OperatorToken(Lookup([ch]).value, index)) else Err(InvalidToken([ch]))
  {
    if ch in "*/+" {
      assert [ch] in {"*", "/", "+", "-"};
    } else {
      assert [ch] !in {"*", "/", "+", "-"};
    }
  }

  /** A '-' still pending in a group when its '(' is reached is dropped: the step does not
      read the flag. */
  lemma PendingMinusDroppedAtOpenParen(st: ScanState, index: int, p: char)
    ensures Step(st, '(', index) == Step(st.(current := st.current.(pendingOperator := p)), '(', index)
  {
  }

  /** At the end of the input a pending '-' is dropped, and so is every context still on the
      stack, that is everything to the right of an unmatched ')'. */
  lemma FinishReadsOnlyTheInnermostContext(st: ScanState, p: char)
    ensures Finish(st) == Finish(ScanState([], st.current.(pendingOperator := p)))
  {
  }
}
