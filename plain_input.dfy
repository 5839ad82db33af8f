/** The whole pipeline on plain input: strings of unsigned whole numbers, whitespace and the
    operators '*', '/' and '+'. The right-to-left scan is shown to produce the tokens a
    left-to-right reading gives (Lex), and the string to evaluate to the value of the sum of
    products it spells. */
module PlainInput {
  import opened Outcomes
  import opened Operators
  import opened Tokens
  import opened Tokenizer
  import opened ScanSteps
  import opened ScanInvariants
  import opened Evaluator
  import opened Precedence

  /** The characters of s that are not whitespace, in order. */
  function NonBlank(s: string): (r: string)
    ensures |r| <= |s|
  {
    if s == [] then [] else (if IsWhiteSpace(s[0]) then [] else [s[0]]) + NonBlank(s[1..])
  }

  /** Only digits and whitespace survive as digits. */
  lemma {:induction false} NonBlankOfDigits(s: string)
    requires forall i :: 0 <= i < |s| ==> IsDigit(s[i]) || IsWhiteSpace(s[i])
    ensures AllDigits(NonBlank(s))
  {
    if s != [] {
      NonBlankOfDigits(s[1..]);
    }
  }

  /** A digit, '.' or blank read with no '-' pending: the buffer gains the character's
      non-blank part at its front. */
  lemma LiteralCharStep(st: ScanState, ch: char, index: int)
    requires IsDigit(ch) || ch == '.' || IsWhiteSpace(ch)
    requires st.current.pendingOperator != '-'
    ensures Step(st, ch, index) == Ok(st.(current := st.current.(currentToken := NonBlank([ch]) + st.current.currentToken)))
  {
    assert [ch][0] == ch && [ch][1..] == [];
    if IsWhiteSpace(ch) {
      assert NonBlank([ch]) == [];
      assert st.(current := st.current.(currentToken := [] + st.current.currentToken)) == st;
      WhiteSpaceIsSkipped(st, ch, index);
    } else {
      assert NonBlank([ch]) == [ch];
      DigitJoinsLiteral(st.current, ch, index);
    }
  }

  /** The literal buffer between two operators holds exactly the non-blank characters read
      since the later operator, in source order: starting from any state with no '-'
      pending, a run of digits, '.' and whitespace is prepended to the buffer with its
      blanks dropped, and nothing else changes. */
  lemma {:induction false} BufferCollectsLiteral(s: string, j: nat, k: nat)
    requires j <= k <= |s| && ScanFrom(s, k).Ok? && ScanFrom(s, k).value.current.pendingOperator != '-'
    requires forall i :: j <= i < k ==> IsDigit(s[i]) || s[i] == '.' || IsWhiteSpace(s[i])
    ensures var st := ScanFrom(s, k).value;
      ScanFrom(s, j) == Ok(st.(current := st.current.(currentToken := NonBlank(s[j..k]) + st.current.currentToken)))
    decreases k - j
  {
    var st := ScanFrom(s, k).value;
    var buffer := st.current.currentToken;
    if j == k {
      assert NonBlank(s[j..k]) + buffer == buffer by {
        assert s[j..k] == [];
      }
    } else {
      BufferCollectsLiteral(s, j + 1, k);
      var mid := st.(current := st.current.(currentToken := NonBlank(s[j + 1..k]) + buffer));
      LiteralCharStep(mid, s[j], j);
      NonBlankPrepend(s, j, k, buffer);
      ScanVia(s, j, mid, st.(current := st.current.(currentToken := NonBlank(s[j..k]) + buffer)));
    }
  }

  /** Dropping blanks distributes over concatenation. */
  lemma {:induction false} NonBlankSplit(a: string, b: string)
    ensures NonBlank(a + b) == NonBlank(a) + NonBlank(b)
  {
    if a != [] {
      assert (a + b)[1..] == a[1..] + b;
      NonBlankSplit(a[1..], b);
    } else {
      assert a + b == b;
    }
  }

  /** One more character in front of a run adds its non-blank part in front of the run's. */
  lemma NonBlankPrepend(s: string, j: nat, k: nat, buffer: string)
    requires j < k <= |s|
    ensures NonBlank([s[j]]) + (NonBlank(s[j + 1..k]) + buffer) == NonBlank(s[j..k]) + buffer
  {
    assert s[j..k] == [s[j]] + s[j + 1..k];
    NonBlankSplit([s[j]], s[j + 1..k]);
  }

  /** A character of plain input. */
  predicate PlainChar(c: char) {
    IsDigit(c) || IsWhiteSpace(c) || c in "*/+"
  }

  /** Input made of unsigned whole numbers, whitespace and the operators '*', '/' and '+'. */
  predicate Plain(s: string) {
    forall i :: 0 <= i < |s| ==> PlainChar(s[i])
  }

  /** The first operator at or after k, or the end of the input. */
  function NextOperator(s: string, k: nat): (j: nat)
    requires k <= |s|
    ensures k <= j <= |s|
    ensures forall i :: k <= i < j ==> s[i] !in "*/+"
    ensures j < |s| ==> s[j] in "*/+"
    decreases |s| - k
  {
    if k == |s| || s[k] in "*/+" then k else NextOperator(s, k + 1)
  }

  /** The table entry a plain operator character stands for. */
  function OperatorOf(c: char): Operator {
    if c == '*' then Times else if c == '/' then Over else Plus
  }

  /** The value token of a run of digits, at position p, or nothing for an empty run. */
  function Literal(ds: string, p: int): seq<Token>
    requires AllDigits(ds)
  {
    if ds == [] then [] else [ValueToken(DigitsValue(ds) as real, p)]
  }

  /** The non-blank characters of s[k..j], where s[k..j] holds no operator, are digits. */
  lemma OperandDigits(s: string, k: nat, j: nat)
    requires Plain(s) && k <= j <= |s|
    requires forall i :: k <= i < j ==> s[i] !in "*/+"
    ensures AllDigits(NonBlank(s[k..j]))
  {
    NonBlankOfDigits(s[k..j]);
  }

  /** The tokens of s[k..] read left to right: the literal up to the next operator,
      positioned at p (the index of the operator before it, or -1 at the start of the
      input), then the rest. */
  function LexFrom(s: string, k: nat, p: int): seq<Token>
    requires Plain(s) && k <= |s|
    decreases |s| - k, 1
  {
    var j := NextOperator(s, k);
    OperandDigits(s, k, j);
    Literal(NonBlank(s[k..j]), p) + LexRest(s, j)
  }

  /** The tokens from the operator at j, if any, on. */
  function LexRest(s: string, j: nat): seq<Token>
    requires Plain(s) && j <= |s|
    decreases |s| - j, 0
  {
    if j == |s| then [] else [OpToken(OperatorToken(OperatorOf(s[j]), j))] + LexFrom(s, j + 1, j)
  }

  /** The tokens of plain input, read left to right. */
  function Lex(s: string): seq<Token>
    requires Plain(s)
  {
    LexFrom(s, 0, -1)
  }

  /** Each operator character of plain input is looked up as its table entry. */
  lemma LookupPlain(c: char)
    requires c in "*/+"
    ensures Lookup([c]) == Some(OperatorOf(c))
  {
    if c == '*' {
      LookupEntry(Times);
    } else if c == '/' {
      LookupEntry(Over);
    } else {
      LookupEntry(Plus);
    }
  }

  /** After reading s[k..] of plain input, the scan holds one context: its tokens are those
      from the next operator on, its buffer the non-blank characters before that operator. */
  lemma {:induction false} ScanPlain(s: string, k: nat)
    requires Plain(s) && k <= |s|
    ensures var j := NextOperator(s, k);
      ScanFrom(s, k) == Ok(ScanState([], Context(LexRest(s, j), NonBlank(s[k..j]), NoPendingOperator)))
    decreases |s| - k, 1
  {
    var j := NextOperator(s, k);
    if j < |s| {
      ScanPlainOperator(s, j);
    }
    BufferCollectsLiteral(s, k, j);
    assert NonBlank(s[k..j]) + [] == NonBlank(s[k..j]);
  }

  /** An operator character with no '-' pending emits the buffered digits, if any, at its
      own index and then adds itself in front of the tokens. */
  lemma OperatorSymbol(tokens: seq<Token>, ds: string, ch: char, index: int)
    requires ch in "*/+" && AllDigits(ds)
    ensures Context(tokens, ds, NoPendingOperator).ScanSymbol(ch, index) ==
      Ok(Context([OpToken(OperatorToken(OperatorOf(ch), index))] + Literal(ds, index) + tokens, [], NoPendingOperator))
  {
    var c := Context(tokens, ds, NoPendingOperator);
    LookupPlain(ch);
    OperatorFlushesLiteral(c, ch, index);
    if ds != [] {
      assert ParseLiteral(ds) == Some(DigitsValue(ds) as real);
    } else {
      assert Literal(ds, index) + tokens == tokens;
    }
  }

  /** The same as one step of the scan. */
  lemma OperatorStep(tokens: seq<Token>, ds: string, ch: char, index: int)
    requires ch in "*/+" && AllDigits(ds)
    ensures Step(ScanState([], Context(tokens, ds, NoPendingOperator)), ch, index) ==
      Ok(ScanState([], Context([OpToken(OperatorToken(OperatorOf(ch), index))] + Literal(ds, index) + tokens, [], NoPendingOperator)))
  {
    OperatorSymbol(tokens, ds, ch, index);
  }

  /** At an operator of plain input the buffered literal is emitted at the operator's index
      and the operator is added in front of it. */
  lemma {:induction false} ScanPlainOperator(s: string, j: nat)
    requires Plain(s) && j < |s| && s[j] in "*/+"
    ensures ScanFrom(s, j) == Ok(ScanState([], Context(LexRest(s, j), [], NoPendingOperator)))
    decreases |s| - j, 0
  {
    ScanPlain(s, j + 1);
    var next := NextOperator(s, j + 1);
    var ds := NonBlank(s[j + 1..next]);
    LexRestParts(s, j);
    OperatorStep(LexRest(s, next), ds, s[j], j);
    ScanVia(s, j, ScanState([], Context(LexRest(s, next), ds, NoPendingOperator)),
            ScanState([], Context(LexRest(s, j), [], NoPendingOperator)));
  }

  /** At the end of plain input the buffered literal is emitted at -1; a list starting with
      an operator or a value is not a group, so the root is left as it is. */
  lemma FinishPlain(tokens: seq<Token>, ds: string)
    requires AllDigits(ds) && (tokens == [] || tokens[0].OpToken?)
    ensures Finish(ScanState([], Context(tokens, ds, NoPendingOperator))) == Ok(Literal(ds, -1) + tokens)
  {
    if ds != [] {
      assert ParseLiteral(ds) == Some(DigitsValue(ds) as real);
    } else {
      assert Literal(ds, -1) + tokens == tokens;
    }
  }

  /** The tokenizer reads plain input as the left-to-right lexer does. */
  lemma TokenizePlain(s: string)
    requires Plain(s)
    ensures TokenizeSpec(s) == Ok(Lex(s))
  {
    ScanPlain(s, 0);
    var j := NextOperator(s, 0);
    var ds := NonBlank(s[0..j]);
    OperandDigits(s, 0, j);
    FinishPlain(LexRest(s, j), ds);
    assert Lex(s) == Literal(ds, -1) + LexRest(s, j);
  }

  /** Every operator of plain input has an operand on each side: no run between two
      operators, or between an operator and either end, is blank. */
  predicate OperandsFrom(s: string, k: nat)
    requires Plain(s) && k <= |s|
    decreases |s| - k
  {
    var j := NextOperator(s, k);
    && NonBlank(s[k..j]) != []
    && (j < |s| ==> OperandsFrom(s, j + 1))
  }

  predicate OperandsPresent(s: string)
    requires Plain(s)
  {
    OperandsFrom(s, 0)
  }

  /** An alternating list, a table operator and another alternating list alternate. */
  lemma {:induction false} AlternatingJoin(a: seq<Token>, o: Token, b: seq<Token>)
    requires Alternating(a) && Alternating(b)
    requires o.OpToken? && o.opToken.operator in {Times, Over, Plus, Minus}
    ensures Alternating(a + ([o] + b))
    decreases |b|
  {
    var ts := a + ([o] + b);
    if |b| == 1 {
      assert ts[..|ts| - 2] == a;
    } else {
      var b' := b[..|b| - 2];
      AlternatingJoin(a, o, b');
      assert ts[..|ts| - 2] == a + ([o] + b');
    }
  }

  /** The tokens of s[k..]: the literal, then the tokens from the next operator on. */
  lemma LexFromSplit(s: string, k: nat, p: int)
    requires Plain(s) && k <= |s|
    ensures var j := NextOperator(s, k);
      && AllDigits(NonBlank(s[k..j]))
      && LexFrom(s, k, p) == Literal(NonBlank(s[k..j]), p) + LexRest(s, j)
  {
    OperandDigits(s, k, NextOperator(s, k));
  }

  /** The tokens from an operator on: the operator, then the tokens after it. */
  lemma LexRestSplit(s: string, j: nat)
    requires Plain(s) && j < |s|
    ensures LexRest(s, j) == [OpToken(OperatorToken(OperatorOf(s[j]), j))] + LexFrom(s, j + 1, j)
  {
  }

  /** The tokens from an operator on: the operator, the literal after it, and the tokens
      from the next operator on. */
  lemma LexRestParts(s: string, j: nat)
    requires Plain(s) && j < |s|
    ensures var next := NextOperator(s, j + 1);
      && AllDigits(NonBlank(s[j + 1..next]))
      && LexRest(s, j) == [OpToken(OperatorToken(OperatorOf(s[j]), j))] + Literal(NonBlank(s[j + 1..next]), j) + LexRest(s, next)
  {
    LexRestSplit(s, j);
    LexFromSplit(s, j + 1, j);
  }

  /** The tokens of plain input with every operand present alternate. */
  lemma {:induction false} LexAlternates(s: string, k: nat, p: int)
    requires Plain(s) && k <= |s| && OperandsFrom(s, k)
    ensures Alternating(LexFrom(s, k, p))
    decreases |s| - k
  {
    var j := NextOperator(s, k);
    LexFromSplit(s, k, p);
    var v := Literal(NonBlank(s[k..j]), p);
    assert Alternating(v);
    if j < |s| {
      var op := OpToken(OperatorToken(OperatorOf(s[j]), j));
      LexRestSplit(s, j);
      LexAlternates(s, j + 1, j);
      AlternatingJoin(v, op, LexFrom(s, j + 1, j));
    } else {
      assert LexFrom(s, k, p) == v + [];
    }
  }

  /** Plain input with every operand present evaluates as a sum of products: '*' and '/'
      before '+', each left to right. A lone number has no operator and fails. */
  lemma EvaluatePlain(s: string)
    requires Plain(s) && OperandsPresent(s)
    ensures Alternating(Lex(s))
    ensures |Lex(s)| == 1 ==> EvaluateString(s) == Err(NoOperator)
    ensures |Lex(s)| > 1 ==> EvaluateString(s) == SumValue(SumOf(Lex(s)))
  {
    LexAlternates(s, 0, -1);
    TokenizePlain(s);
    TokenizedTokensAreSound(s);
    FlatListValue(Lex(s));
  }
}
