/** What the split rule amounts to on a flat token list shaped as a sum of products whose
    operators stand in increasing position order, as in every list the tokenizer returns:
    '*' and '/' bind tighter than '+' and '-', and operators of equal priority group to the
    left. The reference values below are computed from that grammar alone. */
module Precedence {
  import opened Outcomes
  import opened Operators
  import opened Tokens
  import opened Expressions
  import opened Evaluator
  import opened ScanInvariants

  /** One "* operand" or "/ operand" of a product: the operator's position, then the
      operand's value and position. */
  datatype Factor = Factor(multiply: bool, at: int, operand: real, operandAt: int)

  /** first * / ... : a value and its position, followed by factors. */
  datatype Term = Term(first: real, firstAt: int, factors: seq<Factor>)

  /** One "+ term" or "- term" of a sum, with the operator's position. */
  datatype Addend = Addend(add: bool, at: int, term: Term)

  /** first + - ... : a term followed by addends. */
  datatype Sum = Sum(first: Term, addends: seq<Addend>)

  /** The product's value: the factors applied from the left with the table's '*' and '/'. */
  function TermValue(t: Term): Result<real>
    decreases |t.factors|
  {
    if t.factors == [] then Ok(t.first)
    else
      var n := |t.factors| - 1;
      var left :- TermValue(Term(t.first, t.firstAt, t.factors[..n]));
      var f := t.factors[n];
      Execute(if f.multiply then Times else Over, left, f.operand)
  }

  /** The sum's value: the terms' values combined from the left with the table's '+' and
      '-'. */
  function SumValue(s: Sum): Result<real>
    decreases |s.addends|
  {
    if s.addends == [] then TermValue(s.first)
    else
      var n := |s.addends| - 1;
      var left :- SumValue(Sum(s.first, s.addends[..n]));
      var a := s.addends[n];
      var right :- TermValue(a.term);
      Execute(if a.add then Plus else Minus, left, right)
  }

  /** The two tokens a factor stands for. */
  function FactorTokens(f: Factor): seq<Token> {
    [OpToken(OperatorToken(if f.multiply then Times else Over, f.at)), ValueToken(f.operand, f.operandAt)]
  }

  /** The tokens of a product. */
  function RenderTerm(t: Term): (ts: seq<Token>)
    ensures |ts| == 2 * |t.factors| + 1
    decreases |t.factors|
  {
    if t.factors == [] then [ValueToken(t.first, t.firstAt)]
    else
      var n := |t.factors| - 1;
      RenderTerm(Term(t.first, t.firstAt, t.factors[..n])) + FactorTokens(t.factors[n])
  }

  /** The tokens of a sum. */
  function RenderSum(s: Sum): (ts: seq<Token>)
    ensures |ts| >= 1
    ensures |ts| == 1 <==> s.addends == [] && s.first.factors == []
    decreases |s.addends|
  {
    if s.addends == [] then RenderTerm(s.first)
    else
      var n := |s.addends| - 1;
      var a := s.addends[n];
      RenderSum(Sum(s.first, s.addends[..n])) + [OpToken(OperatorToken(if a.add then Plus else Minus, a.at))] + RenderTerm(a.term)
  }

  /** Every operator token of ts comes from ops. */
  predicate OpsIn(ts: seq<Token>, ops: set<Operator>) {
    forall j :: 0 <= j < |ts| && ts[j].OpToken? ==> ts[j].opToken.operator in ops
  }

  /** The operator tokens of ts stand in increasing position order. */
  predicate Ordered(ts: seq<Token>) {
    forall i, j :: 0 <= i < j < |ts| && ts[i].OpToken? && ts[j].OpToken? ==>
      ts[i].opToken.position < ts[j].opToken.position
  }

  /** An operator token's position is among the list's operator positions. */
  lemma {:induction false} PositionListed(ts: seq<Token>, j: nat)
    requires j < |ts| && ts[j].OpToken?
    ensures ts[j].opToken.position in OpPositions(ts)
    decreases j
  {
    if j > 0 {
      PositionListed(ts[1..], j - 1);
      assert ts[1..][j - 1] == ts[j];
    }
  }

  /** Increasing operator positions, as the tokenizer's invariant states them, order the
      operator tokens pairwise. */
  lemma {:induction false} OrderedFromIncreasing(ts: seq<Token>)
    requires Increasing(OpPositions(ts))
    ensures Ordered(ts)
    decreases |ts|
  {
    if ts != [] {
      var head: seq<int> := if ts[0].OpToken? then [ts[0].opToken.position] else [];
      var tail := OpPositions(ts[1..]);
      assert OpPositions(ts) == head + tail;
      forall i, j | 0 <= i < j < |tail|
        ensures tail[i] < tail[j]
      {
        assert (head + tail)[|head| + i] == tail[i] && (head + tail)[|head| + j] == tail[j];
      }
      OrderedFromIncreasing(ts[1..]);
      forall i, j | 0 <= i < j < |ts| && ts[i].OpToken? && ts[j].OpToken?
        ensures ts[i].opToken.position < ts[j].opToken.position
      {
        assert ts[j] == ts[1..][j - 1];
        if i > 0 {
          assert ts[i] == ts[1..][i - 1];
        } else {
          PositionListed(ts[1..], j - 1);
          var m :| 0 <= m < |tail| && tail[m] == ts[j].opToken.position;
          assert (head + tail)[0] == ts[0].opToken.position;
          assert (head + tail)[1 + m] == tail[m];
        }
      }
    }
  }

  /** The parts of an ordered list are ordered. */
  lemma OrderedParts(a: seq<Token>, b: seq<Token>)
    requires Ordered(a + b)
    ensures Ordered(a) && Ordered(b)
  {
    forall i, j | 0 <= i < j < |a| && a[i].OpToken? && a[j].OpToken?
      ensures a[i].opToken.position < a[j].opToken.position
    {
      assert (a + b)[i] == a[i] && (a + b)[j] == a[j];
    }
    forall i, j | 0 <= i < j < |b| && b[i].OpToken? && b[j].OpToken?
      ensures b[i].opToken.position < b[j].opToken.position
    {
      assert (a + b)[|a| + i] == b[i] && (a + b)[|a| + j] == b[j];
    }
  }

  /** The operators of a rendered product are '*' and '/'. */
  lemma {:induction false} TermOps(t: Term)
    ensures OpsIn(RenderTerm(t), {Times, Over})
    decreases |t.factors|
  {
    if t.factors != [] {
      var n := |t.factors| - 1;
      var pre := RenderTerm(Term(t.first, t.firstAt, t.factors[..n]));
      TermOps(Term(t.first, t.firstAt, t.factors[..n]));
      var ts := RenderTerm(t);
      forall j | 0 <= j < |ts| && ts[j].OpToken?
        ensures ts[j].opToken.operator in {Times, Over}
      {
        if j < |pre| {
          assert ts[j] == pre[j];
        }
      }
    }
  }

  /** The operators of a rendered sum are entries of the table. */
  lemma {:induction false} SumOps(s: Sum)
    ensures OpsIn(RenderSum(s), {Times, Over, Plus, Minus})
    decreases |s.addends|
  {
    if s.addends == [] {
      TermOps(s.first);
    } else {
      var n := |s.addends| - 1;
      var pre := RenderSum(Sum(s.first, s.addends[..n]));
      var post := RenderTerm(s.addends[n].term);
      SumOps(Sum(s.first, s.addends[..n]));
      TermOps(s.addends[n].term);
      var ts := RenderSum(s);
      forall j | 0 <= j < |ts| && ts[j].OpToken?
        ensures ts[j].opToken.operator in {Times, Over, Plus, Minus}
      {
        if j < |pre| {
          assert ts[j] == pre[j];
        } else if j > |pre| {
          assert ts[j] == post[j - |pre| - 1];
        }
      }
    }
  }

  /** Splitting pre + [op] + post where op is the primary operator. */
  lemma SplitAt(pre: seq<Token>, op: OperatorToken, post: seq<Token>)
    requires IsPrimary(pre + [OpToken(op)] + post, |pre|)
    ensures Split(pre + [OpToken(op)] + post) == Ok(Partial(pre, op, post))
  {
    var ts := pre + [OpToken(op)] + post;
    assert ts[|pre|].OpToken?;
    var i := PrimaryOperatorIndex(ts).value;
    PrimaryIsUnique(ts, i, |pre|);
    assert ts[..|pre|] == pre;
    assert ts[|pre| + 1..] == post;
  }

  /** The last '*' or '/' of a product is its primary operator: every operator to its left
      has the same priority and a smaller position. */
  lemma LastFactorIsPrimary(pre: seq<Token>, op: OperatorToken, post: seq<Token>)
    requires Ordered(pre + [OpToken(op)] + post)
    requires OpsIn(pre, {Times, Over}) && op.operator in {Times, Over}
    requires forall j :: 0 <= j < |post| ==> !post[j].OpToken?
    ensures IsPrimary(pre + [OpToken(op)] + post, |pre|)
  {
    var ts := pre + [OpToken(op)] + post;
    assert ts[|pre|] == OpToken(op);
    forall j | 0 <= j < |ts| && ts[j].OpToken? && j != |pre|
      ensures CompareTokens(ts[j].opToken, op) < 0
    {
      if j < |pre| {
        assert ts[j] == pre[j];
      }
    }
  }

  /** The last '+' or '-' of a sum is its primary operator: every operator to its left has
      no higher priority and a smaller position, every one to its right a lower priority. */
  lemma LastAddendIsPrimary(pre: seq<Token>, op: OperatorToken, post: seq<Token>)
    requires Ordered(pre + [OpToken(op)] + post)
    requires OpsIn(pre, {Times, Over, Plus, Minus}) && op.operator in {Plus, Minus}
    requires OpsIn(post, {Times, Over})
    ensures IsPrimary(pre + [OpToken(op)] + post, |pre|)
  {
    var ts := pre + [OpToken(op)] + post;
    assert ts[|pre|] == OpToken(op);
    forall j | 0 <= j < |ts| && ts[j].OpToken? && j != |pre|
      ensures CompareTokens(ts[j].opToken, op) < 0
    {
      if j < |pre| {
        assert ts[j] == pre[j];
      } else {
        assert ts[j] == post[j - |pre| - 1];
      }
    }
  }

  /** A list split at its primary operator, left side non-empty, reduces to the tree of the
      two reduced sides. */
  lemma ReduceAtPrimary(pre: seq<Token>, op: OperatorToken, post: seq<Token>)
    requires pre != [] && IsPrimary(pre + [OpToken(op)] + post, |pre|)
    requires ReduceOperand(Create(pre)).Ok? && ReduceOperand(Create(post)).Ok?
    ensures ReduceOperand(Create(pre + [OpToken(op)] + post)) ==
      Ok(ExpressionToken(Expression(ReduceOperand(Create(pre)).value, op, ReduceOperand(Create(post)).value)))
  {
    var ts := pre + [OpToken(op)] + post;
    var left, right := ReduceOperand(Create(pre)).value, ReduceOperand(Create(post)).value;
    assert Create(ts) == PartialCompletedExpression(ts);
    SplitAt(pre, op, post);
    assert Reduce(Partial(pre, op, post)) == Ok(Expression(left, op, right));
    assert ReduceGroup(ts) == Ok(ExpressionToken(Expression(left, op, right)));
  }

  /** ... and its value is the node's operator applied to the two sides' values. */
  lemma EvaluateAtPrimary(pre: seq<Token>, op: OperatorToken, post: seq<Token>)
    requires pre != [] && IsPrimary(pre + [OpToken(op)] + post, |pre|)
    requires ReduceOperand(Create(pre)).Ok? && ReduceOperand(Create(post)).Ok?
    ensures ReduceOperand(Create(pre + [OpToken(op)] + post)).Ok?
    ensures EvaluateCore(ReduceOperand(Create(pre + [OpToken(op)] + post)).value) ==
      (var a :- EvaluateCore(ReduceOperand(Create(pre)).value);
       var b :- EvaluateCore(ReduceOperand(Create(post)).value);
       Execute(op.operator, a, b))
  {
    ReduceAtPrimary(pre, op, post);
  }

  /** A product's tokens in position order, as an operand, reduce to a tree whose value is
      the product's. */
  lemma {:induction false} TermReduces(t: Term)
    requires Ordered(RenderTerm(t))
    ensures ReduceOperand(Create(RenderTerm(t))).Ok?
    ensures EvaluateCore(ReduceOperand(Create(RenderTerm(t))).value) == TermValue(t)
    decreases |t.factors|
  {
    if t.factors == [] {
      assert RenderTerm(t) == [ValueToken(t.first, t.firstAt)];
      assert Create([ValueToken(t.first, t.firstAt)]) == ValueToken(t.first, t.firstAt);
    } else {
      var n := |t.factors| - 1;
      var prefix := Term(t.first, t.firstAt, t.factors[..n]);
      var pre := RenderTerm(prefix);
      var f := t.factors[n];
      var op := OperatorToken(if f.multiply then Times else Over, f.at);
      var post := [ValueToken(f.operand, f.operandAt)];
      assert RenderTerm(t) == pre + [OpToken(op)] + post;
      OrderedParts(pre + [OpToken(op)], post);
      OrderedParts(pre, [OpToken(op)]);
      TermReduces(prefix);
      assert Create(post) == post[0];
      TermOps(prefix);
      LastFactorIsPrimary(pre, op, post);
      EvaluateAtPrimary(pre, op, post);
    }
  }

  /** Appending "+ product" or "- product" to a sum's tokens combines the two values. */
  lemma AddendStep(ts: seq<Token>, pre: seq<Token>, op: OperatorToken, post: seq<Token>,
                   left: Result<real>, right: Result<real>)
    requires ts == pre + [OpToken(op)] + post && pre != [] && Ordered(ts)
    requires OpsIn(pre, {Times, Over, Plus, Minus}) && op.operator in {Plus, Minus}
    requires OpsIn(post, {Times, Over})
    requires ReduceOperand(Create(pre)).Ok? && EvaluateCore(ReduceOperand(Create(pre)).value) == left
    requires ReduceOperand(Create(post)).Ok? && EvaluateCore(ReduceOperand(Create(post)).value) == right
    ensures ReduceOperand(Create(ts)).Ok?
    ensures EvaluateCore(ReduceOperand(Create(ts)).value) ==
      (var a :- left; var b :- right; Execute(op.operator, a, b))
  {
    LastAddendIsPrimary(pre, op, post);
    EvaluateAtPrimary(pre, op, post);
  }

  /** A sum's tokens in position order, as an operand, reduce to a tree whose value is the
      sum's. */
  lemma {:induction false} SumReduces(s: Sum)
    requires Ordered(RenderSum(s))
    ensures ReduceOperand(Create(RenderSum(s))).Ok?
    ensures EvaluateCore(ReduceOperand(Create(RenderSum(s))).value) == SumValue(s)
    decreases |s.addends|
  {
    if s.addends == [] {
      TermReduces(s.first);
    } else {
      var n := |s.addends| - 1;
      var prefix := Sum(s.first, s.addends[..n]);
      var pre := RenderSum(prefix);
      var a := s.addends[n];
      var op := OperatorToken(if a.add then Plus else Minus, a.at);
      var post := RenderTerm(a.term);
      assert RenderSum(s) == pre + [OpToken(op)] + post;
      OrderedParts(pre + [OpToken(op)], post);
      OrderedParts(pre, [OpToken(op)]);
      TermReduces(a.term);
      TermOps(a.term);
      SumReduces(prefix);
      SumOps(prefix);
      AddendStep(RenderSum(s), pre, op, post, SumValue(prefix), TermValue(a.term));
    }
  }

  /** A list of more than one token evaluates to the value of the tree it reduces to. */
  lemma GroupEvaluates(ts: seq<Token>)
    requires |ts| > 1 && ReduceOperand(Create(ts)).Ok?
    ensures EvaluateTokens(ts) == EvaluateCore(ReduceOperand(Create(ts)).value)
  {
  }

  /** The split rule evaluates a sum of products whose operators stand in increasing
      position order with the usual precedence and left associativity; a lone literal has no
      operator and fails. */
  lemma SplitRuleIsPrecedence(s: Sum)
    requires Increasing(OpPositions(RenderSum(s)))
    ensures s.addends == [] && s.first.factors == [] ==> EvaluateTokens(RenderSum(s)) == Err(NoOperator)
    ensures !(s.addends == [] && s.first.factors == []) ==> EvaluateTokens(RenderSum(s)) == SumValue(s)
  {
    var ts := RenderSum(s);
    if |ts| == 1 {
      assert ts[0].ValueToken?;
    } else {
      OrderedFromIncreasing(ts);
      SumReduces(s);
      GroupEvaluates(ts);
    }
  }

  /** A flat list reading value, operator, value, ..., value, every operator from the
      table. */
  predicate Alternating(ts: seq<Token>)
    decreases |ts|
  {
    if |ts| <= 1 then |ts| == 1 && ts[0].ValueToken?
    else
      && |ts| >= 3
      && Alternating(ts[..|ts| - 2])
      && ts[|ts| - 2].OpToken? && ts[|ts| - 2].opToken.operator in {Times, Over, Plus, Minus}
      && ts[|ts| - 1].ValueToken?
  }

  /** s with one more factor on its last product. */
  function WithFactor(s: Sum, f: Factor): Sum {
    if s.addends == [] then Sum(s.first.(factors := s.first.factors + [f]), [])
    else
      var n := |s.addends| - 1;
      var a := s.addends[n];
      Sum(s.first, s.addends[..n] + [a.(term := a.term.(factors := a.term.factors + [f]))])
  }

  /** s followed by one more operator and value: a '*' or '/' extends the last product, a
      '+' or '-' starts a new one. */
  function Extend(s: Sum, o: OperatorToken, v: Token): Sum
    requires v.ValueToken?
  {
    if o.operator == Times || o.operator == Over then
      WithFactor(s, Factor(o.operator == Times, o.position, v.value, v.position))
    else
      Sum(s.first, s.addends + [Addend(o.operator == Plus, o.position, Term(v.value, v.position, []))])
  }

  /** The sum of products an alternating list spells, read from the left. */
  function SumOf(ts: seq<Token>): Sum
    requires Alternating(ts)
    decreases |ts|
  {
    if |ts| == 1 then Sum(Term(ts[0].value, ts[0].position, []), [])
    else
      Extend(SumOf(ts[..|ts| - 2]), ts[|ts| - 2].opToken, ts[|ts| - 1])
  }

  /** Extending a product appends its factor's two tokens. */
  lemma RenderTermExtended(t: Term, f: Factor)
    ensures RenderTerm(t.(factors := t.factors + [f])) == RenderTerm(t) + FactorTokens(f)
  {
    assert (t.factors + [f])[..|t.factors|] == t.factors;
  }

  /** Extending a sum's last product appends the factor's two tokens to the sum's. */
  lemma RenderWithFactor(s: Sum, f: Factor)
    ensures RenderSum(WithFactor(s, f)) == RenderSum(s) + FactorTokens(f)
  {
    if s.addends == [] {
      RenderTermExtended(s.first, f);
    } else {
      var n := |s.addends| - 1;
      var a := s.addends[n];
      RenderTermExtended(a.term, f);
      var addends := s.addends[..n] + [a.(term := a.term.(factors := a.term.factors + [f]))];
      assert addends[..n] == s.addends[..n];
    }
  }

  /** A new last addend appends its operator and its product's tokens to the sum's. */
  lemma RenderWithAddend(s: Sum, a: Addend)
    ensures RenderSum(Sum(s.first, s.addends + [a])) ==
      RenderSum(s) + [OpToken(OperatorToken(if a.add then Plus else Minus, a.at))] + RenderTerm(a.term)
  {
    assert (s.addends + [a])[..|s.addends|] == s.addends;
  }

  /** Extending a sum appends the operator and the value to its tokens. */
  lemma RenderExtend(s: Sum, o: OperatorToken, v: Token)
    requires o.operator in {Times, Over, Plus, Minus} && v.ValueToken?
    ensures RenderSum(Extend(s, o, v)) == RenderSum(s) + [OpToken(o), v]
  {
    if o.operator == Times || o.operator == Over {
      RenderWithFactor(s, Factor(o.operator == Times, o.position, v.value, v.position));
    } else {
      RenderWithAddend(s, Addend(o.operator == Plus, o.position, Term(v.value, v.position, [])));
    }
  }

  /** The sum an alternating list spells renders back as that list. */
  lemma {:induction false} SumOfRenders(ts: seq<Token>)
    requires Alternating(ts)
    ensures RenderSum(SumOf(ts)) == ts
    decreases |ts|
  {
    if |ts| == 1 {
      assert ts == [ValueToken(ts[0].value, ts[0].position)];
    } else {
      var n := |ts| - 2;
      var prev, o, v := SumOf(ts[..n]), ts[n].opToken, ts[n + 1];
      calc {
        RenderSum(SumOf(ts));
        RenderSum(Extend(prev, o, v));
        { RenderExtend(prev, o, v); }
        RenderSum(prev) + [OpToken(o), v];
        { SumOfRenders(ts[..n]); }
        ts[..n] + [OpToken(o), v];
        ts;
      }
    }
  }

  /** Every flat alternating list of table operators in increasing position order -- the
      shape the tokenizer gives an unparenthesised, unsigned input -- evaluates to the value
      of the sum of products it spells. */
  lemma FlatListValue(ts: seq<Token>)
    requires Alternating(ts) && Increasing(OpPositions(ts))
    ensures |ts| == 1 ==> EvaluateTokens(ts) == Err(NoOperator)
    ensures |ts| > 1 ==> EvaluateTokens(ts) == SumValue(SumOf(ts))
  {
    SumOfRenders(ts);
    SplitRuleIsPrecedence(SumOf(ts));
  }
}
