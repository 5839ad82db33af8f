/** Evaluator.Expression: splitting a token sequence at its primary operator (Partial),
    turning every group operand into a sub-tree (Reduce), and the post-order walk that
    computes the value (Evaluate, EvaluateCore). */
module Expressions {
  import opened Outcomes
  import opened Operators
  import opened Tokens

  /** ts[i] is the operator token OrderByDescending(x => x).First() returns: no operator
      token of ts compares above it, and, the sort being stable, every operator token to
      its left compares strictly below it. */
  ghost predicate IsPrimary(ts: seq<Token>, i: nat) {
    && i < |ts|
    && ts[i].OpToken?
    && (forall j :: 0 <= j < |ts| && ts[j].OpToken? ==> CompareTokens(ts[j].opToken, ts[i].opToken) <= 0)
    && (forall j :: 0 <= j < i && ts[j].OpToken? ==> CompareTokens(ts[j].opToken, ts[i].opToken) < 0)
  }

  /** The index of the primary operator token (OrderByDescending, First, IndexOf), found by
      one left-to-right scan that only moves on to a strictly greater token. */
  function PrimaryOperatorIndex(ts: seq<Token>): (r: Option<nat>)
    ensures r.None? <==> forall i :: 0 <= i < |ts| ==> !ts[i].OpToken?
    ensures r.Some? ==> IsPrimary(ts, r.value)
  {
    if ts == [] then None
    else
      var n := |ts| - 1;
      var best := PrimaryOperatorIndex(ts[..n]);
      assert forall i :: 0 <= i < n ==> ts[..n][i] == ts[i];
      if ts[n].OpToken? && (best.None? || CompareTokens(ts[n].opToken, ts[best.value].opToken) > 0) then
        Some(n)
      else best
  }

  /** At most one index is primary: the selection is a function of the sequence. */
  lemma PrimaryIsUnique(ts: seq<Token>, i: nat, j: nat)
    requires IsPrimary(ts, i) && IsPrimary(ts, j)
    ensures i == j
  {
  }

  /** Expression.Partial: the two sides become operands through Create. */
  function Partial(left: seq<Token>, op: OperatorToken, right: seq<Token>): (e: Expression)
    ensures e.opToken == op
    ensures Leaves(ExpressionToken(e)) == LeavesOf(left) + [OpToken(op)] + LeavesOf(right)
    ensures Size(e.left) + Size(e.right) <= SizeOf(left) + SizeOf(right) + 2
  {
    Expression(Create(left), op, Create(right))
  }

  /** Evaluator.Evaluate lines 28-35 and Reduce(PartialCompletedExpression) lines 263-271:
      the sequence is split at its primary operator; a sequence without an operator token
      fails, as First() does on an empty sequence. */
  function Split(ts: seq<Token>): (r: Result<Expression>)
    ensures r.Err? <==> forall i :: 0 <= i < |ts| ==> !ts[i].OpToken?
    ensures r.Err? ==> r.error == NoOperator
    ensures r.Ok? ==> exists i: nat :: IsPrimary(ts, i) && r.value == Partial(ts[..i], ts[i].opToken, ts[i + 1..])
    ensures r.Ok? ==> Leaves(ExpressionToken(r.value)) == LeavesOf(ts)
    ensures r.Ok? ==> Size(r.value.left) + Size(r.value.right) <= SizeOf(ts)
  {
    match PrimaryOperatorIndex(ts)
    case None => Err(NoOperator)
    case Some(i) =>
      SplitAtOperator(ts, i);
      Ok(Partial(ts[..i], ts[i].opToken, ts[i + 1..]))
  }

  /** Splitting at an operator token loses no leaf and shrinks the size measure. */
  lemma SplitAtOperator(ts: seq<Token>, i: nat)
    requires i < |ts| && ts[i].OpToken?
    ensures Leaves(ExpressionToken(Partial(ts[..i], ts[i].opToken, ts[i + 1..]))) == LeavesOf(ts)
    ensures Size(Create(ts[..i])) + Size(Create(ts[i + 1..])) <= SizeOf(ts)
  {
    var left, x, right := ts[..i], ts[i], ts[i + 1..];
    assert ts == (left + [x]) + right;
    LeavesOfConcat(left + [x], right);
    LeavesOfConcat(left, [x]);
    LeavesOfSingle(x);
    assert Leaves(x) == [OpToken(x.opToken)];
    SizeOfConcat(left + [x], right);
    SizeOfConcat(left, [x]);
    assert SizeOf([x]) == 2 by { assert [x][..0] == []; }
  }

  /** The operands Split builds from tokens without sub-trees have none either. */
  lemma SplitKeepsFlatness(ts: seq<Token>, e: Expression)
    requires Split(ts) == Ok(e)
    ensures (forall i :: 0 <= i < |ts| ==> WithoutSubtrees(ts[i])) ==> WithoutSubtrees(e.left) && WithoutSubtrees(e.right)
  {
    var i := PrimaryOperatorIndex(ts).value;
    assert e == Partial(ts[..i], ts[i].opToken, ts[i + 1..]);
    if forall j :: 0 <= j < |ts| ==> WithoutSubtrees(ts[j]) {
      SidesFlat(ts, i);
    }
  }

  lemma SidesFlat(ts: seq<Token>, i: nat)
    requires i < |ts| && forall j :: 0 <= j < |ts| ==> WithoutSubtrees(ts[j])
    ensures WithoutSubtrees(Create(ts[..i])) && WithoutSubtrees(Create(ts[i + 1..]))
  {
    var left, right := ts[..i], ts[i + 1..];
    forall j | 0 <= j < |left| ensures WithoutSubtrees(left[j]) { assert left[j] == ts[j]; }
    forall j | 0 <= j < |right| ensures WithoutSubtrees(right[j]) { assert right[j] == ts[i + 1 + j]; }
  }

  /** No group left anywhere in the tree t. */
  predicate FullyReduced(t: Token) {
    match t
    case PartialCompletedExpression(_) => false
    case ExpressionToken(e) => FullyReduced(e.left) && FullyReduced(e.right)
    case _ => true
  }

  /** The two operand branches of Expression.Reduce: a group is reduced to a sub-tree, any
      other token stays as it is. */
  function ReduceOperand(t: Token): (r: Result<Token>)
    ensures r.Ok? ==> Leaves(r.value) == Leaves(t) && !r.value.PartialCompletedExpression?
    ensures r.Ok? && WithoutSubtrees(t) ==> FullyReduced(r.value)
    ensures r.Err? ==> r.error == NoOperator
    decreases Size(t), 1
  {
    if t.PartialCompletedExpression? then ReduceGroup(t.tokens) else Ok(t)
  }

  /** Expression.Reduce(PartialCompletedExpression): split the group's tokens, reduce the
      resulting expression and wrap it as an ExpressionToken. */
  function ReduceGroup(ts: seq<Token>): (r: Result<Token>)
    ensures r.Ok? ==> r.value.ExpressionToken? && Leaves(r.value) == LeavesOf(ts)
    ensures r.Ok? && (forall i :: 0 <= i < |ts| ==> WithoutSubtrees(ts[i])) ==> FullyReduced(r.value)
    ensures (forall i :: 0 <= i < |ts| ==> !ts[i].OpToken?) ==> r == Err(NoOperator)
    ensures r.Err? ==> r.error == NoOperator
    decreases SizeOf(ts), 2
  {
    var e :- Split(ts);
    SplitKeepsFlatness(ts, e);
    var reduced :- Reduce(e);
    Ok(ExpressionToken(reduced))
  }

  /** Expression.Reduce(Expression): the root operator is kept and every group operand is
      replaced by a sub-tree built by the same split rule. */
  function Reduce(e: Expression): (r: Result<Expression>)
    ensures r.Ok? ==> r.value.opToken == e.opToken
    ensures r.Ok? ==> Leaves(ExpressionToken(r.value)) == Leaves(ExpressionToken(e))
    ensures r.Ok? && WithoutSubtrees(e.left) && WithoutSubtrees(e.right) ==> FullyReduced(ExpressionToken(r.value))
    ensures r.Err? ==> r.error == NoOperator
    decreases Size(e.left) + Size(e.right), 0
  {
    var left :- ReduceOperand(e.left);
    var right :- ReduceOperand(e.right);
    Ok(Expression(left, e.opToken, right))
  }

  /** Every operand position in the tree holds a value or a sub-tree. */
  predicate ValuesOnly(t: Token) {
    match t
    case ValueToken(_, _) => true
    case ExpressionToken(e) => ValuesOnly(e.left) && ValuesOnly(e.right)
    case _ => false
  }

  /** Expression.Evaluate: left operand, then right operand, then the node's operator. */
  function Evaluate(e: Expression): (r: Result<real>)
    ensures r.Err? ==> r.error in {UnreducedToken, UnknownTokenType, DivisionByZero}
    ensures FullyReduced(ExpressionToken(e)) && r.Err? ==> r.error != UnknownTokenType
    ensures ValuesOnly(ExpressionToken(e)) && r.Err? ==> r.error == DivisionByZero
    decreases e
  {
    var left :- EvaluateCore(e.left);
    var right :- EvaluateCore(e.right);
    Execute(e.opToken.operator, left, right)
  }

  /** Expression.EvaluateCore: a value is itself, a sub-tree is evaluated, an operator token
      or any other token is an error. */
  function EvaluateCore(t: Token): (r: Result<real>)
    ensures t.ValueToken? ==> r == Ok(t.value)
    ensures t.OpToken? ==> r == Err(UnreducedToken)
    ensures t.PartialCompletedExpression? ==> r == Err(UnknownTokenType)
    ensures r.Err? ==> r.error in {UnreducedToken, UnknownTokenType, DivisionByZero}
    ensures FullyReduced(t) && r.Err? ==> r.error != UnknownTokenType
    ensures ValuesOnly(t) && r.Err? ==> r.error == DivisionByZero
    decreases t
  {
    match t
    case ValueToken(v, _) => Ok(v)
    case OpToken(_) => Err(UnreducedToken)
    case ExpressionToken(e) => Evaluate(e)
    case PartialCompletedExpression(_) => Err(UnknownTokenType)
  }
}
