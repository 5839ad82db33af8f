/** The token classes of Calc.cs (Token and its subclasses ValueToken, OperatorToken,
    PartialCompletedExpression and ExpressionToken) and the binary Expression node. */
module Tokens {
  import opened Outcomes
  import opened Operators

  /** OperatorToken: a table operator found at a source position. */
  datatype OperatorToken = OperatorToken(operator: Operator, position: int)

  datatype Token =
    | ValueToken(value: real, position: int)
    | OpToken(opToken: OperatorToken)
      /** an unreduced, parenthesised or split-off run of tokens */
    | PartialCompletedExpression(tokens: seq<Token>)
      /** a reduced sub-tree standing in operand position */
    | ExpressionToken(expression: Expression)

  /** Expression: Left OpToken Right. */
  datatype Expression = Expression(left: Token, opToken: OperatorToken, right: Token)

  /** OperatorToken.CompareTo: by operator priority first, then by position. */
  function CompareTokens(a: OperatorToken, b: OperatorToken): (r: int)
    ensures r > 0 <==> (a.operator.priority > b.operator.priority
                        || (a.operator.priority == b.operator.priority && a.position > b.position))
    ensures r == 0 <==> a.operator.priority == b.operator.priority && a.position == b.position
  {
    var diff := CompareOperators(a.operator, b.operator);
    if diff != 0 then diff else a.position - b.position
  }

  /** The comparison is a total preorder, which is what sorting by it relies on. */
  lemma CompareTokensIsTotalPreorder(a: OperatorToken, b: OperatorToken, c: OperatorToken)
    ensures CompareTokens(a, a) == 0
    ensures CompareTokens(a, b) > 0 <==> CompareTokens(b, a) < 0
    ensures CompareTokens(a, b) <= 0 && CompareTokens(b, c) <= 0 ==> CompareTokens(a, c) <= 0
  {
  }

  // ---------------------------------------------------------------------------------------
  // In-order leaves and size

  /** The value and operator tokens of t, left to right, whatever grouping or tree holds them. */
  function Leaves(t: Token): seq<Token> {
    match t
    case ValueToken(_, _) => [t]
    case OpToken(_) => [t]
    case PartialCompletedExpression(ts) => LeavesOf(ts)
    case ExpressionToken(e) => Leaves(e.left) + [OpToken(e.opToken)] + Leaves(e.right)
  }

  function LeavesOf(ts: seq<Token>): seq<Token> {
    if ts == [] then [] else LeavesOf(ts[..|ts| - 1]) + Leaves(ts[|ts| - 1])
  }

  lemma {:induction false} LeavesOfConcat(a: seq<Token>, b: seq<Token>)
    ensures LeavesOf(a + b) == LeavesOf(a) + LeavesOf(b)
    decreases |b|
  {
    if b == [] {
      assert a + b == a;
    } else {
      var n, ab := |b| - 1, a + b;
      assert ab[..|ab| - 1] == a + b[..n] && ab[|ab| - 1] == b[n];
      LeavesOfConcat(a, b[..n]);
      calc {
        LeavesOf(ab);
        LeavesOf(a + b[..n]) + Leaves(b[n]);
        LeavesOf(a) + LeavesOf(b[..n]) + Leaves(b[n]);
        LeavesOf(a) + (LeavesOf(b[..n]) + Leaves(b[n]));
      }
    }
  }

  lemma LeavesOfSingle(t: Token)
    ensures LeavesOf([t]) == Leaves(t)
  {
    assert [t][..0] == [];
  }

  /** A measure that strictly shrinks as a sequence is split at an operator. */
  function Size(t: Token): (n: nat)
    ensures n >= 1
  {
    match t
    case ValueToken(_, _) => 1
    case OpToken(_) => 2
    case PartialCompletedExpression(ts) => 1 + SizeOf(ts)
    case ExpressionToken(_) => 1
  }

  function SizeOf(ts: seq<Token>): nat {
    if ts == [] then 0 else SizeOf(ts[..|ts| - 1]) + Size(ts[|ts| - 1])
  }

  lemma {:induction false} SizeOfConcat(a: seq<Token>, b: seq<Token>)
    ensures SizeOf(a + b) == SizeOf(a) + SizeOf(b)
    decreases |b|
  {
    if b == [] {
      assert a + b == a;
    } else {
      var n := |b| - 1;
      assert (a + b)[..|a + b| - 1] == a + b[..n];
      SizeOfConcat(a, b[..n]);
    }
  }

  // ---------------------------------------------------------------------------------------
  // Construction

  /** No group anywhere inside t wraps exactly one token. */
  predicate WellGrouped(t: Token) {
    match t
    case PartialCompletedExpression(ts) => |ts| != 1 && forall i :: 0 <= i < |ts| ==> WellGrouped(ts[i])
    case _ => true
  }

  /** No reduced sub-tree (ExpressionToken) anywhere inside t: what the tokenizer builds. */
  predicate WithoutSubtrees(t: Token) {
    match t
    case PartialCompletedExpression(ts) => forall i :: 0 <= i < |ts| ==> WithoutSubtrees(ts[i])
    case ExpressionToken(_) => false
    case _ => true
  }

  /** PartialCompletedExpression.Create: the sole token of a one-token sequence, otherwise a
      group holding the sequence (the empty sequence included). */
  function Create(ts: seq<Token>): (t: Token)
    ensures WellGrouped(t) <==> forall i :: 0 <= i < |ts| ==> WellGrouped(ts[i])
    ensures WithoutSubtrees(t) <==> forall i :: 0 <= i < |ts| ==> WithoutSubtrees(ts[i])
    ensures |ts| != 1 ==> t.PartialCompletedExpression?
    ensures Leaves(t) == LeavesOf(ts)
    ensures Size(t) <= SizeOf(ts) + 1
  {
    if |ts| == 1 then
      LeavesOfSingle(ts[0]);
      assert SizeOf(ts) == Size(ts[0]) by { assert ts[..0] == []; }
      ts[0]
    else PartialCompletedExpression(ts)
  }

  predicate IsDigit(c: char) {
    '0' <= c <= '9'
  }

  predicate AllDigits(s: string) {
    forall i :: 0 <= i < |s| ==> IsDigit(s[i])
  }

  /** The natural number a run of decimal digits denotes. */
  function DigitsValue(ds: string): nat
    requires AllDigits(ds)
  {
    if ds == [] then 0 else DigitsValue(ds[..|ds| - 1]) * 10 + (ds[|ds| - 1] as int - '0' as int)
  }

  function Pow10(n: nat): (r: nat)
    ensures r > 0
  {
    if n == 0 then 1 else 10 * Pow10(n - 1)
  }

  function DotIndex(u: string): (k: nat)
    ensures k <= |u|
    ensures forall i :: 0 <= i < k ==> u[i] != '.'
    ensures k < |u| ==> u[k] == '.'
  {
    if u == [] then 0 else if u[0] == '.' then 0 else 1 + DotIndex(u[1..])
  }

  /** An unsigned literal: digits with at most one '.', and at least one digit. */
  predicate IsUnsignedLiteral(u: string) {
    && (forall i :: 0 <= i < |u| ==> IsDigit(u[i]) || u[i] == '.')
    && (forall i, j :: 0 <= i < j < |u| && u[i] == '.' ==> u[j] != '.')
    && (exists i :: 0 <= i < |u| && IsDigit(u[i]))
  }

  /** The digits before the '.' of an unsigned literal (all of it when there is no '.'). */
  function WholePart(u: string): string {
    u[..DotIndex(u)]
  }

  /** The digits after the '.' of an unsigned literal (none when there is no '.'). */
  function FractionPart(u: string): string {
    var k := DotIndex(u);
    if k < |u| then u[k + 1..] else []
  }

  function ParseUnsigned(u: string): (r: Option<real>)
    ensures r.Some? <==> IsUnsignedLiteral(u)
    ensures r.Some? ==> r.value >= 0.0
  {
    var k := DotIndex(u);
    var whole, fraction := WholePart(u), FractionPart(u);
    if AllDigits(whole) && AllDigits(fraction) && |whole| + |fraction| > 0 then
      assert IsUnsignedLiteral(u) by {
        if |whole| > 0 { assert IsDigit(u[0]); } else { assert IsDigit(u[k + 1]); }
      }
      var frac := DigitsValue(fraction) as real / Pow10(|fraction|) as real;
      assert frac >= 0.0;
      Some(DigitsValue(whole) as real + frac)
    else
      assert !IsUnsignedLiteral(u);
      None
  }

  /** Appending digits shifts the digits before them by one decimal place each. */
  lemma {:induction false} DigitsAppend(a: string, b: string)
    requires AllDigits(a) && AllDigits(b)
    ensures AllDigits(a + b)
    ensures DigitsValue(a + b) == DigitsValue(a) * Pow10(|b|) + DigitsValue(b)
  {
    assert AllDigits(a + b) by {
      forall i | 0 <= i < |a + b| ensures IsDigit((a + b)[i]) {
        if i < |a| { assert (a + b)[i] == a[i]; } else { assert (a + b)[i] == b[i - |a|]; }
      }
    }
    if b == [] {
      assert a + b == a;
    } else {
      var b' := b[..|b| - 1];
      var d := b[|b| - 1] as int - '0' as int;
      assert (a + b)[..|a + b| - 1] == a + b';
      assert (a + b)[|a + b| - 1] == b[|b| - 1];
      DigitsAppend(a, b');
      ShiftDigit(DigitsValue(a), Pow10(|b'|), DigitsValue(b'), d);
    }
  }

  /** One more digit d after x * p + y shifts both parts by one place. */
  lemma ShiftDigit(x: int, p: int, y: int, d: int)
    ensures (x * p + y) * 10 + d == x * (p * 10) + (y * 10 + d)
  {
  }

  /** w + f / p, over a common denominator. */
  lemma CommonDenominator(w: nat, f: nat, p: nat, n: nat)
    requires p > 0 && n == w * p + f
    ensures w as real + f as real / p as real == n as real / p as real
  {
    assert (w * p) as real == w as real * p as real;
  }

  /** The value of an unsigned literal: the whole number its digits spell with the '.'
      removed, over ten to the number of digits after the '.'. So "1.25" denotes 125 / 100. */
  lemma UnsignedValue(u: string)
    requires IsUnsignedLiteral(u)
    ensures AllDigits(WholePart(u) + FractionPart(u))
    ensures ParseUnsigned(u) ==
      Some(DigitsValue(WholePart(u) + FractionPart(u)) as real / Pow10(|FractionPart(u)|) as real)
  {
    var whole, fraction := WholePart(u), FractionPart(u);
    assert AllDigits(whole) && AllDigits(fraction);
    DigitsAppend(whole, fraction);
    CommonDenominator(DigitsValue(whole), DigitsValue(fraction), Pow10(|fraction|), DigitsValue(whole + fraction));
  }

  /** The literal syntax Double.Parse accepts among the strings the tokenizer can build:
      an optional leading '-' followed by an unsigned literal. */
  predicate IsLiteral(raw: string) {
    if |raw| > 0 && raw[0] == '-' then IsUnsignedLiteral(raw[1..]) else IsUnsignedLiteral(raw)
  }

  /** Double.Parse on the characters a literal buffer can hold (decimal digits, '.', '-'),
      with exact decimal values instead of the nearest double. */
  function ParseLiteral(raw: string): (r: Option<real>)
    ensures r.Some? <==> IsLiteral(raw)
    ensures r.Some? && |raw| > 0 && raw[0] == '-' ==> r.value <= 0.0
    ensures r.Some? && (|raw| == 0 || raw[0] != '-') ==> r.value >= 0.0
    ensures |raw| > 0 && AllDigits(raw) ==> r == Some(DigitsValue(raw) as real)
    ensures r.Some? && |raw| > 0 && raw[0] == '-' ==> ParseUnsigned(raw[1..]) == Some(-r.value)
    ensures r.Some? && (|raw| == 0 || raw[0] != '-') ==> ParseUnsigned(raw) == r
  {
    if |raw| > 0 && raw[0] == '-' then
      match ParseUnsigned(raw[1..])
      case Some(v) => Some(-v)
      case None => None
    else
      if |raw| > 0 && AllDigits(raw) then DigitsParse(raw); ParseUnsigned(raw)
      else ParseUnsigned(raw)
  }

  /** The unsigned part of a literal: all of it but a leading '-'. */
  function Magnitude(raw: string): string {
    if |raw| > 0 && raw[0] == '-' then raw[1..] else raw
  }

  /** The value of a literal, digit by digit: a leading '-' negates the value of the unsigned
      literal after it, and that is its digits without the '.' over a power of ten. So "-1.25"
      denotes -(125 / 100). */
  lemma LiteralValue(raw: string)
    requires IsLiteral(raw)
    ensures AllDigits(WholePart(Magnitude(raw)) + FractionPart(Magnitude(raw)))
    ensures var u := Magnitude(raw);
      var magnitude := DigitsValue(WholePart(u) + FractionPart(u)) as real / Pow10(|FractionPart(u)|) as real;
      ParseLiteral(raw) == Some(if |raw| > 0 && raw[0] == '-' then -magnitude else magnitude)
  {
    UnsignedValue(Magnitude(raw));
  }

  lemma {:induction false} NoDotInDigits(u: string)
    requires AllDigits(u)
    ensures DotIndex(u) == |u|
  {
    if u != [] {
      NoDotInDigits(u[1..]);
    }
  }

  /** A run of digits without a '.' parses to the number it denotes. */
  lemma DigitsParse(u: string)
    requires |u| > 0 && AllDigits(u)
    ensures ParseUnsigned(u) == Some(DigitsValue(u) as real)
  {
    var k := DotIndex(u);
    NoDotInDigits(u);
    assert u[..k] == u;
    assert DigitsValue([]) == 0 && Pow10(0) == 1;
  }

  /** ValueToken.CreateFromString. */
  function CreateValueToken(raw: string, position: int): (r: Result<Token>)
    ensures r.Ok? <==> IsLiteral(raw)
    ensures r.Ok? ==> r.value.ValueToken? && r.value.position == position
    ensures r.Ok? ==> r.value.value == ParseLiteral(raw).value
    ensures r.Err? ==> r.error == InvalidNumber(raw)
  {
    match ParseLiteral(raw)
    case Some(v) => Ok(ValueToken(v, position))
    case None => Err(InvalidNumber(raw))
  }

  /** OperatorToken.CreateFromString, as a function over the table lookup. */
  function OperatorTokenFrom(raw: string, position: int): (r: Result<OperatorToken>)
    ensures r.Ok? <==> raw in {"*", "/", "+", "-"}
    ensures r.Ok? ==> r.value.operator in AllOperators && r.value.operator.symbol == raw
                      && r.value.position == position
    ensures r.Err? ==> r.error == InvalidToken(raw)
  {
    match Lookup(raw)
    case Some(op) => Ok(OperatorToken(op, position))
    case None => Err(InvalidToken(raw))
  }

  /** OperatorToken.CreateFromString: looks the symbol up with Operator.Get. */
  method CreateOperatorToken(raw: string, position: int) returns (r: Result<OperatorToken>)
    ensures r == OperatorTokenFrom(raw, position)
  {
    var op := Get(raw);
    if op.Err? {
      return Err(op.error);
    }
    r := Ok(OperatorToken(op.value, position));
    assert op.value == Lookup(raw).value;
  }
}
