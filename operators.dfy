/** The fixed operator table (Operator in Calc.cs) and the comparisons that pick the operator
    at which a token sequence is split. */
module Operators {
  import opened Outcomes

  /** The arithmetic lambda an operator carries, one constructor per table entry. */
  datatype Arithmetic = Multiply | Divide | Add | Subtract

  /** An operator: its symbol, its split priority (higher = chosen earlier as the root,
      i.e. binds more loosely) and its arithmetic. */
  datatype Operator = Operator(symbol: string, priority: int, arithmetic: Arithmetic)

  const Times := Operator("*", 1, Multiply)
  const Over := Operator("/", 1, Divide)
  const Plus := Operator("+", 10, Add)
  const Minus := Operator("-", 10, Subtract)

  /** Operator.AllOperators: exactly four entries, in this order. */
  const AllOperators: seq<Operator> := [Times, Over, Plus, Minus]

  /** Operator.CompareTo: the difference of the priorities. */
  function CompareOperators(a: Operator, b: Operator): (r: int)
    ensures r > 0 <==> a.priority > b.priority
    ensures r == 0 <==> a.priority == b.priority
  {
    a.priority - b.priority
  }

  /** The table lookup as a function: the first entry whose symbol is raw. */
  function Lookup(raw: string): (r: Option<Operator>)
    ensures r.Some? <==> raw in {"*", "/", "+", "-"}
    ensures r.Some? ==> r.value in AllOperators && r.value.symbol == raw
  {
    LookupFrom(raw, 0)
  }

  function LookupFrom(raw: string, i: nat): (r: Option<Operator>)
    requires i <= |AllOperators|
    ensures r.Some? <==> exists j :: i <= j < |AllOperators| && AllOperators[j].symbol == raw
    ensures r.Some? ==> r.value in AllOperators[i..] && r.value.symbol == raw
    decreases |AllOperators| - i
  {
    if i == |AllOperators| then None
    else if AllOperators[i].symbol == raw then Some(AllOperators[i])
    else LookupFrom(raw, i + 1)
  }

  /** Operator.Get: walks the table and returns the entry with the given symbol; any other
      symbol is an error. */
  method Get(raw: string) returns (r: Result<Operator>)
    ensures r.Ok? <==> raw in {"*", "/", "+", "-"}
    ensures r.Ok? ==> r.value in AllOperators && r.value.symbol == raw
    ensures r.Err? ==> r.error == InvalidToken(raw)
  {
    for i := 0 to |AllOperators|
      invariant forall j :: 0 <= j < i ==> AllOperators[j].symbol != raw
    {
      if AllOperators[i].symbol == raw {
        return Ok(AllOperators[i]);
      }
    }
    assert AllOperators[0].symbol != raw && AllOperators[1].symbol != raw;
    assert AllOperators[2].symbol != raw && AllOperators[3].symbol != raw;
    return Err(InvalidToken(raw));
  }

  /** Operator.Execute: applies the operator's arithmetic. Division by zero, which IEEE-754
      turns into an infinity or NaN, is reported as an error here. */
  function Execute(op: Operator, left: real, right: real): (r: Result<real>)
    ensures r.Err? <==> op.arithmetic == Divide && right == 0.0
    ensures r.Ok? && op.arithmetic == Add ==> r.value - right == left
    ensures r.Ok? && op.arithmetic == Subtract ==> r.value + right == left
    ensures r.Ok? && op.arithmetic == Multiply && right != 0.0 ==> r.value / right == left
    ensures r.Ok? && op.arithmetic == Divide ==> r.value * right == left
  {
    match op.arithmetic
    case Multiply => Ok(left * right)
    case Divide => if right == 0.0 then Err(DivisionByZero) else Ok(left / right)
    case Add => Ok(left + right)
    case Subtract => Ok(left - right)
  }
}
