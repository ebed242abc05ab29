/**
 * The view model's handlers as pure functions from the old state to the new one.
 * Every rejected input (operand at its cap, a second point, a point on an empty
 * operand, an operator before any digit, an incomplete computation, deleting from
 * an empty state) leaves the state as it was.
 */
module Reducer {
  import opened Wrappers
  import opened KotlinText
  import opened States
  import opened Doubles
  import Actions

  /** `MAX_NUM_LENGTH`: digit and point entry stop at this many characters. */
  const MaxNumLength := 8
  /** A computed result is cut to this many characters. */
  const ResultLength := 15

  /** Choosing an operator: only once `number1` has text; sets or replaces it. */
  function EnterOperation(s: CalculatorState, op: CalculatorOperation): (t: CalculatorState)
    ensures t.number1 == s.number1 && t.number2 == s.number2
    ensures t.operator.Some? <==> s.operator.Some? || IsNotBlank(s.number1)
    ensures IsNotBlank(s.number1) ==> t.operator == Some(op) && Active(t) == s.number2
    ensures !IsNotBlank(s.number1) ==> t == s
  {
    if IsNotBlank(s.number1) then s.(operator := Some(op)) else s
  }

  /** Entering `number` appends its text to the active operand unless that is full. */
  function EnterNumber(s: CalculatorState, number: int): (t: CalculatorState)
    ensures t.operator == s.operator
    ensures s.operator.None? ==> t.number2 == s.number2
    ensures s.operator.Some? ==> t.number1 == s.number1
    ensures Active(t) == if |Active(s)| >= MaxNumLength then Active(s) else Active(s) + IntText(number)
  {
    if s.operator.None? then
      if |s.number1| >= MaxNumLength then s else s.(number1 := s.number1 + IntText(number))
    else
      if |s.number2| >= MaxNumLength then s else s.(number2 := s.number2 + IntText(number))
  }

  /** Whether a point may be appended to operand text `x`. */
  predicate AcceptsDot(x: string) {
    '.' !in x && IsNotBlank(x) && |x| < MaxNumLength
  }

  /** Entering a point appends "." to the active operand when it accepts one. */
  function EnterDecimal(s: CalculatorState): (t: CalculatorState)
    ensures t.operator == s.operator
    ensures s.operator.None? ==> t.number2 == s.number2
    ensures s.operator.Some? ==> t.number1 == s.number1
    ensures Active(t) == if AcceptsDot(Active(s)) then Active(s) + "." else Active(s)
  {
    if s.operator.None? && '.' !in s.number1 && IsNotBlank(s.number1) && |s.number1| < MaxNumLength then
      s.(number1 := s.number1 + ".")
    else if s.operator.Some? && '.' !in s.number2 && IsNotBlank(s.number2) && |s.number2| < MaxNumLength then
      s.(number2 := s.number2 + ".")
    else
      s
  }

  /** Everything Delete can remove: the characters of both operands and the operator. */
  function Size(s: CalculatorState): nat {
    |s.number1| + |s.number2| + (if s.operator.Some? then 1 else 0)
  }

  /** Backspace: the first of "shorten number2", "drop the operator", "shorten number1" that applies. */
  function PerformDeletion(s: CalculatorState): (t: CalculatorState)
    ensures s == CalculatorState() ==> t == s
    ensures s != CalculatorState() ==> Size(t) + 1 == Size(s)
    ensures t.number1 <= s.number1 && t.number2 <= s.number2
    ensures t.operator == s.operator || t.operator.None?
    ensures Display(t) == DropLast(Display(s))
  {
    if IsNotBlank(s.number2) then s.(number2 := DropLast(s.number2))
    else if s.operator.Some? then s.(operator := None)
    else if IsNotBlank(s.number1) then s.(number1 := DropLast(s.number1))
    else s
  }

  /** Both operands parse and an operator is pending. */
  predicate Computable<D>(num: DoubleOps<D>, s: CalculatorState) {
    num.parse(s.number1).Some? && num.parse(s.number2).Some? && s.operator.Some?
  }

  /** The text a computation leaves in `number1`: the formatted result, cut to 15 characters. */
  function ResultText<D>(num: DoubleOps<D>, s: CalculatorState): (r: string)
    requires Computable(num, s)
    ensures r <= num.show(Apply(num, s.operator.value, num.parse(s.number1).value, num.parse(s.number2).value))
    ensures |r| <= ResultLength
  {
    var x := num.parse(s.number1).value;
    var y := num.parse(s.number2).value;
    Take(num.show(Apply(num, s.operator.value, x, y)), ResultLength)
  }

  /** `=`: replace the whole state by the result once both operands parse and an operator is set. */
  function Compute<D>(num: DoubleOps<D>, s: CalculatorState): (t: CalculatorState)
    ensures t == s || (t.number2 == "" && t.operator.None? && |t.number1| <= ResultLength)
  {
    match (num.parse(s.number1), num.parse(s.number2))
    case (Some(x), Some(y)) =>
      (match s.operator
       case None => s
       case Some(op) =>
         CalculatorState(number1 := Take(num.show(Apply(num, op, x, y)), ResultLength), number2 := "", operator := None))
    case _ => s
  }

  /** The cross-field invariant: the second operand needs an operator; both operands are bounded. */
  predicate Bounded(s: CalculatorState) {
    && (s.number2 != "" ==> s.operator.Some?)
    && |s.number2| <= MaxNumLength
    && |s.number1| <= ResultLength
  }

  /** `onAction`: dispatch on the action kind. */
  function Reduce<D>(num: DoubleOps<D>, s: CalculatorState, a: Actions.CalculatorAction): (t: CalculatorState)
    ensures Bounded(s) && Actions.IsKeypadAction(a) ==> Bounded(t)
  {
    match a
    case Clear => CalculatorState()
    case Compute => Compute(num, s)
    case Decimal => EnterDecimal(s)
    case Delete => PerformDeletion(s)
    case Number(number) => EnterNumber(s, number as int)
    case Operation(op) => EnterOperation(s, op)
  }

  /** The state after a sequence of actions, applied in order. */
  function Run<D>(num: DoubleOps<D>, s: CalculatorState, acts: seq<Actions.CalculatorAction>): (t: CalculatorState)
    ensures Bounded(s) && (forall i :: 0 <= i < |acts| ==> Actions.IsKeypadAction(acts[i])) ==> Bounded(t)
    decreases |acts|
  {
    if acts == [] then s else Run(num, Reduce(num, s, acts[0]), acts[1..])
  }
}
