/**
 * Kotlin's `Double` as the calculator uses it, abstracted over the number type `D`:
 * `parse` is `String.toDoubleOrNull()`, the four functions are the IEEE operators
 * (division by zero included, whatever it yields), `show` is `Double.toString()`.
 * Nothing about their values is assumed in general; a property that needs more
 * says so in its requires (that "" does not parse, or that given numerals parse).
 */
module Doubles {
  import opened Wrappers
  import opened States

  datatype DoubleOps<!D> = DoubleOps(
    parse: string -> Option<D>,
    plus: (D, D) -> D,
    minus: (D, D) -> D,
    times: (D, D) -> D,
    div: (D, D) -> D,
    show: D -> string)

  /** `""`.toDoubleOrNull() is null. */
  predicate RejectsEmpty<D>(num: DoubleOps<D>) {
    num.parse("").None?
  }

  /** The operator applied to two parsed operands. */
  function Apply<D>(num: DoubleOps<D>, op: CalculatorOperation, x: D, y: D): (r: D)
    ensures op == Add ==> r == num.plus(x, y)
    ensures op == Subtract ==> r == num.minus(x, y)
    ensures op == Multiply ==> r == num.times(x, y)
    ensures op == Divide ==> r == num.div(x, y)
  {
    match op
    case Add => num.plus(x, y)
    case Divide => num.div(x, y)
    case Multiply => num.times(x, y)
    case Subtract => num.minus(x, y)
  }
}
