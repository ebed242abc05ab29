/** The closed vocabulary of user intents the view model accepts. */
module Actions {
  import opened States

  /** Kotlin's `Int`. */
  newtype Int32 = x: int | -0x8000_0000 <= x < 0x8000_0000

  /**
   * `Number` carries any `Int`; the other kinds but `Operation` carry nothing.
   * Dafny checks that every `match` on this type covers all six kinds.
   */
  datatype CalculatorAction =
    | Number(number: Int32)
    | Clear
    | Delete
    | Decimal
    | Compute
    | Operation(operator: CalculatorOperation)

  /** The actions the keypad can send: a `Number` is always one digit 0..9. */
  predicate IsKeypadAction(a: CalculatorAction) {
    a.Number? ==> 0 <= a.number <= 9
  }
}
