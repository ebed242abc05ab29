/**
 * The calculator's memory: an immutable record of the two operand texts and the
 * pending operator. Kotlin's `copy(field = ...)` is Dafny's datatype update
 * `s.(field := ...)`, which changes the named fields and keeps the others.
 */
module States {
  import opened Wrappers

  /**
   * The four binary operators with the glyph each shows on the display. The file
   * that declares `CalculatorOperation` is not part of this model; its cases and
   * glyphs are the ones the view model and the keypad use.
   */
  datatype CalculatorOperation = Add | Subtract | Multiply | Divide {
    function Symbol(): (r: string)
      ensures |r| == 1
    {
      match this
      case Add => "+"
      case Subtract => "-"
      case Multiply => "*"
      case Divide => "/"
    }
  }

  /** `CalculatorState()` with no arguments is the empty state. */
  datatype CalculatorState = CalculatorState(
    number1: string := "",
    number2: string := "",
    operator: Option<CalculatorOperation> := None)

  lemma DefaultState()
    ensures CalculatorState().number1 == ""
    ensures CalculatorState().number2 == ""
    ensures CalculatorState().operator == None
  {
  }

  /** The operand that input goes to: `number1` until an operator is chosen, then `number2`. */
  function Active(s: CalculatorState): string {
    if s.operator.None? then s.number1 else s.number2
  }

  /** The display line: first operand, the operator's glyph (if any), second operand. */
  function Display(s: CalculatorState): string {
    s.number1 + (if s.operator.Some? then s.operator.value.Symbol() else "") + s.number2
  }
}
