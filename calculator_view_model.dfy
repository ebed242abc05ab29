/**
 * The view model: one mutable `state` cell, seeded with the empty state, that
 * each handler overwrites. The flow wrapper around the cell and the logging are
 * not modelled. The handlers are private in the source; Dafny has no private
 * members, so they are ordinary methods here.
 */
module ViewModel {
  import opened Wrappers
  import opened KotlinText
  import opened States
  import opened Doubles
  import opened Actions
  import Reducer

  class CalculatorViewModel<!D> {
    /** The floating-point operations the computation uses. */
    const numerics: DoubleOps<D>
    var state: CalculatorState

    constructor (numerics: DoubleOps<D>)
      ensures this.numerics == numerics
      ensures state == CalculatorState()
    {
      this.numerics := numerics;
      state := CalculatorState();
    }

    method OnAction(action: CalculatorAction)
      modifies this
      ensures state == Reducer.Reduce(numerics, old(state), action)
      ensures Reducer.Bounded(old(state)) && IsKeypadAction(action) ==> Reducer.Bounded(state)
    {
      match action
      case Clear => state := CalculatorState();
      case Compute => Compute();
      case Decimal => EnterDecimal();
      case Delete => PerformDeletion();
      case Number(number) => EnterNumber(number);
      case Operation(operator) => EnterOperation(operator);
    }

    method EnterOperation(operator: CalculatorOperation)
      modifies this
      ensures state == Reducer.EnterOperation(old(state), operator)
    {
      if IsNotBlank(state.number1) {
        state := state.(operator := Some(operator));
      }
    }

    method EnterNumber(number: Int32)
      modifies this
      ensures state == Reducer.EnterNumber(old(state), number as int)
    {
      if state.operator.None? {
        if |state.number1| >= Reducer.MaxNumLength {
          return;
        }
        state := state.(number1 := state.number1 + IntText(number as int));
        return;
      }
      if state.operator.Some? {
        if |state.number2| >= Reducer.MaxNumLength {
          return;
        }
        state := state.(number2 := state.number2 + IntText(number as int));
        return;
      }
    }

    method PerformDeletion()
      modifies this
      ensures state == Reducer.PerformDeletion(old(state))
    {
      if IsNotBlank(state.number2) {
        state := state.(number2 := DropLast(state.number2));
      } else if state.operator.Some? {
        state := state.(operator := None);
      } else if IsNotBlank(state.number1) {
        state := state.(number1 := DropLast(state.number1));
      }
    }

    method EnterDecimal()
      modifies this
      ensures state == Reducer.EnterDecimal(old(state))
    {
      if state.operator.None? && '.' !in state.number1 && IsNotBlank(state.number1)
        && |state.number1| < Reducer.MaxNumLength
      {
        state := state.(number1 := state.number1 + ".");
        return;
      }
      if state.operator.Some? && '.' !in state.number2 && IsNotBlank(state.number2)
        && |state.number2| < Reducer.MaxNumLength
      {
        state := state.(number2 := state.number2 + ".");
        return;
      }
    }

    method Compute()
      modifies this
      ensures state == Reducer.Compute(numerics, old(state))
    {
      var number1 := numerics.parse(state.number1);
      var number2 := numerics.parse(state.number2);
      if number1.None? || number2.None? {
        return;
      }
      var result: D;
      match state.operator {
        case Some(Add) => result := numerics.plus(number1.value, number2.value);
        case Some(Divide) => result := numerics.div(number1.value, number2.value);
        case Some(Multiply) => result := numerics.times(number1.value, number2.value);
        case Some(Subtract) => result := numerics.minus(number1.value, number2.value);
        case None => return;
      }
      state := state.(number1 := Take(numerics.show(result), Reducer.ResultLength), number2 := "", operator := None);
    }
  }
}
