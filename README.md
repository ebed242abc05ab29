# Calculator input state machine

A model of the state machine behind a small Android calculator. The view model
keeps one `CalculatorState`: the text of the first operand (`number1`), the
text of the second operand (`number2`) and the pending operator. Each button
press becomes a `CalculatorAction`. `onAction` resets the state for Clear
itself, and hands every other action to one of five handlers:

- digit entry, capped at 8 characters;
- a guarded decimal point;
- choosing or replacing the operator;
- a backspace that works as a priority cascade;
- computing the result.

Every rejected input leaves the state unchanged.

Files:

- `calculator_state.dfy` (module `States`): the state record with its defaults, and the operators with their glyphs.
  Kotlin's `copy(field = ...)` is Dafny's datatype update `s.(field := ...)`.
- `calculator_action.dfy` (module `Actions`): the six action kinds.
  The hierarchy is closed, and Dafny checks that every `match` on it is exhaustive.
- `kotlin_text.dfy` (module `KotlinText`): the Kotlin string and `Int` operations the handlers use.
- `doubles.dfy` (module `Doubles`): `Double` parsing, arithmetic and formatting, taken as parameters.
- `calculator_reducer.dfy` (module `Reducer`): each handler as a pure function from the old state to the new one.
- `calculator_view_model.dfy` (module `ViewModel`): the view model as a class with a mutable `state` field.
  Each method is written like the source, with its early returns.
  Each method is proved to produce the state that its reducer function gives.
- `calculator_properties.dfy` (module `Properties`): what the handlers guarantee, alone and in sequence.

Only `number2` keeps the 8-character cap and the keypad shape (digits with at most one point) for good. Compute stores up to 15 characters of `Double.toString` output in `number1`, such as `"-5.0"` or `"NaN"`. So the model proves:

- the 8-character cap and the digit shape for `number2` under every sequence of keypad actions;
- the same for `number1` only until the first Compute (`Typed`);
- under every sequence of keypad actions, only that `number1` has at most 15 characters (`Bounded`).

## Model

| member | source | states |
|---|---|---|
| States.DefaultState | app/src/main/java/com/github/raulinn/calculator/CalculatorState.kt:4-8 | `CalculatorState()` has empty `number1` and `number2` and no operator |
| States.CalculatorOperation.Symbol | app/src/main/java/com/github/raulinn/calculator/Calculator.kt:44 | each operator's display glyph is a single character |
| KotlinText.IntText | app/src/main/java/com/github/raulinn/calculator/CalculatorViewModel.kt:87 | `Int.toString` is non-empty; it is all digits exactly when the value is not negative; it is one character exactly for 0..9 |
| KotlinText.NatText | app/src/main/java/com/github/raulinn/calculator/CalculatorViewModel.kt:87 | a non-negative value's numeral is digits only, has no leading zero, and is one character exactly for 0..9 |
| KotlinText.NatValueOfNatText | app/src/main/java/com/github/raulinn/calculator/CalculatorViewModel.kt:87 | reading the numeral back gives the number |
| KotlinText.IntTextRoundTrip | app/src/main/java/com/github/raulinn/calculator/CalculatorViewModel.kt:96 | the sign and the magnitude of an `Int` can be read back from its text |
| KotlinText.DigitIntText | app/src/main/java/com/github/raulinn/calculator/CalculatorViewModel.kt:87 | a keypad digit appends exactly its one digit character |
| KotlinText.DropLast | app/src/main/java/com/github/raulinn/calculator/CalculatorViewModel.kt:105 | `dropLast(1)` gives the empty string back unchanged, and otherwise a string that the removed last character completes to the input |
| KotlinText.Take | app/src/main/java/com/github/raulinn/calculator/CalculatorViewModel.kt:163 | `take(n)` is a prefix of at most n characters, and it is the whole string when the string fits |
| KotlinText.NotBlankAgrees | app/src/main/java/com/github/raulinn/calculator/CalculatorViewModel.kt:74 | on text without whitespace, the model's "not empty" is exactly Kotlin's `isNotBlank()` (used here and at lines 104, 110, 124 and 136), defined as "some character is not whitespace" |
| KotlinText.TypedNoWhitespace | app/src/main/java/com/github/raulinn/calculator/CalculatorViewModel.kt:124 | keypad text (digits and at most one point) holds no whitespace, so on it `isNotBlank()` means "not empty" |
| Doubles.Apply | app/src/main/java/com/github/raulinn/calculator/CalculatorViewModel.kt:155-159 | each operator applies its own `Double` operation: `+`, `-`, `*` or `/` on the two parsed operands |
| Reducer.ResultText | app/src/main/java/com/github/raulinn/calculator/CalculatorViewModel.kt:163 | the stored result is a prefix of the formatted result with at most 15 characters |
| Reducer.EnterOperation | app/src/main/java/com/github/raulinn/calculator/CalculatorViewModel.kt:73-79 | both operands are kept; once `number1` is not blank the operator becomes the chosen one and input goes to `number2` (kept as it was); otherwise nothing changes |
| Reducer.EnterNumber | app/src/main/java/com/github/raulinn/calculator/CalculatorViewModel.kt:81-100 | the operator and the other operand are kept; the active operand gets the number's text unless it is already 8 long |
| Reducer.EnterDecimal | app/src/main/java/com/github/raulinn/calculator/CalculatorViewModel.kt:120-145 | the operator and the other operand are kept; the active operand gets "." only if it is non-blank, has no "." and is shorter than 8 |
| Reducer.PerformDeletion | app/src/main/java/com/github/raulinn/calculator/CalculatorViewModel.kt:102-118 | the empty state stays as it is; any other state loses exactly one character or the operator: both operands become prefixes of what they were, the operator is kept or cleared, and the display line loses its last character |
| Reducer.Compute | app/src/main/java/com/github/raulinn/calculator/CalculatorViewModel.kt:147-167 | either nothing changes, or `number2` is empty, there is no operator and `number1` has at most 15 characters |
| Reducer.Reduce | app/src/main/java/com/github/raulinn/calculator/CalculatorViewModel.kt:60-71 | every keypad action keeps the invariant: `number2` needs an operator, `number2` has at most 8 characters and `number1` at most 15 |
| Reducer.Run | app/src/main/java/com/github/raulinn/calculator/CalculatorViewModel.kt:60-71 | any sequence of keypad actions keeps that invariant |
| ViewModel.CalculatorViewModel.constructor | app/src/main/java/com/github/raulinn/calculator/CalculatorViewModel.kt:18 | the view model starts in the default state |
| ViewModel.CalculatorViewModel.OnAction | app/src/main/java/com/github/raulinn/calculator/CalculatorViewModel.kt:60-71 | dispatch gives the reducer's next state and keeps the invariant for keypad actions |
| ViewModel.CalculatorViewModel.EnterOperation | app/src/main/java/com/github/raulinn/calculator/CalculatorViewModel.kt:73-79 | the new state is the one `Reducer.EnterOperation` gives |
| ViewModel.CalculatorViewModel.EnterNumber | app/src/main/java/com/github/raulinn/calculator/CalculatorViewModel.kt:81-100 | the new state is the one `Reducer.EnterNumber` gives |
| ViewModel.CalculatorViewModel.PerformDeletion | app/src/main/java/com/github/raulinn/calculator/CalculatorViewModel.kt:102-118 | the new state is the one `Reducer.PerformDeletion` gives |
| ViewModel.CalculatorViewModel.EnterDecimal | app/src/main/java/com/github/raulinn/calculator/CalculatorViewModel.kt:120-145 | the new state is the one `Reducer.EnterDecimal` gives |
| ViewModel.CalculatorViewModel.Compute | app/src/main/java/com/github/raulinn/calculator/CalculatorViewModel.kt:147-167 | the new state is the one `Reducer.Compute` gives |
| Properties.ClearResets | app/src/main/java/com/github/raulinn/calculator/CalculatorViewModel.kt:64 | Clear gives ("", "", none) from any state, and a second Clear changes nothing |
| Properties.NumberEntersDigit | app/src/main/java/com/github/raulinn/calculator/CalculatorViewModel.kt:81-100 | a digit goes to `number1` when there is no operator and to `number2` otherwise, as one character; if that operand already has 8 characters the state is unchanged |
| Properties.NumberAppendsToDisplay | app/src/main/java/com/github/raulinn/calculator/CalculatorViewModel.kt:81-100 | when `number2` is empty without an operator, an accepted number is typed at the end of the display line |
| Properties.NumberThenDelete | app/src/main/java/com/github/raulinn/calculator/CalculatorViewModel.kt:81-118 | Delete right after an accepted digit restores the earlier state |
| Properties.DecimalIdempotent | app/src/main/java/com/github/raulinn/calculator/CalculatorViewModel.kt:120-145 | a second Decimal changes nothing |
| Properties.RepeatedDecimal | app/src/main/java/com/github/raulinn/calculator/CalculatorViewModel.kt:120-145 | any number of Decimals acts as at most one |
| Properties.RepeatedDecimalOnePoint | app/src/main/java/com/github/raulinn/calculator/CalculatorViewModel.kt:120-145 | repeated Decimals add a point only to an operand that has none, and add only one |
| Properties.DecimalAppendsToDisplay | app/src/main/java/com/github/raulinn/calculator/CalculatorViewModel.kt:120-145 | an accepted point is typed at the end of the display line, and a rejected one changes nothing |
| Properties.DecimalThenDelete | app/src/main/java/com/github/raulinn/calculator/CalculatorViewModel.kt:102-145 | Delete right after an accepted point restores the earlier state |
| Properties.OperationSetsOrReplaces | app/src/main/java/com/github/raulinn/calculator/CalculatorViewModel.kt:73-79 | the operator is set or replaced exactly when `number1` is not blank, and `number2` is kept even when the operator is replaced |
| Properties.OperationThenDelete | app/src/main/java/com/github/raulinn/calculator/CalculatorViewModel.kt:73-118 | Delete right after the first operator is chosen takes it back |
| Properties.DeleteCascade | app/src/main/java/com/github/raulinn/calculator/CalculatorViewModel.kt:102-118 | Delete applies the first matching rule: shorten `number2`, else clear the operator, else shorten `number1` |
| Properties.DeleteIsBackspace | app/src/main/java/com/github/raulinn/calculator/CalculatorViewModel.kt:102-118 | on every state, Delete removes exactly the last character of the display line |
| Properties.DeleteNoOpIffEmpty | app/src/main/java/com/github/raulinn/calculator/CalculatorViewModel.kt:114-116 | Delete leaves the state unchanged exactly when the state is the empty one |
| Properties.DeleteDrains | app/src/main/java/com/github/raulinn/calculator/CalculatorViewModel.kt:102-118 | as many Deletes as the state has characters and operators bring any state back to the empty one |
| Properties.ComputeResult | app/src/main/java/com/github/raulinn/calculator/CalculatorViewModel.kt:147-167 | Compute gives (result cut to 15 characters, "", none) when both operands parse and an operator is set, and changes nothing otherwise |
| Properties.ResultIsFormattedPrefix | app/src/main/java/com/github/raulinn/calculator/CalculatorViewModel.kt:163 | the new `number1` is a prefix of the formatted result: all of it when it fits, and exactly 15 characters when it does not |
| Properties.ComputeIdempotent | app/src/main/java/com/github/raulinn/calculator/CalculatorViewModel.kt:160-166 | a Compute right after a Compute changes nothing, because no operator is pending |
| Properties.ComputeNeedsBothOperands | app/src/main/java/com/github/raulinn/calculator/CalculatorViewModel.kt:148-153 | when the empty string does not parse, Compute with an empty operand changes nothing |
| Properties.ReduceKeepsNumber2Typed | app/src/main/java/com/github/raulinn/calculator/CalculatorViewModel.kt:95-97 | every keypad action keeps `number2` as digits with at most one point, which is never first |
| Properties.RunKeepsNumber2Typed | app/src/main/java/com/github/raulinn/calculator/CalculatorViewModel.kt:133-143 | any sequence of keypad actions keeps that shape of `number2` |
| Properties.ReduceKeepsNumber1Typed | app/src/main/java/com/github/raulinn/calculator/CalculatorViewModel.kt:81-131 | every keypad action except Compute keeps `number1` as digits with at most one point, which is never first, within 8 characters |
| Properties.ReduceKeepsTyped | app/src/main/java/com/github/raulinn/calculator/CalculatorViewModel.kt:81-145 | every keypad action except Compute keeps both operands in that typed shape |
| Properties.RunWithoutComputeTyped | app/src/main/java/com/github/raulinn/calculator/CalculatorViewModel.kt:60-145 | any sequence of keypad actions without Compute keeps both operands in that typed shape |
| Properties.ScenarioTwoPlusThree | app/src/main/java/com/github/raulinn/calculator/CalculatorViewModel.kt:147-167 | ("2", "3", Add) followed by Compute gives (text of 2+3 cut to 15 characters, "", none) |
| Properties.ScenarioChained | app/src/main/java/com/github/raulinn/calculator/CalculatorViewModel.kt:147-167 | the keys 4 + 6 = then * 2 = compute through the first result |
| Properties.ScenarioMalformedCompute | app/src/main/java/com/github/raulinn/calculator/CalculatorViewModel.kt:151-153 | ("", "", Add) followed by Compute is unchanged |
| Properties.ScenarioOperatorReplace | app/src/main/java/com/github/raulinn/calculator/CalculatorViewModel.kt:73-79 | ("5", "3", Add) followed by choosing Subtract gives ("5", "3", Subtract) |

## Left out

- Floating point: `toDoubleOrNull`, the four `Double` operators (including division by zero) and `Double.toString` are parameters of the model (`Doubles.DoubleOps`), so no numeric value is verified. Apart from that abstraction, a property assumes only what its own requires say. `ComputeNeedsBothOperands`, `ScenarioMalformedCompute` and `ScenarioChained` need "" not to parse (`RejectsEmpty`). `ScenarioTwoPlusThree` needs "2" and "3" to parse. `ScenarioChained` needs "4", "6" and "2" to parse, and its second computation holds only when the first result parses.
- `isNotBlank` is modelled as "not empty". The model proves this agrees with Kotlin's whitespace-aware check on any text without whitespace (`NotBlankAgrees`). It proves keypad text has no whitespace (`TypedNoWhitespace`). So under keypad actions the two agree on `number2` always, and on `number1` until the first Compute. After a Compute, `number1` holds `Double.toString` output. That this output holds no whitespace is assumed, not proved.
- `Number` carries any 32-bit `Int`, and its text is appended as the source does. The invariants are proved only for keypad actions, whose digit is 0..9, because the keypad sends nothing else; a longer number could overrun the caps.
- The `MutableStateFlow` cell, `asStateFlow` and `update` are modelled as a plain mutable `state` field. Concurrent access to it is not modelled.
- The `Log` calls are I/O and are left out. The final `else` of the deletion cascade is therefore a no-op.
- The commented-out flow examples in the view model are not part of this model.
- `Calculator.kt` (button grid, layout, colours, previews) is UI. Only its display line appears, as `States.Display`.
- `MainActivity.kt` (activity lifecycle and theming) is platform code and is not part of this model.
- The file declaring `CalculatorOperation` is not part of this model. Its four cases and glyphs are taken from how the view model and the keypad use it.
