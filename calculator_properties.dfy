/** What the handlers promise, alone and in sequence. */
module Properties {
  import opened Wrappers
  import opened KotlinText
  import opened States
  import opened Doubles
  import opened Actions
  import opened Reducer

  /** `n` copies of one action. */
  function Repeat(a: CalculatorAction, n: nat): (r: seq<CalculatorAction>)
    ensures |r| == n && forall i :: 0 <= i < n ==> r[i] == a
  {
    seq(n, _ => a)
  }

  // ---------------------------------------------------------------- Clear

  /** Clear forgets everything, whatever came before. */
  lemma ClearResets<D>(num: DoubleOps<D>, s: CalculatorState)
    ensures Reduce(num, s, Clear) == CalculatorState("", "", None)
    ensures Reduce(num, Reduce(num, s, Clear), Clear) == Reduce(num, s, Clear)
  {
  }

  // ---------------------------------------------------------------- Number

  /** A keypad digit goes to the active operand as one character, or is dropped at the cap. */
  lemma NumberEntersDigit<D>(num: DoubleOps<D>, s: CalculatorState, d: Int32)
    requires 0 <= d <= 9
    ensures var t := Reduce(num, s, Number(d));
      && t.operator == s.operator
      && (if s.operator.None? then t.number2 == s.number2 else t.number1 == s.number1)
      && (if |Active(s)| >= MaxNumLength then t == s
          else Active(t) == Active(s) + [DigitChar(d as int)] && |Active(t)| == |Active(s)| + 1)
  {

  }

  /** With the second operand gated behind the operator, a digit is typed at the end of the display. */
  lemma NumberAppendsToDisplay<D>(num: DoubleOps<D>, s: CalculatorState, d: Int32)
    requires s.operator.None? ==> s.number2 == ""
    requires |Active(s)| < MaxNumLength
    ensures Display(Reduce(num, s, Number(d))) == Display(s) + IntText(d as int)
  {
  }

  /** Deleting right after a digit was accepted gives back the state before it. */
  lemma NumberThenDelete<D>(num: DoubleOps<D>, s: CalculatorState, d: Int32)
    requires 0 <= d <= 9
    requires s.operator.None? ==> s.number2 == ""
    requires |Active(s)| < MaxNumLength
    ensures Reduce(num, Reduce(num, s, Number(d)), Delete) == s
  {

  }

  // ---------------------------------------------------------------- Decimal

  /** A second Decimal never changes anything. */
  lemma DecimalIdempotent<D>(num: DoubleOps<D>, s: CalculatorState)
    ensures Reduce(num, Reduce(num, s, Decimal), Decimal) == Reduce(num, s, Decimal)
  {
  }

  /** Any number of Decimals act as at most one. */
  lemma {:induction false} RepeatedDecimal<D>(num: DoubleOps<D>, s: CalculatorState, n: nat)
    ensures Run(num, s, Repeat(Decimal, n)) == if n == 0 then s else EnterDecimal(s)
    decreases n
  {
    if n > 0 {
      assert Repeat(Decimal, n)[1..] == Repeat(Decimal, n - 1);
      RepeatedDecimal(num, EnterDecimal(s), n - 1);
      DecimalIdempotent(num, s);
    }
  }

  /** Repeated Decimals add a point only to an operand that has none, and then only one. */
  lemma RepeatedDecimalOnePoint<D>(num: DoubleOps<D>, s: CalculatorState, n: nat)
    ensures var t := Run(num, s, Repeat(Decimal, n));
      || DotCount(Active(t)) == DotCount(Active(s))
      || (DotCount(Active(s)) == 0 && DotCount(Active(t)) == 1)
    ensures DotCount(Active(s)) <= 1 ==> DotCount(Active(Run(num, s, Repeat(Decimal, n)))) <= 1
  {
    RepeatedDecimal(num, s, n);
    var x := Active(s);
    assert multiset(x + ".") == multiset(x) + multiset{'.'};
  }

  /** A point accepted with the second operand gated is typed at the end of the display. */
  lemma DecimalAppendsToDisplay<D>(num: DoubleOps<D>, s: CalculatorState)
    requires s.operator.None? ==> s.number2 == ""
    ensures var t := Reduce(num, s, Decimal);
      Display(t) == if AcceptsDot(Active(s)) then Display(s) + "." else Display(s)
  {
  }

  /** Deleting right after an accepted point gives back the state before it. */
  lemma DecimalThenDelete<D>(num: DoubleOps<D>, s: CalculatorState)
    requires s.operator.None? ==> s.number2 == ""
    requires AcceptsDot(Active(s))
    ensures Reduce(num, Reduce(num, s, Decimal), Delete) == s
  {

  }

  // ---------------------------------------------------------------- Operation

  /** Choosing an operator takes effect exactly when `number1` has text, and keeps both operands. */
  lemma OperationSetsOrReplaces<D>(num: DoubleOps<D>, s: CalculatorState, op: CalculatorOperation)
    ensures var t := Reduce(num, s, Operation(op));
      && t.number1 == s.number1 && t.number2 == s.number2
      && (t.operator == Some(op) <==> IsNotBlank(s.number1) || s.operator == Some(op))
      && (!IsNotBlank(s.number1) ==> t == s)
  {
  }

  /** Deleting right after the first operator was chosen takes it back. */
  lemma OperationThenDelete<D>(num: DoubleOps<D>, s: CalculatorState, op: CalculatorOperation)
    requires s.operator.None? && s.number2 == "" && IsNotBlank(s.number1)
    ensures Reduce(num, Reduce(num, s, Operation(op)), Delete) == s
  {
  }

  // ---------------------------------------------------------------- Delete

  /** Delete takes the first rule that applies: second operand, then operator, then first operand. */
  lemma DeleteCascade<D>(num: DoubleOps<D>, s: CalculatorState)
    ensures var t := Reduce(num, s, Delete);
      && (IsNotBlank(s.number2) ==>
            t.number1 == s.number1 && t.operator == s.operator && t.number2 + [s.number2[|s.number2| - 1]] == s.number2)
      && (!IsNotBlank(s.number2) && s.operator.Some? ==>
            t.number1 == s.number1 && t.number2 == s.number2 && t.operator.None?)
      && (!IsNotBlank(s.number2) && s.operator.None? && IsNotBlank(s.number1) ==>
            t.number2 == s.number2 && t.operator == s.operator && t.number1 + [s.number1[|s.number1| - 1]] == s.number1)
  {
  }

  /** Delete is backspace on the display line, on every state. */
  lemma DeleteIsBackspace<D>(num: DoubleOps<D>, s: CalculatorState)
    ensures Display(Reduce(num, s, Delete)) == DropLast(Display(s))
  {

  }

  /** Delete leaves the state unchanged exactly when there is nothing left to delete. */
  lemma DeleteNoOpIffEmpty<D>(num: DoubleOps<D>, s: CalculatorState)
    ensures Reduce(num, s, Delete) == s <==> s == CalculatorState()
  {
  }

  /** As many Deletes as the state has characters and operators empty it completely. */
  lemma {:induction false} DeleteDrains<D>(num: DoubleOps<D>, s: CalculatorState)
    ensures Run(num, s, Repeat(Delete, Size(s))) == CalculatorState()
    decreases Size(s)
  {
    if s != CalculatorState() {
      var t := Reduce(num, s, Delete);
      assert Repeat(Delete, Size(s))[1..] == Repeat(Delete, Size(t));
      DeleteDrains(num, t);
    }
  }

  // ---------------------------------------------------------------- Compute

  /** Compute replaces the state by the cut result exactly when both operands parse and an operator is set. */
  lemma ComputeResult<D>(num: DoubleOps<D>, s: CalculatorState)
    ensures Computable(num, s) ==>
      Reduce(num, s, Compute) == CalculatorState(ResultText(num, s), "", None)
    ensures !Computable(num, s) ==> Reduce(num, s, Compute) == s
    ensures Computable(num, s) ==> |Reduce(num, s, Compute).number1| <= ResultLength
  {
  }

  /** The result is a prefix of the formatted number, and all of it when it fits. */
  lemma ResultIsFormattedPrefix<D>(num: DoubleOps<D>, s: CalculatorState)
    requires Computable(num, s)
    ensures var shown := num.show(Apply(num, s.operator.value, num.parse(s.number1).value, num.parse(s.number2).value));
      && ResultText(num, s) <= shown
      && (|shown| <= ResultLength ==> ResultText(num, s) == shown)
      && (|shown| > ResultLength ==> |ResultText(num, s)| == ResultLength)
  {
  }

  /** A second Compute right after the first changes nothing: no operator is pending any more. */
  lemma ComputeIdempotent<D>(num: DoubleOps<D>, s: CalculatorState)
    ensures Reduce(num, Reduce(num, s, Compute), Compute) == Reduce(num, s, Compute)
  {
  }

  /** With an empty operand nothing is computed. */
  lemma ComputeNeedsBothOperands<D>(num: DoubleOps<D>, s: CalculatorState)
    requires RejectsEmpty(num)
    requires s.number1 == "" || s.number2 == ""
    ensures Reduce(num, s, Compute) == s
  {
  }

  // ---------------------------------------------------------------- Invariants

  /** The second operand is always keypad text: digits with at most one, never leading, point. */
  predicate Number2Typed(s: CalculatorState) {
    IsTypedNumeral(s.number2)
  }

  lemma ReduceKeepsNumber2Typed<D>(num: DoubleOps<D>, s: CalculatorState, a: CalculatorAction)
    requires Number2Typed(s) && IsKeypadAction(a)
    ensures Number2Typed(Reduce(num, s, a))
  {
    match a
    case Number(d) => if s.operator.Some? && |s.number2| < MaxNumLength { AppendDigitTyped(s.number2, d as int); }
    case Decimal => if s.operator.Some? && AcceptsDot(s.number2) { AppendDotTyped(s.number2); }
    case Delete => DropLastTyped(s.number2);
    case _ =>
  }

  lemma {:induction false} RunKeepsNumber2Typed<D>(num: DoubleOps<D>, s: CalculatorState, acts: seq<CalculatorAction>)
    requires Number2Typed(s)
    requires forall i :: 0 <= i < |acts| ==> IsKeypadAction(acts[i])
    ensures Number2Typed(Run(num, s, acts))
    decreases |acts|
  {
    if acts != [] {
      ReduceKeepsNumber2Typed(num, s, acts[0]);
      RunKeepsNumber2Typed(num, Reduce(num, s, acts[0]), acts[1..]);
    }
  }

  /**
   * Until the first Compute both operands are keypad text within the entry cap; a
   * result may be longer and may be text such as "-5.0" or "NaN".
   */
  predicate Typed(s: CalculatorState) {
    && Bounded(s)
    && IsTypedNumeral(s.number1) && IsTypedNumeral(s.number2)
    && |s.number1| <= MaxNumLength
  }

  /** Until a Compute, the first operand is keypad text within the entry cap. */
  lemma ReduceKeepsNumber1Typed<D>(num: DoubleOps<D>, s: CalculatorState, a: CalculatorAction)
    requires IsTypedNumeral(s.number1) && |s.number1| <= MaxNumLength
    requires IsKeypadAction(a) && !a.Compute?
    ensures IsTypedNumeral(Reduce(num, s, a).number1) && |Reduce(num, s, a).number1| <= MaxNumLength
  {
    var x := Reduce(num, s, a).number1;
    match a
    case Number(d) =>
      assert x == EnterNumber(s, d as int).number1;
      if s.operator.None? && |s.number1| < MaxNumLength {
        AppendDigitTyped(s.number1, d as int);
      }
    case Decimal =>
      assert x == EnterDecimal(s).number1;
      if s.operator.None? && AcceptsDot(s.number1) {
        AppendDotTyped(s.number1);
      }
    case Delete =>
      assert x == s.number1 || x == DropLast(s.number1);
      DropLastTyped(s.number1);
    case Clear =>
    case Operation(op) =>
  }

  lemma ReduceKeepsTyped<D>(num: DoubleOps<D>, s: CalculatorState, a: CalculatorAction)
    requires Typed(s) && IsKeypadAction(a) && !a.Compute?
    ensures Typed(Reduce(num, s, a))
  {
    ReduceKeepsNumber1Typed(num, s, a);
    ReduceKeepsNumber2Typed(num, s, a);
  }

  lemma {:induction false} RunWithoutComputeTyped<D>(num: DoubleOps<D>, s: CalculatorState, acts: seq<CalculatorAction>)
    requires Typed(s)
    requires forall i :: 0 <= i < |acts| ==> IsKeypadAction(acts[i]) && !acts[i].Compute?
    ensures Typed(Run(num, s, acts))
    decreases |acts|
  {
    if acts != [] {
      ReduceKeepsTyped(num, s, acts[0]);
      RunWithoutComputeTyped(num, Reduce(num, s, acts[0]), acts[1..]);
    }
  }

  // ---------------------------------------------------------------- Scenarios

  /** "2" + "3" gives the formatted sum, cut to 15 characters, as the new first operand. */
  lemma ScenarioTwoPlusThree<D>(num: DoubleOps<D>)
    requires num.parse("2").Some? && num.parse("3").Some?
    ensures Reduce(num, CalculatorState("2", "3", Some(Add)), Compute)
         == CalculatorState(Take(num.show(num.plus(num.parse("2").value, num.parse("3").value)), ResultLength), "", None)
  {
  }

  /** 4 + 6 = then * 2 = chains through the first result. */
  lemma ScenarioChained<D>(num: DoubleOps<D>)
    requires RejectsEmpty(num)
    requires num.parse("4").Some? && num.parse("6").Some? && num.parse("2").Some?
    ensures var ten := Take(num.show(num.plus(num.parse("4").value, num.parse("6").value)), ResultLength);
      && Run(num, CalculatorState(), [Number(4), Operation(Add), Number(6), Compute])
         == CalculatorState(ten, "", None)
      && (num.parse(ten).Some? ==>
          Run(num, CalculatorState(ten, "", None), [Operation(Multiply), Number(2), Compute])
          == CalculatorState(Take(num.show(num.times(num.parse(ten).value, num.parse("2").value)), ResultLength), "", None))
  {
    DigitIntText(4);
    DigitIntText(6);
    DigitIntText(2);
    var s1 := Reduce(num, CalculatorState(), Number(4));
    assert s1 == CalculatorState("4", "", None);
    var s2 := Reduce(num, s1, Operation(Add));
    assert s2 == CalculatorState("4", "", Some(Add));
    var s3 := Reduce(num, s2, Number(6));
    assert s3 == CalculatorState("4", "6", Some(Add));
    var ten := Take(num.show(num.plus(num.parse("4").value, num.parse("6").value)), ResultLength);
    assert Reduce(num, s3, Compute) == CalculatorState(ten, "", None);
    assert [Number(4), Operation(Add), Number(6), Compute][1..] == [Operation(Add), Number(6), Compute];
    assert [Operation(Add), Number(6), Compute][1..] == [Number(6), Compute];
    assert [Number(6), Compute][1..] == [Compute];
    assert [Compute][1..] == [];
    if num.parse(ten).Some? {
      assert ten != "";
      var u1 := Reduce(num, CalculatorState(ten, "", None), Operation(Multiply));
      assert u1 == CalculatorState(ten, "", Some(Multiply));
      var u2 := Reduce(num, u1, Number(2));
      assert u2 == CalculatorState(ten, "2", Some(Multiply));
      assert [Operation(Multiply), Number(2), Compute][1..] == [Number(2), Compute];
      assert [Number(2), Compute][1..] == [Compute];
    }
  }

  /** Computing with nothing typed changes nothing. */
  lemma ScenarioMalformedCompute<D>(num: DoubleOps<D>)
    requires RejectsEmpty(num)
    ensures Reduce(num, CalculatorState("", "", Some(Add)), Compute) == CalculatorState("", "", Some(Add))
  {
  }

  /** Replacing the operator keeps the second operand. */
  lemma ScenarioOperatorReplace<D>(num: DoubleOps<D>)
    ensures Reduce(num, CalculatorState("5", "3", Some(Add)), Operation(Subtract))
         == CalculatorState("5", "3", Some(Subtract))
  {
  }
}
