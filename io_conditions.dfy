/**
  Conditions over comparisons evaluated against the in-memory I/O state:
  the tree of module `Conditions` with comparison leaves resolved through
  an `IoState` snapshot, as the source's unit test for `BooleanExpr` uses it.
 */
module IoConditions {
  import opened Io
  import opened Sources
  import opened Conditions

  /** The leaf evaluator for comparisons: `CompareOn` with the resolution of
      outputs and the meaning of the operators fixed. */
  function ComparisonLeaf(output: (string, IoSnapshot) -> Result<Value>,
                          apply: (Comparator, Value, Value) -> bool): (Comparison, IoSnapshot) -> Result<bool>
  {
    (c: Comparison, io: IoSnapshot) => CompareOn(c, io, output, apply)
  }

  /** A condition that reads input "z" only behind `False &&` succeeds on a
      state without "z", although the comparison on its own fails there
      with `NotFound`, and fails once the left operand no longer
      short-circuits. */
  lemma MissingInputOnSkippedBranch(io: IoState, right: Source,
                                    output: (string, IoSnapshot) -> Result<Value>,
                                    apply: (Comparator, Value, Value) -> bool)
    requires "z" !in io.inputs
    ensures var z := In("z").CmpGt(right);
      CompareOn(z, io.Snapshot(), output, apply) == Err(NotFound(NoSuchInput))
    ensures var z := In("z").CmpGt(right);
      Evaluate(And(False, Eval(z)), io.Snapshot(), ComparisonLeaf(output, apply)) == Ok(false) &&
      Consulted(And(False, Eval(z)), io.Snapshot(), ComparisonLeaf(output, apply)) == []
    ensures var z := In("z").CmpGt(right);
      Evaluate(And(True, Eval(z)), io.Snapshot(), ComparisonLeaf(output, apply)) == Err(NotFound(NoSuchInput))
  {
  }

  /** The conditions of the source's unit test on a state where inputs
      "x" and "y" are set: `x > five && y == t`, `x > five || y == t` and
      `!(x > five)` compute the conjunction, disjunction and negation of the
      two comparisons on the stored values, and `True` is true. */
  lemma InputComparisonsOnState(io: IoState, five: Value, t: Value,
                                output: (string, IoSnapshot) -> Result<Value>,
                                apply: (Comparator, Value, Value) -> bool)
    requires "x" in io.inputs && "y" in io.inputs
    ensures var gt, eq, leaf := In("x").CmpGt(Const(five)), In("y").CmpEq(Const(t)), ComparisonLeaf(output, apply);
      var x, y := apply(Greater, io.inputs["x"], five), apply(Equal, io.inputs["y"], t);
      Evaluate(And(Eval(gt), Eval(eq)), io.Snapshot(), leaf) == Ok(x && y) &&
      Evaluate(Or(Eval(gt), Eval(eq)), io.Snapshot(), leaf) == Ok(x || y) &&
      Evaluate(Not(Eval(gt)), io.Snapshot(), leaf) == Ok(!x) &&
      Evaluate(True, io.Snapshot(), leaf) == Ok(true)
  {
  }

  /** Inputs and outputs are separate namespaces: a condition none of whose
      comparisons refers to an output evaluates the same, consulting the same
      leaves, in any two states with equal inputs, for instance before and
      after an `IoState.Write`. */
  lemma {:induction false} OutputsDoNotAffectInputConditions(
    e: BooleanExpr<Comparison>, io: IoSnapshot, io': IoSnapshot,
    output: (string, IoSnapshot) -> Result<Value>, apply: (Comparator, Value, Value) -> bool)
    requires io.inputs == io'.inputs
    requires forall c :: c in Leaves(e) ==> !c.left.Out? && !c.right.Out?
    ensures Evaluate(e, io', ComparisonLeaf(output, apply)) == Evaluate(e, io, ComparisonLeaf(output, apply))
    ensures Consulted(e, io', ComparisonLeaf(output, apply)) == Consulted(e, io, ComparisonLeaf(output, apply))
  {
    var leaf := ComparisonLeaf(output, apply);
    ConsultedAreLeaves(e, io, leaf);
    forall c | c in Consulted(e, io, leaf) ensures leaf(c, io) == leaf(c, io') {
      assert c in Leaves(e);
    }
    OnlyConsultedLeavesMatter(e, io, leaf, io', leaf);
  }

  /** Writing an output between two evaluations leaves every condition over
      inputs and constants with the same result: `before` and `after` are
      the evaluations of `e` on the state before and after the write. */
  method WriteKeepsInputConditions(io: IoState, id: string, v: Value, e: BooleanExpr<Comparison>,
                                   output: (string, IoSnapshot) -> Result<Value>,
                                   apply: (Comparator, Value, Value) -> bool)
    returns (before: Result<bool>, after: Result<bool>)
    requires forall c :: c in Leaves(e) ==> !c.left.Out? && !c.right.Out?
    modifies io
    ensures before == Evaluate(e, old(io.Snapshot()), ComparisonLeaf(output, apply))
    ensures after == Evaluate(e, io.Snapshot(), ComparisonLeaf(output, apply))
    ensures before == after
    ensures io.outputs == old(io.outputs)[id := v] && io.inputs == old(io.inputs)
  {
    before := Evaluate(e, io.Snapshot(), ComparisonLeaf(output, apply));
    var _ := io.Write(id, v);
    after := Evaluate(e, io.Snapshot(), ComparisonLeaf(output, apply));
    OutputsDoNotAffectInputConditions(e, old(io.Snapshot()), io.Snapshot(), output, apply);
  }
}
