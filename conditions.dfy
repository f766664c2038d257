/**
  The condition engine: boolean expression trees over leaves of any type,
  evaluated against an I/O state with left-to-right short-circuiting and
  early return of the first error.

  Leaf evaluation is a parameter `leaf: (T, S) -> Result<bool>` over the
  leaf type `T` and the state type `S`. The state is a value: for `IoState`
  it is `IoSnapshot`, the contents of both maps. That is exact because
  reads of `IoState` change nothing, and for leaves that only read, as
  comparisons do; a leaf that writes during an evaluation is not modelled
  (module `IoConditions` evaluates comparisons against the snapshot).
 */
module Conditions {
  import opened Io

  datatype BooleanExpr<T> =
    | True
    | False
    | And(left: BooleanExpr<T>, right: BooleanExpr<T>)
    | Or(left: BooleanExpr<T>, right: BooleanExpr<T>)
    | Not(inner: BooleanExpr<T>)
      /** a leaf whose truth is known only at evaluation time */
    | Eval(leaf: T)

  /** The source's `eval`: `&&` and `||` evaluate their right operand only
      when the left one did not already decide the result, and the first
      error ends the evaluation. The tree itself never fails: when every
      leaf succeeds, so does the evaluation. */
  function Evaluate<T, S>(e: BooleanExpr<T>, io: S, leaf: (T, S) -> Result<bool>): (r: Result<bool>)
    ensures (forall t :: t in Leaves(e) ==> leaf(t, io).Ok?) ==> r.Ok?
  {
    match e
    case True => Ok(true)
    case False => Ok(false)
    case And(a, b) =>
      var x :- Evaluate(a, io, leaf);
      if x then Evaluate(b, io, leaf) else Ok(false)
    case Or(a, b) =>
      var x :- Evaluate(a, io, leaf);
      if x then Ok(true) else Evaluate(b, io, leaf)
    case Not(a) =>
      var x :- Evaluate(a, io, leaf);
      Ok(!x)
    case Eval(t) => leaf(t, io)
  }

  /** The leaves `Evaluate` hands to `leaf`, in the order it does so. */
  function Consulted<T, S>(e: BooleanExpr<T>, io: S, leaf: (T, S) -> Result<bool>): seq<T>
  {
    match e
    case True => []
    case False => []
    case And(a, b) =>
      Consulted(a, io, leaf) + (if Evaluate(a, io, leaf) == Ok(true) then Consulted(b, io, leaf) else [])
    case Or(a, b) =>
      Consulted(a, io, leaf) + (if Evaluate(a, io, leaf) == Ok(false) then Consulted(b, io, leaf) else [])
    case Not(a) => Consulted(a, io, leaf)
    case Eval(t) => [t]
  }

  /** All leaves of the tree, left to right. */
  function Leaves<T>(e: BooleanExpr<T>): seq<T>
  {
    match e
    case True => []
    case False => []
    case And(a, b) => Leaves(a) + Leaves(b)
    case Or(a, b) => Leaves(a) + Leaves(b)
    case Not(a) => Leaves(a)
    case Eval(t) => [t]
  }

  /** Reference semantics: the plain boolean meaning of the tree once every
      leaf has a truth value. */
  function Denote<T>(e: BooleanExpr<T>, truth: T -> bool): bool
  {
    match e
    case True => true
    case False => false
    case And(a, b) => Denote(a, truth) && Denote(b, truth)
    case Or(a, b) => Denote(a, truth) || Denote(b, truth)
    case Not(a) => !Denote(a, truth)
    case Eval(t) => truth(t)
  }

  /** `a` is `b` with some elements left out, the rest in their order. */
  ghost predicate IsSubsequence<T>(a: seq<T>, b: seq<T>)
    decreases |b|
  {
    a == [] || (b != [] && ((a[0] == b[0] && IsSubsequence(a[1..], b[1..])) || IsSubsequence(a, b[1..])))
  }

  // ---------------------------------------------------------------------
  // One evaluation step per constructor

  /** `True` and `False` give their literal whatever the state and the
      leaf evaluator, and consult no leaf. */
  lemma ConstantsIgnoreState<T, S>(io: S, leaf: (T, S) -> Result<bool>)
    ensures Evaluate(True, io, leaf) == Ok(true) && Consulted(True, io, leaf) == []
    ensures Evaluate(False, io, leaf) == Ok(false) && Consulted(False, io, leaf) == []
  {
  }

  /** `And(a, b)`: an error of `a` is returned unchanged and `Ok(false)`
      from `a` decides the result, in both cases without consulting `b`;
      only after `Ok(true)` is `b` evaluated, and then its result is the
      result. */
  lemma AndShortCircuits<T, S>(a: BooleanExpr<T>, b: BooleanExpr<T>, io: S, leaf: (T, S) -> Result<bool>)
    ensures Evaluate(a, io, leaf) != Ok(true) ==>
      Evaluate(And(a, b), io, leaf) == Evaluate(a, io, leaf) &&
      Consulted(And(a, b), io, leaf) == Consulted(a, io, leaf)
    ensures Evaluate(a, io, leaf) == Ok(true) ==>
      Evaluate(And(a, b), io, leaf) == Evaluate(b, io, leaf) &&
      Consulted(And(a, b), io, leaf) == Consulted(a, io, leaf) + Consulted(b, io, leaf)
  {
  }

  /** `Or(a, b)`: an error of `a` is returned unchanged and `Ok(true)` from
      `a` decides the result, in both cases without consulting `b`; only
      after `Ok(false)` is `b` evaluated, and then its result is the
      result. */
  lemma OrShortCircuits<T, S>(a: BooleanExpr<T>, b: BooleanExpr<T>, io: S, leaf: (T, S) -> Result<bool>)
    ensures Evaluate(a, io, leaf) != Ok(false) ==>
      Evaluate(Or(a, b), io, leaf) == Evaluate(a, io, leaf) &&
      Consulted(Or(a, b), io, leaf) == Consulted(a, io, leaf)
    ensures Evaluate(a, io, leaf) == Ok(false) ==>
      Evaluate(Or(a, b), io, leaf) == Evaluate(b, io, leaf) &&
      Consulted(Or(a, b), io, leaf) == Consulted(a, io, leaf) + Consulted(b, io, leaf)
  {
  }

  /** `Not(x)` negates a successful result of `x` and returns its error
      unchanged; so `Not(Not(x))` evaluates exactly like `x` and consults the
      same leaves. `Eval(t)` returns exactly the leaf's own result. */
  lemma NotAndLeaf<T, S>(x: BooleanExpr<T>, t: T, io: S, leaf: (T, S) -> Result<bool>)
    ensures Evaluate(Not(x), io, leaf) ==
      (if Evaluate(x, io, leaf).Ok? then Ok(!Evaluate(x, io, leaf).value) else Evaluate(x, io, leaf))
    ensures Evaluate(Not(Not(x)), io, leaf) == Evaluate(x, io, leaf)
    ensures Consulted(Not(Not(x)), io, leaf) == Consulted(x, io, leaf)
    ensures Evaluate(Eval(t), io, leaf) == leaf(t, io) && Consulted(Eval(t), io, leaf) == [t]
  {
  }

  /** A failing read on a branch that short-circuiting skips is never
      raised: `False && e` is `Ok(false)` and `True || e` is `Ok(true)` for
      every `e`, even one whose evaluation fails, and neither consults a
      leaf. */
  lemma SkippedBranchNeverFails<T, S>(e: BooleanExpr<T>, io: S, leaf: (T, S) -> Result<bool>)
    ensures Evaluate(And(False, e), io, leaf) == Ok(false) && Consulted(And(False, e), io, leaf) == []
    ensures Evaluate(Or(True, e), io, leaf) == Ok(true) && Consulted(Or(True, e), io, leaf) == []
  {
  }

  // ---------------------------------------------------------------------
  // Properties of whole evaluations

  /** Only the consulted leaves matter: two evaluations (other states,
      other leaf evaluators) that give the same results on the leaves the
      first one consults yield the same result and consult the same leaves.
      In particular nothing on a skipped branch, and no gate that no
      consulted leaf reads, can change the outcome. */
  lemma {:induction false} OnlyConsultedLeavesMatter<T, S>(
    e: BooleanExpr<T>, io: S, leaf: (T, S) -> Result<bool>,
    io': S, leaf': (T, S) -> Result<bool>)
    requires forall t :: t in Consulted(e, io, leaf) ==> leaf(t, io) == leaf'(t, io')
    ensures Evaluate(e, io', leaf') == Evaluate(e, io, leaf)
    ensures Consulted(e, io', leaf') == Consulted(e, io, leaf)
  {
    match e
    case True =>
    case False =>
    case And(a, b) =>
      OnlyConsultedLeavesMatter(a, io, leaf, io', leaf');
      if Evaluate(a, io, leaf) == Ok(true) {
        OnlyConsultedLeavesMatter(b, io, leaf, io', leaf');
      }
    case Or(a, b) =>
      OnlyConsultedLeavesMatter(a, io, leaf, io', leaf');
      if Evaluate(a, io, leaf) == Ok(false) {
        OnlyConsultedLeavesMatter(b, io, leaf, io', leaf');
      }
    case Not(a) =>
      OnlyConsultedLeavesMatter(a, io, leaf, io', leaf');
    case Eval(t) =>
  }

  /** Evaluation consults leaves in the tree's left-to-right order and
      consults each occurrence at most once: the consulted leaves are a
      subsequence of all leaves. */
  lemma {:induction false} ConsultedInLeafOrder<T, S>(e: BooleanExpr<T>, io: S, leaf: (T, S) -> Result<bool>)
    ensures IsSubsequence(Consulted(e, io, leaf), Leaves(e))
  {
    match e
    case True =>
    case False =>
    case And(a, b) =>
      ConsultedInLeafOrder(a, io, leaf);
      ConsultedInLeafOrder(b, io, leaf);
      SubsequenceOfEmpty(Leaves(b));
      SubsequenceConcat(Consulted(a, io, leaf), Leaves(a),
        if Evaluate(a, io, leaf) == Ok(true) then Consulted(b, io, leaf) else [], Leaves(b));
    case Or(a, b) =>
      ConsultedInLeafOrder(a, io, leaf);
      ConsultedInLeafOrder(b, io, leaf);
      SubsequenceOfEmpty(Leaves(b));
      SubsequenceConcat(Consulted(a, io, leaf), Leaves(a),
        if Evaluate(a, io, leaf) == Ok(false) then Consulted(b, io, leaf) else [], Leaves(b));
    case Not(a) =>
      ConsultedInLeafOrder(a, io, leaf);
    case Eval(t) =>
      assert IsSubsequence([t][1..], [t][1..]);
  }

  /** What the trace `c` of an evaluation with result `r` looks like when
      the first error aborts it: every leaf consulted before the last one
      succeeded, a successful evaluation saw only successful leaves, and a
      failed one ended at a failing leaf whose error it returns unchanged. */
  ghost predicate AbortsAtFirstError<T, S>(c: seq<T>, r: Result<bool>, io: S, leaf: (T, S) -> Result<bool>)
  {
    && (forall i :: 0 <= i < |c| - 1 ==> leaf(c[i], io).Ok?)
    && (r.Ok? ==> forall i :: 0 <= i < |c| ==> leaf(c[i], io).Ok?)
    && (r.Err? <==> (|c| > 0 && leaf(c[|c| - 1], io).Err?))
    && (r.Err? ==> r == leaf(c[|c| - 1], io))
  }

  /** The first error aborts the evaluation and is its result. */
  lemma {:induction false} FirstErrorAborts<T, S>(e: BooleanExpr<T>, io: S, leaf: (T, S) -> Result<bool>)
    ensures AbortsAtFirstError(Consulted(e, io, leaf), Evaluate(e, io, leaf), io, leaf)
  {
    match e
    case True =>
    case False =>
    case And(a, b) =>
      FirstErrorAborts(a, io, leaf);
      if Evaluate(a, io, leaf) == Ok(true) {
        FirstErrorAborts(b, io, leaf);
        AbortsAfterSuccess(Consulted(a, io, leaf), Evaluate(a, io, leaf),
          Consulted(b, io, leaf), Evaluate(b, io, leaf), io, leaf);
      } else {
        assert Consulted(e, io, leaf) == Consulted(a, io, leaf);
      }
    case Or(a, b) =>
      FirstErrorAborts(a, io, leaf);
      if Evaluate(a, io, leaf) == Ok(false) {
        FirstErrorAborts(b, io, leaf);
        AbortsAfterSuccess(Consulted(a, io, leaf), Evaluate(a, io, leaf),
          Consulted(b, io, leaf), Evaluate(b, io, leaf), io, leaf);
      } else {
        assert Consulted(e, io, leaf) == Consulted(a, io, leaf);
      }
    case Not(a) =>
      FirstErrorAborts(a, io, leaf);
    case Eval(t) =>
  }

  /** Short-circuit evaluation is sound for the boolean meaning: when it
      succeeds, its value is the plain boolean value of the tree under any
      assignment of truth values that agrees with the consulted leaves, so
      the leaves it skipped could not have changed the answer. */
  lemma {:induction false} AgreesWithDenotation<T, S>(
    e: BooleanExpr<T>, io: S, leaf: (T, S) -> Result<bool>, truth: T -> bool)
    requires Evaluate(e, io, leaf).Ok?
    requires forall t :: t in Consulted(e, io, leaf) ==> leaf(t, io) == Ok(truth(t))
    ensures Evaluate(e, io, leaf).value == Denote(e, truth)
  {
    match e
    case True =>
    case False =>
    case And(a, b) =>
      AgreesWithDenotation(a, io, leaf, truth);
      if Evaluate(a, io, leaf) == Ok(true) {
        AgreesWithDenotation(b, io, leaf, truth);
      }
    case Or(a, b) =>
      AgreesWithDenotation(a, io, leaf, truth);
      if Evaluate(a, io, leaf) == Ok(false) {
        AgreesWithDenotation(b, io, leaf, truth);
      }
    case Not(a) =>
      AgreesWithDenotation(a, io, leaf, truth);
    case Eval(t) =>
  }

  /** When every leaf of the tree evaluates successfully, evaluation never
      fails and computes the plain boolean value of the tree. */
  lemma {:induction false} SucceedsWhenLeavesSucceed<T, S>(
    e: BooleanExpr<T>, io: S, leaf: (T, S) -> Result<bool>, truth: T -> bool)
    requires forall t :: t in Leaves(e) ==> leaf(t, io) == Ok(truth(t))
    ensures Evaluate(e, io, leaf) == Ok(Denote(e, truth))
  {
    match e
    case True =>
    case False =>
    case And(a, b) =>
      SucceedsWhenLeavesSucceed(a, io, leaf, truth);
      SucceedsWhenLeavesSucceed(b, io, leaf, truth);
    case Or(a, b) =>
      SucceedsWhenLeavesSucceed(a, io, leaf, truth);
      SucceedsWhenLeavesSucceed(b, io, leaf, truth);
    case Not(a) =>
      SucceedsWhenLeavesSucceed(a, io, leaf, truth);
    case Eval(t) =>
  }

  /** Evaluation only consults leaves of the tree. */
  lemma {:induction false} ConsultedAreLeaves<T, S>(e: BooleanExpr<T>, io: S, leaf: (T, S) -> Result<bool>)
    ensures forall t :: t in Consulted(e, io, leaf) ==> t in Leaves(e)
  {
    match e
    case True =>
    case False =>
    case And(a, b) =>
      ConsultedAreLeaves(a, io, leaf);
      ConsultedAreLeaves(b, io, leaf);
    case Or(a, b) =>
      ConsultedAreLeaves(a, io, leaf);
      ConsultedAreLeaves(b, io, leaf);
    case Not(a) =>
      ConsultedAreLeaves(a, io, leaf);
    case Eval(t) =>
  }

  // ---------------------------------------------------------------------
  // Helpers

  /** A successful evaluation followed by another one: the joined trace
      aborts where the second one does. */
  lemma AbortsAfterSuccess<T, S>(c1: seq<T>, r1: Result<bool>, c2: seq<T>, r2: Result<bool>,
                                 io: S, leaf: (T, S) -> Result<bool>)
    requires AbortsAtFirstError(c1, r1, io, leaf) && r1.Ok?
    requires AbortsAtFirstError(c2, r2, io, leaf)
    ensures AbortsAtFirstError(c1 + c2, r2, io, leaf)
  {
    var c := c1 + c2;
    forall i | 0 <= i < |c| - 1 ensures leaf(c[i], io).Ok? {
      if i >= |c1| {
        assert c[i] == c2[i - |c1|];
      }
    }
    if r2.Ok? {
      forall i | 0 <= i < |c| ensures leaf(c[i], io).Ok? {
        if i >= |c1| {
          assert c[i] == c2[i - |c1|];
        }
      }
    }
    if |c2| > 0 {
      assert c[|c| - 1] == c2[|c2| - 1];
    } else {
      assert c == c1;
    }
  }

  lemma SubsequenceOfEmpty<T>(b: seq<T>)
    ensures IsSubsequence([], b)
  {
  }

  lemma {:induction false} SubsequenceOfLonger<T>(a: seq<T>, b: seq<T>, prefix: seq<T>)
    requires IsSubsequence(a, b)
    ensures IsSubsequence(a, prefix + b)
    decreases |prefix|
  {
    if prefix == [] {
      assert prefix + b == b;
    } else if a != [] {
      SubsequenceOfLonger(a, b, prefix[1..]);
      assert (prefix + b)[1..] == prefix[1..] + b;
    }
  }

  lemma {:induction false} SubsequenceConcat<T>(a1: seq<T>, b1: seq<T>, a2: seq<T>, b2: seq<T>)
    requires IsSubsequence(a1, b1) && IsSubsequence(a2, b2)
    ensures IsSubsequence(a1 + a2, b1 + b2)
    decreases |b1|
  {
    if a1 == [] {
      assert a1 + a2 == a2;
      SubsequenceOfLonger(a2, b2, b1);
    } else {
      assert (b1 + b2)[1..] == b1[1..] + b2;
      if a1[0] == b1[0] && IsSubsequence(a1[1..], b1[1..]) {
        SubsequenceConcat(a1[1..], b1[1..], a2, b2);
        assert (a1 + a2)[1..] == a1[1..] + a2;
      } else {
        SubsequenceConcat(a1, b1[1..], a2, b2);
      }
    }
  }
}
