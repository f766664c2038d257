# msr core: I/O state, conditions and controllers in Dafny

This project models the core of `msr`, a small Rust library for
measurement-and-control loops. A cycle of such a loop reads sensor inputs
into an I/O state. It evaluates boolean conditions over that state, feeds
values to controllers and writes the outputs back.

The model has five modules. Four follow the four parts of `src/lib.rs`; the
fifth, `IoConditions`, is the bridge between the first three: it evaluates
comparison conditions on an `IoState` snapshot.

- `Io` (`io.dfy`): the synchronous I/O contract and its in-memory
  implementation `IoState`. It is a class with two `map<string, Value>` fields,
  `inputs` and `outputs`.
  - `Read` fails with `NotFound("no such input")` for a missing input.
  - `ReadOutput` never fails; it returns `None` for an output never written.
  - `Write` inserts or overwrites an output and always returns `Ok(())`.
  - `Value` is an abstract type with equality.
  - `Result` mirrors `std::io::Result`, so the model writes `:-` where the
    source writes `?`. As in the trait's signatures (src/lib.rs:44, 46),
    `ReadOutput` and `Write` return a `Result` too, although `IoState`
    always returns `Ok`.
- `Sources` (`sources.dfy`): `Source` (`In`, `Out`, `Const`) and the six
  `cmp_*` builders of a `Comparison{left, cmp, right}`. It also has the
  `From` lift of a convertible value into `Const`.
- `Conditions` (`conditions.dfy`): the generic tree `BooleanExpr<T>` and its
  evaluator `Evaluate`. `&&` and `||` short-circuit left to right, and the
  first error ends the evaluation.
  - Leaf evaluation is a parameter `leaf: (T, S) -> Result<bool>`. `T` is the
    leaf type and `S` is the state type. `S` must be a value: for `IoState`
    it is `IoSnapshot`, the contents of both maps, given by `IoState.Snapshot`.
  - `Consulted` records which leaves an evaluation hands to `leaf`, in order.
  - `Denote` is the plain boolean meaning of a tree. It is the reference that
    short-circuit evaluation is proved against.
- `IoConditions` (`io_conditions.dfy`): the bridge between `Io`, `Sources`
  and `Conditions`. It holds conditions whose leaves are comparisons,
  evaluated against an `IoState` snapshot.
  - `Sources.Resolve` reads an `In` source the way `IoState.Read` does.
  - A `Const` source resolves to its value.
  - How an `Out` source resolves lives in unmodelled code, so it is a
    parameter `output`.
  - `Sources.CompareOn` resolves both sides and applies the operator. The
    operator's meaning is a parameter `apply`.
- `Control` (`control.dfy`): a `Controller` class. It holds a state and a
  step function from (state, input) to (next state, output).
  `TimeStepNext` is the blanket `TimeStepController` adapter. It forwards
  `(input, delta_t)` to the controller as one tupled input.

## Model

| member | source | states |
|---|---|---|
| `Io.IoState.Default` | src/lib.rs:92-99 | the default state has no inputs and no outputs |
| `Io.IoState.Read` | src/lib.rs:102-108 | succeeds exactly when the id is an input, then with exactly the stored value; otherwise an error of kind NotFound with the message "no such input"; changes neither map |
| `Io.IoState.ReadOutput` | src/lib.rs:110-112 | never fails; `Some(v)` exactly when the id is an output with `outputs[id] == v`, `None` when absent; changes neither map |
| `Io.IoSnapshot.Read` | src/lib.rs:102-108 | the pure counterpart of `IoState.Read` on a state's contents: `Ok(inputs[id])` exactly when `id` is an input, otherwise `NotFound("no such input")` |
| `Io.IoState.Write` | src/lib.rs:114-117 | always returns `Ok(())`; the output map becomes the old one with `id` set to `v`, created or overwritten; only `outputs` may change, so inputs and every other output are unchanged |
| `Io.DefaultStateRoundTrip` | src/lib.rs:210-219 | the unit test's call sequence on a default state: a missing input fails with NotFound, a missing output reads as `None`, a write succeeds and reads back, a write leaves the same-named input missing, and a stored input reads back exactly |
| `Io.OverwriteKeepsLast` | src/lib.rs:114-117 | two writes to one output read back as the second value, the output map is the old one with only that key set to the second value, and the inputs stay unchanged |
| `Sources.Source.CmpEq` | src/lib.rs:129-131 | the comparison has the receiver on the left, the argument on the right and operator `Equal` |
| `Sources.Source.CmpLe` | src/lib.rs:132-134 | receiver left, argument right, operator `LessOrEqual` |
| `Sources.Source.CmpGe` | src/lib.rs:135-137 | receiver left, argument right, operator `GreaterOrEqual` |
| `Sources.Source.CmpNe` | src/lib.rs:138-140 | receiver left, argument right, operator `NotEqual` |
| `Sources.Source.CmpLt` | src/lib.rs:141-143 | receiver left, argument right, operator `Less` |
| `Sources.Source.CmpGt` | src/lib.rs:144-146 | receiver left, argument right, operator `Greater` |
| `Sources.Source.Cmp` | src/lib.rs:147-153 | the shared private builder: receiver on the left, argument on the right, the given operator between them |
| `Sources.BuildersAreExact` | src/lib.rs:129-153 | every comparison is rebuilt by its own operator's builder from its own operands, and a builder call yields a given comparison only with exactly that operator and those operands |
| `Sources.Source.From` | src/lib.rs:195-202 | lifting a value gives a `Const` source carrying the converted value |
| `Sources.ResolveConstAndInput` | src/lib.rs:102-108 | under `Sources.Resolve`, a lifted constant resolves to the converted value in every state; an `In` source resolves to the stored input, or to `NotFound("no such input")` when the input is missing |
| `Sources.CompareOn` | src/lib.rs:174-177 | a comparison as a condition leaf succeeds exactly when both sides resolve through `Sources.Resolve` (an `In` source through `IoSnapshot.Read`, a `Const` source to its value, an `Out` source through the parameter `output`), and then yields the operator applied to the two resolved values; a failing left side's error is returned unchanged, and when the left side resolves, a failing right side's error is returned unchanged |
| `Conditions.Evaluate` | src/lib.rs:183-191 | its match arms follow lines 185-190, with `:-` standing for `?`; its contract: when every leaf of the tree succeeds, the evaluation succeeds |
| `Conditions.ConstantsIgnoreState` | src/lib.rs:185-186 | `True` is `Ok(true)` and `False` is `Ok(false)` in every state and for every leaf evaluator, and neither consults a leaf |
| `Conditions.AndShortCircuits` | src/lib.rs:187 | an error or `Ok(false)` from the left operand is the result and the right operand is not consulted; after `Ok(true)` the right operand's result is the result |
| `Conditions.OrShortCircuits` | src/lib.rs:188 | an error or `Ok(true)` from the left operand is the result and the right operand is not consulted; after `Ok(false)` the right operand's result is the result |
| `Conditions.NotAndLeaf` | src/lib.rs:189-190 | `Not` negates an `Ok` result and passes an error through; `Not(Not(x))` evaluates and consults like `x`; `Eval(t)` is exactly the leaf's result and consults only `t` |
| `Conditions.SkippedBranchNeverFails` | src/lib.rs:187-188 | `And(False, e)` is `Ok(false)` and `Or(True, e)` is `Ok(true)` for every `e`, even one that would fail, and neither consults a leaf |
| `Conditions.OnlyConsultedLeavesMatter` | src/lib.rs:183-191 | two evaluations whose leaf results agree on the leaves the first one consulted give the same result and consult the same leaves, whatever the states, the leaf evaluators and the skipped branches |
| `Conditions.ConsultedInLeafOrder` | src/lib.rs:183-191 | the consulted leaves are a subsequence of the tree's leaves in left-to-right order |
| `Conditions.ConsultedAreLeaves` | src/lib.rs:183-191 | evaluation consults only leaves of the tree |
| `Conditions.FirstErrorAborts` | src/lib.rs:183-191 | every consulted leaf before the last one succeeded; a successful evaluation consulted only succeeding leaves; evaluation fails exactly when the last consulted leaf fails, and then returns that leaf's error unchanged |
| `Conditions.AgreesWithDenotation` | src/lib.rs:183-191 | a successful evaluation equals the plain boolean meaning of the tree under every truth assignment that matches the consulted leaves |
| `Conditions.SucceedsWhenLeavesSucceed` | src/lib.rs:183-191 | when every leaf succeeds, evaluation succeeds with the plain boolean meaning of the tree |
| `IoConditions.MissingInputOnSkippedBranch` | src/lib.rs:187 | on an `IoState` without input "z", the comparison `z > right` alone fails with `NotFound`; `And(False, Eval(z > right))` is `Ok(false)` and consults no leaf; `And(True, Eval(z > right))` returns the `NotFound` error |
| `IoConditions.InputComparisonsOnState` | src/lib.rs:226-266 | on an `IoState` where inputs "x" and "y" are set, `And(x > five, y == t)`, `Or(x > five, y == t)` and `Not(x > five)` yield the and, or and negation of the two comparisons on the stored values, and `True` yields true |
| `IoConditions.OutputsDoNotAffectInputConditions` | src/lib.rs:183-191 | a condition none of whose comparisons mentions an output has the same result and trace in any two states with equal inputs |
| `IoConditions.WriteKeepsInputConditions` | src/lib.rs:114-117 | for a condition whose comparisons mention no output, `before` is its evaluation on the state before `IoState.Write` and `after` its evaluation on the state after, and the two are equal; the write sets only `outputs[id]` and leaves the inputs unchanged |
| `Control.Controller.constructor` | src/lib.rs:19-22 | a controller starts with the given control law and initial state |
| `Control.Controller.Next` | src/lib.rs:19-22 | one step: the new state and the output are the control law applied to the old state and the input |
| `Control.TimeStepNext` | src/lib.rs:30-37 | `next(input, delta_t)` returns the output, and leaves the state, of the underlying controller's step on the pair `(input, delta_t)` |
| `Control.AdapterIsTupledCall` | src/lib.rs:34-36 | two controllers with the same law and state, one stepped through the adapter and one by the tupled call, return equal outputs and end in equal states |

## Left out

- The modules `comparison`, `value`, `entities`, `runtime`, `pid` and `bang_bang` are not part of this model (src/lib.rs:5-16). Consequences:
  - `Value` is abstract, with equality only.
  - `Comparator` is a six-variant enum.
  - Evaluating a `Comparison` is modelled by `CompareOn`, in which how a `Source::Out` resolves (`output`) and what each operator means (`apply`) are parameters.
  - `CompareOn` resolves the left side before the right one. The source of that order is not part of this model. The order only decides which error is returned when both sides fail.
  - The concrete controller laws are the abstract step function of `Controller`.
- `ControllerType` and `ControllerConfig` (src/lib.rs:49-61) wrap those unmodelled controllers, so they are left out too.
- Floating point: the `5.0`/`5.1` comparisons of the unit test `bool_expr_eval` (src/lib.rs:222-267) depend on float ordering inside the unmodelled comparison code. `InputComparisonsOnState` states what that test shows with the comparison results left symbolic, via `apply`.
- `Duration` is a count of nanoseconds. It is only forwarded.
- `std::io::Error` is reduced to `NotFound(message)` and an opaque `Backend(detail)` case. The in-memory state never produces `Backend`.
- `HashMap` hashing and iteration order are not modelled: the maps are Dafny `map`s.
- Trait objects (`&mut SyncIoSystem`) are not modelled. There is one I/O implementation, `IoState`.
- Evaluation is a pure function of a state value (`IoSnapshot` for `IoState`). This is exact for `IoState`, whose reads change nothing, and for leaves that only read, as comparisons do. In the source each leaf receives `&mut SyncIoSystem` (src/lib.rs:176, 183) and could write in the middle of an evaluation; the model's `leaf: (T, S) -> Result<bool>` cannot. A backend whose reads have side effects is not modelled. For such a backend an earlier read could change later leaf results, and so the branches taken; `Consulted` is the order of leaf evaluations only for a state that reads leave unchanged.
- The `thread::sleep` loop of the doc example (src/lib.rs:65-82) is timing plumbing and is left out.
- The public `inputs` map is assigned directly, as the source's test does with `inputs.insert`. No operation of the core stands behind that.
