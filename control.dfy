/**
  The controller abstraction. A controller owns its state, and one call of
  `Next` maps an input to an output while advancing that state. The control
  laws (PID, bang-bang) belong to code this model does not include, so a
  controller here is its state together with an arbitrary step function.
  The time-step adapter gives every controller whose input is a pair of an
  input and an elapsed time the two-argument calling convention.
 */
module Control {

  /** The time elapsed since the previous step, in nanoseconds; it is only
      passed on to the controller. */
  datatype Duration = Duration(nanos: nat)

  class Controller<I, O, St> {
    /** the control law: from the current state and an input to the next
        state and the output */
    const step: (St, I) -> (St, O)
    var state: St

    constructor (step: (St, I) -> (St, O), initial: St)
      ensures this.step == step && state == initial
    {
      this.step := step;
      state := initial;
    }

    /** Computes the next output and advances the state. */
    method Next(input: I) returns (output: O)
      modifies this
      ensures (state, output) == step(old(state), input)
    {
      var (next, out) := step(state, input);
      state := next;
      output := out;
    }
  }

  /** The time-step adapter: `next(input, delta_t)` is the tupled call
      `next((input, delta_t))` of the underlying controller. */
  method TimeStepNext<I, O, St>(c: Controller<(I, Duration), O, St>, input: I, deltaT: Duration)
    returns (output: O)
    modifies c
    ensures (c.state, output) == c.step(old(c.state), (input, deltaT))
  {
    output := c.Next((input, deltaT));
  }

  /** The adapter is observably the tupled call: two controllers with the
      same law and the same state, one stepped through the adapter and the
      other directly with the pair, return the same output and end in the
      same state. */
  method AdapterIsTupledCall<I, O, St>(
    viaAdapter: Controller<(I, Duration), O, St>, direct: Controller<(I, Duration), O, St>,
    input: I, deltaT: Duration)
    returns (adapted: O, tupled: O)
    requires viaAdapter != direct
    requires viaAdapter.step == direct.step && viaAdapter.state == direct.state
    modifies viaAdapter, direct
    ensures adapted == tupled
    ensures viaAdapter.state == direct.state
    ensures (direct.state, tupled) == direct.step(old(direct.state), (input, deltaT))
  {
    adapted := TimeStepNext(viaAdapter, input, deltaT);
    tupled := direct.Next((input, deltaT));
  }
}
