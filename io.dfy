/**
  The synchronous I/O contract of an MSR (measurement, control, regulation)
  system and its default in-memory implementation, `IoState`: two
  string-keyed namespaces of gate values, one for inputs (sensors) and one
  for outputs (actuators).
 */
module Io {

  /** The value a gate holds. Its variants (bits, decimals) belong to
      a module this model does not include; only equality is used. */
  type Value(==)

  /** The two error kinds surfaced at the I/O boundary. `NotFound` carries
      the message the in-memory state attaches; `Backend` stands for any
      failure of a real fieldbus driver and is never produced here. */
  datatype IoError = NotFound(message: string) | Backend(detail: string)

  /** The message of the error `IoState.Read` returns for a missing input. */
  const NoSuchInput: string := "no such input"

  /** An I/O result: a value or an error, usable with `:-` the way the
      source uses `?`. */
  datatype Result<+T> = Ok(value: T) | Err(error: IoError) {

    predicate IsFailure() {
      Err?
    }

    function PropagateFailure<U>(): Result<U>
      requires Err?
    {
      Err(error)
    }

    function Extract(): T
      requires Ok?
    {
      value
    }
  }

  /** The state of all inputs and outputs. Both maps are public, as in the
      source, and may be assigned directly; the only operation of the I/O
      contract that changes `outputs` is `Write`. */
  class IoState {
    var inputs: map<string, Value>
    var outputs: map<string, Value>

    /** The default state: no input and no output has a value. */
    constructor Default()
      ensures inputs == map[] && outputs == map[]
    {
      inputs := map[];
      outputs := map[];
    }

    /** The current values of both namespaces, as a value. */
    function Snapshot(): IoSnapshot
      reads this
    {
      IoSnapshot(inputs, outputs)
    }

    /** Reads the current value of input `id`; a missing input is an error
        of kind `NotFound`. Changes nothing. */
    method Read(id: string) returns (r: Result<Value>)
      ensures r.Ok? <==> id in inputs
      ensures r.Ok? ==> r.value == inputs[id]
      ensures r.Err? ==> r.error == NotFound(NoSuchInput)
      ensures r == Snapshot().Read(id)
    {
      if id in inputs {
        r := Ok(inputs[id]);
      } else {
        r := Err(NotFound(NoSuchInput));
      }
    }

    /** Reads back the last value written to output `id`. Never fails: an
        output never written is `None`, not an error. Changes nothing. */
    method ReadOutput(id: string) returns (r: Result<Option<Value>>)
      ensures r.Ok?
      ensures r.value.Some? <==> id in outputs
      ensures r.value.Some? ==> r.value.value == outputs[id]
    {
      if id in outputs {
        r := Ok(Some(outputs[id]));
      } else {
        r := Ok(None);
      }
    }

    /** Stores `v` under output `id`, creating or overwriting the entry.
        Always succeeds; the inputs and every other output are untouched. */
    method Write(id: string, v: Value) returns (r: Result<()>)
      modifies this`outputs
      ensures r == Ok(())
      ensures outputs == old(outputs)[id := v]
      ensures forall k :: k != id && k in outputs ==> outputs[k] == old(outputs)[k]
    {
      outputs := outputs[id := v];
      r := Ok(());
    }
  }

  datatype Option<+T> = None | Some(value: T)

  /** The contents of an `IoState` at one moment. Reads of `IoState`
      change nothing, so conditions are evaluated against this value. */
  datatype IoSnapshot = IoSnapshot(inputs: map<string, Value>, outputs: map<string, Value>) {

    /** What `IoState.Read` returns on a state with these contents. */
    function Read(id: string): (r: Result<Value>)
      ensures r.Ok? <==> id in inputs
      ensures r.Ok? ==> r.value == inputs[id]
      ensures r.Err? ==> r.error == NotFound(NoSuchInput)
    {
      if id in inputs then Ok(inputs[id]) else Err(NotFound(NoSuchInput))
    }
  }

  /** The sequence of calls of the source's unit test for `IoState`: on a
      default state, reading input "foo" fails and reading output "foo"
      gives `None`; writing output "foo" succeeds, leaves input "foo"
      missing and reads back; once input "foo" is set, reading it gives
      exactly the value stored. */
  method DefaultStateRoundTrip(written: Value, sampled: Value)
    returns (before: Result<Value>, outBefore: Result<Option<Value>>,
             wrote: Result<()>, afterWrite: Result<Value>,
             readBack: Result<Option<Value>>, afterInsert: Result<Value>)
    ensures before == Err(NotFound(NoSuchInput))
    ensures outBefore == Ok(None)
    ensures wrote == Ok(())
    ensures afterWrite == Err(NotFound(NoSuchInput))
    ensures readBack == Ok(Some(written))
    ensures afterInsert == Ok(sampled)
  {
    var io := new IoState.Default();
    before := io.Read("foo");
    outBefore := io.ReadOutput("foo");
    wrote := io.Write("foo", written);
    afterWrite := io.Read("foo");
    readBack := io.ReadOutput("foo");
    io.inputs := io.inputs["foo" := sampled];
    afterInsert := io.Read("foo");
  }

  /** Writing twice to the same output keeps only the second value, and
      a write never makes a missing input readable. */
  method OverwriteKeepsLast(io: IoState, id: string, v1: Value, v2: Value)
    returns (readBack: Result<Option<Value>>, input: Result<Value>)
    modifies io
    ensures readBack == Ok(Some(v2))
    ensures input.Ok? <==> id in old(io.inputs)
    ensures io.inputs == old(io.inputs)
    ensures io.outputs == old(io.outputs)[id := v2]
  {
    var _ := io.Write(id, v1);
    var _ := io.Write(id, v2);
    readBack := io.ReadOutput(id);
    input := io.Read(id);
  }
}
