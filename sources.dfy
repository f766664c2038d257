/**
  Sources of data for conditions and the comparisons built from them. A
  `Source` names an input, names an output or embeds a literal value; it
  carries no cached value and is resolved only when a condition is
  evaluated. The comparison builders pair two sources with an operator.
 */
module Sources {
  import opened Io

  /** The six comparison operators. */
  datatype Comparator = Equal | NotEqual | Less | LessOrEqual | Greater | GreaterOrEqual

  /** An ordered pair of sources and the operator applied to their
      resolved values. */
  datatype Comparison = Comparison(left: Source, cmp: Comparator, right: Source)

  datatype Source = In(id: string) | Out(id: string) | Const(value: Value) {

    /** `self == right` */
    function CmpEq(right: Source): (c: Comparison)
      ensures c.left == this && c.cmp == Equal && c.right == right
    {
      Cmp(right, Equal)
    }

    /** `self <= right` */
    function CmpLe(right: Source): (c: Comparison)
      ensures c.left == this && c.cmp == LessOrEqual && c.right == right
    {
      Cmp(right, LessOrEqual)
    }

    /** `self >= right` */
    function CmpGe(right: Source): (c: Comparison)
      ensures c.left == this && c.cmp == GreaterOrEqual && c.right == right
    {
      Cmp(right, GreaterOrEqual)
    }

    /** `self != right` */
    function CmpNe(right: Source): (c: Comparison)
      ensures c.left == this && c.cmp == NotEqual && c.right == right
    {
      Cmp(right, NotEqual)
    }

    /** `self < right` */
    function CmpLt(right: Source): (c: Comparison)
      ensures c.left == this && c.cmp == Less && c.right == right
    {
      Cmp(right, Less)
    }

    /** `self > right` */
    function CmpGt(right: Source): (c: Comparison)
      ensures c.left == this && c.cmp == Greater && c.right == right
    {
      Cmp(right, Greater)
    }

    /** The builder all six share: this source on the left, `right` on the
        right, operator `cmp` between them. */
    function Cmp(right: Source, cmp: Comparator): (c: Comparison)
      ensures c.left == this && c.cmp == cmp && c.right == right
    {
      Comparison(this, cmp, right)
    }

    /** Lifts anything convertible into a `Value` to a constant source;
        `into` is that conversion, which this model does not include. */
    static function From<X>(x: X, into: X -> Value): (s: Source)
      ensures s.Const? && s.value == into(x)
    {
      Const(into(x))
    }
  }

  /** The builder that belongs to each operator. */
  function Builder(cmp: Comparator, left: Source, right: Source): Comparison
  {
    match cmp
    case Equal => left.CmpEq(right)
    case NotEqual => left.CmpNe(right)
    case Less => left.CmpLt(right)
    case LessOrEqual => left.CmpLe(right)
    case Greater => left.CmpGt(right)
    case GreaterOrEqual => left.CmpGe(right)
  }

  /** Every comparison is produced by exactly one builder call: the one of
      its own operator applied to its own operands. The builders therefore
      neither lose nor reorder anything about their operands. */
  lemma BuildersAreExact(c: Comparison, cmp: Comparator, left: Source, right: Source)
    ensures Builder(c.cmp, c.left, c.right) == c
    ensures Builder(cmp, left, right) == c <==> (cmp == c.cmp && left == c.left && right == c.right)
  {
  }

  /** Resolves a source against the contents of the I/O state: an input
      is read the way `IoState.Read` reads it and a constant gives its own
      value. How an output resolves belongs to code this model does not
      include, so it is the parameter `output`. */
  function Resolve(s: Source, io: IoSnapshot, output: (string, IoSnapshot) -> Result<Value>): (r: Result<Value>)
  {
    match s
    case In(id) => io.Read(id)
    case Out(id) => output(id, io)
    case Const(v) => Ok(v)
  }

  /** A comparison as a condition leaf: both sides are resolved through the
      same state, left first, and the operator is applied to the two
      resolved values. What each operator means for two values belongs to
      code this model does not include, so it is the parameter `apply`. */
  function CompareOn(c: Comparison, io: IoSnapshot, output: (string, IoSnapshot) -> Result<Value>,
                     apply: (Comparator, Value, Value) -> bool): (r: Result<bool>)
    ensures r.Ok? <==> Resolve(c.left, io, output).Ok? && Resolve(c.right, io, output).Ok?
    ensures r.Ok? ==>
      r.value == apply(c.cmp, Resolve(c.left, io, output).value, Resolve(c.right, io, output).value)
    ensures Resolve(c.left, io, output).Err? ==> r == Resolve(c.left, io, output).PropagateFailure()
    ensures Resolve(c.left, io, output).Ok? && Resolve(c.right, io, output).Err? ==>
      r == Resolve(c.right, io, output).PropagateFailure()
  {
    var l :- Resolve(c.left, io, output);
    var r :- Resolve(c.right, io, output);
    Ok(apply(c.cmp, l, r))
  }

  /** A source lifted from a value resolves to the converted value in every
      state: the lift is undone by resolution. A missing input resolves to
      the `NotFound` error of `IoState.Read`. */
  lemma ResolveConstAndInput<X>(x: X, into: X -> Value, id: string, io: IoSnapshot,
                                output: (string, IoSnapshot) -> Result<Value>)
    ensures Resolve(Source.From(x, into), io, output) == Ok(into(x))
    ensures id !in io.inputs ==> Resolve(In(id), io, output) == Err(NotFound(NoSuchInput))
    ensures id in io.inputs ==> Resolve(In(id), io, output) == Ok(io.inputs[id])
  {
  }
}
