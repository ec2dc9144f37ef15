/** The values a source node holds, and the dirty test that
    `Graph.__setattr__` applies when a plain value is assigned
    (tributary/lazy/base.py:51). */
module Values {
  import opened Wrappers

  /** A Python value stored in a node: a number (an `int` or a `float`,
      compared numerically) or a string. `None` is `Option.None`. */
  datatype Value = Num(x: real) | Text(s: string)

  /** The exception Python raises for `-` on operands that do not support it. */
  datatype PyError = TypeError

  /** The tolerance `10**-5` written in the dirty test. */
  const Tolerance: real := 0.00001

  function Abs(d: real): real {
    if d < 0.0 then -d else d
  }

  /** Python's binary `-`: defined on two numbers, a `TypeError` otherwise
      (for two strings, or when either side is `None`). */
  function Subtract(a: Option<Value>, b: Option<Value>): Result<real, PyError> {
    if a.Some? && a.value.Num? && b.Some? && b.value.Num? then Ok(a.value.x - b.value.x)
    else Err(TypeError)
  }

  /** The dirty test exactly as the source writes it:
      `(old != new) or (old is not None and abs(old - new) > 10**-5)`.
      The right-hand disjunct is reached only when the two values are equal,
      so for numbers it is always false and for equal strings the subtraction
      raises. */
  function DirtyAsWritten(prior: Option<Value>, v: Option<Value>): (r: Result<bool, PyError>)
    ensures r.Err? <==> prior == v && prior.Some? && prior.value.Text?
    ensures r.Ok? ==> (r.value <==> prior != v)
  {
    if prior != v then Ok(true)
    else if prior.None? then Ok(false)
    else match Subtract(prior, v)
      case Ok(d) => Ok(Abs(d) > Tolerance)
      case Err(e) => Err(e)
  }

  /** The dirty test as evidently intended: an assignment marks the node
      dirty exactly when the new value differs from the stored one. It agrees
      with the test as written wherever that one does not raise, and never
      raises. */
  function Changed(prior: Option<Value>, v: Option<Value>): (r: bool)
    ensures r <==> DirtyAsWritten(prior, v) == Ok(true)
    ensures DirtyAsWritten(prior, v).Ok? ==> DirtyAsWritten(prior, v).value == r
  {
    prior != v
  }

  /** The tolerance clause never decides anything for numbers and `None`:
      the test as written is plain inequality there. */
  lemma NumericDirtyIsInequality(prior: Option<Value>, v: Option<Value>)
    requires prior.None? || prior.value.Num?
    ensures DirtyAsWritten(prior, v) == Ok(prior != v)
  {
  }

  /** Re-assigning a string equal to the stored one raises `TypeError` in the
      source instead of clearing the dirty flag. */
  lemma EqualTextAssignmentRaises(s: string)
    ensures DirtyAsWritten(Some(Text(s)), Some(Text(s))) == Err(TypeError)
    ensures !Changed(Some(Text(s)), Some(Text(s)))
  {
  }
}
