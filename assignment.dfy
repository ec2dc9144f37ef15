/** What assigning a plain value does to the mutable part of a source node
    (tributary/lazy/base.py:50-52): the new value is stored and the dirty
    flag is recomputed from the old and new values, overwriting the previous
    flag rather than accumulating it. */
module Assignment {
  import opened Wrappers
  import opened Values

  /** The mutable state of a source node: its stored value and dirty flag. */
  datatype Cell = Cell(value: Option<Value>, dirty: bool)

  /** One plain-value assignment `graph.<name> = v` to a registered node,
      with the corrected dirty test: the value is stored, and the node is
      dirty exactly when the source's test would report a change. */
  function Assign(c: Cell, v: Option<Value>): (r: Cell)
    ensures r.value == v
    ensures r.dirty <==> DirtyAsWritten(c.value, v) == Ok(true)
  {
    Cell(v, Changed(c.value, v))
  }

  /** A run of plain-value assignments to one node, in order. */
  function AssignAll(c: Cell, vs: seq<Option<Value>>): (r: Cell)
    ensures vs == [] ==> r == c
    ensures vs != [] ==> r.value == vs[|vs| - 1]
    decreases |vs|
  {
    if vs == [] then c else AssignAll(Assign(c, vs[0]), vs[1..])
  }

  /** The flag an assignment leaves does not depend on the flag before it. */
  lemma DirtyIsOverwritten(c: Cell, v: Option<Value>)
    ensures Assign(c, v) == Assign(c.(dirty := !c.dirty), v)
  {
  }

  /** Assigning the value already stored leaves the node clean, even when it
      was dirty before, and keeps the value. */
  lemma EqualAssignmentClears(c: Cell)
    ensures Assign(c, c.value) == Cell(c.value, false)
  {
  }

  /** Changes from and to `None` count as changes; `None` over `None` does not. */
  lemma NoneTransitions(c: Cell, x: Value)
    ensures c.value.None? ==> Assign(c, Some(x)).dirty
    ensures c.value.Some? ==> Assign(c, None).dirty
    ensures c.value.None? ==> !Assign(c, None).dirty
  {
  }

  /** After a run of assignments the flag says only whether the LAST one
      changed the value; an earlier change that a later equal assignment
      repeats is no longer recorded. */
  lemma {:induction false} LastAssignmentDecidesDirty(c: Cell, vs: seq<Option<Value>>)
    requires vs != []
    ensures AssignAll(c, vs).dirty
        == Changed(if |vs| == 1 then c.value else vs[|vs| - 2], vs[|vs| - 1])
    decreases |vs|
  {
    if |vs| > 1 {
      LastAssignmentDecidesDirty(Assign(c, vs[0]), vs[1..]);
    }
  }

  /** A consequence: assigning a new value twice in a row leaves the node
      clean, although its value differs from the one it held before. */
  lemma RepeatedAssignmentLeavesClean(c: Cell, v: Option<Value>)
    ensures AssignAll(c, [v, v]) == Cell(v, false)
  {
  }
}
