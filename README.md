# tributary lazy graph registry, in Dafny

This project models the `Graph` class of tributary's lazy (pull-based)
engine, `tributary/lazy/base.py`. A `Graph` keeps a registry from names to
source `Node`s and uses Python attribute interception to expose them:

- `graph.node(name, readonly, nullable, value, trace)` is lookup-or-insert.
  A new name gets a fresh source node (`derived = False`) with the given
  attributes. A known name returns the node already registered and ignores
  the arguments.
- Reading `graph.<name>` for a registered name yields the Node object itself,
  not its value. Other names fall through to ordinary attributes.
- Writing `graph.<name> = v` for a registered name does one of three things.
  If `v` is that very Node, nothing happens. If `v` is another Node, the write
  raises (under the identity assumption listed under "## Left out"). If `v` is a plain value, it is stored and the node's `dirty` flag is
  set to whether the value changed. Writes to other names become ordinary
  attributes.

Modules:

- `Wrappers` (`wrappers.dfy`) holds `Option` for Python's `None`, plus
  `Result` and `Outcome` for raised exceptions.
- `Values` (`values.dfy`) holds the stored values and the dirty test of line 51:
  - `DirtyAsWritten` is the test as written, including the `10**-5` tolerance
    clause and the `TypeError` Python raises when `-` is applied to strings.
  - `Changed` is the test the model uses: `old != new`.
- `Assignment` (`assignment.dfy`) describes what a plain-value assignment does
  to a node's `(value, dirty)` pair. It also covers a run of such assignments.
- `LazyGraph` (`graph.dfy`) holds the `Node` and `Graph` classes:
  - `Graph.nodes` is the registry. It is a `map<string, Node>` that starts empty.
  - `Graph.attrs` holds the ordinary attributes.
  - `GetNode` is the explicit structural accessor. `GetAttr` is the
    attribute-read routing.
  - `SetAttr` and `CreateNode` change state in place. `CreateNode` registers
    the new node by calling `SetAttr` with that node, as line 32 does; this
    lands in the no-op branch.
  - `CreateTwiceSession`, `AssignSession` and `NodeAssignSession` are usage
    examples. Each runs a short session and asserts what the contracts above
    let a caller conclude.

Two points where the code does less than its own wording suggests. The model
follows the code in both:

- The docstring at line 15 describes `readonly` as "whether the node should be
  settable". The code never checks `readonly` on assignment. The flag is only
  passed to the Node at line 28, so a read-only node accepts plain values like
  any other.
- For numbers and `None`, the tolerance clause at line 51 never changes the
  result. It is evaluated only when old and new values are equal, so numbers
  within `10**-5` of each other still count as changed, and the test is plain
  inequality (`Values.NumericDirtyIsInequality`). For equal strings the clause
  raises (see "## Findings").

The dirty flag is overwritten, not accumulated. If a node holds 1 and is
assigned 2 twice before anything reads it, it ends up clean
(`Assignment.RepeatedAssignmentLeavesClean`). The model keeps this behaviour
because it is what the code does for numbers and `None`.

## Model

| member | source | states |
|---|---|---|
| `LazyGraph.Node.constructor` | tributary/lazy/base.py:26-31 | a node carries exactly the name, derived, readonly, nullable, value and trace it was created with |
| `LazyGraph.Graph.constructor` | tributary/lazy/base.py:22-23 | a new graph has an empty node registry and no ordinary attributes |
| `LazyGraph.Register` | tributary/lazy/base.py:25-33 | lookup-or-insert: the registry gains exactly the requested name, an existing binding is never replaced, and a new name is bound to the new node |
| `LazyGraph.RegisterIdempotent` | tributary/lazy/base.py:25-33 | requesting the same name twice leaves the registry as the first request did, whatever the second request's node |
| `LazyGraph.Graph.CreateNode` | tributary/lazy/base.py:10-33 | a known name returns the registered node and changes neither the registry nor any node; a new name adds exactly one entry, a fresh source node with the given attributes, whose value and dirty flag stay as constructed despite the re-entrant registration; ordinary attributes never change |
| `LazyGraph.Graph.RegisteredNodesDistinct` | tributary/lazy/base.py:25-26 | distinct registered names are bound to distinct nodes |
| `LazyGraph.Graph.GetNode` | tributary/lazy/base.py:38-39 | the structural accessor finds a node exactly for registered names, and the node found is a source node carrying that name |
| `LazyGraph.Graph.GetAttr` | tributary/lazy/base.py:35-41 | a registered name reads as its Node object, never as a plain value; other names read as their ordinary attribute, and an unknown name raises |
| `LazyGraph.Graph.SetAttr` | tributary/lazy/base.py:43-54 | the registry never changes; assigning the registered Node itself changes nothing; assigning a different Node raises and leaves the node untouched; a plain value is stored and the dirty flag is recomputed; other names are stored as ordinary attributes |
| `Values.DirtyAsWritten` | tributary/lazy/base.py:51 | the source's dirty test raises exactly when old and new are the same string; otherwise it is true exactly when old and new differ |
| `Values.Changed` | tributary/lazy/base.py:51 | the dirty test the model uses is true exactly when the test as written returns true, and it agrees with the test as written wherever that does not raise |
| `Values.NumericDirtyIsInequality` | tributary/lazy/base.py:51 | for numbers and `None` the tolerance clause never decides: the test as written is plain inequality |
| `Values.EqualTextAssignmentRaises` | tributary/lazy/base.py:51 | re-assigning an equal string raises `TypeError` in the source, while the intended test reports no change |
| `Assignment.Assign` | tributary/lazy/base.py:51-52 | one plain-value write stores the new value, and the node is dirty exactly when the test of line 51 reports a change; this uses the corrected test `Values.Changed`, so an equal string leaves the node clean instead of raising |
| `Assignment.DirtyIsOverwritten` | tributary/lazy/base.py:51-52 | the flag left by an assignment does not depend on the flag before it |
| `Assignment.EqualAssignmentClears` | tributary/lazy/base.py:51-52 | assigning the stored value keeps it and leaves the node clean, even if it was dirty |
| `Assignment.NoneTransitions` | tributary/lazy/base.py:51 | `None` to a value and a value to `None` count as changes; `None` to `None` does not |
| `Assignment.AssignAll` | tributary/lazy/base.py:50-52 | after a run of assignments the node holds the last value assigned, and an empty run changes nothing |
| `Assignment.LastAssignmentDecidesDirty` | tributary/lazy/base.py:50-52 | after a run of assignments the dirty flag says exactly whether the last assignment changed the value |
| `Assignment.RepeatedAssignmentLeavesClean` | tributary/lazy/base.py:50-52 | assigning the same value twice in a row leaves the node clean, whatever it held before |

## Findings

| source | as written | input that shows it | evidently intended | confidence | as-written member | corrected member |
|---|---|---|---|---|---|---|
| tributary/lazy/base.py:51 | the tolerance clause `abs(old - new)` is evaluated only when old and new are equal | a node holding the string `"a"` is assigned `"a"` again; `"a" - "a"` raises `TypeError` | an equal assignment leaves the node clean and raises nothing, i.e. `dirty := old != new` | high (Python semantics of `-` on `str`); not executed | `Values.DirtyAsWritten`, `Values.EqualTextAssignmentRaises` | `Values.Changed` |

`Graph.SetAttr` uses the corrected test. For numbers and `None`, the corrected
test and the source's test give the same result.

## Left out

- `Graph.SetAttr`: assigning a string equal to the stored one does not raise
  `TypeError`, because it uses the corrected test of the finding above.
- Assignment.Assign: uses the corrected test. In the source, assigning a
  string equal to the stored one raises `TypeError` at line 51 before either
  field is written.
- Assignment.EqualAssignmentClears: holds in the source only for numbers and
  `None`. For a stored string, line 51 raises and the old flag stays.
- Assignment.LastAssignmentDecidesDirty: holds in the source only when the
  last assignment does not repeat a stored string. If it does, line 51 raises
  and the flag keeps its earlier value.
- Assignment.RepeatedAssignmentLeavesClean: holds in the source only for
  numbers and `None`. If a node holds `"a"` and is assigned `"b"` and then
  `"b"` again, the second write raises and the node stays dirty.
- Node equality: line 46 compares with `Node.__eq__`, which is defined in
  `tributary/lazy/node.py`. That file is not part of this model. The model
  takes it to be object identity. The lazy API tests list `__eq__`, `__ne__`
  and `__bool__` among the node's overloaded operators
  (tributary/tests/lazy/test_api_lazy.py:27,35-36). So `node == value`
  probably builds a derived node, and that node's truthiness picks the branch.
- Initial dirty flag: the Node constructor is in `tributary/lazy/node.py`.
  The model assumes a new node starts dirty (`LazyGraph.InitialDirty`).
- Values: only numbers (as exact reals) and strings are modelled, with `None`
  as `Option.None`.
  - Float rounding, NaN and infinities are left out. For example,
    `nan != nan` makes a NaN re-assignment dirty in Python.
  - Other Python types (booleans, lists, arbitrary objects) are left out.
- Node attributes: `name`, `derived`, `readonly`, `nullable` and `trace` are
  constants, because the registry never writes them.
- Python reflection is left out:
  - `hasattr` and the lazy creation of `_Graph__nodes` (lines 22-23) are
    replaced by a registry that starts empty.
  - Direct access to `_Graph__nodes` (lines 36-37) is replaced by
    `Graph.GetNode`.
  - Lines 36-37 send reads of the names `_Graph__nodes` and `__nodes` to
    ordinary lookup before the registry check, and `node()` accepts those
    names. So a node registered under either name does not read as its Node
    in the source. It reads as the registry dict or as an ordinary attribute,
    or it raises `AttributeError`. `Graph.GetAttr` returns the Node for every
    registered name.
  - `Graph`'s own methods are not entries of `attrs`. In Python, a node
    named like a method (`node`) shadows that method on read.
- `construct(dag)` (lines 57-58) is an empty stub.
- `tributary/lazy/node.py` and `tributary/streaming` are not part of this
  model. This leaves out the operator-overload layer, lazy evaluation,
  `expire`/`interval` (driven by wall-clock time), the streaming combinators,
  the math-function wrappers and the display and graph-export sinks.
- The API tests only check that methods exist. They state no behaviour to
  model.
