/** The lazy `Graph` registry of tributary/lazy/base.py: a map from names to
    source nodes, creation that is idempotent by name, reads of a registered
    name that yield the Node object itself, and assignment that either leaves
    the node alone, rejects a different Node, or stores a plain value and
    recomputes the node's dirty flag. */
module LazyGraph {
  import opened Wrappers
  import opened Values
  import opened Assignment

  /** The dirty flag a node starts with. The Node constructor is not part of
      this model; a new node is taken to start dirty (not yet evaluated). */
  const InitialDirty: bool := true

  /** A lazy node as the registry sees it. Only `value` and `dirty` are ever
      written by the registry; the other attributes are fixed at creation.
      Node identity is object identity. */
  class Node {
    const name: string
    const derived: bool
    const readonly: bool
    const nullable: bool
    const trace: bool
    var value: Option<Value>
    var dirty: bool

    constructor (name: string, derived: bool, readonly: bool, nullable: bool,
                 value: Option<Value>, trace: bool)
      ensures this.name == name && this.derived == derived
      ensures this.readonly == readonly && this.nullable == nullable && this.trace == trace
      ensures this.value == value && this.dirty == InitialDirty
    {
      this.name := name;
      this.derived := derived;
      this.readonly := readonly;
      this.nullable := nullable;
      this.trace := trace;
      this.value := value;
      this.dirty := InitialDirty;
    }

    /** The value and flag that plain assignments update. */
    function State(): Cell
      reads this
    {
      Cell(value, dirty)
    }
  }

  /** Anything that can be read from or assigned to a graph attribute:
      a Node object, or a plain value (`None` included). */
  datatype Attribute = NodeRef(node: Node) | Plain(value: Option<Value>)

  datatype GraphError =
    | CannotSetToNode              // assigning a different Node to a registered name
    | NoSuchAttribute(name: string) // Python's AttributeError

  /** Lookup-or-insert: the registry after asking for `name`, where
      `candidate` is the node that would be created for it. */
  function Register(m: map<string, Node>, name: string, candidate: Node): (r: map<string, Node>)
    ensures r.Keys == m.Keys + {name}
    ensures forall k :: k in m ==> r[k] == m[k]
    ensures name !in m ==> r[name] == candidate
  {
    if name in m then m else m[name := candidate]
  }

  /** Asking twice for the same name gives the registry the first request
      gave, whatever the second candidate. */
  lemma RegisterIdempotent(m: map<string, Node>, name: string, first: Node, second: Node)
    ensures Register(Register(m, name, first), name, second) == Register(m, name, first)
  {
  }

  class Graph {
    /** The registered source nodes, by name. */
    var nodes: map<string, Node>
    /** Ordinary attributes: names assigned while not registered as nodes. */
    var attrs: map<string, Attribute>

    /** Every registered node is a source node filed under its own name. */
    ghost predicate Valid()
      reads this
    {
      forall k :: k in nodes ==> nodes[k].name == k && !nodes[k].derived
    }

    constructor ()
      ensures Valid() && nodes == map[] && attrs == map[]
    {
      nodes := map[];
      attrs := map[];
    }

    /** No two names share a node. */
    lemma RegisteredNodesDistinct(k1: string, k2: string)
      requires Valid() && k1 in nodes && k2 in nodes && k1 != k2
      ensures nodes[k1] != nodes[k2]
    {
    }

    /** The structural accessor: the Node registered under `name`, if any. */
    function GetNode(name: string): (r: Option<Node>)
      reads this
      requires Valid()
      ensures r.Some? <==> name in nodes
      ensures r.Some? ==> r.value == nodes[name] && r.value.name == name && !r.value.derived
    {
      if name in nodes then Some(nodes[name]) else None
    }

    /** Attribute read `graph.<name>`: a registered name yields the Node
        object itself, never its value; any other name falls through to the
        ordinary attributes, and an unknown one raises. */
    function GetAttr(name: string): (r: Result<Attribute, GraphError>)
      reads this
      requires Valid()
      ensures name in nodes ==> r == Ok(NodeRef(nodes[name]))
      ensures name !in nodes && name in attrs ==> r == Ok(attrs[name])
      ensures name !in nodes && name !in attrs ==> r == Err(NoSuchAttribute(name))
      ensures r.Ok? && r.value.Plain? ==> name !in nodes
    {
      match GetNode(name)
      case Some(n) => Ok(NodeRef(n))
      case None => if name in attrs then Ok(attrs[name]) else Err(NoSuchAttribute(name))
    }

    /** Attribute write `graph.<name> = v`. The node registered under `name`,
        if any, is the only object besides the ordinary attributes that may
        change; the registry itself never does. Read-only nodes are not
        protected. */
    method SetAttr(name: string, v: Attribute) returns (r: Outcome<GraphError>)
      requires Valid()
      modifies this`attrs, if name in nodes then {nodes[name]} else {}
      ensures nodes == old(nodes) && Valid()
      ensures name in nodes && v == NodeRef(nodes[name]) ==>
        r == Pass && attrs == old(attrs) && unchanged(nodes[name])
      ensures name in nodes && v.NodeRef? && v.node != nodes[name] ==>
        r == Fail(CannotSetToNode) && attrs == old(attrs) && unchanged(nodes[name])
      ensures name in nodes && v.Plain? ==>
        r == Pass && attrs == old(attrs) &&
        nodes[name].State() == Assign(old(nodes[name].State()), v.value)
      ensures name !in nodes ==> r == Pass && attrs == old(attrs)[name := v]
    {
      if name in nodes {
        var node := nodes[name];
        match v
        case NodeRef(other) =>
          if other == node {
            r := Pass;
          } else {
            r := Fail(CannotSetToNode);
          }
        case Plain(x) =>
          node.dirty := Changed(node.value, x);
          node.value := x;
          r := Pass;
      } else {
        attrs := attrs[name := v];
        r := Pass;
      }
    }

    /** `graph.node(name, ...)`: the node registered under `name`, created as
        a source node with the given attributes when the name is new. A
        second request for a name returns the first node and ignores its
        arguments; no other entry and no existing node changes. */
    method CreateNode(name: string, readonly: bool := false, nullable: bool := true,
                      value: Option<Value> := None, trace: bool := false) returns (n: Node)
      requires Valid()
      modifies this
      ensures Valid() && attrs == old(attrs)
      ensures nodes == Register(old(nodes), name, n)
      ensures name in old(nodes) ==> n == old(nodes)[name]
      ensures name !in old(nodes) ==>
        fresh(n) && n.name == name && !n.derived && n.readonly == readonly &&
        n.nullable == nullable && n.trace == trace &&
        n.value == value && n.dirty == InitialDirty
    {
      if name !in nodes {
        var created := new Node(name, false, readonly, nullable, value, trace);
        nodes := nodes[name := created];
        // registering it as an attribute re-enters the assignment with the
        // very same Node, which is the no-op branch
        var _ := SetAttr(name, NodeRef(created));
      }
      n := nodes[name];
    }
  }

  /** Clients of the registry: what the contracts above let a caller
      conclude about short sessions. Creation is idempotent by name, and a
      registered name reads as its node. */
  method CreateTwiceSession() {
    var g := new Graph();
    var x := g.CreateNode("x", false, true, Some(Num(2.0)), false);
    var again := g.CreateNode("x", true, false, None, true);
    assert again == x && !x.readonly && x.value == Some(Num(2.0));
    assert g.GetAttr("x") == Ok(NodeRef(x));
  }

  /** Plain assignments set and clear the dirty flag; a read-only node
      accepts them too. */
  method AssignSession() {
    var g := new Graph();
    var x := g.CreateNode("x", true, true, Some(Num(2.0)), false);
    var r := g.SetAttr("x", Plain(Some(Num(5.0))));
    assert r == Pass && x.value == Some(Num(5.0)) && x.dirty;
    r := g.SetAttr("x", Plain(Some(Num(5.0))));
    assert r == Pass && !x.dirty;
    r := g.SetAttr("x", Plain(None));
    assert x.value == None && x.dirty;
  }

  /** Assigning another node is refused, assigning the node itself is
      accepted, and unregistered names become ordinary attributes. */
  method NodeAssignSession() {
    var g := new Graph();
    var x := g.CreateNode("x");
    var y := g.CreateNode("y");
    var r := g.SetAttr("x", NodeRef(y));
    assert r == Fail(CannotSetToNode) && x.value == None;
    r := g.SetAttr("x", NodeRef(x));
    assert r == Pass;
    r := g.SetAttr("label", Plain(Some(Text("prices"))));
    assert g.GetAttr("label") == Ok(Plain(Some(Text("prices"))));
  }
}
