/**
 * The cached object graph: one node per object, each with the set of nodes
 * it retains (outgoing) and the set of nodes that retain it (incoming),
 * kept symmetric. Building from a list of elements adds their references
 * and creates nodes for the objects they retain directly, and goes no
 * further.
 */
module ObjectiveCGraph {
  import opened Wrappers
  import opened References
  import opened GraphElements
  import opened GraphConfiguration
  import opened RetainedObjects

  /** The addresses of a list of elements. */
  function AddressSet(es: seq<Element>): set<Address> {
    set e | e in es :: e.address
  }

  lemma AddressSetAppend(es: seq<Element>, e: Element)
    ensures AddressSet(es + [e]) == AddressSet(es) + {e.address}
  {
    assert forall x :: x in es + [e] <==> x in es || x == e;
  }

  class GraphNode {
    const element: Element
    var outgoing: set<GraphNode>
    var incoming: set<GraphNode>

    constructor (element: Element)
      ensures this.element == element && outgoing == {} && incoming == {}
    {
      this.element := element;
      outgoing := {};
      incoming := {};
    }

    /** Incoming references form a set: adding a node that is already there changes nothing. */
    method AddIncomingReference(node: GraphNode)
      modifies this
      ensures incoming == old(incoming) + {node}
      ensures outgoing == old(outgoing)
    {
      incoming := incoming + {node};
    }

    /**
     * For every retained element, the delegate's node for its object (made
     * if the object has none yet) joins this node's outgoing references,
     * and this node joins that node's incoming references.
     */
    method BuildReferencesWithObjects(retained: seq<Element>, delegate: ObjectGraph)
      requires delegate.Valid()
      requires element.address in delegate.nodes && delegate.nodes[element.address] == this
      modifies delegate, delegate.nodes.Values
      ensures delegate.Valid()
      ensures delegate.nodes.Keys == old(delegate.nodes.Keys) + AddressSet(retained)
      ensures forall a | a in old(delegate.nodes) :: delegate.nodes[a] == old(delegate.nodes[a])
      ensures forall a, b :: delegate.HasEdge(a, b) <==>
        old(delegate.HasEdge(a, b)) || (a == element.address && b in AddressSet(retained))
      ensures delegate.constructed == old(delegate.constructed)
      ensures forall x | x in delegate.nodes.Values :: x in old(delegate.nodes.Values) || fresh(x)
    {
      var i := 0;
      while i < |retained|
        invariant 0 <= i <= |retained|
        invariant delegate.Valid()
        invariant element.address in delegate.nodes && delegate.nodes[element.address] == this
        invariant delegate.nodes.Keys == old(delegate.nodes.Keys) + AddressSet(retained[..i])
        invariant forall a | a in old(delegate.nodes) :: delegate.nodes[a] == old(delegate.nodes[a])
        invariant forall a, b :: delegate.HasEdge(a, b) <==>
          old(delegate.HasEdge(a, b)) || (a == element.address && b in AddressSet(retained[..i]))
        invariant delegate.constructed == old(delegate.constructed)
        invariant forall x | x in delegate.nodes.Values :: x in old(delegate.nodes.Values) || fresh(x)
      {
        assert retained[..i + 1] == retained[..i] + [retained[i]];
        AddressSetAppend(retained[..i], retained[i]);
        delegate.AddEdge(this, retained[i]);
        i := i + 1;
      }
      assert retained[..i] == retained;
    }
  }

  class ObjectGraph {
    const configuration: Configuration
    var nodes: map<Address, GraphNode>
    var constructed: bool

    /**
     * Each node is filed under its own object's address, and the references
     * are symmetric: B is among A's outgoing references exactly when A is
     * among B's incoming ones, both being nodes of the graph.
     */
    ghost predicate Valid()
      reads this`nodes, nodes.Values
    {
      && (forall a | a in nodes :: nodes[a].element.address == a)
      && (forall a, n | a in nodes && n in nodes[a].outgoing :: n in nodes.Values && nodes[a] in n.incoming)
      && (forall a, n | a in nodes && n in nodes[a].incoming :: n in nodes.Values && nodes[a] in n.outgoing)
    }

    /** The object at `a` retains the object at `b`, as far as the graph knows. */
    ghost predicate HasEdge(a: Address, b: Address)
      reads this`nodes, nodes.Values
    {
      a in nodes && b in nodes && nodes[b] in nodes[a].outgoing
    }

    constructor (configuration: Configuration)
      ensures Valid() && !constructed && nodes == map[]
      ensures this.configuration == configuration
    {
      this.configuration := configuration;
      nodes := map[];
      constructed := false;
    }

    /** The graph's node for the element's object, created (with no references) when the object has none. */
    method NodeForElement(e: Element) returns (n: GraphNode)
      requires Valid()
      modifies this
      ensures Valid()
      ensures e.address in nodes && n == nodes[e.address]
      ensures e.address in old(nodes) ==> nodes == old(nodes)
      ensures e.address !in old(nodes) ==>
        && fresh(n) && n.element == e && n.outgoing == {} && n.incoming == {}
        && nodes == old(nodes)[e.address := n]
      ensures forall a, b :: HasEdge(a, b) <==> old(HasEdge(a, b))
      ensures constructed == old(constructed)
      ensures forall x | x in nodes.Values :: x in old(nodes.Values) || fresh(x)
    {
      if e.address in nodes {
        n := nodes[e.address];
      } else {
        n := new GraphNode(e);
        forall v | v in nodes.Values
          ensures v in nodes[e.address := n].Values
        {
          var a :| a in nodes && nodes[a] == v;
          assert nodes[e.address := n][a] == v;
        }
        ghost var before := nodes;
        nodes := nodes[e.address := n];
        forall a | a in nodes
          ensures a == e.address || (a in before && nodes[a] == before[a])
        {
        }
        assert before.Values <= nodes.Values;
      }
    }

    /** Records that `from` retains the element's object, creating that object's node if needed. */
    method AddEdge(from: GraphNode, e: Element)
      requires Valid()
      requires from.element.address in nodes && nodes[from.element.address] == from
      modifies this, nodes.Values
      ensures Valid()
      ensures nodes.Keys == old(nodes.Keys) + {e.address}
      ensures forall a | a in old(nodes) :: nodes[a] == old(nodes[a])
      ensures forall a, b :: HasEdge(a, b) <==> old(HasEdge(a, b)) || (a == from.element.address && b == e.address)
      ensures constructed == old(constructed)
      ensures forall x | x in nodes.Values :: x in old(nodes.Values) || fresh(x)
    {
      var n := NodeForElement(e);
      Link(from, n);
    }

    /** Adds `to` to the outgoing references of `from` and `from` to the incoming references of `to`. */
    method Link(from: GraphNode, to: GraphNode)
      requires Valid()
      requires from.element.address in nodes && nodes[from.element.address] == from
      requires to.element.address in nodes && nodes[to.element.address] == to
      modifies from, to
      ensures Valid()
      ensures forall a, b :: HasEdge(a, b) <==>
        old(HasEdge(a, b)) || (a == from.element.address && b == to.element.address)
    {
      from.outgoing := from.outgoing + {to};
      to.AddIncomingReference(from);
      forall a, b
        ensures HasEdge(a, b) <==> old(HasEdge(a, b)) || (a == from.element.address && b == to.element.address)
      {
        if a in nodes && b in nodes {
          assert nodes[a] == from <==> a == from.element.address;
          assert nodes[b] == to <==> b == to.element.address;
        }
      }
    }

    /**
     * Builds the references of every given element from what it retains.
     * The graph then knows exactly the old objects, the given ones and
     * those they retain directly, and exactly the old edges plus one edge
     * from each element to each object it retains.
     */
    method BuildGraph(graphElements: seq<Element>, rt: Runtime)
      requires Valid()
      modifies this, nodes.Values
      ensures Valid() && constructed
      ensures nodes.Keys == old(nodes.Keys) + Touched(rt, graphElements)
      ensures forall a, b :: HasEdge(a, b) <==> old(HasEdge(a, b)) || OneHop(rt, graphElements, a, b)
    {
      ghost var start := nodes.Keys;
      var i := 0;
      while i < |graphElements|
        invariant 0 <= i <= |graphElements|
        invariant Valid()
        invariant nodes.Keys == start + Touched(rt, graphElements[..i])
        invariant forall a, b :: HasEdge(a, b) <==> old(HasEdge(a, b)) || OneHop(rt, graphElements[..i], a, b)
        invariant forall x | x in nodes.Values :: x in old(nodes.Values) || fresh(x)
      {
        var e := graphElements[i];
        assert graphElements[..i + 1] == graphElements[..i] + [e];
        TouchedAppend(rt, graphElements[..i], e);
        OneHopAppend(rt, graphElements[..i], e);
        ghost var before := nodes.Keys;
        BuildElement(e, rt);
        UnionStep(start, Touched(rt, graphElements[..i]), before, nodes.Keys, Touched(rt, [e]));
        i := i + 1;
      }
      assert graphElements[..i] == graphElements;
      constructed := true;
    }

    /** Adds the node of one element and the references to everything it retains. */
    method BuildElement(e: Element, rt: Runtime)
      requires Valid()
      modifies this, nodes.Values
      ensures Valid()
      ensures nodes.Keys == old(nodes.Keys) + Touched(rt, [e])
      ensures forall a, b :: HasEdge(a, b) <==>
        old(HasEdge(a, b)) || (a == e.address && b in AddressSet(AllRetainedObjects(rt, configuration, e)))
      ensures constructed == old(constructed)
      ensures forall x | x in nodes.Values :: x in old(nodes.Values) || fresh(x)
    {
      var node := NodeForElement(e);
      node.BuildReferencesWithObjects(AllRetainedObjects(rt, configuration, e), this);
      TouchedOne(rt, e);
    }

    /** Wraps the given objects as root elements and builds the graph from them. */
    method BuildGraphWithObjects(objects: seq<Address>, rt: Runtime)
      requires Valid()
      modifies this, nodes.Values
      ensures Valid() && constructed
      ensures nodes.Keys == old(nodes.Keys) + Touched(rt, RootElements(rt, configuration, objects))
      ensures forall a, b :: HasEdge(a, b) <==> old(HasEdge(a, b)) || OneHop(rt, RootElements(rt, configuration, objects), a, b)
    {
      BuildGraph(RootElements(rt, configuration, objects), rt);
    }

    function IsGraphConstructed(): bool
      reads this
    {
      constructed
    }

    function GraphConfiguration(): Configuration {
      configuration
    }

    function GraphNodes(): set<GraphNode>
      reads this
    {
      nodes.Values
    }

    /** No object has two nodes: there are exactly as many nodes as objects in the map. */
    lemma OneNodePerObject()
      requires Valid()
      ensures forall a, b | a in nodes && b in nodes && nodes[a] == nodes[b] :: a == b
      ensures |GraphNodes()| == |nodes|
    {
      InjectiveMapValues(nodes);
    }

    /** The addresses of the elements and of the objects they retain directly. */
    ghost function Touched(rt: Runtime, es: seq<Element>): set<Address> {
      AddressSet(es) + set e, r | e in es && r in AllRetainedObjects(rt, configuration, e) :: r.address
    }

    /** One of the elements is at `a` and retains an object at `b`. */
    ghost predicate OneHop(rt: Runtime, es: seq<Element>, a: Address, b: Address) {
      exists e | e in es :: e.address == a && b in AddressSet(AllRetainedObjects(rt, configuration, e))
    }

    lemma TouchedOne(rt: Runtime, e: Element)
      ensures Touched(rt, [e]) == {e.address} + AddressSet(AllRetainedObjects(rt, configuration, e))
    {
      assert forall x :: x in [e] <==> x == e;
    }

    lemma TouchedAppend(rt: Runtime, es: seq<Element>, e: Element)
      ensures Touched(rt, es + [e]) == Touched(rt, es) + Touched(rt, [e])
    {
      assert forall x :: x in es + [e] <==> x in es || x == e;
      assert forall x :: x in [e] <==> x == e;
    }

    lemma OneHopAppend(rt: Runtime, es: seq<Element>, e: Element)
      ensures forall a, b :: OneHop(rt, es + [e], a, b) <==>
        OneHop(rt, es, a, b) || (a == e.address && b in AddressSet(AllRetainedObjects(rt, configuration, e)))
    {
      assert forall x :: x in es + [e] <==> x in es || x == e;
    }
  }

  lemma UnionStep<T>(start: set<T>, known: set<T>, before: set<T>, after: set<T>, added: set<T>)
    requires before == start + known && after == before + added
    ensures after == start + (known + added)
  {
  }

  /** A map whose values are pairwise distinct has as many values as keys. */
  lemma {:induction false} InjectiveMapValues(m: map<Address, GraphNode>)
    requires forall a | a in m :: m[a].element.address == a
    ensures forall a, b | a in m && b in m && m[a] == m[b] :: a == b
    ensures |m.Values| == |m.Keys|
    decreases |m.Keys|
  {
    if m != map[] {
      var k :| k in m;
      var rest := m - {k};
      InjectiveMapValues(rest);
      assert m.Keys == rest.Keys + {k};
      assert m.Values == rest.Values + {m[k]};
      assert m[k] !in rest.Values;
    }
  }
}
