/** The process graph behind `generate_process_network_diagram`: one node
    per activity code and one directed edge per internal input, from the
    supplying activity to the consuming one. */
module Diagram {
  import opened Values
  import opened Lci
  import opened Assembler

  /** A node's attributes: those `add_node` gives an activity, or none for
      a node that `add_edge` created. */
  datatype NodeAttrs = Labelled(name: string, unit: string) | Bare

  /** An edge's `weight` and the unit shown in its label. */
  datatype EdgeAttrs = EdgeAttrs(weight: Float, unit: string)

  /** A networkx `DiGraph`, as its node and edge attribute maps. */
  datatype Graph = Graph(nodes: map<string, NodeAttrs>, edges: map<(string, string), EdgeAttrs>)

  const EmptyGraph := Graph(map[], map[])

  /** `G.add_node(code, label=..., unit=...)`: a second call for the same
      node overwrites its attributes. */
  function AddNode(g: Graph, code: string, name: string, unit: string): Graph {
    g.(nodes := g.nodes[code := Labelled(name, unit)])
  }

  /** `G.add_edge(u, v, ...)`: creates missing endpoints without
      attributes; a second call for the same pair overwrites the edge's
      attributes. */
  function AddEdge(g: Graph, u: string, v: string, attrs: EdgeAttrs): Graph {
    var withU := if u in g.nodes then g.nodes else g.nodes[u := Bare];
    var withV := if v in withU then withU else withU[v := Bare];
    Graph(withV, g.edges[(u, v) := attrs])
  }

  /** The code of the first activity named like the exchange's flow. */
  function SourceOf(acts: seq<Activity>, e: Exchange): Option<string> {
    match FirstNamed(acts, e.flowName)
    case Some(i) => Some(acts[i].code)
    case None => None
  }

  /** An input whose supplier is a (non-empty) activity code other than
      the consumer's: the only exchanges drawn as edges. */
  predicate Internal(acts: seq<Activity>, e: Exchange) {
    && e.kind == "input"
    && SourceOf(acts, e).Some?
    && SourceOf(acts, e).value != ""
    && SourceOf(acts, e).value != e.activityCode
  }

  /** The graph after the node loop has handled `part`. */
  function WithNodes(g: Graph, part: seq<Activity>): Graph {
    if part == [] then g
    else
      var a := part[|part| - 1];
      AddNode(WithNodes(g, part[..|part| - 1]), a.code, a.name, a.unit)
  }

  /** The graph after the edge loop has handled `part`. */
  function WithEdges(g: Graph, acts: seq<Activity>, part: seq<Exchange>): Graph {
    if part == [] then g
    else
      var e := part[|part| - 1];
      var before := WithEdges(g, acts, part[..|part| - 1]);
      if Internal(acts, e) then AddEdge(before, SourceOf(acts, e).value, e.activityCode, EdgeAttrs(e.amount, e.unit))
      else before
  }

  function ProcessGraph(acts: seq<Activity>, excs: seq<Exchange>): Graph {
    WithEdges(WithNodes(EmptyGraph, acts), acts, excs)
  }

  /** The two graph-building loops of `generate_process_network_diagram`. */
  method BuildProcessGraph(acts: seq<Activity>, excs: seq<Exchange>) returns (g: Graph)
    ensures g == ProcessGraph(acts, excs)
  {
    g := EmptyGraph;
    var i := 0;
    while i < |acts|
      invariant 0 <= i <= |acts|
      invariant g == WithNodes(EmptyGraph, acts[..i])
    {
      assert acts[..i + 1][..i] == acts[..i];
      g := AddNode(g, acts[i].code, acts[i].name, acts[i].unit);
      i := i + 1;
    }
    assert acts[..i] == acts;
    ghost var nodesOnly := g;
    var j := 0;
    while j < |excs|
      invariant 0 <= j <= |excs|
      invariant g == WithEdges(nodesOnly, acts, excs[..j])
    {
      assert excs[..j + 1][..j] == excs[..j];
      var exc := excs[j];
      if exc.kind == "input" {
        var source: Option<string> := None;
        var matching := FirstNamed(acts, exc.flowName);
        if matching.Some? {
          source := Some(acts[matching.value].code);
        }
        if source.Some? && source.value != "" && source.value != exc.activityCode {
          g := AddEdge(g, source.value, exc.activityCode, EdgeAttrs(exc.amount, exc.unit));
        }
      }
      j := j + 1;
    }
    assert excs[..j] == excs;
  }

  // ---------------------------------------------------------------------
  // Properties of the graph
  // ---------------------------------------------------------------------

  /** The edges are exactly the pairs (supplier, consumer) of internal
      inputs. */
  lemma {:induction false} EdgesAreInternalInputs(g: Graph, acts: seq<Activity>, part: seq<Exchange>,
                                                  u: string, v: string)
    ensures (u, v) in WithEdges(g, acts, part).edges
        <==> (u, v) in g.edges
             || exists e :: e in part && Internal(acts, e) && SourceOf(acts, e) == Some(u) && e.activityCode == v
  {
    if part != [] {
      var e := part[|part| - 1];
      var init := part[..|part| - 1];
      assert part == init + [e];
      EdgesAreInternalInputs(g, acts, init, u, v);
      assert forall x :: x in part <==> x in init || x == e;
    }
  }

  /** The diagram's edges are exactly the internal inputs, drawn from the
      supplier's code to the consumer's; so no edge is a self-loop and
      every source is the code of an activity. */
  lemma DiagramEdges(acts: seq<Activity>, excs: seq<Exchange>, u: string, v: string)
    ensures (u, v) in ProcessGraph(acts, excs).edges
        <==> exists e :: e in excs && Internal(acts, e) && SourceOf(acts, e) == Some(u) && e.activityCode == v
    ensures (u, v) in ProcessGraph(acts, excs).edges ==>
              u != v && u != "" && exists k :: 0 <= k < |acts| && acts[k].code == u
  {
    NodesHaveNoEdges(EmptyGraph, acts);
    EdgesAreInternalInputs(WithNodes(EmptyGraph, acts), acts, excs, u, v);
    if (u, v) in ProcessGraph(acts, excs).edges {
      var e :| e in excs && Internal(acts, e) && SourceOf(acts, e) == Some(u) && e.activityCode == v;
      var k := FirstNamed(acts, e.flowName).value;
      assert acts[k].code == u;
    }
  }

  lemma {:induction false} NodesHaveNoEdges(g: Graph, part: seq<Activity>)
    ensures WithNodes(g, part).edges == g.edges
  {
    if part != [] {
      NodesHaveNoEdges(g, part[..|part| - 1]);
    }
  }

  /** An edge carries the amount and unit of the last internal input
      between its two activities. */
  lemma {:induction false} LastInputWeighs(g: Graph, acts: seq<Activity>, part: seq<Exchange>, i: nat)
    requires i < |part| && Internal(acts, part[i])
    requires forall k :: i < k < |part| && Internal(acts, part[k]) ==>
               SourceOf(acts, part[k]) != SourceOf(acts, part[i]) || part[k].activityCode != part[i].activityCode
    ensures (SourceOf(acts, part[i]).value, part[i].activityCode) in WithEdges(g, acts, part).edges
    ensures WithEdges(g, acts, part).edges[(SourceOf(acts, part[i]).value, part[i].activityCode)]
         == EdgeAttrs(part[i].amount, part[i].unit)
  {
    if i < |part| - 1 {
      LastInputWeighs(g, acts, part[..|part| - 1], i);
    }
  }

  /** The nodes are the activity codes plus the consumers of internal
      inputs (an exchange code with no activity becomes a bare node). */
  lemma {:induction false} NodesOfGraph(acts: seq<Activity>, excs: seq<Exchange>, c: string)
    ensures c in ProcessGraph(acts, excs).nodes
        <==> (exists a :: a in acts && a.code == c)
             || exists e :: e in excs && Internal(acts, e) && e.activityCode == c
  {
    NodeKeys(EmptyGraph, acts, c);
    EdgeNodeKeys(WithNodes(EmptyGraph, acts), acts, excs, c);
  }

  lemma {:induction false} NodeKeys(g: Graph, part: seq<Activity>, c: string)
    ensures c in WithNodes(g, part).nodes <==> c in g.nodes || exists a :: a in part && a.code == c
  {
    if part != [] {
      var init := part[..|part| - 1];
      NodeKeys(g, init, c);
      assert forall x :: x in part <==> x in init || x == part[|part| - 1];
    }
  }

  lemma {:induction false} EdgeNodeKeys(g: Graph, acts: seq<Activity>, part: seq<Exchange>, c: string)
    ensures c in WithEdges(g, acts, part).nodes
        <==> c in g.nodes
             || exists e :: e in part && Internal(acts, e) && (e.activityCode == c || SourceOf(acts, e) == Some(c))
  {
    if part != [] {
      var init := part[..|part| - 1];
      EdgeNodeKeys(g, acts, init, c);
      assert forall x :: x in part <==> x in init || x == part[|part| - 1];
    }
  }

  /** Adding edges never changes the attributes of a node already there. */
  lemma {:induction false} EdgesKeepNodes(g: Graph, acts: seq<Activity>, part: seq<Exchange>, c: string)
    requires c in g.nodes
    ensures c in WithEdges(g, acts, part).nodes && WithEdges(g, acts, part).nodes[c] == g.nodes[c]
  {
    if part != [] {
      EdgesKeepNodes(g, acts, part[..|part| - 1], c);
    }
  }

  /** With unique codes, each activity's node carries its name and unit. */
  lemma ActivityNodesLabelled(acts: seq<Activity>, excs: seq<Exchange>, i: nat)
    requires UniqueCodes(acts) && i < |acts|
    ensures acts[i].code in ProcessGraph(acts, excs).nodes
    ensures ProcessGraph(acts, excs).nodes[acts[i].code] == Labelled(acts[i].name, acts[i].unit)
  {
    LastNodeWins(EmptyGraph, acts, i);
    EdgesKeepNodes(WithNodes(EmptyGraph, acts), acts, excs, acts[i].code);
  }

  lemma {:induction false} LastNodeWins(g: Graph, part: seq<Activity>, i: nat)
    requires i < |part|
    requires forall k :: i < k < |part| ==> part[k].code != part[i].code
    ensures part[i].code in WithNodes(g, part).nodes
    ensures WithNodes(g, part).nodes[part[i].code] == Labelled(part[i].name, part[i].unit)
  {
    if i < |part| - 1 {
      LastNodeWins(g, part[..|part| - 1], i);
    }
  }

  /** Every edge of the diagram is a technosphere edge of the inventory:
      the node of the consuming activity has an edge from the supplier's
      key. */
  lemma DiagramMatchesInventory(dbName: string, acts: seq<Activity>, excs: seq<Exchange>,
                                linked: map<string, Key>, u: string, i: nat)
    requires i < |acts|
    requires (u, acts[i].code) in ProcessGraph(acts, excs).edges
    ensures exists j :: 0 <= j < |Inventory(dbName, acts, excs, linked)[Key(dbName, acts[i].code)].exchanges|
              && Inventory(dbName, acts, excs, linked)[Key(dbName, acts[i].code)].exchanges[j].input == Some(Key(dbName, u))
              && Inventory(dbName, acts, excs, linked)[Key(dbName, acts[i].code)].exchanges[j].edgeType == Some(Technosphere)
  {
    var v := acts[i].code;
    DiagramEdges(acts, excs, u, v);
    var e :| e in excs && Internal(acts, e) && SourceOf(acts, e) == Some(u) && e.activityCode == v;
    assert acts[i] in acts;
    var j := EdgeForExchange(dbName, acts, excs, linked, e);
  }
}
