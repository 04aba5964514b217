/**
 * The flow summary counts (src/components/Sidebar/FlowSummary.tsx, and the
 * same derivation inline in src/components/Sidebar.tsx): totals, and the
 * nodes that some edge touches as source or target.
 */
module Summary {
  import opened FlowTypes

  /** Every id that occurs as a source or a target of some edge. */
  function Endpoints(edges: seq<Edge>): (r: set<string>)
    ensures forall x :: x in r <==> exists e :: e in edges && (x == e.sourceNodeId || x == e.targetNodeId)
    decreases |edges|
  {
    if edges == [] then {}
    else
      var last := edges[|edges| - 1];
      var init := edges[..|edges| - 1];
      assert edges == init + [last];
      Endpoints(init) + {last.sourceNodeId, last.targetNodeId}
  }

  /** The `forEach` that fills `connectedNodeIds` with both ends of every edge. */
  method ConnectedNodeIds(edges: seq<Edge>) returns (ids: set<string>)
    ensures ids == Endpoints(edges)
  {
    ids := {};
    var i := 0;
    while i < |edges|
      invariant 0 <= i <= |edges|
      invariant ids == Endpoints(edges[..i])
    {
      assert edges[..i + 1][..i] == edges[..i];
      ids := ids + {edges[i].sourceNodeId};
      ids := ids + {edges[i].targetNodeId};
      i := i + 1;
    }
    assert edges[..|edges|] == edges;
  }

  /** `nodes.filter(n => ids.has(n.id))`. */
  function NodesIn(nodes: seq<Node>, ids: set<string>): (r: seq<Node>)
    ensures |r| <= |nodes|
    ensures forall n :: n in r <==> n in nodes && n.id in ids
    decreases |nodes|
  {
    if nodes == [] then []
    else (if nodes[0].id in ids then [nodes[0]] else []) + NodesIn(nodes[1..], ids)
  }

  /** The complementary filter: the nodes whose id is not in the set. */
  function NodesNotIn(nodes: seq<Node>, ids: set<string>): (r: seq<Node>)
    ensures forall n :: n in r <==> n in nodes && n.id !in ids
    decreases |nodes|
  {
    if nodes == [] then []
    else (if nodes[0].id !in ids then [nodes[0]] else []) + NodesNotIn(nodes[1..], ids)
  }

  /** Every node passes exactly one of the two filters. */
  lemma {:induction false} FiltersPartition(nodes: seq<Node>, ids: set<string>)
    ensures |NodesIn(nodes, ids)| + |NodesNotIn(nodes, ids)| == |nodes|
    decreases |nodes|
  {
    if nodes != [] {
      FiltersPartition(nodes[1..], ids);
    }
  }

  datatype FlowSummary = FlowSummary(totalNodes: int, totalEdges: int, connectedNodes: int, disconnectedNodes: int)

  /**
   * The summary panel's four numbers: the totals, the nodes some edge
   * touches, and the rest, which are exactly the nodes no edge touches.
   */
  method Summarize(s: FlowState) returns (r: FlowSummary)
    ensures r.totalNodes == |s.nodes| && r.totalEdges == |s.edges|
    ensures r.connectedNodes == |NodesIn(s.nodes, Endpoints(s.edges))|
    ensures r.disconnectedNodes == |NodesNotIn(s.nodes, Endpoints(s.edges))|
    ensures r.connectedNodes + r.disconnectedNodes == r.totalNodes
    ensures 0 <= r.disconnectedNodes <= r.totalNodes
  {
    var connected := ConnectedNodeIds(s.edges);
    var connectedNodes := |NodesIn(s.nodes, connected)|;
    FiltersPartition(s.nodes, connected);
    r := FlowSummary(|s.nodes|, |s.edges|, connectedNodes, |s.nodes| - connectedNodes);
  }

  /** A node counts as connected exactly when some edge starts or ends at it. */
  lemma ConnectedMeansTouched(s: FlowState, n: Node)
    requires n in s.nodes
    ensures n in NodesIn(s.nodes, Endpoints(s.edges)) <==>
      exists e :: e in s.edges && (e.sourceNodeId == n.id || e.targetNodeId == n.id)
  {
  }

  /** With no edges no node is connected and all are disconnected. */
  lemma NoEdgesNoneConnected(s: FlowState)
    requires s.edges == []
    ensures |NodesIn(s.nodes, Endpoints(s.edges))| == 0
    ensures |NodesNotIn(s.nodes, Endpoints(s.edges))| == |s.nodes|
  {
    assert Endpoints(s.edges) == {};
    FiltersPartition(s.nodes, {});
    if NodesIn(s.nodes, {}) != [] {
      assert NodesIn(s.nodes, {})[0] in NodesIn(s.nodes, {});
    }
  }

  /** A node whose only edge is a self-loop is connected. */
  lemma SelfLoopConnects(s: FlowState, n: Node, e: Edge)
    requires n in s.nodes && e in s.edges
    requires e.sourceNodeId == n.id && e.targetNodeId == n.id
    ensures n in NodesIn(s.nodes, Endpoints(s.edges))
  {
  }
}
