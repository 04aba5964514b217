/**
 * The export projection of the JSON preview panels
 * (src/components/JsonPreview.tsx and src/components/Sidebar/FlowJsonPreview.tsx,
 * which compute the same schema): each node carries its outgoing edges,
 * edge parameters default to the empty map, and only the start pointer
 * of the rest of the state is exported. The schema is modelled as a value;
 * its JSON text is not.
 */
module Export {
  import opened FlowTypes
  import FlowStore

  datatype ExportedEdge = ExportedEdge(toNodeId: string, condition: string, parameters: Params)

  datatype ExportedNode = ExportedNode(
    id: string,
    description: Option<string>,
    prompt: string,
    edges: seq<ExportedEdge>)

  datatype Schema = Schema(nodes: seq<ExportedNode>, startNodeId: Option<string>)

  /** `edges.filter(e => e.sourceNodeId === id)`. */
  function Outgoing(edges: seq<Edge>, id: string): (r: seq<Edge>)
    ensures |r| <= |edges|
    ensures forall e :: e in r <==> e in edges && e.sourceNodeId == id
    decreases |edges|
  {
    if edges == [] then []
    else (if edges[0].sourceNodeId == id then [edges[0]] else []) + Outgoing(edges[1..], id)
  }

  /** The filter keeps list order: filtering a concatenation concatenates the filtered parts. */
  lemma {:induction false} OutgoingKeepsOrder(a: seq<Edge>, b: seq<Edge>, id: string)
    ensures Outgoing(a + b, id) == Outgoing(a, id) + Outgoing(b, id)
    decreases |a|
  {
    if a == [] {
      assert a + b == b;
    } else {
      assert (a + b)[1..] == a[1..] + b;
      OutgoingKeepsOrder(a[1..], b, id);
    }
  }

  /** `parameters: edge.parameters || {}` (an empty map is truthy, so only absence defaults). */
  function ExportEdge(e: Edge): (r: ExportedEdge)
    ensures r.toNodeId == e.targetNodeId && r.condition == e.condition
    ensures e.parameters.Some? ==> r.parameters == e.parameters.value
    ensures e.parameters.None? ==> r.parameters == map[]
  {
    ExportedEdge(e.targetNodeId, e.condition, if e.parameters.Some? then e.parameters.value else map[])
  }

  function ExportNode(n: Node, edges: seq<Edge>): ExportedNode {
    var out := Outgoing(edges, n.id);
    ExportedNode(n.id, n.description, n.prompt, seq(|out|, j requires 0 <= j < |out| => ExportEdge(out[j])))
  }

  function ExportNodes(nodes: seq<Node>, edges: seq<Edge>): seq<ExportedNode> {
    seq(|nodes|, i requires 0 <= i < |nodes| => ExportNode(nodes[i], edges))
  }

  /** The `exportedJson` schema object, before `JSON.stringify`. */
  function ExportSchema(s: FlowState): Schema {
    Schema(ExportNodes(s.nodes, s.edges), s.startNodeId)
  }

  /**
   * One exported node per state node, in order, with its id, description
   * and prompt; its edges are the state's edges leaving it, in edge-list
   * order, each with the target, condition and (defaulted) parameters.
   */
  lemma ExportShape(s: FlowState, i: nat)
    requires i < |s.nodes|
    ensures var x := ExportSchema(s); var out := Outgoing(s.edges, s.nodes[i].id);
      && |x.nodes| == |s.nodes|
      && x.nodes[i].id == s.nodes[i].id
      && x.nodes[i].description == s.nodes[i].description
      && x.nodes[i].prompt == s.nodes[i].prompt
      && |x.nodes[i].edges| == |out|
      && (forall j :: 0 <= j < |out| ==>
            && x.nodes[i].edges[j].toNodeId == out[j].targetNodeId
            && x.nodes[i].edges[j].condition == out[j].condition
            && x.nodes[i].edges[j].parameters == (if out[j].parameters.Some? then out[j].parameters.value else map[]))
      && x.startNodeId == s.startNodeId
  {
  }

  /** Every edge leaving an exported node shows up under it, and nothing else does. */
  lemma ExportedEdgesAreOutgoing(s: FlowState, i: nat, x: ExportedEdge)
    requires i < |s.nodes|
    ensures x in ExportSchema(s).nodes[i].edges <==>
      exists e :: e in s.edges && e.sourceNodeId == s.nodes[i].id && ExportEdge(e) == x
  {
    var out := Outgoing(s.edges, s.nodes[i].id);
    var xs := ExportSchema(s).nodes[i].edges;
    if x in xs {
      var j :| 0 <= j < |xs| && xs[j] == x;
      assert out[j] in out;
    }
    if exists e :: e in s.edges && e.sourceNodeId == s.nodes[i].id && ExportEdge(e) == x {
      var e :| e in s.edges && e.sourceNodeId == s.nodes[i].id && ExportEdge(e) == x;
      assert e in out;
      var j :| 0 <= j < |out| && out[j] == e;
      assert xs[j] == x;
    }
  }

  /** The schema does not depend on the flow name, the transform, the selection or the last interaction. */
  lemma ExportIgnoresView(s: FlowState, u: FlowState)
    requires s.nodes == u.nodes && s.edges == u.edges && s.startNodeId == u.startNodeId
    ensures ExportSchema(s) == ExportSchema(u)
  {
  }

  /** The number of edges in an exported node list. */
  function ExportedEdgeCount(nodes: seq<ExportedNode>): nat
    decreases |nodes|
  {
    if nodes == [] then 0 else |nodes[0].edges| + ExportedEdgeCount(nodes[1..])
  }

  /** How many nodes carry the id. */
  function IdCount(nodes: seq<Node>, id: string): nat
    decreases |nodes|
  {
    if nodes == [] then 0 else (if nodes[0].id == id then 1 else 0) + IdCount(nodes[1..], id)
  }

  /** With unique ids an id is carried by exactly one node if it is present and by none otherwise. */
  lemma {:induction false} IdCountUnique(nodes: seq<Node>, id: string)
    requires FlowStore.UniqueNodeIds(nodes)
    ensures IdCount(nodes, id) == if id in NodeIds(nodes) then 1 else 0
    decreases |nodes|
  {
    if nodes != [] {
      var rest := nodes[1..];
      assert FlowStore.UniqueNodeIds(rest) by {
        forall i, j | 0 <= i < j < |rest| ensures rest[i].id != rest[j].id {
          assert rest[i] == nodes[i + 1] && rest[j] == nodes[j + 1];
        }
      }
      IdCountUnique(rest, id);
      assert NodeIds(nodes) == {nodes[0].id} + NodeIds(rest) by {
        forall x | x in NodeIds(nodes) ensures x in {nodes[0].id} + NodeIds(rest) {
          var n :| n in nodes && n.id == x;
          var k :| 0 <= k < |nodes| && nodes[k] == n;
          if k > 0 {
            assert rest[k - 1] == n;
          }
        }
      }
      if nodes[0].id == id {
        forall n | n in rest ensures n.id != id {
          var k :| 0 <= k < |rest| && rest[k] == n;
          assert nodes[0].id != nodes[k + 1].id;
        }
      }
    }
  }

  /** The edges whose source is some node of the list, in order. */
  function Sourced(edges: seq<Edge>, nodes: seq<Node>): (r: seq<Edge>)
    ensures forall e :: e in r <==> e in edges && e.sourceNodeId in NodeIds(nodes)
    decreases |edges|
  {
    if edges == [] then []
    else (if edges[0].sourceNodeId in NodeIds(nodes) then [edges[0]] else []) + Sourced(edges[1..], nodes)
  }

  /** Sum over the nodes of each node's outgoing-edge count. */
  function OutgoingTotal(nodes: seq<Node>, edges: seq<Edge>): nat
    decreases |nodes|
  {
    if nodes == [] then 0 else |Outgoing(edges, nodes[0].id)| + OutgoingTotal(nodes[1..], edges)
  }

  lemma {:induction false} ExportedCountIsOutgoingTotal(nodes: seq<Node>, edges: seq<Edge>)
    ensures ExportedEdgeCount(ExportNodes(nodes, edges)) == OutgoingTotal(nodes, edges)
    decreases |nodes|
  {
    if nodes != [] {
      assert ExportNodes(nodes, edges)[1..] == ExportNodes(nodes[1..], edges);
      ExportedCountIsOutgoingTotal(nodes[1..], edges);
    }
  }

  /** Prepending an edge adds one outgoing edge per node that is its source. */
  lemma {:induction false} OutgoingTotalCons(nodes: seq<Node>, e: Edge, rest: seq<Edge>)
    ensures OutgoingTotal(nodes, [e] + rest) == OutgoingTotal(nodes, rest) + IdCount(nodes, e.sourceNodeId)
    decreases |nodes|
  {
    if nodes != [] {
      assert ([e] + rest)[1..] == rest;
      OutgoingTotalCons(nodes[1..], e, rest);
    }
  }

  /** With unique node ids, the schema holds one entry per edge whose source is a node. */
  lemma {:induction false} OutgoingTotalCountsSourced(nodes: seq<Node>, edges: seq<Edge>)
    requires FlowStore.UniqueNodeIds(nodes)
    ensures OutgoingTotal(nodes, edges) == |Sourced(edges, nodes)|
    decreases |edges|
  {
    if edges == [] {
      if nodes != [] {
        OutgoingTotalEmpty(nodes);
      }
    } else {
      assert edges == [edges[0]] + edges[1..];
      OutgoingTotalCons(nodes, edges[0], edges[1..]);
      IdCountUnique(nodes, edges[0].sourceNodeId);
      OutgoingTotalCountsSourced(nodes, edges[1..]);
    }
  }

  lemma {:induction false} OutgoingTotalEmpty(nodes: seq<Node>)
    ensures OutgoingTotal(nodes, []) == 0
    decreases |nodes|
  {
    if nodes != [] {
      OutgoingTotalEmpty(nodes[1..]);
    }
  }

  /** When every source is present, Sourced keeps every edge. */
  lemma {:induction false} SourcedAll(edges: seq<Edge>, nodes: seq<Node>)
    requires forall e :: e in edges ==> e.sourceNodeId in NodeIds(nodes)
    ensures Sourced(edges, nodes) == edges
    decreases |edges|
  {
    if edges != [] {
      assert edges[0] in edges;
      SourcedAll(edges[1..], nodes);
    }
  }

  /**
   * Edges whose source is no node do not appear in the export; with unique
   * node ids the exported edge count is the number of edges whose source is
   * a node, which is every edge once the graph has referential integrity.
   */
  lemma ExportedEdgeCountTheorem(s: FlowState)
    requires FlowStore.UniqueNodeIds(s.nodes)
    ensures ExportedEdgeCount(ExportSchema(s).nodes) == |Sourced(s.edges, s.nodes)|
    ensures FlowStore.EdgesValid(s) ==> ExportedEdgeCount(ExportSchema(s).nodes) == |s.edges|
  {
    ExportedCountIsOutgoingTotal(s.nodes, s.edges);
    OutgoingTotalCountsSourced(s.nodes, s.edges);
    if FlowStore.EdgesValid(s) {
      SourcedAll(s.edges, s.nodes);
    }
  }

  /** An edge whose source is no node appears under no exported node. */
  lemma OrphanEdgesDropped(s: FlowState, e: Edge, i: nat)
    requires e in s.edges && e.sourceNodeId !in NodeIds(s.nodes) && i < |s.nodes|
    ensures e !in Outgoing(s.edges, s.nodes[i].id)
  {
    assert s.nodes[i] in s.nodes;
  }

  /** The download name of the sidebar panel: the flow name, or "flow" when it is empty, plus ".json". */
  function DownloadName(flowName: string): (r: string)
    ensures flowName != "" ==> r == flowName + ".json"
    ensures flowName == "" ==> r == "flow.json"
  {
    (if flowName == "" then "flow" else flowName) + ".json"
  }

  /** The older preview panel always downloads as "flow.json". */
  const PreviewDownloadName: string := "flow.json"

  /** The two panels name the file alike exactly when the flow is unnamed or named "flow". */
  lemma DownloadNamesAgree(flowName: string)
    ensures DownloadName(flowName) == PreviewDownloadName <==> flowName == "" || flowName == "flow"
  {
    if DownloadName(flowName) == PreviewDownloadName && flowName != "" {
      assert flowName + ".json" == "flow" + ".json";
      assert flowName == (flowName + ".json")[..|flowName + ".json"| - 5];
    }
  }
}
