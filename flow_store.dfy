/**
 * The flow-graph store: `flowReducer` and `initialState` of
 * src/context/FlowContext.tsx, with the referential-integrity and
 * selection rules its cases keep (or, in the cases noted, do not keep).
 */
module FlowStore {
  import opened FlowTypes

  // ---------------------------------------------------------------------
  // Invariants of the aggregate
  // ---------------------------------------------------------------------

  /** Every edge endpoint names an existing node. */
  predicate EdgesValid(s: FlowState) {
    forall e :: e in s.edges ==> e.sourceNodeId in NodeIds(s.nodes) && e.targetNodeId in NodeIds(s.nodes)
  }

  /** The start pointer is null or names an existing node. */
  predicate StartValid(s: FlowState) {
    s.startNodeId.None? || s.startNodeId.value in NodeIds(s.nodes)
  }

  /** The node selection is null or names an existing node. */
  predicate NodeSelectionValid(s: FlowState) {
    s.selectedNodeId.None? || s.selectedNodeId.value in NodeIds(s.nodes)
  }

  /** No dangling edge endpoint, start pointer or node selection. */
  predicate Integrity(s: FlowState) {
    EdgesValid(s) && StartValid(s) && NodeSelectionValid(s)
  }

  /** Both selection pointers are null or name an existing node / edge. */
  predicate SelectionValid(s: FlowState) {
    NodeSelectionValid(s) &&
    (s.selectedEdgeId.None? || s.selectedEdgeId.value in EdgeIds(s.edges))
  }

  /** At most one of the node and the edge selection is non-null. */
  predicate Exclusive(s: FlowState) {
    s.selectedNodeId.None? || s.selectedEdgeId.None?
  }

  /** No two nodes share an id. */
  predicate UniqueNodeIds(nodes: seq<Node>) {
    forall i, j :: 0 <= i < j < |nodes| ==> nodes[i].id != nodes[j].id
  }

  // ---------------------------------------------------------------------
  // The per-element steps of the reducer's map/filter calls
  // ---------------------------------------------------------------------

  /** `{ ...node, ...data }`. */
  function MergeNode(n: Node, p: NodePatch): Node {
    Node(
      if p.newId.Some? then p.newId.value else n.id,
      if p.newDescription.Some? then Some(p.newDescription.value) else n.description,
      if p.newPrompt.Some? then p.newPrompt.value else n.prompt,
      if p.newPosition.Some? then p.newPosition.value else n.position)
  }

  /** `{ ...edge, ...data }`. */
  function MergeEdge(e: Edge, p: EdgePatch): Edge {
    Edge(
      if p.newEdgeId.Some? then p.newEdgeId.value else e.id,
      if p.newSource.Some? then p.newSource.value else e.sourceNodeId,
      if p.newTarget.Some? then p.newTarget.value else e.targetNodeId,
      if p.newCondition.Some? then p.newCondition.value else e.condition,
      if p.newParameters.Some? then Some(p.newParameters.value) else e.parameters)
  }

  /** The copy of an edge whose endpoints equal to `oldId` now read `newId`. */
  function RenameEdge(e: Edge, oldId: string, newId: string): Edge {
    e.(sourceNodeId := if e.sourceNodeId == oldId then newId else e.sourceNodeId,
       targetNodeId := if e.targetNodeId == oldId then newId else e.targetNodeId)
  }

  function MergeMatching(nodes: seq<Node>, id: string, p: NodePatch): seq<Node> {
    seq(|nodes|, i requires 0 <= i < |nodes| => if nodes[i].id == id then MergeNode(nodes[i], p) else nodes[i])
  }

  function MoveMatching(nodes: seq<Node>, id: string, pos: Position): seq<Node> {
    seq(|nodes|, i requires 0 <= i < |nodes| => if nodes[i].id == id then nodes[i].(position := pos) else nodes[i])
  }

  function RenameEndpoints(edges: seq<Edge>, oldId: string, newId: string): seq<Edge> {
    seq(|edges|, i requires 0 <= i < |edges| => RenameEdge(edges[i], oldId, newId))
  }

  function PatchMatching(edges: seq<Edge>, id: string, p: EdgePatch): seq<Edge> {
    seq(|edges|, i requires 0 <= i < |edges| => if edges[i].id == id then MergeEdge(edges[i], p) else edges[i])
  }

  /** `nodes.filter(node => node.id !== id)`. */
  function NodesWithout(nodes: seq<Node>, id: string): (r: seq<Node>)
    ensures forall n :: n in r <==> n in nodes && n.id != id
    ensures |r| <= |nodes|
  {
    if nodes == [] then []
    else (if nodes[0].id == id then [] else [nodes[0]]) + NodesWithout(nodes[1..], id)
  }

  /** `edges.filter(edge => edge.sourceNodeId !== id && edge.targetNodeId !== id)`. */
  function EdgesNotTouching(edges: seq<Edge>, id: string): (r: seq<Edge>)
    ensures forall e :: e in r <==> e in edges && e.sourceNodeId != id && e.targetNodeId != id
    ensures |r| <= |edges|
  {
    if edges == [] then []
    else
      (if edges[0].sourceNodeId != id && edges[0].targetNodeId != id then [edges[0]] else [])
      + EdgesNotTouching(edges[1..], id)
  }

  /** `edges.filter(edge => edge.id !== id)`. */
  function EdgesWithout(edges: seq<Edge>, id: string): (r: seq<Edge>)
    ensures forall e :: e in r <==> e in edges && e.id != id
    ensures |r| <= |edges|
  {
    if edges == [] then []
    else (if edges[0].id == id then [] else [edges[0]]) + EdgesWithout(edges[1..], id)
  }

  /** A filter that matches nothing keeps the whole sequence, duplicates included. */
  lemma {:induction false} NodesWithoutKeepsAll(xs: seq<Node>, id: string)
    requires forall x :: x in xs ==> x.id != id
    ensures NodesWithout(xs, id) == xs
    decreases |xs|
  {
    if xs != [] {
      assert xs[0] in xs;
      assert forall x :: x in xs[1..] ==> x in xs;
      NodesWithoutKeepsAll(xs[1..], id);
      assert [xs[0]] + xs[1..] == xs;
    }
  }

  lemma {:induction false} EdgesNotTouchingKeepsAll(xs: seq<Edge>, id: string)
    requires forall x :: x in xs ==> x.sourceNodeId != id && x.targetNodeId != id
    ensures EdgesNotTouching(xs, id) == xs
    decreases |xs|
  {
    if xs != [] {
      assert xs[0] in xs;
      assert forall x :: x in xs[1..] ==> x in xs;
      EdgesNotTouchingKeepsAll(xs[1..], id);
      assert [xs[0]] + xs[1..] == xs;
    }
  }

  lemma {:induction false} EdgesWithoutKeepsAll(xs: seq<Edge>, id: string)
    requires forall x :: x in xs ==> x.id != id
    ensures EdgesWithout(xs, id) == xs
    decreases |xs|
  {
    if xs != [] {
      assert xs[0] in xs;
      assert forall x :: x in xs[1..] ==> x in xs;
      EdgesWithoutKeepsAll(xs[1..], id);
      assert [xs[0]] + xs[1..] == xs;
    }
  }

  /** The filters keep order and duplicates: filtering distributes over concatenation. */
  lemma {:induction false} NodesWithoutKeepsOrder(a: seq<Node>, b: seq<Node>, id: string)
    ensures NodesWithout(a + b, id) == NodesWithout(a, id) + NodesWithout(b, id)
    decreases |a|
  {
    if a == [] {
      assert a + b == b;
    } else {
      assert (a + b)[1..] == a[1..] + b;
      NodesWithoutKeepsOrder(a[1..], b, id);
    }
  }

  lemma {:induction false} EdgesNotTouchingKeepsOrder(a: seq<Edge>, b: seq<Edge>, id: string)
    ensures EdgesNotTouching(a + b, id) == EdgesNotTouching(a, id) + EdgesNotTouching(b, id)
    decreases |a|
  {
    if a == [] {
      assert a + b == b;
    } else {
      assert (a + b)[1..] == a[1..] + b;
      EdgesNotTouchingKeepsOrder(a[1..], b, id);
    }
  }

  lemma {:induction false} EdgesWithoutKeepsOrder(a: seq<Edge>, b: seq<Edge>, id: string)
    ensures EdgesWithout(a + b, id) == EdgesWithout(a, id) + EdgesWithout(b, id)
    decreases |a|
  {
    if a == [] {
      assert a + b == b;
    } else {
      assert (a + b)[1..] == a[1..] + b;
      EdgesWithoutKeepsOrder(a[1..], b, id);
    }
  }

  // ---------------------------------------------------------------------
  // The reducer
  // ---------------------------------------------------------------------

  /**
   * `flowReducer`: total, synchronous, one case per action kind. Each field
   * changes only under the actions whose cases write it.
   */
  function Reduce(s: FlowState, a: Action): (r: FlowState)
    ensures !(a.AddNode? || a.UpdateNode? || a.RemoveNode? || a.MoveNode? || a.ImportFlow?) ==> r.nodes == s.nodes
    ensures !(a.UpdateNode? || a.RemoveNode? || a.AddEdge? || a.UpdateEdge? || a.RemoveEdge? || a.ImportFlow?) ==>
      r.edges == s.edges
    ensures !(a.UpdateNode? || a.RemoveNode? || a.SetStartNode? || a.ImportFlow?) ==> r.startNodeId == s.startNodeId
    ensures !(a.AddNode? || a.UpdateNode? || a.RemoveNode? || a.SetSelectedNode? || a.SetSelectedEdge? || a.ImportFlow?) ==>
      r.selectedNodeId == s.selectedNodeId
    ensures !(a.RemoveEdge? || a.SetSelectedNode? || a.SetSelectedEdge? || a.ImportFlow?) ==>
      r.selectedEdgeId == s.selectedEdgeId
    ensures !(a.SetTransform? || a.ImportFlow?) ==> r.transform == s.transform
    ensures !(a.SetFlowName? || a.ImportFlow?) ==> r.flowName == s.flowName
    ensures !(a.AddNode? || a.MoveNode? || a.ImportFlow?) ==> r.lastInteractionPosition == s.lastInteractionPosition
    ensures a.AddNode? ==> |r.nodes| == |s.nodes| + 1
    ensures a.UpdateNode? || a.MoveNode? ==> |r.nodes| == |s.nodes|
    ensures a.RemoveNode? ==> |r.nodes| <= |s.nodes|
    ensures a.AddEdge? ==> |r.edges| == |s.edges| + 1
    ensures a.UpdateNode? || a.UpdateEdge? ==> |r.edges| == |s.edges|
    ensures a.RemoveNode? || a.RemoveEdge? ==> |r.edges| <= |s.edges|
  {
    match a
    case AddNode(n) =>
      s.(nodes := s.nodes + [n], selectedNodeId := Some(n.id), lastInteractionPosition := Some(n.position))
    case UpdateNode(id, p) =>
      // The cascade is guarded by the truthiness of `data.id`.
      var cascade := Truthy(p.newId);
      s.(nodes := MergeMatching(s.nodes, id, p),
         edges := if cascade then RenameEndpoints(s.edges, id, p.newId.value) else s.edges,
         startNodeId := if cascade && s.startNodeId == Some(id) then p.newId else s.startNodeId,
         selectedNodeId := if cascade && s.selectedNodeId == Some(id) then p.newId else s.selectedNodeId)
    case RemoveNode(id) =>
      s.(nodes := NodesWithout(s.nodes, id),
         edges := EdgesNotTouching(s.edges, id),
         startNodeId := if s.startNodeId == Some(id) then None else s.startNodeId,
         selectedNodeId := if s.selectedNodeId == Some(id) then None else s.selectedNodeId)
    case AddEdge(e) =>
      s.(edges := s.edges + [e])
    case UpdateEdge(id, p) =>
      s.(edges := PatchMatching(s.edges, id, p))
    case RemoveEdge(id) =>
      s.(edges := EdgesWithout(s.edges, id),
         selectedEdgeId := if s.selectedEdgeId == Some(id) then None else s.selectedEdgeId)
    case SetStartNode(id) =>
      s.(startNodeId := Some(id))
    case SetSelectedNode(sel) =>
      s.(selectedNodeId := sel, selectedEdgeId := None)
    case SetSelectedEdge(sel) =>
      s.(selectedEdgeId := sel, selectedNodeId := None)
    case MoveNode(id, pos) =>
      s.(nodes := MoveMatching(s.nodes, id, pos), lastInteractionPosition := Some(pos))
    case SetTransform(t) =>
      s.(transform := t)
    case ImportFlow(f) =>
      f
    case SetFlowName(name) =>
      s.(flowName := name)
    case Unrecognized(_) =>
      s
  }

  /** Dispatching a sequence of actions in order. */
  function ApplyAll(s: FlowState, actions: seq<Action>): FlowState
    decreases |actions|
  {
    if actions == [] then s else ApplyAll(Reduce(s, actions[0]), actions[1..])
  }

  /** Dispatching a single action is one reducer step. */
  lemma ApplyOne(s: FlowState, a: Action)
    ensures ApplyAll(s, [a]) == Reduce(s, a)
  {
    assert [a][1..] == [];
  }

  /** `initialState`. */
  function InitialState(): (s: FlowState)
    ensures Integrity(s) && SelectionValid(s) && Exclusive(s) && UniqueNodeIds(s.nodes)
    ensures |s.nodes| == 1 && s.startNodeId == Some(s.nodes[0].id) && s.edges == []
    ensures s.transform == Transform(0.0, 0.0, 1.0)
    ensures s.lastInteractionPosition == Some(s.nodes[0].position)
  {
    var first := Node("node_1", Some("Initial Node"), "What do you want to do?", Position(300.0, 200.0));
    assert first.id in NodeIds([first]);
    FlowState("Untitled Flow", [first], [], Some("node_1"), None, None,
              Transform(0.0, 0.0, 1.0), Some(Position(300.0, 200.0)))
  }

  // ---------------------------------------------------------------------
  // Facts about the per-element helpers
  // ---------------------------------------------------------------------

  /** Which ids exist after merging a patch into the nodes that carry `id`. */
  lemma MergeMatchingIds(nodes: seq<Node>, id: string, p: NodePatch, x: string)
    ensures x in NodeIds(nodes) && x != id ==> x in NodeIds(MergeMatching(nodes, id, p))
    ensures x in NodeIds(nodes) && x == id && p.newId.Some? ==> p.newId.value in NodeIds(MergeMatching(nodes, id, p))
    ensures p.newId.None? ==> NodeIds(MergeMatching(nodes, id, p)) == NodeIds(nodes)
  {
    var r := MergeMatching(nodes, id, p);
    if x in NodeIds(nodes) {
      var i :| 0 <= i < |nodes| && nodes[i].id == x;
      assert r[i] in r;
    }
    if p.newId.None? {
      forall y | y in NodeIds(nodes) ensures y in NodeIds(r) {
        var i :| 0 <= i < |nodes| && nodes[i].id == y;
        assert r[i] in r;
      }
      forall y | y in NodeIds(r) ensures y in NodeIds(nodes) {
        var i :| 0 <= i < |r| && r[i].id == y;
        assert nodes[i] in nodes;
      }
    }
  }

  lemma MoveMatchingIds(nodes: seq<Node>, id: string, pos: Position)
    ensures NodeIds(MoveMatching(nodes, id, pos)) == NodeIds(nodes)
  {
    var r := MoveMatching(nodes, id, pos);
    forall y | y in NodeIds(nodes) ensures y in NodeIds(r) {
      var i :| 0 <= i < |nodes| && nodes[i].id == y;
      assert r[i] in r;
    }
    forall y | y in NodeIds(r) ensures y in NodeIds(nodes) {
      var i :| 0 <= i < |r| && r[i].id == y;
      assert nodes[i] in nodes;
    }
  }

  // ---------------------------------------------------------------------
  // ADD_NODE
  // ---------------------------------------------------------------------

  /** ADD_NODE appends, selects the new node and records its position; the edge selection stays. */
  lemma AddNodeEffect(s: FlowState, n: Node)
    ensures var r := Reduce(s, AddNode(n));
      && r.nodes[..|s.nodes|] == s.nodes && r.nodes[|s.nodes|] == n && |r.nodes| == |s.nodes| + 1
      && NodeIds(r.nodes) == NodeIds(s.nodes) + {n.id}
      && r.selectedNodeId == Some(n.id) && r.lastInteractionPosition == Some(n.position)
      && r.selectedEdgeId == s.selectedEdgeId
      && r == s.(nodes := r.nodes, selectedNodeId := r.selectedNodeId, lastInteractionPosition := r.lastInteractionPosition)
  {
    var r := Reduce(s, AddNode(n));
    assert r.nodes[|s.nodes|] in r.nodes;
    forall y | y in NodeIds(r.nodes) ensures y in NodeIds(s.nodes) + {n.id} {
      var m :| m in r.nodes && m.id == y;
      assert m in s.nodes || m == n;
    }
  }

  /** Adding a node while an edge is selected leaves both selections non-null. */
  lemma AddNodeBreaksExclusivity(s: FlowState, n: Node)
    requires s.selectedEdgeId.Some?
    ensures !Exclusive(Reduce(s, AddNode(n)))
  {
  }

  /** ADD_NODE keeps integrity, and uniqueness when the id is fresh. */
  lemma AddNodePreserves(s: FlowState, n: Node)
    ensures Integrity(s) ==> Integrity(Reduce(s, AddNode(n)))
    ensures UniqueNodeIds(s.nodes) && n.id !in NodeIds(s.nodes) ==> UniqueNodeIds(Reduce(s, AddNode(n)).nodes)
  {
    AddNodeEffect(s, n);
    var r := Reduce(s, AddNode(n));
    if UniqueNodeIds(s.nodes) && n.id !in NodeIds(s.nodes) {
      forall i, j | 0 <= i < j < |r.nodes| ensures r.nodes[i].id != r.nodes[j].id {
        if j == |s.nodes| {
          assert r.nodes[i] == s.nodes[i];
          assert s.nodes[i] in s.nodes;
        }
      }
    }
  }

  // ---------------------------------------------------------------------
  // UPDATE_NODE
  // ---------------------------------------------------------------------

  /**
   * A rename with a non-empty id merges the patch into the matching nodes and
   * cascades to every edge endpoint, the start node and the node selection;
   * the edge selection, transform, name and last position stay.
   */
  lemma RenameCascade(s: FlowState, oldId: string, p: NodePatch)
    requires Truthy(p.newId)
    ensures var r := Reduce(s, UpdateNode(oldId, p)); var newId := p.newId.value;
      && |r.edges| == |s.edges|
      && (forall i :: 0 <= i < |s.edges| ==>
            && r.edges[i].sourceNodeId == (if s.edges[i].sourceNodeId == oldId then newId else s.edges[i].sourceNodeId)
            && r.edges[i].targetNodeId == (if s.edges[i].targetNodeId == oldId then newId else s.edges[i].targetNodeId)
            && r.edges[i].id == s.edges[i].id
            && r.edges[i].condition == s.edges[i].condition
            && r.edges[i].parameters == s.edges[i].parameters)
      && (forall e :: e in r.edges ==> e.sourceNodeId != oldId || oldId == newId)
      && r.startNodeId == (if s.startNodeId == Some(oldId) then Some(newId) else s.startNodeId)
      && r.selectedNodeId == (if s.selectedNodeId == Some(oldId) then Some(newId) else s.selectedNodeId)
      && |r.nodes| == |s.nodes|
      && (forall i :: 0 <= i < |s.nodes| ==>
            r.nodes[i] == if s.nodes[i].id == oldId then MergeNode(s.nodes[i], p) else s.nodes[i])
      && r == s.(nodes := r.nodes, edges := r.edges, startNodeId := r.startNodeId, selectedNodeId := r.selectedNodeId)
  {
  }

  /** A patch without a truthy id merges into the matching nodes and touches nothing else. */
  lemma UpdateWithoutIdSkipsCascade(s: FlowState, id: string, p: NodePatch)
    requires !Truthy(p.newId)
    ensures var r := Reduce(s, UpdateNode(id, p));
      && r.edges == s.edges && r.startNodeId == s.startNodeId && r.selectedNodeId == s.selectedNodeId
      && |r.nodes| == |s.nodes|
      && (forall i :: 0 <= i < |s.nodes| ==>
            r.nodes[i] == if s.nodes[i].id == id then MergeNode(s.nodes[i], p) else s.nodes[i])
  {
  }

  /** A rename with a non-empty id (used or not) keeps integrity. */
  lemma RenamePreservesIntegrity(s: FlowState, oldId: string, p: NodePatch)
    requires Integrity(s)
    requires Truthy(p.newId)
    ensures Integrity(Reduce(s, UpdateNode(oldId, p)))
  {
    var r := Reduce(s, UpdateNode(oldId, p));
    var newId := p.newId.value;
    forall e | e in r.edges
      ensures e.sourceNodeId in NodeIds(r.nodes) && e.targetNodeId in NodeIds(r.nodes)
    {
      var i :| 0 <= i < |r.edges| && r.edges[i] == e;
      var e0 := s.edges[i];
      assert e0 in s.edges;
      MergeMatchingIds(s.nodes, oldId, p, e0.sourceNodeId);
      MergeMatchingIds(s.nodes, oldId, p, e0.targetNodeId);
    }
    if s.startNodeId.Some? {
      MergeMatchingIds(s.nodes, oldId, p, s.startNodeId.value);
    }
    if s.selectedNodeId.Some? {
      MergeMatchingIds(s.nodes, oldId, p, s.selectedNodeId.value);
    }
  }

  /** A rename to an id no node has keeps node ids unique. */
  lemma RenameKeepsIdsUnique(s: FlowState, oldId: string, p: NodePatch)
    requires UniqueNodeIds(s.nodes)
    requires p.newId.Some? ==> p.newId.value !in NodeIds(s.nodes)
    ensures UniqueNodeIds(Reduce(s, UpdateNode(oldId, p)).nodes)
  {
    var r := Reduce(s, UpdateNode(oldId, p)).nodes;
    forall i, j | 0 <= i < j < |r| ensures r[i].id != r[j].id {
      assert s.nodes[i] in s.nodes && s.nodes[j] in s.nodes;
      if s.nodes[i].id == oldId && s.nodes[j].id == oldId {
        assert false;
      }
    }
  }

  /**
   * A rename to "" renames the node but skips the edge cascade: an edge
   * that started at the node now starts at an id no node has.
   */
  lemma EmptyRenameOrphansEdges(s: FlowState, oldId: string, k: nat)
    requires UniqueNodeIds(s.nodes)
    requires oldId != "" && k < |s.edges| && s.edges[k].sourceNodeId == oldId
    ensures var r := Reduce(s, UpdateNode(oldId, IdPatch("")));
      r.edges[k].sourceNodeId == oldId && oldId !in NodeIds(r.nodes) && !EdgesValid(r)
  {
    var r := Reduce(s, UpdateNode(oldId, IdPatch("")));
    assert r.edges == s.edges;
    forall n | n in r.nodes ensures n.id != oldId {
      var i :| 0 <= i < |r.nodes| && r.nodes[i] == n;
    }
    assert r.edges[k] in r.edges;
  }

  // ---------------------------------------------------------------------
  // REMOVE_NODE
  // ---------------------------------------------------------------------

  /** REMOVE_NODE deletes the node, every edge touching it and the pointers to it. */
  lemma RemoveNodeCascade(s: FlowState, id: string)
    ensures var r := Reduce(s, RemoveNode(id));
      && r.nodes == NodesWithout(s.nodes, id) && r.edges == EdgesNotTouching(s.edges, id)
      && NodeIds(r.nodes) == NodeIds(s.nodes) - {id}
      && (forall n :: n in r.nodes <==> n in s.nodes && n.id != id)
      && (forall e :: e in r.edges <==> e in s.edges && e.sourceNodeId != id && e.targetNodeId != id)
      && r.startNodeId == (if s.startNodeId == Some(id) then None else s.startNodeId)
      && r.selectedNodeId == (if s.selectedNodeId == Some(id) then None else s.selectedNodeId)
      && r == s.(nodes := r.nodes, edges := r.edges, startNodeId := r.startNodeId, selectedNodeId := r.selectedNodeId)
  {
    var r := Reduce(s, RemoveNode(id));
    forall y | y in NodeIds(s.nodes) - {id} ensures y in NodeIds(r.nodes) {
      var n :| n in s.nodes && n.id == y;
      assert n in r.nodes;
    }
  }

  /** REMOVE_NODE keeps integrity. */
  lemma RemoveNodePreservesIntegrity(s: FlowState, id: string)
    requires Integrity(s)
    ensures Integrity(Reduce(s, RemoveNode(id)))
  {
    RemoveNodeCascade(s, id);
  }

  /** REMOVE_NODE does not clear an edge selection whose edge it deletes. */
  lemma RemoveNodeLeavesEdgeSelection(s: FlowState, id: string, k: nat)
    requires k < |s.edges| && s.edges[k].sourceNodeId == id
    requires s.selectedEdgeId == Some(s.edges[k].id)
    requires forall j :: 0 <= j < |s.edges| && j != k ==> s.edges[j].id != s.edges[k].id
    ensures !SelectionValid(Reduce(s, RemoveNode(id)))
  {
    var r := Reduce(s, RemoveNode(id));
    forall e | e in r.edges ensures e.id != s.edges[k].id {
      var j :| 0 <= j < |s.edges| && s.edges[j] == e;
    }
  }

  // ---------------------------------------------------------------------
  // Edges
  // ---------------------------------------------------------------------

  /** ADD_EDGE only appends. */
  lemma AddEdgeAppends(s: FlowState, e: Edge)
    ensures Reduce(s, AddEdge(e)) == s.(edges := s.edges + [e])
    ensures Integrity(s) && e.sourceNodeId in NodeIds(s.nodes) && e.targetNodeId in NodeIds(s.nodes)
            ==> Integrity(Reduce(s, AddEdge(e)))
  {
  }

  /** UPDATE_EDGE merges the patch into the edges with that id and changes nothing else. */
  lemma UpdateEdgeEffect(s: FlowState, id: string, p: EdgePatch)
    ensures var r := Reduce(s, UpdateEdge(id, p));
      && r == s.(edges := r.edges) && |r.edges| == |s.edges|
      && forall i :: 0 <= i < |s.edges| ==>
           r.edges[i] == if s.edges[i].id == id then MergeEdge(s.edges[i], p) else s.edges[i]
  {
  }

  /** REMOVE_EDGE filters the edge out and clears the edge selection only if it named that edge. */
  lemma RemoveEdgeEffect(s: FlowState, id: string)
    ensures var r := Reduce(s, RemoveEdge(id));
      && r.edges == EdgesWithout(s.edges, id)
      && id !in EdgeIds(r.edges)
      && (forall e :: e in r.edges <==> e in s.edges && e.id != id)
      && r.selectedEdgeId == (if s.selectedEdgeId == Some(id) then None else s.selectedEdgeId)
      && r == s.(edges := r.edges, selectedEdgeId := r.selectedEdgeId)
  {
  }

  // ---------------------------------------------------------------------
  // Pointers, movement and whole-field replacement
  // ---------------------------------------------------------------------

  /** Either selection action leaves at most one selection non-null. */
  lemma SelectIsExclusive(s: FlowState, sel: Option<string>)
    ensures var r := Reduce(s, SetSelectedNode(sel)); r.selectedNodeId == sel && r.selectedEdgeId.None? && Exclusive(r)
    ensures var r := Reduce(s, SetSelectedEdge(sel)); r.selectedEdgeId == sel && r.selectedNodeId.None? && Exclusive(r)
  {
  }

  /** Every action except ADD_NODE (and an import of a non-exclusive state) keeps exclusivity. */
  lemma ExclusivityPreserved(s: FlowState, a: Action)
    requires Exclusive(s)
    requires !a.AddNode?
    requires a.ImportFlow? ==> Exclusive(a.flow)
    ensures Exclusive(Reduce(s, a))
  {
  }

  /** SET_START_NODE performs no existence check. */
  lemma SetStartNodeUnchecked(s: FlowState, id: string)
    ensures Reduce(s, SetStartNode(id)) == s.(startNodeId := Some(id))
    ensures id !in NodeIds(s.nodes) ==> !StartValid(Reduce(s, SetStartNode(id)))
  {
  }

  /** SET_SELECTED_NODE performs no existence check either. */
  lemma SetSelectedNodeUnchecked(s: FlowState, id: string)
    requires id !in NodeIds(s.nodes)
    ensures !NodeSelectionValid(Reduce(s, SetSelectedNode(Some(id))))
  {
  }

  /** MOVE_NODE replaces positions only, and records the position even when no node matches. */
  lemma MoveNodeEffect(s: FlowState, id: string, pos: Position)
    ensures var r := Reduce(s, MoveNode(id, pos));
      && |r.nodes| == |s.nodes|
      && (forall i :: 0 <= i < |s.nodes| ==>
            && r.nodes[i].id == s.nodes[i].id && r.nodes[i].prompt == s.nodes[i].prompt
            && r.nodes[i].description == s.nodes[i].description
            && r.nodes[i].position == (if s.nodes[i].id == id then pos else s.nodes[i].position))
      && r.lastInteractionPosition == Some(pos)
      && NodeIds(r.nodes) == NodeIds(s.nodes)
      && r == s.(nodes := r.nodes, lastInteractionPosition := r.lastInteractionPosition)
  {
    MoveMatchingIds(s.nodes, id, pos);
  }

  /** SET_TRANSFORM, SET_FLOW_NAME and IMPORT_FLOW replace one field or the whole state. */
  lemma ReplacingActions(s: FlowState, t: Transform, name: string, f: FlowState, kind: string)
    ensures Reduce(s, SetTransform(t)) == s.(transform := t)
    ensures Reduce(s, SetFlowName(name)) == s.(flowName := name)
    ensures Reduce(s, ImportFlow(f)) == f
    ensures Reduce(s, Unrecognized(kind)) == s
  {
  }

  // ---------------------------------------------------------------------
  // Referential integrity over runs of actions
  // ---------------------------------------------------------------------

  /**
   * The caller obligations under which an action keeps integrity: no rename
   * to "", new edge endpoints, start ids and selected node ids name existing
   * nodes, imports are themselves consistent.
   */
  predicate IntegritySafe(s: FlowState, a: Action) {
    match a
    case UpdateNode(_, p) => p.newId != Some("")
    case AddEdge(e) => e.sourceNodeId in NodeIds(s.nodes) && e.targetNodeId in NodeIds(s.nodes)
    case UpdateEdge(_, p) =>
      (p.newSource.None? || p.newSource.value in NodeIds(s.nodes)) &&
      (p.newTarget.None? || p.newTarget.value in NodeIds(s.nodes))
    case SetStartNode(id) => id in NodeIds(s.nodes)
    case SetSelectedNode(sel) => sel.None? || sel.value in NodeIds(s.nodes)
    case ImportFlow(f) => Integrity(f)
    case _ => true
  }

  /** Every action of a run meets its obligation in the state it is applied to. */
  predicate SafeRun(s: FlowState, actions: seq<Action>)
    decreases |actions|
  {
    actions == [] || (IntegritySafe(s, actions[0]) && SafeRun(Reduce(s, actions[0]), actions[1..]))
  }

  /** One step keeps integrity under its obligation. */
  lemma ReducePreservesIntegrity(s: FlowState, a: Action)
    requires Integrity(s)
    requires IntegritySafe(s, a)
    ensures Integrity(Reduce(s, a))
  {
    match a
    case AddNode(n) => AddNodePreserves(s, n);
    case UpdateNode(id, p) =>
      if p.newId.Some? {
        RenamePreservesIntegrity(s, id, p);
      } else {
        MergeMatchingIds(s.nodes, id, p, "");
      }
    case RemoveNode(id) => RemoveNodePreservesIntegrity(s, id);
    case UpdateEdge(id, p) =>
      var r := Reduce(s, a);
      forall e | e in r.edges
        ensures e.sourceNodeId in NodeIds(r.nodes) && e.targetNodeId in NodeIds(r.nodes)
      {
        var i :| 0 <= i < |r.edges| && r.edges[i] == e;
        assert s.edges[i] in s.edges;
      }
    case MoveNode(id, pos) => MoveNodeEffect(s, id, pos);
    case _ =>
  }

  /** No run of actions that meets its obligations ever leaves a dangling edge, start pointer or node selection. */
  lemma {:induction false} RunPreservesIntegrity(s: FlowState, actions: seq<Action>)
    requires Integrity(s)
    requires SafeRun(s, actions)
    ensures Integrity(ApplyAll(s, actions))
    decreases |actions|
  {
    if actions != [] {
      ReducePreservesIntegrity(s, actions[0]);
      RunPreservesIntegrity(Reduce(s, actions[0]), actions[1..]);
    }
  }

  /** Dispatching two batches one after the other is dispatching their concatenation. */
  lemma {:induction false} ApplyAllAppend(s: FlowState, a: seq<Action>, b: seq<Action>)
    ensures ApplyAll(s, a + b) == ApplyAll(ApplyAll(s, a), b)
    decreases |a|
  {
    if a != [] {
      assert (a + b)[0] == a[0];
      assert (a + b)[1..] == a[1..] + b;
      ApplyAllAppend(Reduce(s, a[0]), a[1..], b);
    } else {
      assert a + b == b;
    }
  }
}
