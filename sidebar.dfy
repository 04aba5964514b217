/**
 * The sidebar's own logic (src/components/Sidebar.tsx): which panel it
 * shows for the current selection, and the node the "Add New Node" button
 * creates. The summary counts are in Summary, the editors' handlers in
 * NodeEditing and EdgeEditing.
 */
module Sidebar {
  import opened FlowTypes
  import opened Geometry
  import FlowStore

  /** `nodes.find(n => n.id === id)`: the first node with the id. */
  function FindNode(nodes: seq<Node>, id: string): (r: Option<Node>)
    ensures r.None? <==> id !in NodeIds(nodes)
    ensures r.Some? ==> r.value in nodes && r.value.id == id
    decreases |nodes|
  {
    if nodes == [] then None
    else if nodes[0].id == id then Some(nodes[0])
    else FindNode(nodes[1..], id)
  }

  /** The find returns the first match: no earlier node carries the id. */
  lemma {:induction false} FindNodeIsFirst(nodes: seq<Node>, id: string)
    requires id in NodeIds(nodes)
    ensures exists i :: 0 <= i < |nodes| && FindNode(nodes, id) == Some(nodes[i]) &&
                        forall j :: 0 <= j < i ==> nodes[j].id != id
    decreases |nodes|
  {
    if nodes[0].id != id {
      var rest := nodes[1..];
      FindNodeIsFirst(rest, id);
      var i :| 0 <= i < |rest| && FindNode(rest, id) == Some(rest[i]) &&
               forall j :: 0 <= j < i ==> rest[j].id != id;
      assert FindNode(nodes, id) == Some(nodes[i + 1]);
      forall j | 0 <= j < i + 1 ensures nodes[j].id != id {
        if j > 0 {
          assert nodes[j] == rest[j - 1];
        }
      }
    }
  }

  /** `edges.find(e => e.id === id)`: the first edge with the id. */
  function FindEdge(edges: seq<Edge>, id: string): (r: Option<Edge>)
    ensures r.None? <==> id !in EdgeIds(edges)
    ensures r.Some? ==> r.value in edges && r.value.id == id
    decreases |edges|
  {
    if edges == [] then None
    else if edges[0].id == id then Some(edges[0])
    else FindEdge(edges[1..], id)
  }

  /** What the sidebar renders. */
  datatype Panel = NodePanel(node: Node) | EdgePanel(edge: Edge) | SummaryPanel | Blank

  /**
   * A truthy node selection wins: its node's editor, or nothing when no
   * node matches; otherwise a truthy edge selection likewise; otherwise the
   * summary and the add-node button.
   */
  function PanelFor(s: FlowState): Panel {
    if Truthy(s.selectedNodeId) then
      match FindNode(s.nodes, s.selectedNodeId.value)
      case Some(n) => NodePanel(n)
      case None => Blank
    else if Truthy(s.selectedEdgeId) then
      match FindEdge(s.edges, s.selectedEdgeId.value)
      case Some(e) => EdgePanel(e)
      case None => Blank
    else SummaryPanel
  }

  /** The routing, case by case. */
  lemma PanelRouting(s: FlowState)
    ensures PanelFor(s).NodePanel? <==> Truthy(s.selectedNodeId) && s.selectedNodeId.value in NodeIds(s.nodes)
    ensures PanelFor(s).NodePanel? ==> PanelFor(s).node in s.nodes && Some(PanelFor(s).node.id) == s.selectedNodeId
    ensures PanelFor(s).EdgePanel? <==>
      !Truthy(s.selectedNodeId) && Truthy(s.selectedEdgeId) && s.selectedEdgeId.value in EdgeIds(s.edges)
    ensures PanelFor(s).EdgePanel? ==> PanelFor(s).edge in s.edges && Some(PanelFor(s).edge.id) == s.selectedEdgeId
    ensures PanelFor(s).SummaryPanel? <==> !Truthy(s.selectedNodeId) && !Truthy(s.selectedEdgeId)
  {
  }

  /** With the selection pointing at existing items, the sidebar is never blank. */
  lemma ValidSelectionNeverBlank(s: FlowState)
    requires FlowStore.SelectionValid(s)
    ensures !PanelFor(s).Blank?
  {
  }

  /** A dangling node selection blanks the sidebar even when an edge is also selected. */
  lemma DanglingNodeSelectionBlanks(s: FlowState)
    requires Truthy(s.selectedNodeId) && s.selectedNodeId.value !in NodeIds(s.nodes)
    ensures PanelFor(s).Blank?
  {
  }

  const NewNodeDescription: string := "New Step"

  /** The node the "Add New Node" button creates, given the generated uuid. */
  function NewNode(t: Transform, uuid: string): Node
    requires t.zoom != 0.0
  {
    Node("node_" + Prefix(uuid, 6), Some(NewNodeDescription), "",
         Position(-t.x / t.zoom + 100.0, -t.y / t.zoom + 100.0))
  }

  /**
   * The new node is "node_" and at most six uuid characters, described
   * "New Step" with an empty prompt, placed 100 world units right of and
   * below the world point at the viewport's top-left corner, so it is drawn
   * 100 * zoom pixels in from that corner.
   */
  lemma NewNodePlacement(t: Transform, uuid: string)
    requires t.zoom != 0.0
    ensures var n := NewNode(t, uuid);
      && n.id[..5] == "node_" && 5 <= |n.id| <= 11 && n.id[5..] == Prefix(uuid, 6)
      && n.description == Some(NewNodeDescription) && n.prompt == ""
      && n.position.x == ToWorld(t.x, t.zoom, 0.0) + 100.0
      && n.position.y == ToWorld(t.y, t.zoom, 0.0) + 100.0
      && ToScreen(t.x, t.zoom, n.position.x) == 100.0 * t.zoom
      && ToScreen(t.y, t.zoom, n.position.y) == 100.0 * t.zoom
  {
    var n := NewNode(t, uuid);
    assert (-t.x / t.zoom) * t.zoom == -t.x;
    assert (-t.y / t.zoom) * t.zoom == -t.y;
    assert n.position.x * t.zoom == -t.x + 100.0 * t.zoom;
    assert n.position.y * t.zoom == -t.y + 100.0 * t.zoom;
  }

  /** The button's single dispatch. */
  function AddNewNodeEffects(t: Transform, uuid: string): seq<Action>
    requires t.zoom != 0.0
  {
    [AddNode(NewNode(t, uuid))]
  }

  /** After the button the new node is last, selected, and the edge selection (if any) remains. */
  lemma AddNewNodeSelectsIt(s: FlowState, uuid: string)
    requires s.transform.zoom != 0.0
    ensures var r := FlowStore.ApplyAll(s, AddNewNodeEffects(s.transform, uuid)); var n := NewNode(s.transform, uuid);
      && r.nodes == s.nodes + [n]
      && r.selectedNodeId == Some(n.id)
      && r.selectedEdgeId == s.selectedEdgeId
      && r.edges == s.edges && r.transform == s.transform
  {
    var n := NewNode(s.transform, uuid);
    assert FlowStore.ApplyAll(s, [AddNode(n)]) == FlowStore.Reduce(s, AddNode(n));
  }
}
