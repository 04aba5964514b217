/**
 * Dragging a node (src/components/Node.tsx): a press on the node body
 * selects it and records where it was grabbed; each pointer move while
 * dragging commits the grid-snapped world position; release ends the drag.
 * The handle wiring of the same component is modelled in CanvasGestures.
 */
module NodeDrag {
  import opened FlowTypes
  import opened Geometry
  import FlowStore

  /** The grab offset at mouse-down, in world units: (client - node rectangle) / zoom. */
  function GrabOffset(client: Position, rectTopLeft: Position, zoom: real): Position
    requires zoom != 0.0
  {
    Position((client.x - rectTopLeft.x) / zoom, (client.y - rectTopLeft.y) / zoom)
  }

  /** The unsnapped world position during a drag: (raw - transform) / zoom - offset, per axis. */
  function DragPosition(t: Transform, raw: Position, offset: Position): Position
    requires t.zoom != 0.0
  {
    Position(ToWorld(t.x, t.zoom, raw.x) - offset.x, ToWorld(t.y, t.zoom, raw.y) - offset.y)
  }

  /** Both axes snapped to the 10-unit grid. */
  function SnapPosition(p: Position): Position {
    Position(Snap(p.x), Snap(p.y))
  }

  /** The committed position is on the grid and within half a cell of the raw one on each axis. */
  lemma SnapPositionNearest(p: Position)
    ensures var q := SnapPosition(p);
      && q.x == ((q.x / GridSize).Floor as real) * GridSize
      && q.y == ((q.y / GridSize).Floor as real) * GridSize
      && p.x - 5.0 < q.x <= p.x + 5.0
      && p.y - 5.0 < q.y <= p.y + 5.0
  {
    SnapIsNearestMultiple(p.x);
    SnapIsNearestMultiple(p.y);
  }

  /**
   * With the node's rectangle where the transform draws it, a drag move at
   * the grab point itself yields the node's own position (before the snap):
   * the node stays under the pointer where it was grabbed.
   */
  lemma GrabPointStaysUnderPointer(t: Transform, node: Node, canvasOrigin: Position, client: Position)
    requires t.zoom != 0.0
    ensures var rect := Position(canvasOrigin.x + ToScreen(t.x, t.zoom, node.position.x),
                                 canvasOrigin.y + ToScreen(t.y, t.zoom, node.position.y));
      var raw := Position(client.x - canvasOrigin.x, client.y - canvasOrigin.y);
      DragPosition(t, raw, GrabOffset(client, rect, t.zoom)) == node.position
  {
    var z := t.zoom;
    var ax := client.x - canvasOrigin.x - t.x;
    var ay := client.y - canvasOrigin.y - t.y;
    assert ax / z - (ax - node.position.x * z) / z == (ax - (ax - node.position.x * z)) / z;
    assert ay / z - (ay - node.position.y * z) / z == (ay - (ay - node.position.y * z)) / z;
  }

  /** Moving the pointer by (dx, dy) on screen moves the unsnapped position by (dx, dy) / zoom. */
  lemma DragFollowsPointer(t: Transform, raw: Position, offset: Position, dx: real, dy: real)
    requires t.zoom != 0.0
    ensures var p := DragPosition(t, raw, offset);
      var q := DragPosition(t, Position(raw.x + dx, raw.y + dy), offset);
      q.x - p.x == dx / t.zoom && q.y - p.y == dy / t.zoom
  {
    assert (raw.x + dx - t.x) / t.zoom - (raw.x - t.x) / t.zoom == dx / t.zoom;
    assert (raw.y + dy - t.y) / t.zoom - (raw.y - t.y) / t.zoom == dy / t.zoom;
  }

  /**
   * The effects of one drag move: exactly one MOVE_NODE for this node with
   * the snapped world position; nothing when not dragging or when the canvas
   * element is not found.
   */
  function DragEffects(isDragging: bool, dragOffset: Position, nodeId: string, t: Transform,
                       client: Position, canvasOrigin: Option<Position>): (r: seq<Action>)
    requires t.zoom != 0.0
    ensures !isDragging || canvasOrigin.None? ==> r == []
    ensures isDragging && canvasOrigin.Some? ==>
      var raw := Position(client.x - canvasOrigin.value.x, client.y - canvasOrigin.value.y);
      r == [MoveNode(nodeId, SnapPosition(DragPosition(t, raw, dragOffset)))]
  {
    if isDragging && canvasOrigin.Some? then
      [MoveNode(nodeId, SnapPosition(DragPosition(t, Position(client.x - canvasOrigin.value.x, client.y - canvasOrigin.value.y), dragOffset)))]
    else []
  }

  // ---------------------------------------------------------------------
  // Finding the canvas element
  // ---------------------------------------------------------------------

  /** The id the drag handler looks the canvas up by. */
  const CanvasAreaId: string := "canvas-area"

  /** The canvas's outer element: its `id` attribute, its class name and its top-left corner. */
  datatype CanvasElement = CanvasElement(id: Option<string>, className: string, origin: Position)

  /** `document.getElementById(id)` over the one candidate element, giving its corner. */
  function LookupById(el: CanvasElement, id: string): (r: Option<Position>)
    ensures r.Some? <==> el.id == Some(id)
    ensures r.Some? ==> r.value == el.origin
  {
    if el.id == Some(id) then Some(el.origin) else None
  }

  /** The canvas element as src/components/Canvas.tsx renders it: a class name and no id. */
  function RenderedCanvas(origin: Position): CanvasElement {
    CanvasElement(None, "canvas-area", origin)
  }

  /** The canvas element carrying the id as well, as the migration script rewrites it. */
  function CanvasWithId(origin: Position): CanvasElement {
    CanvasElement(Some(CanvasAreaId), "canvas-area", origin)
  }

  /** As written, the lookup never finds the rendered canvas, so no drag move dispatches anything. */
  lemma DragNeverCommitsAsWritten(dragOffset: Position, nodeId: string, t: Transform, client: Position, origin: Position)
    requires t.zoom != 0.0
    ensures LookupById(RenderedCanvas(origin), CanvasAreaId).None?
    ensures DragEffects(true, dragOffset, nodeId, t, client, LookupById(RenderedCanvas(origin), CanvasAreaId)) == []
  {
  }

  /**
   * With the id on the canvas, every drag move commits the dragged node, and
   * only it, to the grid point nearest the pointer's world position.
   */
  lemma DragCommitsWithCanvasId(s: FlowState, dragOffset: Position, nodeId: string, client: Position,
                                origin: Position, i: nat)
    requires s.transform.zoom != 0.0 && i < |s.nodes| && s.nodes[i].id == nodeId
    ensures var t := s.transform;
      var raw := Position(client.x - origin.x, client.y - origin.y);
      var p := SnapPosition(DragPosition(t, raw, dragOffset));
      var effects := DragEffects(true, dragOffset, nodeId, t, client, LookupById(CanvasWithId(origin), CanvasAreaId));
      var r := FlowStore.ApplyAll(s, effects);
      && effects == [MoveNode(nodeId, p)]
      && |r.nodes| == |s.nodes| && r.nodes[i].position == p
      && (forall j :: 0 <= j < |s.nodes| && s.nodes[j].id != nodeId ==> r.nodes[j] == s.nodes[j])
  {
    var t := s.transform;
    var raw := Position(client.x - origin.x, client.y - origin.y);
    var p := SnapPosition(DragPosition(t, raw, dragOffset));
    FlowStore.ApplyOne(s, MoveNode(nodeId, p));
    FlowStore.MoveNodeEffect(s, nodeId, p);
  }

  /** The drag state of one rendered node. */
  class NodeController {
    var isDragging: bool
    var dragOffset: Position

    constructor ()
      ensures !isDragging && dragOffset == Position(0.0, 0.0)
    {
      isDragging := false;
      dragOffset := Position(0.0, 0.0);
    }

    /** `handleMouseDown` on the node body: start dragging, select the node, record the grab offset. */
    method MouseDown(nodeId: string, zoom: real, client: Position, rectTopLeft: Position)
      returns (effects: seq<Action>)
      requires zoom != 0.0
      modifies this
      ensures isDragging && dragOffset == GrabOffset(client, rectTopLeft, zoom)
      ensures effects == [SetSelectedNode(Some(nodeId))]
    {
      isDragging := true;
      effects := [SetSelectedNode(Some(nodeId))];
      dragOffset := GrabOffset(client, rectTopLeft, zoom);
    }

    /**
     * The document-level `handleMouseMove`, registered only while dragging;
     * `canvasOrigin` is the result of the canvas lookup.
     */
    method MouseMove(nodeId: string, t: Transform, client: Position, canvasOrigin: Option<Position>)
      returns (effects: seq<Action>)
      requires t.zoom != 0.0
      ensures effects == DragEffects(isDragging, dragOffset, nodeId, t, client, canvasOrigin)
    {
      effects := [];
      if isDragging && canvasOrigin.Some? {
        var rawX := client.x - canvasOrigin.value.x;
        var rawY := client.y - canvasOrigin.value.y;
        var newX := (rawX - t.x) / t.zoom - dragOffset.x;
        var newY := (rawY - t.y) / t.zoom - dragOffset.y;
        effects := [MoveNode(nodeId, Position(Snap(newX), Snap(newY)))];
      }
    }

    /** The document-level `handleMouseUp`: end the drag. */
    method MouseUp()
      modifies this
      ensures !isDragging && dragOffset == old(dragOffset)
    {
      isDragging := false;
    }
  }

  /** A committed drag step moves only the dragged node, to a grid point. */
  lemma DragStepMovesOnlyThatNode(s: FlowState, nodeId: string, p: Position, i: nat)
    requires i < |s.nodes|
    ensures var r := FlowStore.Reduce(s, MoveNode(nodeId, SnapPosition(p)));
      && |r.nodes| == |s.nodes|
      && (s.nodes[i].id == nodeId ==> r.nodes[i].position == SnapPosition(p))
      && (s.nodes[i].id != nodeId ==> r.nodes[i] == s.nodes[i])
      && r.edges == s.edges && r.lastInteractionPosition == Some(SnapPosition(p))
  {
    FlowStore.MoveNodeEffect(s, nodeId, SnapPosition(p));
  }
}
