/**
 * The canvas gesture state (src/components/Canvas.tsx): background panning,
 * pointer tracking in world space, and the edge-drawing gesture started on
 * a node's output handle and committed on another node's input handle
 * (the handle wiring of src/components/Node.tsx). Each event handler is a
 * method that updates the component's state fields and returns the actions
 * it dispatches, in order.
 */
module CanvasGestures {
  import opened FlowTypes
  import opened Geometry
  import FlowStore

  /** What a canvas mouse-down landed on; nodes and handles stop the event before it gets here. */
  datatype HitTarget = CanvasElement | CanvasSvg | OtherElement

  /** Panning starts only on the canvas element itself or on the edge layer. */
  predicate IsBackground(target: HitTarget) {
    target == CanvasElement || target == CanvasSvg
  }

  /** The two dispatches of a background press: select-node(null), then select-edge(null). */
  function ClearSelection(): (r: seq<Action>)
    ensures |r| == 2 && r[0].SetSelectedNode? && r[1].SetSelectedEdge?
    ensures r[0].selectNode.None? && r[1].selectEdge.None?
  {
    [SetSelectedNode(None), SetSelectedEdge(None)]
  }

  /** After a background press both selections are null and nothing else changed. */
  lemma ClearSelectionClearsBoth(s: FlowState)
    ensures var r := FlowStore.ApplyAll(s, ClearSelection());
      r == s.(selectedNodeId := None, selectedEdgeId := None)
  {
    var r1 := FlowStore.Reduce(s, SetSelectedNode(None));
    assert FlowStore.ApplyAll(s, ClearSelection()) == FlowStore.ApplyAll(r1, [SetSelectedEdge(None)]);
  }

  const NewEdgeCondition: string := "New Condition"

  /** The committed edge's id: "edge_" followed by the first eight characters of a generated uuid. */
  function NewEdgeId(uuid: string): string {
    "edge_" + Prefix(uuid, 8)
  }

  /**
   * What dropping a drawn edge on the input handle of node `dropNodeId`
   * dispatches: one new edge from the drawing source, unless no drawing is
   * under way, the source is empty, or the drop node is the source itself.
   */
  function EdgeDrop(drawing: bool, source: Option<string>, dropNodeId: string, uuid: string): (r: seq<Action>)
    ensures |r| <= 1
    ensures r != [] <==> drawing && Truthy(source) && source.value != dropNodeId
    ensures r != [] ==> r[0].AddEdge? && r[0].edge.sourceNodeId == source.value
                        && r[0].edge.targetNodeId == dropNodeId
                        && r[0].edge.sourceNodeId != r[0].edge.targetNodeId
                        && r[0].edge.condition == NewEdgeCondition
                        && r[0].edge.parameters.None?
                        && r[0].edge.id == NewEdgeId(uuid)
  {
    if drawing && Truthy(source) && source.value != dropNodeId then
      [AddEdge(Edge(NewEdgeId(uuid), source.value, dropNodeId, NewEdgeCondition, None))]
    else
      []
  }

  /** An edge drawn between two existing nodes keeps the graph's referential integrity. */
  lemma EdgeDropKeepsIntegrity(s: FlowState, drawing: bool, source: Option<string>, dropNodeId: string, uuid: string)
    requires FlowStore.Integrity(s)
    requires source.Some? ==> source.value in NodeIds(s.nodes)
    requires dropNodeId in NodeIds(s.nodes)
    ensures FlowStore.Integrity(FlowStore.ApplyAll(s, EdgeDrop(drawing, source, dropNodeId, uuid)))
  {
    var r := EdgeDrop(drawing, source, dropNodeId, uuid);
    if r != [] {
      FlowStore.ReducePreservesIntegrity(s, r[0]);
      assert FlowStore.ApplyAll(s, r) == FlowStore.ApplyAll(FlowStore.Reduce(s, r[0]), []);
    }
  }

  /** The two connection handles of a rendered node. */
  datatype HandleKind = InputHandle | OutputHandle

  class CanvasController {
    var isPanning: bool
    var startPanPos: Position
    var isDrawingEdge: bool
    var drawingEdgeSource: Option<string>
    /** The pointer's world position, for the rubber-band preview. */
    var mousePos: Position

    constructor ()
      ensures !isPanning && startPanPos == Position(0.0, 0.0)
      ensures !isDrawingEdge && drawingEdgeSource.None? && mousePos == Position(0.0, 0.0)
    {
      isPanning := false;
      startPanPos := Position(0.0, 0.0);
      isDrawingEdge := false;
      drawingEdgeSource := None;
      mousePos := Position(0.0, 0.0);
    }

    /** `handleMouseDown`: a background press starts a pan at the pointer and clears both selections. */
    method MouseDown(target: HitTarget, clientX: real, clientY: real) returns (effects: seq<Action>)
      modifies this
      ensures IsBackground(target) ==>
        isPanning && startPanPos == Position(clientX, clientY) && effects == ClearSelection()
      ensures !IsBackground(target) ==>
        effects == [] && isPanning == old(isPanning) && startPanPos == old(startPanPos)
      ensures isDrawingEdge == old(isDrawingEdge) && drawingEdgeSource == old(drawingEdgeSource)
      ensures mousePos == old(mousePos)
    {
      effects := [];
      if IsBackground(target) {
        isPanning := true;
        startPanPos := Position(clientX, clientY);
        effects := ClearSelection();
      }
    }

    /**
     * `handleMouseMove`: track the pointer in world coordinates, and while
     * panning shift the offset by the raw client delta and re-anchor.
     */
    method MouseMove(t: Transform, clientX: real, clientY: real, canvasLeft: real, canvasTop: real)
      returns (effects: seq<Action>)
      requires t.zoom != 0.0
      modifies this
      ensures mousePos == Position(ToWorld(t.x, t.zoom, clientX - canvasLeft), ToWorld(t.y, t.zoom, clientY - canvasTop))
      ensures old(isPanning) ==>
        effects == [SetTransform(PanStep(t, old(startPanPos), Position(clientX, clientY)))]
        && startPanPos == Position(clientX, clientY)
      ensures !old(isPanning) ==> effects == [] && startPanPos == old(startPanPos)
      ensures isPanning == old(isPanning)
      ensures isDrawingEdge == old(isDrawingEdge) && drawingEdgeSource == old(drawingEdgeSource)
    {
      mousePos := Position(ToWorld(t.x, t.zoom, clientX - canvasLeft), ToWorld(t.y, t.zoom, clientY - canvasTop));
      effects := [];
      if isPanning {
        effects := [SetTransform(PanStep(t, startPanPos, Position(clientX, clientY)))];
        startPanPos := Position(clientX, clientY);
      }
    }

    /** `handleMouseUp` (also mouse-leave): end the pan and cancel any drawing, dispatching nothing. */
    method MouseUp()
      modifies this
      ensures !isPanning && !isDrawingEdge
      ensures old(isDrawingEdge) ==> drawingEdgeSource.None?
      ensures !old(isDrawingEdge) ==> drawingEdgeSource == old(drawingEdgeSource)
      ensures startPanPos == old(startPanPos) && mousePos == old(mousePos)
    {
      isPanning := false;
      if isDrawingEdge {
        isDrawingEdge := false;
        drawingEdgeSource := None;
      }
    }

    /**
     * A mouse-down on a node handle: only the output handle starts drawing
     * (`onHandleMouseDown`); the input handle only stops the event.
     */
    method HandleMouseDown(handle: HandleKind, nodeId: string)
      modifies this
      ensures handle == OutputHandle ==> isDrawingEdge && drawingEdgeSource == Some(nodeId)
      ensures handle == InputHandle ==>
        isDrawingEdge == old(isDrawingEdge) && drawingEdgeSource == old(drawingEdgeSource)
      ensures isPanning == old(isPanning) && startPanPos == old(startPanPos) && mousePos == old(mousePos)
    {
      if handle == OutputHandle {
        isDrawingEdge := true;
        drawingEdgeSource := Some(nodeId);
      }
    }

    /**
     * A mouse-up on a node handle: only the input handle commits
     * (`onHandleMouseUp`), and it ends the drawing whatever it dispatched;
     * the output handle only stops the event.
     */
    method HandleMouseUp(handle: HandleKind, nodeId: string, uuid: string) returns (effects: seq<Action>)
      modifies this
      ensures handle == InputHandle ==>
        effects == EdgeDrop(old(isDrawingEdge), old(drawingEdgeSource), nodeId, uuid)
        && !isDrawingEdge && drawingEdgeSource.None?
      ensures handle == OutputHandle ==>
        effects == [] && isDrawingEdge == old(isDrawingEdge) && drawingEdgeSource == old(drawingEdgeSource)
      ensures isPanning == old(isPanning) && startPanPos == old(startPanPos) && mousePos == old(mousePos)
    {
      effects := [];
      if handle == InputHandle {
        effects := EdgeDrop(isDrawingEdge, drawingEdgeSource, nodeId, uuid);
        isDrawingEdge := false;
        drawingEdgeSource := None;
      }
    }
  }
}
