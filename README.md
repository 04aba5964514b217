# flow-studio, modelled in Dafny

flow-studio is a browser editor for conversational flow graphs. Nodes carry
an id, a description, a prompt and a canvas position; directed edges carry a
condition and an optional string map of parameters. One node can be marked as
the start node. All state lives in a single store, changed only by a reducer
over thirteen action kinds. Around that store sit these pieces:

- gesture handlers: canvas pan, wheel and button zoom, fit-to-content, node
  drag with a 10-unit grid snap, and edge drawing between node handles;
- the sidebar editors: node id with a uniqueness guard, set-start, delete,
  description and prompt, edge condition and parameters;
- a flow-name editor, keyboard shortcuts, and a Delete/Backspace handler;
- derived views: summary counts, and the exported JSON schema.

The model has one module per component, plus modules for the rules several
files share:

- `FlowTypes` holds the shapes and the action union.
- `FlowStore` holds the reducer `Reduce`, the fold `ApplyAll` and the initial
  state. It is pure.
- `Geometry` holds the coordinate rules shared by the canvas, the node and
  the viewport hook: screen/world conversion, zoom about a pivot, the zoom
  clamps, the pan step and the snap.
- `CanvasGestures`, `NodeDrag`, `Viewport`, `NodeEditing`, `EdgeEditing` and
  `FlowNameEditing` hold the components. Each one that keeps state is a
  `class` whose fields are the component's state. Each handler is a `method`
  that updates those fields and returns the actions it dispatches, in order.
- `Export`, `Summary`, `Sidebar`, `Shortcuts` and `DeleteKey` hold the pure
  derivations.
- `Strings` models JavaScript's `trim` and `toLowerCase`.

Some source files feed more than one module. The handle wiring of
`src/components/Node.tsx` sits with the edge-drawing gesture in
`CanvasGestures`, and its drag in `NodeDrag`. The inline editors and summary
of `src/components/Sidebar.tsx` are modelled by `NodeEditing`, `EdgeEditing`
and `Summary`, and its routing by `Sidebar`. `Geometry` and `Strings` belong
to no single file.

Handler outputs are connected to the store through `FlowStore.ApplyAll`. The
lemmas therefore state what the flow looks like after a gesture, not only
what was dispatched.

Some code is duplicated in the repository. The model defines each duplicated
rule once:

- Pan and wheel handling in `src/components/Canvas.tsx` and
  `src/hooks/useCanvasViewport.ts`. The wheel rule is modelled once, as
  `Geometry.WheelTransform`.
- The export projection in `src/components/JsonPreview.tsx` and
  `src/components/Sidebar/FlowJsonPreview.tsx`.
- The summary and the node editor, inline in `src/components/Sidebar.tsx` and
  again in the split files under `src/components/Sidebar/`.

Inputs that come from the browser are method or function parameters:

- pointer coordinates;
- the hit target;
- canvas rectangles and sizes;
- the focused element's tag;
- generated uuids.

A missing DOM element is an `Option` that is `None`.

Behaviour of the code that the model states outright:

- **Which handle commits an edge.** Only the input handle's mouse-up commits
  a drawn edge (`src/components/Node.tsx:114`). The output handle's mouse-up
  only stops propagation, so a drawing released there stays active
  (`CanvasGestures.CanvasController.HandleMouseUp`).
- **Dangling references.** `SET_START_NODE` and `SET_SELECTED_NODE` do no
  existence check. The node editor's uniqueness guard lets a rename to `""`
  through, and the reducer then skips the edge cascade, so edges are orphaned
  (`FlowStore.SetStartNodeUnchecked`, `FlowStore.SetSelectedNodeUnchecked`,
  `FlowStore.EmptyRenameOrphansEdges`, `NodeEditing.GuardAdmitsEmptyId`).
  Referential integrity (`FlowStore.Integrity`: every edge endpoint, the
  start pointer and the node selection name existing nodes) is kept by every
  run whose actions avoid those cases (`FlowStore.RunPreservesIntegrity`).
  The edge selection is outside it: REMOVE_NODE can leave it pointing at a
  deleted edge (`FlowStore.RemoveNodeLeavesEdgeSelection`).
- **Node dragging never moves a node.** The drag handler looks the canvas up
  with `getElementById("canvas-area")` (`src/components/Node.tsx:47-48`).
  The canvas element carries `canvas-area` only as a class name
  (`src/components/Canvas.tsx:164`), so the lookup returns null and every
  move returns before dispatching. See "## Findings".
- **Start of the bounding-box loop.** The fit-to-content loop starts from
  ±Infinity. The model starts from the first node's box instead. This is the
  same result, because the empty case returns earlier.

## Model

| member | source | states |
|---|---|---|
| FlowTypes.Prefix | src/components/Sidebar.tsx:276 | `substring(0, n)` gives the first n characters, or the whole of a shorter string (also the edge id at src/components/Canvas.tsx:121) |
| FlowStore.NodesWithout | src/context/FlowContext.tsx:79 | the kept nodes are exactly those whose id differs from the removed one |
| FlowStore.EdgesNotTouching | src/context/FlowContext.tsx:80-84 | the kept edges are exactly those with neither endpoint equal to the removed node |
| FlowStore.EdgesWithout | src/context/FlowContext.tsx:104 | the kept edges are exactly those whose id differs |
| FlowStore.NodesWithoutKeepsAll | src/context/FlowContext.tsx:79 | when no node has the removed id, the node list comes back unchanged, order and duplicates included |
| FlowStore.EdgesNotTouchingKeepsAll | src/context/FlowContext.tsx:80-84 | when no edge touches the removed node, the edge list comes back unchanged, order and duplicates included |
| FlowStore.EdgesWithoutKeepsAll | src/context/FlowContext.tsx:104 | when no edge has the removed id, the edge list comes back unchanged, order and duplicates included |
| FlowStore.NodesWithoutKeepsOrder | src/context/FlowContext.tsx:79 | the node filter distributes over concatenation, so kept nodes keep their relative order and multiplicity |
| FlowStore.EdgesNotTouchingKeepsOrder | src/context/FlowContext.tsx:80-84 | the endpoint filter distributes over concatenation, so kept edges keep their relative order and multiplicity |
| FlowStore.EdgesWithoutKeepsOrder | src/context/FlowContext.tsx:104 | the edge-id filter distributes over concatenation, so kept edges keep their relative order and multiplicity |
| FlowStore.Reduce | src/context/FlowContext.tsx:38-133 | each field of the state changes only under the actions whose case writes it, and the node and edge counts grow by one on ADD, stay on UPDATE and MOVE, and never grow on REMOVE |
| FlowStore.ApplyAll | src/context/FlowContext.tsx:141 | successive `dispatch` calls; specified by FlowStore.ApplyOne and FlowStore.ApplyAllAppend |
| FlowStore.ApplyOne | src/context/FlowContext.tsx:141 | one dispatch is one reducer step |
| FlowStore.InitialState | src/context/FlowContext.tsx:20-36 | the initial flow has one node, which is the start node; it has no edges and the identity transform, no dangling edge, start or selection pointer, no selection and unique ids |
| FlowStore.MergeMatchingIds | src/context/FlowContext.tsx:50-54 | merging a patch keeps every other id; a patch with an id introduces that id; a patch without an id keeps the id set |
| FlowStore.MoveMatchingIds | src/context/FlowContext.tsx:117-121 | moving nodes keeps the id set |
| FlowStore.AddNodeEffect | src/context/FlowContext.tsx:40-46 | ADD_NODE appends the node at the end, selects it and records its position; everything else, the edge selection included, is unchanged |
| FlowStore.AddNodeBreaksExclusivity | src/context/FlowContext.tsx:40-46 | adding a node while an edge is selected leaves both selections set |
| FlowStore.AddNodePreserves | src/context/FlowContext.tsx:40-46 | ADD_NODE keeps referential integrity, and keeps ids unique when the new id is fresh |
| FlowStore.RenameCascade | src/context/FlowContext.tsx:47-75 | a rename to a non-empty id merges the patch into exactly the nodes with the old id, rewrites exactly the edge endpoints, start pointer and node selection that held it, and changes no other field |
| FlowStore.UpdateWithoutIdSkipsCascade | src/context/FlowContext.tsx:56-74 | a patch whose id is absent or "" merges into the matching nodes and leaves edges, start and selection untouched |
| FlowStore.RenamePreservesIntegrity | src/context/FlowContext.tsx:47-75 | a rename to a non-empty id keeps every edge endpoint and the start pointer on existing nodes |
| FlowStore.RenameKeepsIdsUnique | src/context/FlowContext.tsx:50-54 | a rename to an unused id keeps node ids unique |
| FlowStore.EmptyRenameOrphansEdges | src/context/FlowContext.tsx:57-66 | renaming a node to "" leaves its outgoing edges pointing at an id no node has |
| FlowStore.RemoveNodeCascade | src/context/FlowContext.tsx:76-89 | REMOVE_NODE's node and edge lists are the order-keeping filters `NodesWithout` and `EdgesNotTouching`: it keeps exactly the nodes with another id and the edges touching neither endpoint, nulls the start pointer and node selection if they named it, and changes no other field (the edge selection included) |
| FlowStore.RemoveNodePreservesIntegrity | src/context/FlowContext.tsx:76-89 | REMOVE_NODE keeps referential integrity |
| FlowStore.RemoveNodeLeavesEdgeSelection | src/context/FlowContext.tsx:76-89 | removing a node whose edge is selected leaves the edge selection pointing at a deleted edge |
| FlowStore.AddEdgeAppends | src/context/FlowContext.tsx:90-91 | ADD_EDGE only appends, and keeps integrity when both endpoints exist |
| FlowStore.UpdateEdgeEffect | src/context/FlowContext.tsx:92-100 | UPDATE_EDGE merges the patch into the edges with that id and changes nothing else |
| FlowStore.RemoveEdgeEffect | src/context/FlowContext.tsx:101-107 | REMOVE_EDGE's edge list is the order-keeping filter `EdgesWithout`: it removes exactly the edges with that id and nulls the edge selection only if it named that id |
| FlowStore.SelectIsExclusive | src/context/FlowContext.tsx:110-113 | either select action sets its selection and nulls the other one |
| FlowStore.ExclusivityPreserved | src/context/FlowContext.tsx:38-133 | every action except ADD_NODE (and the import of a state that already has both selections) keeps at most one selection set |
| FlowStore.SetStartNodeUnchecked | src/context/FlowContext.tsx:108-109 | SET_START_NODE sets the pointer even to an id no node has |
| FlowStore.SetSelectedNodeUnchecked | src/context/FlowContext.tsx:110-111 | SET_SELECTED_NODE selects even an id no node has |
| FlowStore.MoveNodeEffect | src/context/FlowContext.tsx:114-123 | MOVE_NODE changes only the positions of matching nodes, and records the position even when no node matches |
| FlowStore.ReplacingActions | src/context/FlowContext.tsx:124-131 | SET_TRANSFORM and SET_FLOW_NAME replace one field, IMPORT_FLOW replaces the state, and an unknown action changes nothing |
| FlowStore.ReducePreservesIntegrity | src/context/FlowContext.tsx:38-133 | one action meeting its obligation (no rename to "", existing endpoints, start ids and selected node ids, consistent imports) keeps every edge endpoint, the start pointer and the node selection on existing nodes |
| FlowStore.RunPreservesIntegrity | src/context/FlowContext.tsx:38-133 | any run of actions meeting their obligations keeps edge endpoints, start pointer and node selection on existing nodes after every step |
| FlowStore.ApplyAllAppend | src/context/FlowContext.tsx:141 | dispatching two batches in turn is dispatching their concatenation |
| Geometry.Clamp | src/components/Canvas.tsx:83-86 | the clamp lies in [lo, hi] and is the identity inside it |
| Geometry.ToWorldToScreenInverse | src/components/Canvas.tsx:40-43 | `(raw - offset) / zoom` and `world * zoom + offset` are inverse |
| Geometry.ToWorld | src/components/Canvas.tsx:40-43 | `(raw - offset) / zoom`; specified by Geometry.ToWorldToScreenInverse |
| Geometry.ToScreen | src/hooks/useCanvasViewport.ts:112-119 | where a world coordinate is drawn; specified by Geometry.ToWorldToScreenInverse |
| Geometry.ZoomOffsetFixesPivot | src/components/Canvas.tsx:93-95 | `p - (p - offset) * (z' / z)` keeps the world point under the pivot fixed on one axis |
| Geometry.ZoomAboutFixesPivot | src/components/Canvas.tsx:93-99 | zoom about a point keeps the world point under it fixed on both axes |
| Geometry.ZoomAbout | src/components/Canvas.tsx:93-99 | zoom about a screen point; specified by Geometry.ZoomAboutFixesPivot |
| Geometry.WheelZoom | src/components/Canvas.tsx:81-86 | the wheel zoom is `zoom - 0.001 * deltaY` when that lies in [0.1, 3], and saturates at 0.1 below and 3 above |
| Geometry.WheelTransform | src/hooks/useCanvasViewport.ts:127-146 | `handleWheel`; specified by Geometry.WheelZoomsAboutPointer |
| Geometry.WheelZoomsAboutPointer | src/hooks/useCanvasViewport.ts:127-146 | the wheel keeps the zoom in range and the world point under the pointer fixed (same code at src/components/Canvas.tsx:78-101) |
| Geometry.ZoomInLevel | src/hooks/useCanvasViewport.ts:49 | zoom-in gives `zoom + 0.2` while that is at most 3, and 3 beyond |
| Geometry.ZoomOutLevel | src/hooks/useCanvasViewport.ts:67 | zoom-out gives `zoom - 0.2` while that is at least 0.1, and 0.1 below |
| Geometry.ZoomStaysInRange | src/hooks/useCanvasViewport.ts:49-67 | starting in [0.1, 3], no sequence of button presses and wheel turns leaves [0.1, 3] |
| Geometry.PanStep | src/components/Canvas.tsx:47-60 | one pan move by the raw pointer delta; specified by Geometry.PanTelescopes |
| Geometry.PanThrough | src/components/Canvas.tsx:47-60 | a whole pan, re-anchoring at each move; specified by Geometry.PanTelescopes |
| Geometry.PanTelescopes | src/components/Canvas.tsx:47-60 | over a whole pan the offset moves by the last minus the first pointer position, and the zoom is kept |
| Geometry.Snap | src/components/Node.tsx:60-61 | `Math.round(v / 10) * 10`; specified by Geometry.SnapIsNearestMultiple and Geometry.SnapUnique |
| Geometry.SnapIsNearestMultiple | src/components/Node.tsx:60-61 | `Math.round(v / 10) * 10` is a multiple of 10 in (v - 5, v + 5] |
| Geometry.SnapUnique | src/components/Node.tsx:60-61 | that multiple is the only one in (v - 5, v + 5] |
| Geometry.SnapExamples | src/components/Node.tsx:60-61 | 123 snaps to 120, 77 to 80, 125 to 130 and -125 to -120 |
| CanvasGestures.ClearSelection | src/components/Canvas.tsx:31-32 | a background press dispatches select-node with null, then select-edge with null |
| CanvasGestures.ClearSelectionClearsBoth | src/components/Canvas.tsx:31-32 | afterwards both selections are null and nothing else has changed |
| CanvasGestures.NewEdgeId | src/components/Canvas.tsx:121 | "edge_" and eight uuid characters; specified by FlowTypes.Prefix and CanvasGestures.EdgeDrop |
| CanvasGestures.EdgeDrop | src/components/Canvas.tsx:114-127 | an edge is added exactly when drawing, with a non-empty source different from the drop node; it runs from the source to the drop node, with condition "New Condition" and no parameters |
| CanvasGestures.EdgeDropKeepsIntegrity | src/components/Canvas.tsx:114-127 | a drop between existing nodes keeps referential integrity |
| CanvasGestures.CanvasController.constructor | src/components/Canvas.tsx:12-20 | not panning, not drawing, with origin anchors |
| CanvasGestures.CanvasController.MouseDown | src/components/Canvas.tsx:23-34 | only the canvas element or its edge layer starts a pan at the pointer and clears the selections |
| CanvasGestures.CanvasController.MouseMove | src/components/Canvas.tsx:36-61 | tracks the pointer in world coordinates; while panning, adds the raw delta to the offset and re-anchors |
| CanvasGestures.CanvasController.MouseUp | src/components/Canvas.tsx:63-71 | ends the pan and cancels any drawing, dispatching nothing |
| CanvasGestures.CanvasController.HandleMouseDown | src/components/Node.tsx:109-125 | only the output handle starts drawing, from that node (src/components/Canvas.tsx:108-112) |
| CanvasGestures.CanvasController.HandleMouseUp | src/components/Node.tsx:109-125 | only the input handle commits, by the drop rule, and it clears the drawing in every case (src/components/Canvas.tsx:114-130) |
| NodeDrag.SnapPositionNearest | src/components/Node.tsx:60-66 | the committed position is on the grid within half a cell of the raw one on each axis |
| NodeDrag.GrabOffset | src/components/Node.tsx:36-39 | the grab offset in world units; specified by NodeDrag.GrabPointStaysUnderPointer |
| NodeDrag.DragPosition | src/components/Node.tsx:54-57 | the unsnapped drag position; specified by NodeDrag.GrabPointStaysUnderPointer and NodeDrag.DragFollowsPointer |
| NodeDrag.SnapPosition | src/components/Node.tsx:60-61 | both axes snapped; specified by NodeDrag.SnapPositionNearest |
| NodeDrag.DragEffects | src/components/Node.tsx:45-67 | with a drag in progress and the canvas found, exactly one MOVE_NODE for the node to the snapped world position; otherwise nothing |
| NodeDrag.LookupById | src/components/Node.tsx:47-48 | `getElementById` finds the canvas iff its id attribute is the one asked for, and then gives its corner |
| NodeDrag.RenderedCanvas | src/components/Canvas.tsx:164 | the canvas as rendered, with a class name and no id; specified by NodeDrag.DragNeverCommitsAsWritten |
| NodeDrag.DragNeverCommitsAsWritten | src/components/Node.tsx:47-48 | as written, the lookup misses the rendered canvas and a drag move dispatches nothing |
| NodeDrag.DragCommitsWithCanvasId | src/components/Node.tsx:45-67 | with the id on the canvas, a drag move moves the dragged node, and only it, to the snapped pointer position |
| NodeDrag.GrabPointStaysUnderPointer | src/components/Node.tsx:36-57 | with the node drawn where the transform puts it, a move at the grab point yields the node's own position |
| NodeDrag.DragFollowsPointer | src/components/Node.tsx:54-57 | a pointer movement of d on screen moves the unsnapped position by d / zoom |
| NodeDrag.NodeController.constructor | src/components/Node.tsx:19-20 | not dragging, with a zero offset |
| NodeDrag.NodeController.MouseDown | src/components/Node.tsx:25-40 | starts dragging, selects the node and records `(client - rect) / zoom` |
| NodeDrag.NodeController.MouseMove | src/components/Node.tsx:45-67 | a move dispatches exactly the drag step `DragEffects` for the current drag state and canvas lookup |
| NodeDrag.NodeController.MouseUp | src/components/Node.tsx:69-71 | ends the drag |
| NodeDrag.DragStepMovesOnlyThatNode | src/components/Node.tsx:63-66 | a drag step moves only the dragged node, to a grid point |
| Viewport.BoundsTight | src/hooks/useCanvasViewport.ts:93-105 | the bounding box holds every 320 x 150 node footprint, and each side touches some node |
| Viewport.Bounds | src/hooks/useCanvasViewport.ts:93-105 | the footprint bounding box; specified by Viewport.BoundsTight and Viewport.BoundsAtLeastOneNode |
| Viewport.BoundsAtLeastOneNode | src/hooks/useCanvasViewport.ts:107-108 | the content is at least 320 wide and 150 high |
| Viewport.BoundingBox | src/hooks/useCanvasViewport.ts:93-108 | the loop computes that bounding box |
| Viewport.FitZoom | src/hooks/useCanvasViewport.ts:109-111 | the fit zoom `min(max(0.1, min(zoomX, zoomY, 1.5)), 3)` lies in [0.1, 1.5] |
| Viewport.FitTransform | src/hooks/useCanvasViewport.ts:109-119 | the fit transform; specified by Viewport.FitCentresContent and Viewport.FitShowsEveryNode |
| Viewport.FitCentresContent | src/hooks/useCanvasViewport.ts:112-119 | after a fit, the box centre is drawn at the viewport centre |
| Viewport.FitShowsEveryNode | src/hooks/useCanvasViewport.ts:91-119 | unless the 0.1 clamp applies, every node footprint is drawn inside the viewport with 50 pixels of padding |
| Viewport.Center | src/hooks/useCanvasViewport.ts:80-121 | no nodes reset to {0, 0, 1} before the canvas is checked; no canvas dispatches nothing; otherwise the fit is dispatched |
| Viewport.ZoomInEffects | src/hooks/useCanvasViewport.ts:44-60 | `handleZoomIn`; specified by Viewport.ZoomButtonsPivotOnCentre |
| Viewport.ZoomOutEffects | src/hooks/useCanvasViewport.ts:62-78 | `handleZoomOut`; specified by Viewport.ZoomButtonsPivotOnCentre |
| Viewport.ZoomButtonsPivotOnCentre | src/hooks/useCanvasViewport.ts:44-78 | the buttons keep the zoom in [0.1, 3] and the world point under the viewport centre fixed; with no canvas they do nothing |
| Viewport.ViewportController.constructor | src/hooks/useCanvasViewport.ts:8-9 | not panning, anchor at the origin |
| Viewport.ViewportController.MouseDown | src/hooks/useCanvasViewport.ts:11-21 | a background press starts a pan and clears both selections |
| Viewport.ViewportController.MouseMove | src/hooks/useCanvasViewport.ts:23-38 | while panning, adds the raw delta to the offset, keeps the zoom and re-anchors |
| Viewport.ViewportController.MouseUp | src/hooks/useCanvasViewport.ts:40-42 | ends the pan |
| Export.Outgoing | src/components/JsonPreview.tsx:21-23 | the filter keeps exactly the edges leaving the node |
| Export.OutgoingKeepsOrder | src/components/JsonPreview.tsx:21-23 | the filter keeps edge-list order: filtering a concatenation concatenates the filtered parts |
| Export.ExportEdge | src/components/JsonPreview.tsx:25-29 | copies target and condition; parameters are the edge's map, or `{}` when it has none |
| Export.ExportNode | src/components/JsonPreview.tsx:19-37 | one exported node; specified by Export.ExportShape and Export.ExportedEdgesAreOutgoing |
| Export.ExportSchema | src/components/JsonPreview.tsx:19-42 | the whole schema; specified by Export.ExportShape, Export.ExportIgnoresView and Export.ExportedEdgeCountTheorem |
| Export.ExportShape | src/components/JsonPreview.tsx:19-42 | one exported node per state node, in order, with id, description and prompt; its edges are its outgoing edges in order; the start id is copied |
| Export.ExportedEdgesAreOutgoing | src/components/Sidebar/FlowJsonPreview.tsx:11-20 | an exported entry under a node is exactly the export of some edge leaving that node |
| Export.ExportIgnoresView | src/components/JsonPreview.tsx:39-42 | the schema does not depend on name, transform, selection or last interaction |
| Export.IdCountUnique | src/components/JsonPreview.tsx:19-23 | with unique ids, an id matches one node if present and none otherwise |
| Export.Sourced | src/components/JsonPreview.tsx:19-29 | the edges whose source is some node |
| Export.OutgoingTotalCountsSourced | src/components/JsonPreview.tsx:19-29 | with unique ids, the per-node outgoing counts sum to the number of edges whose source is a node |
| Export.ExportedEdgeCountTheorem | src/components/JsonPreview.tsx:19-29 | with unique ids, the export holds one entry per edge whose source is a node, which is every edge under referential integrity |
| Export.OrphanEdgesDropped | src/components/JsonPreview.tsx:19-23 | an edge from no node appears under no exported node |
| Export.DownloadName | src/components/Sidebar/FlowJsonPreview.tsx:49 | the file is the flow name plus ".json", or "flow.json" for an empty name |
| Export.DownloadNamesAgree | src/components/JsonPreview.tsx:58 | the older panel's fixed "flow.json" agrees with the sidebar's name only for an empty flow name or the name "flow" |
| Summary.Endpoints | src/components/Sidebar/FlowSummary.tsx:17-21 | the set holds exactly the ids that are a source or a target of some edge |
| Summary.ConnectedNodeIds | src/components/Sidebar/FlowSummary.tsx:17-21 | the `forEach` loop fills exactly that set (same code at src/components/Sidebar.tsx:39-43) |
| Summary.NodesIn | src/components/Sidebar/FlowSummary.tsx:23-25 | keeps exactly the nodes whose id is in the set |
| Summary.FiltersPartition | src/components/Sidebar/FlowSummary.tsx:23-26 | every node passes exactly one of the two filters |
| Summary.Summarize | src/components/Sidebar/FlowSummary.tsx:14-26 | totals are the list lengths; connected counts the touched nodes; disconnected counts the untouched ones, and equals total minus connected, within [0, total] (same code at src/components/Sidebar.tsx:36-48) |
| Summary.ConnectedMeansTouched | src/components/Sidebar/FlowSummary.tsx:17-25 | a node counts as connected iff some edge starts or ends at it |
| Summary.NoEdgesNoneConnected | src/components/Sidebar/FlowSummary.tsx:17-26 | with no edges, nothing is connected and everything is disconnected |
| Summary.SelfLoopConnects | src/components/Sidebar/FlowSummary.tsx:18-21 | a self-loop connects its node |
| Sidebar.FindNode | src/components/Sidebar.tsx:25 | `find` returns a node with the id, or nothing iff no node has it |
| Sidebar.FindNodeIsFirst | src/components/Sidebar.tsx:25 | it returns the first such node |
| Sidebar.FindEdge | src/components/Sidebar.tsx:31 | `find` returns an edge with the id, or nothing iff no edge has it |
| Sidebar.PanelFor | src/components/Sidebar.tsx:24-34 | which panel the sidebar shows; specified by Sidebar.PanelRouting |
| Sidebar.PanelRouting | src/components/Sidebar.tsx:24-34 | a truthy node selection shows its node's editor (or a blank panel); otherwise a truthy edge selection shows its edge's editor (or a blank panel); otherwise the summary |
| Sidebar.ValidSelectionNeverBlank | src/components/Sidebar.tsx:24-34 | with selections naming existing items, the panel is never blank |
| Sidebar.DanglingNodeSelectionBlanks | src/components/Sidebar.tsx:24-27 | a dangling node selection blanks the panel even when an edge is selected |
| Sidebar.NewNode | src/components/Sidebar.tsx:274-282 | the node the add button creates; specified by Sidebar.NewNodePlacement |
| Sidebar.AddNewNodeEffects | src/components/Sidebar.tsx:272-285 | the add button; specified by Sidebar.AddNewNodeSelectsIt |
| Sidebar.NewNodePlacement | src/components/Sidebar.tsx:272-285 | the new node is "node_" plus six uuid characters, "New Step", with an empty prompt, at the world point under the viewport corner plus 100, drawn 100 * zoom pixels in |
| Sidebar.AddNewNodeSelectsIt | src/components/Sidebar.tsx:272-285 | after the button, the new node is last and selected, and the edge selection remains |
| NodeEditing.IdError | src/components/Sidebar/NodeEditor.tsx:21-34 | "ID must be unique" is shown iff the typed id differs and another node already has it |
| NodeEditing.IdChangeEffects | src/components/Sidebar/NodeEditor.tsx:21-34 | one id-only UPDATE_NODE iff the id changed and is unused, else nothing (same code at src/components/Sidebar.tsx:325-339) |
| NodeEditing.DispatchIffNoErrorAndChanged | src/components/Sidebar/NodeEditor.tsx:21-34 | a dispatch happens iff no error is shown and the id changed |
| NodeEditing.GuardedRenameKeepsIdsUnique | src/components/Sidebar/NodeEditor.tsx:26-34 | every rename the guard lets through keeps node ids unique |
| NodeEditing.GuardedRenameKeepsIntegrity | src/components/Sidebar/NodeEditor.tsx:26-34 | a guarded rename to a non-empty id keeps integrity |
| NodeEditing.GuardAdmitsEmptyId | src/components/Sidebar/NodeEditor.tsx:21-34 | clearing the id field passes the guard and orphans the node's outgoing edges |
| NodeEditing.NodeEditor.constructor | src/components/Sidebar/NodeEditor.tsx:19 | no error shown |
| NodeEditing.NodeEditor.IdChange | src/components/Sidebar/NodeEditor.tsx:21-35 | sets the error as above and dispatches the guarded rename |
| NodeEditing.SetStartEffects | src/components/Sidebar/NodeEditor.tsx:37-45 | the set-start button dispatches SET_START_NODE for this node, and is silent (disabled) iff the node is already the start node (src/components/Sidebar.tsx:426-429) |
| NodeEditing.SetStartMakesStart | src/components/Sidebar/NodeEditor.tsx:43-45 | afterwards the node is the start node and nothing else has changed |
| NodeEditing.RemoveFromEditor | src/components/Sidebar/NodeEditor.tsx:39-41 | delete removes the node, its edges and every pointer to it (src/components/Sidebar.tsx:371) |
| NodeEditing.DescriptionEditTouchesOneField | src/components/Sidebar/NodeEditor.tsx:47-52 | a description edit changes only that field of the matching nodes (src/components/Sidebar.tsx:466-470) |
| NodeEditing.PromptEditTouchesOneField | src/components/Sidebar/NodeEditor.tsx:54-59 | a prompt edit changes only that field of the matching nodes (src/components/Sidebar.tsx:491-495) |
| NodeEditing.DescriptionIndicatorFollowsEdit | src/components/Sidebar/NodeEditor.tsx:130-139 | after a description edit the missing-description indicator shows iff the new text is empty |
| EdgeEditing.CurrentParams | src/components/Sidebar/EdgeEditor.tsx:28 | `edge.parameters \|\| {}` |
| EdgeEditing.WithParam | src/components/Sidebar/EdgeEditor.tsx:28 | the key is set or overwritten, stored untrimmed; every other entry stays |
| EdgeEditing.WithoutParam | src/components/Sidebar/EdgeEditor.tsx:38-39 | exactly that key is removed; every other entry stays |
| EdgeEditing.RemoveAbsentIsNoOp | src/components/Sidebar/EdgeEditor.tsx:38-39 | removing an absent key changes nothing |
| EdgeEditing.AddThenRemoveRestores | src/components/Sidebar/EdgeEditor.tsx:28-39 | adding a fresh key and then removing it restores the map |
| EdgeEditing.RemoveThenAddOverwrites | src/components/Sidebar/EdgeEditor.tsx:28-39 | removing a key and adding it again is overwriting it |
| EdgeEditing.AddParamEffects | src/components/Sidebar/EdgeEditor.tsx:26-32 | nothing iff the key trims to ""; otherwise one UPDATE_EDGE with the extended map |
| EdgeEditing.BlankKeyRefused | src/components/Sidebar/EdgeEditor.tsx:27 | the add is refused iff the key is empty or all whitespace |
| EdgeEditing.ParamsEditTouchesOneField | src/components/Sidebar/EdgeEditor.tsx:29-32 | a parameter edit sets only the parameters of the edges with that id |
| EdgeEditing.AddThenRemoveFromEdge | src/components/Sidebar/EdgeEditor.tsx:26-44 | adding a fresh key to the edge and then removing it leaves the edge's parameters as they started (`{}` if it had none) |
| EdgeEditing.ConditionEditTouchesOneField | src/components/Sidebar/EdgeEditor.tsx:120-125 | a condition edit changes only that field (src/components/Sidebar.tsx:647-652) |
| EdgeEditing.RemoveFromEditor | src/components/Sidebar/EdgeEditor.tsx:55 | delete removes the edge and clears its selection (src/components/Sidebar.tsx:529) |
| EdgeEditing.EdgeEditor.constructor | src/components/Sidebar/EdgeEditor.tsx:20-21 | both inputs start empty |
| EdgeEditing.EdgeEditor.KeyChange | src/components/Sidebar/EdgeEditor.tsx:174 | typing in the key input changes only the key |
| EdgeEditing.EdgeEditor.ValueChange | src/components/Sidebar/EdgeEditor.tsx:181 | typing in the value input changes only the value |
| EdgeEditing.EdgeEditor.AddParam | src/components/Sidebar/EdgeEditor.tsx:26-35 | a blank key dispatches nothing and keeps both inputs; otherwise it dispatches the extended map and resets both inputs to "" |
| FlowNameEditing.BlurEffects | src/components/Canvas/FlowNameEditor.tsx:14-20 | a blur dispatches SET_FLOW_NAME with the trimmed text iff that is non-empty |
| FlowNameEditing.CommittedNamesAreTrimmed | src/components/Canvas/FlowNameEditor.tsx:15-17 | every committed name is non-empty and its own trim |
| FlowNameEditing.BlurSetsName | src/components/Canvas/FlowNameEditor.tsx:14-22 | afterwards the name is the trimmed text, or unchanged when that is blank |
| FlowNameEditing.FlowNameEditor.constructor | src/components/Canvas/FlowNameEditor.tsx:7-8 | closed, on the store's name |
| FlowNameEditing.FlowNameEditor.DoubleClick | src/components/Canvas/FlowNameEditor.tsx:33-36 | copies the name and opens the field |
| FlowNameEditing.FlowNameEditor.NameChange | src/components/Canvas/FlowNameEditor.tsx:10-12 | typing changes only the local copy |
| FlowNameEditing.FlowNameEditor.Blur | src/components/Canvas/FlowNameEditor.tsx:14-22 | commits or reverts, and closes the field |
| FlowNameEditing.FlowNameEditor.KeyDown | src/components/Canvas/FlowNameEditor.tsx:24-31 | Enter acts as blur; Escape reverts and closes without dispatching; other keys do nothing |
| Shortcuts.FormFieldsIgnored | src/hooks/useKeyboardShortcuts.ts:23-24 | in an INPUT, TEXTAREA or SELECT every key is ignored |
| Shortcuts.CaseInsensitive | src/hooks/useKeyboardShortcuts.ts:26 | the key is lower-cased first, so "W" behaves like "w" |
| Shortcuts.PanKeys | src/hooks/useKeyboardShortcuts.ts:20-52 | w/s move `y` by -50/+50 and a/d move `x` by -50/+50, keeping the zoom and the other axis |
| Shortcuts.CallbackKeys | src/hooks/useKeyboardShortcuts.ts:53-65 | "+" and "=" zoom in, "-" zooms out, "0" centres, "n" adds a node |
| Shortcuts.OtherKeysDoNothing | src/hooks/useKeyboardShortcuts.ts:28-66 | a key acts iff it is outside a form field and one of the nine listed keys; a dispatched action is a pan that keeps the zoom |
| Shortcuts.CommandForKey | src/hooks/useKeyboardShortcuts.ts:28-66 | the key switch; specified by Shortcuts.PanKeys, Shortcuts.CallbackKeys and Shortcuts.OtherKeysDoNothing |
| Shortcuts.ShortcutFor | src/hooks/useKeyboardShortcuts.ts:22-66 | `handleKeyDown`; specified by Shortcuts.FormFieldsIgnored, Shortcuts.CaseInsensitive and Shortcuts.OtherKeysDoNothing |
| DeleteKey.DeleteKeyEffects | src/App.tsx:11-26 | at most one removal: the truthy node selection, else the truthy edge selection, only for Delete/Backspace outside INPUT/TEXTAREA |
| DeleteKey.SelectDoesNotBlock | src/App.tsx:13-18 | a focused SELECT does not block deletion |
| DeleteKey.DeleteRemovesSelection | src/App.tsx:20-25 | the selected node (with its edges) or edge is gone afterwards, and with no selection nothing changes |
| Strings.TrimShape | src/components/Sidebar/EdgeEditor.tsx:27 | `trim` keeps one contiguous run that starts and ends with non-whitespace, and drops only whitespace around it |
| Strings.TrimEmptyIffBlank | src/components/Canvas/FlowNameEditor.tsx:15-16 | a string trims to "" iff it is all whitespace |
| Strings.TrimIdempotent | src/components/Canvas/FlowNameEditor.tsx:15 | trimming twice is trimming once |
| Strings.Trim | src/components/Sidebar/EdgeEditor.tsx:27 | `trim`; specified by Strings.TrimShape, Strings.TrimEmptyIffBlank and Strings.TrimIdempotent |
| Strings.ToLower | src/hooks/useKeyboardShortcuts.ts:26 | lower-casing maps each character, ASCII letters to lower case |

## Left out

- Rendering, styling and the presentational components are not modelled: JSX, CSS classes, `SectionHeading`, `ShortcutsHint`, `ZoomControls` and `main.tsx`. They hold no state or logic of their own.
- `src/components/Edge.tsx` and the rubber-band path of `renderDrawingEdge` are display geometry only. Selecting an edge by clicking it is the reducer's SET_SELECTED_EDGE.
- `migrate.py` is a one-off script that rewrites source files. It is not part of this model.
- `FlowProvider` and `useFlow`, including the throw outside a provider, are React plumbing. So are listener registration and `stopPropagation`. Propagation is modelled only as which handler runs: `HitTarget` for the canvas, `HandleKind` for the handles.
- `uuidv4` is a parameter (`uuid`), and only the characters the code keeps are used.
- `JSON.stringify`, the clipboard, the Blob download and the two-second "copied" flag are not modelled. The schema is modelled as a value, and the download name as a string.
- Coordinates and zoom are reals, not IEEE doubles. Zoom 0 and infinities are excluded by `requires zoom != 0` on the operations that divide by the zoom.
- React batching and stale closures are not modelled. Each event applies to the current state, which is passed in.
- `FlowStore.Reduce`: `localeCompare` in UPDATE_EDGE is modelled as plain string equality. This misses Unicode-equivalent ids that a locale could also match.
- `Strings.ToLower`: lower-cases only ASCII letters, where `toLowerCase` covers all of Unicode. Every key the shortcut table compares with is ASCII.
- `CanvasGestures.CanvasController.MouseMove`: it always updates the pointer position. The code's null check on the canvas ref is omitted, because the ref is mounted whenever the canvas receives its own events.
- `NodeDrag.NodeController.MouseMove`: the canvas lookup is a parameter. In the tree as given it is always null, so a drag never dispatches MOVE_NODE (`NodeDrag.DragNeverCommitsAsWritten`). The drag lemmas describe the behaviour once the canvas carries the id (`NodeDrag.DragCommitsWithCanvasId`).
- Node and edge patches are records of `Option` fields. They cannot express a key that is present with the value `undefined`, which a spread would copy over the old value. No caller sends such a key.
- `FlowNameEditing.FlowNameEditor.KeyDown`: a blur that a browser might fire when Escape removes the focused field is not modelled. Escape is modelled as the handler states it.
- `Viewport.FitShowsEveryNode`: the visibility guarantee is stated only when the 0.1 lower zoom clamp does not apply. At that clamp, very wide content can overflow the viewport.

## Findings

| source | as written | input that shows it | evidently intended | confidence | as-written member | corrected member |
|---|---|---|---|---|---|---|
| src/components/Node.tsx:47-48 | the drag handler finds the canvas with `getElementById("canvas-area")`, but the canvas element has only `className="canvas-area"` (src/components/Canvas.tsx:164), so the lookup is null and the handler returns before dispatching | press on any node and move the pointer: no MOVE_NODE is dispatched and the node stays put | the canvas element carries `id="canvas-area"` (the rewrite at migrate.py:13 adds it), so each move commits the snapped position | not executed; high | NodeDrag.DragNeverCommitsAsWritten | NodeDrag.DragCommitsWithCanvasId |
