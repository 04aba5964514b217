/**
 * The viewport controller (src/hooks/useCanvasViewport.ts): background
 * panning, zoom-in / zoom-out buttons about the viewport centre, the wheel,
 * and fit-to-content over a fixed 320 x 150 node footprint.
 */
module Viewport {
  import opened FlowTypes
  import opened Geometry
  import CanvasGestures

  /** The footprint the fit takes for every node; rendered sizes are not measured. */
  const NodeWidth: real := 320.0
  const NodeHeight: real := 150.0
  /** Screen padding kept free on each side by the fit. */
  const Padding: real := 50.0
  /** The fit never zooms in beyond this. */
  const MaxFitZoom: real := 1.5

  /** The canvas element's size on screen. */
  datatype Size = Size(width: real, height: real)

  /** An axis-aligned box in world coordinates. */
  datatype Box = Box(minX: real, minY: real, maxX: real, maxY: real)

  function NodeBox(n: Node): Box {
    Box(n.position.x, n.position.y, n.position.x + NodeWidth, n.position.y + NodeHeight)
  }

  /** One step of the `forEach`: widen the box to take in the node's footprint. */
  function Extend(b: Box, n: Node): Box {
    Box(Min(b.minX, n.position.x), Min(b.minY, n.position.y),
        Max(b.maxX, n.position.x + NodeWidth), Max(b.maxY, n.position.y + NodeHeight))
  }

  /** The box the loop computes over all nodes, in list order. */
  function Bounds(nodes: seq<Node>): Box
    requires |nodes| > 0
    decreases |nodes|
  {
    if |nodes| == 1 then NodeBox(nodes[0]) else Extend(Bounds(nodes[..|nodes| - 1]), nodes[|nodes| - 1])
  }

  /** The box holds the node's whole footprint. */
  predicate Encloses(b: Box, n: Node) {
    b.minX <= n.position.x && n.position.x + NodeWidth <= b.maxX &&
    b.minY <= n.position.y && n.position.y + NodeHeight <= b.maxY
  }

  /** The bound holds every footprint and is tight: each side touches some node. */
  lemma {:induction false} BoundsTight(nodes: seq<Node>)
    requires |nodes| > 0
    ensures forall i :: 0 <= i < |nodes| ==> Encloses(Bounds(nodes), nodes[i])
    ensures exists i :: 0 <= i < |nodes| && Bounds(nodes).minX == nodes[i].position.x
    ensures exists i :: 0 <= i < |nodes| && Bounds(nodes).minY == nodes[i].position.y
    ensures exists i :: 0 <= i < |nodes| && Bounds(nodes).maxX == nodes[i].position.x + NodeWidth
    ensures exists i :: 0 <= i < |nodes| && Bounds(nodes).maxY == nodes[i].position.y + NodeHeight
    decreases |nodes|
  {
    if |nodes| > 1 {
      var init := nodes[..|nodes| - 1];
      BoundsTight(init);
      assert forall i :: 0 <= i < |init| ==> init[i] == nodes[i];
      var b := Bounds(init);
      var ix :| 0 <= ix < |init| && b.minX == init[ix].position.x;
      var iy :| 0 <= iy < |init| && b.minY == init[iy].position.y;
      var jx :| 0 <= jx < |init| && b.maxX == init[jx].position.x + NodeWidth;
      var jy :| 0 <= jy < |init| && b.maxY == init[jy].position.y + NodeHeight;
      var last := |nodes| - 1;
      var r := Bounds(nodes);
      assert r.minX == nodes[ix].position.x || r.minX == nodes[last].position.x;
      assert r.minY == nodes[iy].position.y || r.minY == nodes[last].position.y;
      assert r.maxX == nodes[jx].position.x + NodeWidth || r.maxX == nodes[last].position.x + NodeWidth;
      assert r.maxY == nodes[jy].position.y + NodeHeight || r.maxY == nodes[last].position.y + NodeHeight;
    }
  }

  /** The content is at least one footprint wide and high. */
  lemma BoundsAtLeastOneNode(nodes: seq<Node>)
    requires |nodes| > 0
    ensures Bounds(nodes).maxX - Bounds(nodes).minX >= NodeWidth
    ensures Bounds(nodes).maxY - Bounds(nodes).minY >= NodeHeight
  {
    BoundsTight(nodes);
    assert Encloses(Bounds(nodes), nodes[0]);
  }

  /** The bounding-box loop of `handleCenter`. */
  method BoundingBox(nodes: seq<Node>) returns (b: Box)
    requires |nodes| > 0
    ensures b == Bounds(nodes)
    ensures b.maxX - b.minX >= NodeWidth && b.maxY - b.minY >= NodeHeight
  {
    // The source starts from +/-Infinity; after the first node that is that node's box.
    b := NodeBox(nodes[0]);
    var i := 1;
    while i < |nodes|
      invariant 1 <= i <= |nodes|
      invariant b == Bounds(nodes[..i])
    {
      assert nodes[..i + 1][..i] == nodes[..i];
      b := Extend(b, nodes[i]);
      i := i + 1;
    }
    assert nodes[..|nodes|] == nodes;
    BoundsAtLeastOneNode(nodes);
  }

  /** A box at least one footprint in size, as every node bound is. */
  predicate ProperBox(b: Box) {
    b.maxX - b.minX >= NodeWidth && b.maxY - b.minY >= NodeHeight
  }

  /** The zoom that fits the padded box on both axes: (view - 2 * padding) / content. */
  function AxisZoom(view: real, lo: real, hi: real): real
    requires hi - lo > 0.0
  {
    (view - Padding * 2.0) / (hi - lo)
  }

  /** `Math.min(Math.max(0.1, Math.min(zoomX, zoomY, 1.5)), 3)`. */
  function FitZoom(b: Box, size: Size): (z: real)
    requires ProperBox(b)
    ensures MinZoom <= z <= MaxFitZoom
  {
    var zoomX := AxisZoom(size.width, b.minX, b.maxX);
    var zoomY := AxisZoom(size.height, b.minY, b.maxY);
    Min(Max(MinZoom, Min(Min(zoomX, zoomY), MaxFitZoom)), MaxZoom)
  }

  /** The fitted transform: the box centre goes to the viewport centre at the fit zoom. */
  function FitTransform(b: Box, size: Size): Transform
    requires ProperBox(b)
  {
    var z := FitZoom(b, size);
    var centerX := b.minX + (b.maxX - b.minX) / 2.0;
    var centerY := b.minY + (b.maxY - b.minY) / 2.0;
    Transform(size.width / 2.0 - centerX * z, size.height / 2.0 - centerY * z, z)
  }

  /** After a fit the centre of the box is drawn at the centre of the viewport. */
  lemma FitCentresContent(b: Box, size: Size)
    requires ProperBox(b)
    ensures var t := FitTransform(b, size);
      && ToScreen(t.x, t.zoom, (b.minX + b.maxX) / 2.0) == size.width / 2.0
      && ToScreen(t.y, t.zoom, (b.minY + b.maxY) / 2.0) == size.height / 2.0
  {
  }

  /** One axis of the fit: a point of the box lands inside the padded view when the zoom fits. */
  lemma FitAxisInside(lo: real, hi: real, z: real, view: real, offset: real, p: real)
    requires hi - lo > 0.0 && z > 0.0 && z <= AxisZoom(view, lo, hi)
    requires offset == view / 2.0 - (lo + (hi - lo) / 2.0) * z
    requires lo <= p <= hi
    ensures Padding <= ToScreen(offset, z, p) <= view - Padding
  {
    var w := hi - lo;
    var zx := AxisZoom(view, lo, hi);
    assert zx * w == view - Padding * 2.0;
    assert (zx - z) * w >= 0.0;
    assert z * w <= view - Padding * 2.0;
    assert (p - lo) * z >= 0.0;
    assert (hi - p) * z >= 0.0;
    assert ToScreen(offset, z, p) == view / 2.0 + (p - lo) * z - (w * z) / 2.0;
  }

  /** Away from the 0.1 clamp the fit zoom is at most each axis's own fitting zoom. */
  lemma FitZoomFitsBothAxes(b: Box, size: Size)
    requires ProperBox(b)
    requires Min(AxisZoom(size.width, b.minX, b.maxX), AxisZoom(size.height, b.minY, b.maxY)) >= MinZoom
    ensures FitZoom(b, size) <= AxisZoom(size.width, b.minX, b.maxX)
    ensures FitZoom(b, size) <= AxisZoom(size.height, b.minY, b.maxY)
  {
  }

  /** A node footprint inside the box lands inside the padded view when the fit is not clamped at 0.1. */
  lemma FitShowsEnclosed(b: Box, size: Size, n: Node)
    requires ProperBox(b) && Encloses(b, n)
    requires Min(AxisZoom(size.width, b.minX, b.maxX), AxisZoom(size.height, b.minY, b.maxY)) >= MinZoom
    ensures var t := FitTransform(b, size);
      && Padding <= ToScreen(t.x, t.zoom, n.position.x)
      && ToScreen(t.x, t.zoom, n.position.x + NodeWidth) <= size.width - Padding
      && Padding <= ToScreen(t.y, t.zoom, n.position.y)
      && ToScreen(t.y, t.zoom, n.position.y + NodeHeight) <= size.height - Padding
  {
    FitZoomFitsBothAxes(b, size);
    var z := FitZoom(b, size);
    var t := FitTransform(b, size);
    FitAxisInside(b.minX, b.maxX, z, size.width, t.x, n.position.x);
    FitAxisInside(b.minX, b.maxX, z, size.width, t.x, n.position.x + NodeWidth);
    FitAxisInside(b.minY, b.maxY, z, size.height, t.y, n.position.y);
    FitAxisInside(b.minY, b.maxY, z, size.height, t.y, n.position.y + NodeHeight);
  }

  /**
   * Unless the 0.1 lower clamp kicks in, fit-to-content draws every node's
   * whole footprint inside the viewport with the 50-pixel padding free.
   */
  lemma FitShowsEveryNode(nodes: seq<Node>, size: Size, i: nat)
    requires |nodes| > 0 && i < |nodes|
    requires var b := Bounds(nodes);
      ProperBox(b) && Min(AxisZoom(size.width, b.minX, b.maxX), AxisZoom(size.height, b.minY, b.maxY)) >= MinZoom
    ensures var t := FitTransform(Bounds(nodes), size); var n := nodes[i];
      && Padding <= ToScreen(t.x, t.zoom, n.position.x)
      && ToScreen(t.x, t.zoom, n.position.x + NodeWidth) <= size.width - Padding
      && Padding <= ToScreen(t.y, t.zoom, n.position.y)
      && ToScreen(t.y, t.zoom, n.position.y + NodeHeight) <= size.height - Padding
  {
    var b := Bounds(nodes);
    BoundsEncloseEach(nodes, i);
    FitShowsEnclosed(b, size, nodes[i]);
  }

  /** The bounding box encloses node i. */
  lemma BoundsEncloseEach(nodes: seq<Node>, i: nat)
    requires i < |nodes|
    ensures Encloses(Bounds(nodes), nodes[i])
  {
    BoundsTight(nodes);
  }

  /**
   * `handleCenter`: with no nodes reset to {0, 0, 1} (checked before the
   * canvas is looked up); with no canvas do nothing; otherwise fit.
   */
  method Center(nodes: seq<Node>, canvas: Option<Size>) returns (effects: seq<Action>)
    ensures |nodes| == 0 ==> effects == [SetTransform(Transform(0.0, 0.0, 1.0))]
    ensures |nodes| > 0 && canvas.None? ==> effects == []
    ensures |nodes| > 0 && canvas.Some? ==>
      ProperBox(Bounds(nodes)) && effects == [SetTransform(FitTransform(Bounds(nodes), canvas.value))]
  {
    if |nodes| == 0 {
      return [SetTransform(Transform(0.0, 0.0, 1.0))];
    }
    if canvas.None? {
      return [];
    }
    var b := BoundingBox(nodes);
    effects := [SetTransform(FitTransform(b, canvas.value))];
  }

  /** `handleZoomIn`: step the zoom up (capped at 3) about the viewport centre. */
  function ZoomInEffects(t: Transform, canvas: Option<Size>): seq<Action>
    requires t.zoom != 0.0
  {
    if canvas.None? then []
    else [SetTransform(ZoomAbout(t, canvas.value.width / 2.0, canvas.value.height / 2.0, ZoomInLevel(t.zoom)))]
  }

  /** `handleZoomOut`: step the zoom down (floored at 0.1) about the viewport centre. */
  function ZoomOutEffects(t: Transform, canvas: Option<Size>): seq<Action>
    requires t.zoom != 0.0
  {
    if canvas.None? then []
    else [SetTransform(ZoomAbout(t, canvas.value.width / 2.0, canvas.value.height / 2.0, ZoomOutLevel(t.zoom)))]
  }

  /**
   * The buttons keep the zoom in [0.1, 3] and the world point under the
   * viewport centre in place; without a canvas they dispatch nothing.
   */
  lemma ZoomButtonsPivotOnCentre(t: Transform, canvas: Option<Size>)
    requires MinZoom <= t.zoom <= MaxZoom
    ensures canvas.None? ==> ZoomInEffects(t, canvas) == [] && ZoomOutEffects(t, canvas) == []
    ensures canvas.Some? ==>
      var cx := canvas.value.width / 2.0; var cy := canvas.value.height / 2.0;
      forall a :: a in ZoomInEffects(t, canvas) + ZoomOutEffects(t, canvas) ==>
        && a.SetTransform?
        && MinZoom <= a.newTransform.zoom <= MaxZoom
        && ToWorld(a.newTransform.x, a.newTransform.zoom, cx) == ToWorld(t.x, t.zoom, cx)
        && ToWorld(a.newTransform.y, a.newTransform.zoom, cy) == ToWorld(t.y, t.zoom, cy)
  {
    if canvas.Some? {
      var cx := canvas.value.width / 2.0;
      var cy := canvas.value.height / 2.0;
      ZoomAboutFixesPivot(t, cx, cy, ZoomInLevel(t.zoom));
      ZoomAboutFixesPivot(t, cx, cy, ZoomOutLevel(t.zoom));
    }
  }

  /** The hook's own pan state: the same rule as the canvas's. */
  class ViewportController {
    var isPanning: bool
    var startPanPos: Position

    constructor ()
      ensures !isPanning && startPanPos == Position(0.0, 0.0)
    {
      isPanning := false;
      startPanPos := Position(0.0, 0.0);
    }

    /** A background press starts a pan and clears both selections. */
    method MouseDown(target: CanvasGestures.HitTarget, client: Position) returns (effects: seq<Action>)
      modifies this
      ensures CanvasGestures.IsBackground(target) ==>
        isPanning && startPanPos == client && effects == CanvasGestures.ClearSelection()
      ensures !CanvasGestures.IsBackground(target) ==>
        effects == [] && isPanning == old(isPanning) && startPanPos == old(startPanPos)
    {
      effects := [];
      if CanvasGestures.IsBackground(target) {
        isPanning := true;
        startPanPos := client;
        effects := CanvasGestures.ClearSelection();
      }
    }

    /** While panning, add the raw client delta to the offset and re-anchor. */
    method MouseMove(t: Transform, client: Position) returns (effects: seq<Action>)
      modifies this
      ensures old(isPanning) ==> effects == [SetTransform(PanStep(t, old(startPanPos), client))] && startPanPos == client
      ensures !old(isPanning) ==> effects == [] && startPanPos == old(startPanPos)
      ensures isPanning == old(isPanning)
    {
      effects := [];
      if isPanning {
        effects := [SetTransform(PanStep(t, startPanPos, client))];
        startPanPos := client;
      }
    }

    method MouseUp()
      modifies this
      ensures !isPanning && startPanPos == old(startPanPos)
    {
      isPanning := false;
    }
  }
}
