/**
 * Coordinate math shared by the canvas, the node drag and the viewport
 * controller: screen/world conversion, zoom about a pivot, the zoom
 * clamps, the pan step and the 10-unit grid snap.
 */
module Geometry {
  import opened FlowTypes

  const MinZoom: real := 0.1
  const MaxZoom: real := 3.0
  /** Zoom change per unit of wheel `deltaY`. */
  const WheelFactor: real := -0.001
  /** Zoom change of one zoom-in / zoom-out button press. */
  const ZoomStep: real := 0.2
  const GridSize: real := 10.0

  /** `Math.min` on two numbers. */
  function Min(a: real, b: real): (r: real)
    ensures r <= a && r <= b && (r == a || r == b)
  {
    if a <= b then a else b
  }

  /** `Math.max` on two numbers. */
  function Max(a: real, b: real): (r: real)
    ensures r >= a && r >= b && (r == a || r == b)
  {
    if a >= b then a else b
  }

  /** `Math.min(Math.max(lo, v), hi)`. */
  function Clamp(v: real, lo: real, hi: real): (r: real)
    requires lo <= hi
    ensures lo <= r <= hi
    ensures lo <= v <= hi ==> r == v
    ensures v < lo ==> r == lo
    ensures v > hi ==> r == hi
  {
    Min(Max(lo, v), hi)
  }

  /** The world coordinate under a screen coordinate: (screen - offset) / zoom. */
  function ToWorld(offset: real, zoom: real, screen: real): real
    requires zoom != 0.0
  {
    (screen - offset) / zoom
  }

  /** The screen coordinate of a world coordinate: world * zoom + offset. */
  function ToScreen(offset: real, zoom: real, world: real): real {
    world * zoom + offset
  }

  /** The two conversions are inverse to each other. */
  lemma ToWorldToScreenInverse(offset: real, zoom: real, world: real, screen: real)
    requires zoom != 0.0
    ensures ToWorld(offset, zoom, ToScreen(offset, zoom, world)) == world
    ensures ToScreen(offset, zoom, ToWorld(offset, zoom, screen)) == screen
  {
    assert (world * zoom) / zoom == world;
    assert ((screen - offset) / zoom) * zoom == screen - offset;
  }

  /** The offset that keeps `pivot` fixed when the zoom changes: p - (p - offset) * (z' / z). */
  function ZoomOffset(offset: real, zoom: real, pivot: real, newZoom: real): real
    requires zoom != 0.0
  {
    pivot - (pivot - offset) * (newZoom / zoom)
  }

  /** Zoom to `newZoom` about the screen point (px, py). */
  function ZoomAbout(t: Transform, px: real, py: real, newZoom: real): Transform
    requires t.zoom != 0.0
  {
    Transform(ZoomOffset(t.x, t.zoom, px, newZoom), ZoomOffset(t.y, t.zoom, py, newZoom), newZoom)
  }

  /** One axis of zoom-to-point: the world point under the pivot does not move. */
  lemma ZoomOffsetFixesPivot(offset: real, zoom: real, pivot: real, newZoom: real)
    requires zoom != 0.0 && newZoom != 0.0
    ensures ToWorld(ZoomOffset(offset, zoom, pivot, newZoom), newZoom, pivot) == ToWorld(offset, zoom, pivot)
  {
    var d := pivot - offset;
    var w := d / zoom;
    assert d * (newZoom / zoom) == w * newZoom;
    assert pivot - ZoomOffset(offset, zoom, pivot, newZoom) == w * newZoom;
    assert (w * newZoom) / newZoom == w;
  }

  /** Zoom-to-point keeps the world point under the pivot in place, on both axes. */
  lemma ZoomAboutFixesPivot(t: Transform, px: real, py: real, newZoom: real)
    requires t.zoom != 0.0 && newZoom != 0.0
    ensures var r := ZoomAbout(t, px, py, newZoom);
      && r.zoom == newZoom
      && ToWorld(r.x, r.zoom, px) == ToWorld(t.x, t.zoom, px)
      && ToWorld(r.y, r.zoom, py) == ToWorld(t.y, t.zoom, py)
  {
    ZoomOffsetFixesPivot(t.x, t.zoom, px, newZoom);
    ZoomOffsetFixesPivot(t.y, t.zoom, py, newZoom);
  }

  /** The wheel's target zoom: clamp(zoom - 0.001 * deltaY, 0.1, 3). */
  function WheelZoom(zoom: real, deltaY: real): (r: real)
    ensures MinZoom <= r <= MaxZoom
    ensures MinZoom <= zoom + deltaY * WheelFactor <= MaxZoom ==> r == zoom + deltaY * WheelFactor
    ensures zoom + deltaY * WheelFactor < MinZoom ==> r == MinZoom
    ensures zoom + deltaY * WheelFactor > MaxZoom ==> r == MaxZoom
  {
    Clamp(zoom + deltaY * WheelFactor, MinZoom, MaxZoom)
  }

  /** `handleWheel`: zoom by the wheel delta about the pointer (canvas-relative). */
  function WheelTransform(t: Transform, deltaY: real, mouseX: real, mouseY: real): Transform
    requires t.zoom != 0.0
  {
    ZoomAbout(t, mouseX, mouseY, WheelZoom(t.zoom, deltaY))
  }

  /** The wheel keeps the zoom in range and the world point under the pointer in place. */
  lemma WheelZoomsAboutPointer(t: Transform, deltaY: real, mouseX: real, mouseY: real)
    requires t.zoom != 0.0
    ensures var r := WheelTransform(t, deltaY, mouseX, mouseY);
      && MinZoom <= r.zoom <= MaxZoom
      && ToWorld(r.x, r.zoom, mouseX) == ToWorld(t.x, t.zoom, mouseX)
      && ToWorld(r.y, r.zoom, mouseY) == ToWorld(t.y, t.zoom, mouseY)
  {
    ZoomAboutFixesPivot(t, mouseX, mouseY, WheelZoom(t.zoom, deltaY));
  }

  /** The zoom-in button's target: min(zoom + 0.2, 3) (no lower clamp). */
  function ZoomInLevel(zoom: real): (r: real)
    ensures r <= MaxZoom && r <= zoom + ZoomStep
    ensures zoom + ZoomStep <= MaxZoom ==> r == zoom + ZoomStep
    ensures zoom + ZoomStep > MaxZoom ==> r == MaxZoom
  {
    Min(zoom + ZoomStep, MaxZoom)
  }

  /** The zoom-out button's target: max(zoom - 0.2, 0.1) (no upper clamp). */
  function ZoomOutLevel(zoom: real): (r: real)
    ensures r >= MinZoom && r >= zoom - ZoomStep
    ensures zoom - ZoomStep >= MinZoom ==> r == zoom - ZoomStep
    ensures zoom - ZoomStep < MinZoom ==> r == MinZoom
  {
    Max(zoom - ZoomStep, MinZoom)
  }

  /** The three ways a user changes the zoom level. */
  datatype ZoomCommand = ZoomInPress | ZoomOutPress | WheelTurn(deltaY: real)

  function NextZoom(zoom: real, c: ZoomCommand): real {
    match c
    case ZoomInPress => ZoomInLevel(zoom)
    case ZoomOutPress => ZoomOutLevel(zoom)
    case WheelTurn(dy) => WheelZoom(zoom, dy)
  }

  function ZoomAfter(zoom: real, cs: seq<ZoomCommand>): real
    decreases |cs|
  {
    if cs == [] then zoom else ZoomAfter(NextZoom(zoom, cs[0]), cs[1..])
  }

  /** Starting in [0.1, 3], no run of zoom commands leaves [0.1, 3]. */
  lemma {:induction false} ZoomStaysInRange(zoom: real, cs: seq<ZoomCommand>)
    requires MinZoom <= zoom <= MaxZoom
    ensures MinZoom <= ZoomAfter(zoom, cs) <= MaxZoom
    decreases |cs|
  {
    if cs != [] {
      ZoomStaysInRange(NextZoom(zoom, cs[0]), cs[1..]);
    }
  }

  /** One pan move: add the raw pointer delta since the anchor to the offset, keep the zoom. */
  function PanStep(t: Transform, anchor: Position, client: Position): Transform {
    t.(x := t.x + (client.x - anchor.x), y := t.y + (client.y - anchor.y))
  }

  /** A whole pan: each move pans from the previous pointer position, which becomes the new anchor. */
  function PanThrough(t: Transform, anchor: Position, moves: seq<Position>): Transform
    decreases |moves|
  {
    if moves == [] then t else PanThrough(PanStep(t, anchor, moves[0]), moves[0], moves[1..])
  }

  /** Over a whole pan the offset moves by (last - first) pointer position and the zoom stays. */
  lemma {:induction false} PanTelescopes(t: Transform, anchor: Position, moves: seq<Position>)
    requires moves != []
    ensures var r := PanThrough(t, anchor, moves); var last := moves[|moves| - 1];
      && r.x == t.x + (last.x - anchor.x)
      && r.y == t.y + (last.y - anchor.y)
      && r.zoom == t.zoom
    decreases |moves|
  {
    if |moves| > 1 {
      PanTelescopes(PanStep(t, anchor, moves[0]), moves[0], moves[1..]);
    }
  }

  /** `Math.round(v / 10) * 10`; `Math.round` rounds halves up. */
  function Snap(v: real): real {
    ((v / GridSize + 0.5).Floor as real) * GridSize
  }

  /** The snap gives a multiple of 10 in (v - 5, v + 5]. */
  lemma SnapIsNearestMultiple(v: real)
    ensures var r := Snap(v);
      && r == ((r / GridSize).Floor as real) * GridSize
      && v - GridSize / 2.0 < r <= v + GridSize / 2.0
  {
    var k := (v / GridSize + 0.5).Floor;
    assert (k as real * GridSize) / GridSize == k as real;
  }

  /** Any multiple of 10 in (v - 5, v + 5] is the snap of v. */
  lemma SnapUnique(v: real, k: int)
    requires v - GridSize / 2.0 < k as real * GridSize <= v + GridSize / 2.0
    ensures Snap(v) == k as real * GridSize
  {
    assert (v / GridSize + 0.5).Floor == k;
  }

  /** 123 -> 120, 77 -> 80, and halves round up: 125 -> 130, -125 -> -120. */
  lemma SnapExamples()
    ensures Snap(123.0) == 120.0 && Snap(77.0) == 80.0
    ensures Snap(125.0) == 130.0 && Snap(-125.0) == -120.0
  {
    SnapUnique(123.0, 12);
    SnapUnique(77.0, 8);
    SnapUnique(125.0, 13);
    SnapUnique(-125.0, -12);
  }
}
