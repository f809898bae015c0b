/** The board's viewport: zoom clamped to [0.5, 2], a pan offset in screen
    pixels, and the press/move/release machine that pans the board with the
    primary mouse button (src/App.tsx). Coordinates and zoom are reals. */
module Viewport {

  datatype Point = Point(x: real, y: real)

  function Plus(p: Point, q: Point): Point { Point(p.x + q.x, p.y + q.y) }

  function Minus(p: Point, q: Point): Point { Point(p.x - q.x, p.y - q.y) }

  const Origin: Point := Point(0.0, 0.0)

  const MinZoom: real := 0.5
  const MaxZoom: real := 2.0
  const InitialZoom: real := 1.0
  /** A wheel event changes the zoom by deltaY times this factor, sign inverted. */
  const WheelSensitivity: real := 0.001
  /** The zoom buttons change the zoom by this step. */
  const ZoomStep: real := 0.1

  predicate ZoomInRange(zoom: real) { MinZoom <= zoom <= MaxZoom }

  function Min(a: real, b: real): real { if a <= b then a else b }

  function Max(a: real, b: real): real { if a >= b then a else b }

  /** Zoom after a wheel event: min(max(zoom - deltaY * 0.001, 0.5), 2). */
  function WheelZoom(zoom: real, deltaY: real): (r: real)
    ensures ZoomInRange(r)
    ensures ZoomInRange(zoom - deltaY * WheelSensitivity) ==> r == zoom - deltaY * WheelSensitivity
    ensures zoom - deltaY * WheelSensitivity < MinZoom ==> r == MinZoom
    ensures zoom - deltaY * WheelSensitivity > MaxZoom ==> r == MaxZoom
  {
    Min(Max(zoom - deltaY * WheelSensitivity, MinZoom), MaxZoom)
  }

  /** Zoom after the zoom-in button: min(zoom + 0.1, 2). */
  function ZoomIn(zoom: real): (r: real)
    ensures r <= MaxZoom
    ensures zoom <= MaxZoom ==> zoom <= r
    ensures zoom + ZoomStep <= MaxZoom ==> r == zoom + ZoomStep
    ensures zoom + ZoomStep > MaxZoom ==> r == MaxZoom
    ensures ZoomInRange(zoom) ==> ZoomInRange(r)
  {
    Min(zoom + ZoomStep, MaxZoom)
  }

  /** Zoom after the zoom-out button: max(zoom - 0.1, 0.5). */
  function ZoomOut(zoom: real): (r: real)
    ensures MinZoom <= r
    ensures MinZoom <= zoom ==> r <= zoom
    ensures zoom - ZoomStep >= MinZoom ==> r == zoom - ZoomStep
    ensures zoom - ZoomStep < MinZoom ==> r == MinZoom
    ensures ZoomInRange(zoom) ==> ZoomInRange(r)
  {
    Max(zoom - ZoomStep, MinZoom)
  }

  /** Board coordinates of a pointer, as the double-click handler computes
      them: subtract the board's screen origin and the pan, then divide by
      the zoom. */
  function ScreenToBoard(client: Point, origin: Point, pan: Point, zoom: real): (b: Point)
    requires zoom != 0.0
    ensures b.x * zoom + pan.x + origin.x == client.x
    ensures b.y * zoom + pan.y + origin.y == client.y
  {
    Point((client.x - origin.x - pan.x) / zoom, (client.y - origin.y - pan.y) / zoom)
  }

  /** Where a board point is drawn: the board layer's CSS transform is
      `scale(zoom) translate(pan)` with origin 0 0, so the pan is scaled too. */
  function Rendered(b: Point, origin: Point, pan: Point, zoom: real): (r: Point)
    ensures zoom != 0.0 ==> (r.x - origin.x) / zoom - pan.x == b.x
    ensures zoom != 0.0 ==> (r.y - origin.y) / zoom - pan.y == b.y
  {
    Point(origin.x + zoom * (b.x + pan.x), origin.y + zoom * (b.y + pan.y))
  }

  /** The double-click formula undoes the rendered transform on an axis only
      when the zoom is 1 or that axis's pan is 0. */
  lemma ScreenToBoardUndoesRenderingOnlyWhen(b: Point, origin: Point, pan: Point, zoom: real)
    requires zoom != 0.0
    ensures ScreenToBoard(Rendered(b, origin, pan, zoom), origin, pan, zoom).x == b.x
            <==> (zoom == 1.0 || pan.x == 0.0)
    ensures ScreenToBoard(Rendered(b, origin, pan, zoom), origin, pan, zoom).y == b.y
            <==> (zoom == 1.0 || pan.y == 0.0)
  {
    var r := ScreenToBoard(Rendered(b, origin, pan, zoom), origin, pan, zoom);
    assert r.x * zoom == zoom * b.x + zoom * pan.x - pan.x;
    assert r.y * zoom == zoom * b.y + zoom * pan.y - pan.y;
    AxisOffset(r.x, b.x, pan.x, zoom);
    AxisOffset(r.y, b.y, pan.y, zoom);
  }

  lemma AxisOffset(r: real, b: real, p: real, zoom: real)
    requires zoom != 0.0
    requires r * zoom == zoom * b + zoom * p - p
    ensures r == b <==> (zoom == 1.0 || p == 0.0)
  {
    assert (r - b) * zoom == p * (zoom - 1.0);
    if r == b {
      ZeroProduct(p, zoom - 1.0);
    }
    if zoom == 1.0 || p == 0.0 {
      ZeroProduct(r - b, zoom);
    }
  }

  lemma ZeroProduct(a: real, c: real)
    ensures a * c == 0.0 <==> (a == 0.0 || c == 0.0)
  {
    if a > 0.0 && c > 0.0 {
      assert a * c > 0.0;
    } else if a > 0.0 && c < 0.0 {
      assert a * c < 0.0;
    } else if a < 0.0 && c > 0.0 {
      assert a * c < 0.0;
    } else if a < 0.0 && c < 0.0 {
      assert a * c > 0.0;
    }
  }

  /** The viewport state App keeps: the zoom, the pan, and the two refs of
      the pan gesture (whether the primary button is down, last pointer). */
  datatype View = View(zoom: real, pan: Point, dragging: bool, last: Point)

  const Initial: View := View(InitialZoom, Origin, false, Origin)

  /** Input events the board reacts to. MouseLeave runs the same handler as MouseUp. */
  datatype Event =
    | Wheel(deltaY: real)
    | ZoomInClick
    | ZoomOutClick
    | MouseDown(button: int, client: Point)
    | MouseMove(client: Point)
    | MouseUp
    | MouseLeave

  /** Press: only the primary button (0) starts panning and records the pointer. */
  function Press(v: View, button: int, client: Point): (w: View)
    ensures w.zoom == v.zoom && w.pan == v.pan
    ensures button == 0 ==> w.dragging && w.last == client
    ensures button != 0 ==> w == v
  {
    if button == 0 then v.(dragging := true, last := client) else v
  }

  /** Move: while panning, the pointer's displacement since the last event
      is added to the pan. */
  function Move(v: View, client: Point): (w: View)
    ensures w.zoom == v.zoom && w.dragging == v.dragging
    ensures !v.dragging ==> w == v
    ensures v.dragging ==> w.last == client && Minus(w.pan, v.pan) == Minus(client, v.last)
  {
    if v.dragging then
      v.(pan := Plus(v.pan, Minus(client, v.last)), last := client)
    else v
  }

  function Release(v: View): (w: View)
    ensures !w.dragging
    ensures w.zoom == v.zoom && w.pan == v.pan && w.last == v.last
  {
    v.(dragging := false)
  }

  /** The board's handler bindings: zoom events change only the zoom, pointer
      events never change it, and leaving the board runs the mouse-up handler. */
  function Step(v: View, e: Event): (w: View)
    ensures (e.Wheel? || e.ZoomInClick? || e.ZoomOutClick?) ==>
              w.pan == v.pan && w.dragging == v.dragging && w.last == v.last
    ensures !(e.Wheel? || e.ZoomInClick? || e.ZoomOutClick?) ==> w.zoom == v.zoom
    ensures (e.MouseUp? || e.MouseLeave?) ==> w == Release(v)
    ensures e.Wheel? ==> w == v.(zoom := WheelZoom(v.zoom, e.deltaY))
    ensures e.ZoomInClick? ==> w == v.(zoom := ZoomIn(v.zoom))
    ensures e.ZoomOutClick? ==> w == v.(zoom := ZoomOut(v.zoom))
    ensures e.MouseDown? ==> w == Press(v, e.button, e.client)
    ensures e.MouseMove? ==> w == Move(v, e.client)
  {
    match e
    case Wheel(d) => v.(zoom := WheelZoom(v.zoom, d))
    case ZoomInClick => v.(zoom := ZoomIn(v.zoom))
    case ZoomOutClick => v.(zoom := ZoomOut(v.zoom))
    case MouseDown(b, c) => Press(v, b, c)
    case MouseMove(c) => Move(v, c)
    case MouseUp => Release(v)
    case MouseLeave => Release(v)
  }

  /** The viewport after handling the events in order. */
  function Run(v: View, es: seq<Event>): View
    decreases |es|
  {
    if es == [] then v else Run(Step(v, es[0]), es[1..])
  }

  lemma {:induction false} RunAppend(v: View, a: seq<Event>, b: seq<Event>)
    ensures Run(v, a + b) == Run(Run(v, a), b)
    decreases |a|
  {
    if a == [] {
      assert a + b == b;
    } else {
      assert (a + b)[1..] == a[1..] + b;
      RunAppend(Step(v, a[0]), a[1..], b);
    }
  }

  /** Every event keeps the zoom within [0.5, 2]. */
  lemma StepKeepsZoomInRange(v: View, e: Event)
    requires ZoomInRange(v.zoom)
    ensures ZoomInRange(Step(v, e).zoom)
  {
  }

  lemma {:induction false} RunKeepsZoomInRange(v: View, es: seq<Event>)
    requires ZoomInRange(v.zoom)
    ensures ZoomInRange(Run(v, es).zoom)
    decreases |es|
  {
    if es != [] {
      StepKeepsZoomInRange(v, es[0]);
      RunKeepsZoomInRange(Step(v, es[0]), es[1..]);
    }
  }

  /** From the initial zoom of 1, no sequence of events leaves [0.5, 2]. */
  lemma ZoomAlwaysInRange(es: seq<Event>)
    ensures ZoomInRange(Run(Initial, es).zoom)
  {
    RunKeepsZoomInRange(Initial, es);
  }

  function Moves(ps: seq<Point>): (es: seq<Event>)
    ensures |es| == |ps|
    ensures forall i :: 0 <= i < |ps| ==> es[i] == MouseMove(ps[i])
  {
    if ps == [] then [] else [MouseMove(ps[0])] + Moves(ps[1..])
  }

  /** While panning, a run of moves adds the total pointer displacement
      to the pan: the per-move deltas telescope. */
  lemma {:induction false} MovesTelescope(v: View, ps: seq<Point>)
    requires v.dragging && ps != []
    ensures Run(v, Moves(ps)).pan == Plus(v.pan, Minus(ps[|ps| - 1], v.last))
    ensures Run(v, Moves(ps)).last == ps[|ps| - 1]
    ensures Run(v, Moves(ps)).dragging && Run(v, Moves(ps)).zoom == v.zoom
    decreases |ps|
  {
    var w := Move(v, ps[0]);
    assert Moves(ps)[1..] == Moves(ps[1..]);
    if |ps| == 1 {
      assert Moves(ps[1..]) == [];
    } else {
      MovesTelescope(w, ps[1..]);
    }
  }

  /** Without a press, moves leave the viewport as it was. */
  lemma {:induction false} MovesWithoutPressChangeNothing(v: View, ps: seq<Point>)
    requires !v.dragging
    ensures Run(v, Moves(ps)) == v
    decreases |ps|
  {
    if ps != [] {
      assert Moves(ps)[1..] == Moves(ps[1..]);
      MovesWithoutPressChangeNothing(v, ps[1..]);
    }
  }

  /** A primary-button press at p, moves ending at q and a release (or the
      pointer leaving the board) shift the pan by exactly q - p. */
  lemma PanGesture(v: View, p: Point, ps: seq<Point>, end: Event)
    requires ps != []
    requires end == MouseUp || end == MouseLeave
    ensures Run(v, [MouseDown(0, p)] + Moves(ps) + [end]).pan == Plus(v.pan, Minus(ps[|ps| - 1], p))
    ensures !Run(v, [MouseDown(0, p)] + Moves(ps) + [end]).dragging
    ensures Run(v, [MouseDown(0, p)] + Moves(ps) + [end]).zoom == v.zoom
  {
    var pressed := Press(v, 0, p);
    RunAppend(v, [MouseDown(0, p)] + Moves(ps), [end]);
    RunAppend(v, [MouseDown(0, p)], Moves(ps));
    assert Run(v, [MouseDown(0, p)]) == pressed;
    MovesTelescope(pressed, ps);
  }

  /** A press with any other button starts no gesture: the following moves
      do not pan. */
  lemma SecondaryPressDoesNotPan(v: View, button: int, p: Point, ps: seq<Point>)
    requires button != 0 && !v.dragging
    ensures Run(v, [MouseDown(button, p)] + Moves(ps)) == v
  {
    RunAppend(v, [MouseDown(button, p)], Moves(ps));
    assert Run(v, [MouseDown(button, p)]) == v;
    MovesWithoutPressChangeNothing(v, ps);
  }
}
