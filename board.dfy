/** The board component (src/App.tsx): it owns the note collection and the
    viewport, creates a note on a double-click of the empty board, and
    applies the callbacks its notes invoke. */
module Board {

  import opened Notes
  import Viewport

  type Point = Viewport.Point

  /** agregarNota: a double-click whose target is the board itself appends one
      note at the pointer's board position; any other target (a note, or a
      child of the board layer) leaves the notes as they were. The id
      (Date.now() in App) and the palette index (a random draw in App) are
      supplied by the caller. */
  function DoubleClick(notes: seq<Note>, onBoard: bool, client: Point, origin: Point,
                       pan: Point, zoom: real, id: NoteId, colourIndex: nat): (r: seq<Note>)
    requires zoom != 0.0
    requires colourIndex < |Colores|
    ensures !onBoard ==> r == notes
    ensures onBoard ==> |r| == |notes| + 1 && r[..|notes|] == notes
    ensures onBoard ==> r[|notes|].id == id && r[|notes|].content == "" &&
                        r[|notes|].likes == 0 && r[|notes|].emoji == "" && r[|notes|].color in Colores
    ensures onBoard ==> r[|notes|].x * zoom + pan.x + origin.x == client.x &&
                        r[|notes|].y * zoom + pan.y + origin.y == client.y
  {
    if !onBoard then notes
    else
      var b := Viewport.ScreenToBoard(client, origin, pan, zoom);
      AddNote(notes, NewNote(id, b.x, b.y, colourIndex))
  }

  /** Every note's colour is a palette entry. */
  predicate PaletteColours(notes: seq<Note>)
  {
    forall i :: 0 <= i < |notes| ==> notes[i].color in Colores
  }

  /** Every callback a note invokes keeps every colour in the palette. */
  lemma ApplyKeepsPaletteColours(notes: seq<Note>, cb: Callback)
    requires PaletteColours(notes)
    ensures PaletteColours(Apply(notes, cb))
  {
    if cb.EliminarNota? {
      var r := Apply(notes, cb);
      forall i | 0 <= i < |r| ensures r[i].color in Colores {
        assert r[i] in notes;
      }
    }
  }

  /** An event as App handles it, given whether the wheel listener is attached. */
  function StepAsMounted(v: Viewport.View, e: Viewport.Event, wheelAttached: bool): (w: Viewport.View)
    ensures !e.Wheel? ==> w == Viewport.Step(v, e)
    ensures e.Wheel? && wheelAttached ==> w == Viewport.Step(v, e)
    ensures e.Wheel? && !wheelAttached ==> w == v
  {
    if e.Wheel? && !wheelAttached then v else Viewport.Step(v, e)
  }

  /** App's life cycle around the wheel listener: the user name (empty while
      none is set), whether the mount-time effect has run, whether it
      attached the wheel listener, and the viewport. */
  datatype Lifecycle = Lifecycle(userName: string, effectRan: bool, wheelAttached: bool, view: Viewport.View)

  /** What happens to App: a commit after which React runs the effects whose
      dependencies changed, the login form submitting a name, or an input
      event on the board. */
  datatype AppEvent =
    | Commit
    | LogIn(name: string)
    | BoardInput(e: Viewport.Event)

  /** App renders the board only once the user name is set and not empty,
      and the login form otherwise. */
  predicate ShowsBoard(userName: string)
  {
    userName != ""
  }

  /** App before its first render: no user name, effect not yet run. */
  const Unmounted: Lifecycle := Lifecycle("", false, false, Viewport.Initial)

  /** One event. The wheel effect has no dependencies, so only the first
      commit runs it, and it attaches the listener only if the board element
      exists at that moment. Board input reaches the handlers only while the
      board is shown. */
  function AppStep(s: Lifecycle, a: AppEvent): (t: Lifecycle)
    ensures s.effectRan ==> t.effectRan && t.wheelAttached == s.wheelAttached
    ensures a.Commit? && s.effectRan ==> t == s
    ensures a.Commit? && !s.effectRan ==>
              t == s.(effectRan := true, wheelAttached := ShowsBoard(s.userName))
    ensures a.LogIn? ==> t == s.(userName := a.name)
    ensures a.BoardInput? && !ShowsBoard(s.userName) ==> t == s
    ensures a.BoardInput? && ShowsBoard(s.userName) ==>
              t == s.(view := StepAsMounted(s.view, a.e, s.wheelAttached))
  {
    match a
    case Commit =>
      if s.effectRan then s else s.(effectRan := true, wheelAttached := ShowsBoard(s.userName))
    case LogIn(name) => s.(userName := name)
    case BoardInput(e) =>
      if ShowsBoard(s.userName) then s.(view := StepAsMounted(s.view, e, s.wheelAttached)) else s
  }

  function AppRun(s: Lifecycle, events: seq<AppEvent>): Lifecycle
    decreases |events|
  {
    if events == [] then s else AppRun(AppStep(s, events[0]), events[1..])
  }

  /** App right after its first render: the first commit shows the login
      form, and React runs the mount effect before any input arrives. */
  function Launched(): (s: Lifecycle)
    ensures s.effectRan && !s.wheelAttached && s.view == Viewport.Initial && s.userName == ""
  {
    AppStep(Unmounted, Commit)
  }

  /** Once the effect has run without attaching the listener, no later
      commit, login or input attaches it. */
  lemma {:induction false} DetachedStaysDetached(s: Lifecycle, events: seq<AppEvent>)
    requires s.effectRan && !s.wheelAttached
    ensures AppRun(s, events).effectRan && !AppRun(s, events).wheelAttached
    decreases |events|
  {
    if events != [] {
      DetachedStaysDetached(AppStep(s, events[0]), events[1..]);
    }
  }

  /** As written, the wheel never zooms: whatever happens after launch,
      logging in included, the listener stays detached and a wheel event
      leaves App exactly as it was. */
  lemma WheelNeverZoomsAsWritten(events: seq<AppEvent>, deltaY: real)
    ensures !AppRun(Launched(), events).wheelAttached
    ensures AppStep(AppRun(Launched(), events), BoardInput(Viewport.Wheel(deltaY))) == AppRun(Launched(), events)
  {
    DetachedStaysDetached(Launched(), events);
  }

  /** For instance, logging in and scrolling up by 100 leaves the zoom at 1,
      where the wheel handler would give 1.1. */
  lemma WheelAfterLogInAsWritten()
    ensures AppRun(Launched(), [LogIn("ana"), Commit, BoardInput(Viewport.Wheel(-100.0))]).view.zoom == 1.0
    ensures Viewport.Step(Viewport.Initial, Viewport.Wheel(-100.0)).zoom == 1.1
  {
    var s1 := AppStep(Launched(), LogIn("ana"));
    var s2 := AppStep(s1, Commit);
    assert AppRun(Launched(), [LogIn("ana"), Commit, BoardInput(Viewport.Wheel(-100.0))])
        == AppRun(s1, [Commit, BoardInput(Viewport.Wheel(-100.0))]);
    assert AppRun(s1, [Commit, BoardInput(Viewport.Wheel(-100.0))])
        == AppRun(s2, [BoardInput(Viewport.Wheel(-100.0))]);
  }

  /** App's state: the notes, the zoom and pan, and the two refs of the pan
      gesture (isDraggingRef, lastPanPositionRef). */
  class Board {
    var notes: seq<Note>
    var zoom: real
    var pan: Point
    var dragging: bool
    var lastPan: Point

    function ViewState(): Viewport.View
      reads this
    {
      Viewport.View(zoom, pan, dragging, lastPan)
    }

    ghost predicate Valid()
      reads this
    {
      Viewport.ZoomInRange(zoom) && PaletteColours(notes)
    }

    constructor ()
      ensures Valid()
      ensures notes == [] && ViewState() == Viewport.Initial
    {
      notes := [];
      zoom := Viewport.InitialZoom;
      pan := Viewport.Origin;
      dragging := false;
      lastPan := Viewport.Origin;
    }

    /** The wheel listener: zoom by -deltaY * 0.001, clamped to [0.5, 2]. */
    method Wheel(deltaY: real)
      requires Valid()
      modifies this
      ensures Valid() && notes == old(notes)
      ensures ViewState() == Viewport.Step(old(ViewState()), Viewport.Wheel(deltaY))
    {
      var newZoom := zoom - deltaY * Viewport.WheelSensitivity;
      zoom := Viewport.Min(Viewport.Max(newZoom, Viewport.MinZoom), Viewport.MaxZoom);
    }

    method ZoomIn()
      requires Valid()
      modifies this
      ensures Valid() && notes == old(notes)
      ensures ViewState() == Viewport.Step(old(ViewState()), Viewport.ZoomInClick)
    {
      zoom := Viewport.Min(zoom + Viewport.ZoomStep, Viewport.MaxZoom);
    }

    method ZoomOut()
      requires Valid()
      modifies this
      ensures Valid() && notes == old(notes)
      ensures ViewState() == Viewport.Step(old(ViewState()), Viewport.ZoomOutClick)
    {
      zoom := Viewport.Max(zoom - Viewport.ZoomStep, Viewport.MinZoom);
    }

    /** handleMouseDown: only the primary button starts panning. */
    method MouseDown(button: int, client: Point)
      requires Valid()
      modifies this
      ensures Valid() && notes == old(notes)
      ensures ViewState() == Viewport.Step(old(ViewState()), Viewport.MouseDown(button, client))
    {
      if button == 0 {
        dragging := true;
        lastPan := client;
      }
    }

    /** handleMouseMove: while panning, add the pointer's displacement to the pan. */
    method MouseMove(client: Point)
      requires Valid()
      modifies this
      ensures Valid() && notes == old(notes)
      ensures ViewState() == Viewport.Step(old(ViewState()), Viewport.MouseMove(client))
    {
      if dragging {
        var deltaX := client.x - lastPan.x;
        var deltaY := client.y - lastPan.y;
        pan := Viewport.Point(pan.x + deltaX, pan.y + deltaY);
        lastPan := client;
      }
    }

    /** handleMouseUp, bound to both mouse-up and mouse-leave. */
    method MouseUp()
      requires Valid()
      modifies this
      ensures Valid() && notes == old(notes)
      ensures ViewState() == Viewport.Step(old(ViewState()), Viewport.MouseUp)
      ensures ViewState() == Viewport.Step(old(ViewState()), Viewport.MouseLeave)
    {
      dragging := false;
    }

    /** agregarNota, reading the current zoom and pan. */
    method AddNoteAt(onBoard: bool, client: Point, origin: Point, id: NoteId, colourIndex: nat)
      requires Valid()
      requires colourIndex < |Colores|
      modifies this
      ensures Valid() && ViewState() == old(ViewState())
      ensures notes == DoubleClick(old(notes), onBoard, client, origin, pan, zoom, id, colourIndex)
    {
      notes := DoubleClick(notes, onBoard, client, origin, pan, zoom, id, colourIndex);
    }

    /** One of the callbacks App hands to every note. */
    method Handle(cb: Callback)
      requires Valid()
      modifies this
      ensures Valid() && ViewState() == old(ViewState())
      ensures notes == Apply(old(notes), cb)
    {
      ApplyKeepsPaletteColours(notes, cb);
      notes := Apply(notes, cb);
    }
  }
}
