/** The rules a sticky note's handlers follow (src/components/NotaAdhesiva.tsx),
    as functions: the offset captured at press, the position a drag move
    writes, and the callbacks a blur invokes. */
module NoteRules {

  import opened Notes
  import Viewport

  type Point = Viewport.Point

  /** Offset of the pointer from the note's on-screen top-left corner. */
  function CaptureOffset(client: Point, rectTopLeft: Point): (o: Point)
    ensures Viewport.Plus(rectTopLeft, o) == client
  {
    Viewport.Minus(client, rectTopLeft)
  }

  /** The position a drag move writes: the pointer relative to the note
      layer's on-screen origin, less the captured offset, divided by the zoom. */
  function DragPosition(client: Point, parentTopLeft: Point, offset: Point, zoom: real): (p: Point)
    requires zoom != 0.0
    ensures p.x * zoom + offset.x + parentTopLeft.x == client.x
    ensures p.y * zoom + offset.y + parentTopLeft.y == client.y
  {
    Viewport.Point((client.x - parentTopLeft.x - offset.x) / zoom,
                   (client.y - parentTopLeft.y - offset.y) / zoom)
  }

  /** On screen a note at board position pos sits zoom * pos from the note
      layer's origin (the layer is scaled by the zoom, origin 0 0). */
  function NoteScreenTopLeft(parentTopLeft: Point, pos: Point, zoom: real): (r: Point)
    ensures zoom != 0.0 ==> (r.x - parentTopLeft.x) / zoom == pos.x
    ensures zoom != 0.0 ==> (r.y - parentTopLeft.y) / zoom == pos.y
  {
    Viewport.Point(parentTopLeft.x + zoom * pos.x, parentTopLeft.y + zoom * pos.y)
  }

  /** The note layer is the board's scaled and panned layer, whose on-screen
      top-left is the board origin plus zoom * pan; a note at pos then sits
      where the layer draws the board point pos. */
  lemma NoteDrawnWhereLayerRenders(boardOrigin: Point, pan: Point, pos: Point, zoom: real)
    ensures NoteScreenTopLeft(Viewport.Rendered(Viewport.Origin, boardOrigin, pan, zoom), pos, zoom)
            == Viewport.Rendered(pos, boardOrigin, pan, zoom)
  {
  }

  /** A drag that moves the pointer by d moves the note by d / zoom; with no
      movement the note stays where it was. */
  lemma DragFollowsPointer(pos: Point, parentTopLeft: Point, zoom: real, press: Point, d: Point)
    requires zoom != 0.0
    ensures var offset := CaptureOffset(press, NoteScreenTopLeft(parentTopLeft, pos, zoom));
            DragPosition(Viewport.Plus(press, d), parentTopLeft, offset, zoom)
              == Viewport.Point(pos.x + d.x / zoom, pos.y + d.y / zoom)
  {
    var offset := CaptureOffset(press, NoteScreenTopLeft(parentTopLeft, pos, zoom));
    var p := DragPosition(Viewport.Plus(press, d), parentTopLeft, offset, zoom);
    assert p.x * zoom == (pos.x + d.x / zoom) * zoom;
    assert p.y * zoom == (pos.y + d.y / zoom) * zoom;
    CancelZoom(p.x, pos.x + d.x / zoom, zoom);
    CancelZoom(p.y, pos.y + d.y / zoom, zoom);
  }

  lemma CancelZoom(a: real, b: real, zoom: real)
    requires zoom != 0.0 && a * zoom == b * zoom
    ensures a == b
  {
    Viewport.ZeroProduct(a - b, zoom);
  }

  /** The callbacks a blur invokes: the edited text is reported only when it
      differs from the note's content. */
  function BlurCalls(note: Note, localContent: string): (calls: seq<Callback>)
    ensures |calls| <= 1
    ensures calls == [] <==> localContent == note.content
    ensures calls != [] ==> calls[0] == ActualizarNota(note.id, localContent)
  {
    if localContent != note.content then [ActualizarNota(note.id, localContent)] else []
  }

  /** A blur after an edit makes the board hold the edited text in every
      copy of the note, and changes nothing else. */
  lemma BlurWithEdit(notes: seq<Note>, note: Note, localContent: string)
    requires localContent != note.content
    ensures ApplyAll(notes, BlurCalls(note, localContent)) == UpdateContent(notes, note.id, localContent)
  {
    ApplyAllSingle(notes, ActualizarNota(note.id, localContent));
  }

  /** A blur without an edit leaves the board as it is; when the board's
      copies hold the text the note last rendered, that board already is the
      one an update would give. */
  lemma BlurWithoutEdit(notes: seq<Note>, note: Note, localContent: string)
    requires localContent == note.content
    requires forall i :: 0 <= i < |notes| && notes[i].id == note.id ==> notes[i].content == note.content
    ensures ApplyAll(notes, BlurCalls(note, localContent)) == notes
    ensures UpdateContent(notes, note.id, localContent) == notes
  {
    RewriteSameContent(notes, note.id, note.content);
  }

  /** Writing back the content every copy of the note already has changes nothing. */
  lemma RewriteSameContent(notes: seq<Note>, id: NoteId, content: string)
    requires forall i :: 0 <= i < |notes| && notes[i].id == id ==> notes[i].content == content
    ensures UpdateContent(notes, id, content) == notes
  {
    var r := UpdateContent(notes, id, content);
    forall i | 0 <= i < |notes| ensures r[i] == notes[i] {
      if notes[i].id == id {
        assert notes[i].(content := content) == notes[i];
      }
    }
  }
}
