/** One sticky note's gesture and edit controller
    (src/components/NotaAdhesiva.tsx). Its state is the edit flag, the local
    copy of the text, the emoji picker flag, the pointer offset captured at
    press, whether its document-level move/release listeners are attached,
    and the translate last written on its element. Handlers that call back
    into the board return the callbacks they invoke, in order. */
module NoteController {

  import opened Notes
  import opened NoteRules
  import Viewport

  type Point = Viewport.Point

  class StickyNote {
    /** The nota prop as last rendered. */
    var note: Note
    var editing: bool
    var localContent: string
    var showEmojiPicker: bool
    var offset: Point
    /** The document-level mousemove and mouseup listeners are attached. */
    var listening: bool
    /** The translate last written on the note's element. */
    var translate: Point

    constructor (nota: Note)
      ensures note == nota && !editing && localContent == nota.content
      ensures !showEmojiPicker && offset == Viewport.Origin && !listening
      ensures translate == Viewport.Point(nota.x, nota.y)
    {
      note := nota;
      editing := false;
      localContent := nota.content;
      showEmojiPicker := false;
      offset := Viewport.Origin;
      listening := false;
      translate := Viewport.Point(nota.x, nota.y);
    }

    /** iniciarArrastre. While editing it does nothing and the press goes on
        to the board (propagates); otherwise it captures the offset, attaches
        the listeners and stops the press there. */
    method Press(client: Point, rectTopLeft: Point) returns (propagates: bool)
      modifies this
      ensures propagates == old(editing)
      ensures old(editing) ==> offset == old(offset) && listening == old(listening)
      ensures !old(editing) ==> offset == CaptureOffset(client, rectTopLeft) && listening
      ensures note == old(note) && editing == old(editing) && localContent == old(localContent)
      ensures showEmojiPicker == old(showEmojiPicker) && translate == old(translate)
    {
      if editing {
        return true;
      }
      offset := Viewport.Point(client.x - rectTopLeft.x, client.y - rectTopLeft.y);
      listening := true;
      return false;
    }

    /** moverNotaHandler: reached only while the listeners are attached. */
    method PointerMove(client: Point, parentTopLeft: Point, zoom: real)
      requires zoom != 0.0
      modifies this
      ensures translate == if old(listening) then DragPosition(client, parentTopLeft, offset, zoom)
                           else old(translate)
      ensures note == old(note) && editing == old(editing) && localContent == old(localContent)
      ensures showEmojiPicker == old(showEmojiPicker) && offset == old(offset)
      ensures listening == old(listening)
    {
      if listening {
        var newX := (client.x - parentTopLeft.x - offset.x) / zoom;
        var newY := (client.y - parentTopLeft.y - offset.y) / zoom;
        translate := Viewport.Point(newX, newY);
      }
    }

    /** soltarNotaHandler: detaches the listeners and reports the translate
        last written as the note's new position. */
    method Release() returns (calls: seq<Callback>)
      modifies this
      ensures calls == if old(listening) then [MoverNota(note.id, translate.x, translate.y)] else []
      ensures !listening
      ensures note == old(note) && editing == old(editing) && localContent == old(localContent)
      ensures showEmojiPicker == old(showEmojiPicker) && offset == old(offset)
      ensures translate == old(translate)
    {
      if listening {
        listening := false;
        calls := [MoverNota(note.id, translate.x, translate.y)];
      } else {
        calls := [];
      }
    }

    /** handleClick: enter edit mode. */
    method Click()
      modifies this
      ensures editing
      ensures note == old(note) && localContent == old(localContent) && showEmojiPicker == old(showEmojiPicker)
      ensures offset == old(offset) && listening == old(listening) && translate == old(translate)
    {
      if !editing {
        editing := true;
      }
    }

    /** handleBlur: leave edit mode, reporting the text only if it changed. */
    method Blur() returns (calls: seq<Callback>)
      modifies this
      ensures !editing
      ensures calls == BlurCalls(note, localContent)
      ensures note == old(note) && localContent == old(localContent) && showEmojiPicker == old(showEmojiPicker)
      ensures offset == old(offset) && listening == old(listening) && translate == old(translate)
    {
      editing := false;
      if localContent != note.content {
        calls := [ActualizarNota(note.id, localContent)];
      } else {
        calls := [];
      }
    }

    /** handleContentChange: only the local copy of the text changes. */
    method ContentChange(value: string)
      modifies this
      ensures localContent == value
      ensures note == old(note) && editing == old(editing) && showEmojiPicker == old(showEmojiPicker)
      ensures offset == old(offset) && listening == old(listening) && translate == old(translate)
    {
      localContent := value;
    }

    /** A re-render with a new nota prop (the same id: notes are keyed by
        id). A changed content overwrites the local copy (the sync effect);
        a changed position rewrites the element's translate. */
    method Rerender(nota: Note)
      requires nota.id == note.id
      modifies this
      ensures note == nota
      ensures localContent == if nota.content != old(note).content then nota.content else old(localContent)
      ensures translate == if nota.x != old(note).x || nota.y != old(note).y
                           then Viewport.Point(nota.x, nota.y) else old(translate)
      ensures editing == old(editing) && showEmojiPicker == old(showEmojiPicker)
      ensures offset == old(offset) && listening == old(listening)
    {
      if nota.content != note.content {
        localContent := nota.content;
      }
      if nota.x != note.x || nota.y != note.y {
        translate := Viewport.Point(nota.x, nota.y);
      }
      note := nota;
    }

    /** The smile button toggles the emoji picker. */
    method ToggleEmojiPicker()
      modifies this
      ensures showEmojiPicker == !old(showEmojiPicker)
      ensures note == old(note) && editing == old(editing) && localContent == old(localContent)
      ensures offset == old(offset) && listening == old(listening) && translate == old(translate)
    {
      showEmojiPicker := !showEmojiPicker;
    }

    /** handleEmojiClick: set the note's emoji and close the picker. */
    method EmojiClick(emoji: string) returns (calls: seq<Callback>)
      modifies this
      ensures calls == [SetEmojiNota(note.id, emoji)]
      ensures !showEmojiPicker
      ensures note == old(note) && editing == old(editing) && localContent == old(localContent)
      ensures offset == old(offset) && listening == old(listening) && translate == old(translate)
    {
      calls := [SetEmojiNota(note.id, emoji)];
      showEmojiPicker := false;
    }

    /** handleLike: one like per click. */
    method LikeClick() returns (calls: seq<Callback>)
      ensures calls == [LikeNotaCall(note.id)]
    {
      calls := [LikeNotaCall(note.id)];
    }

    /** handleCambiarColor: one palette step per click. */
    method ColourClick() returns (calls: seq<Callback>)
      ensures calls == [CambiarColorNota(note.id)]
    {
      calls := [CambiarColorNota(note.id)];
    }

    /** handleEliminar: remove the note (after the fade-out delay). */
    method DeleteClick() returns (calls: seq<Callback>)
      ensures calls == [EliminarNota(note.id)]
    {
      calls := [EliminarNota(note.id)];
    }
  }

  /** A press and release with no move in between reports the note's own
      position. */
  method PressReleaseInPlace(nota: Note, client: Point, rectTopLeft: Point) returns (calls: seq<Callback>)
    ensures calls == [MoverNota(nota.id, nota.x, nota.y)]
  {
    var sticky := new StickyNote(nota);
    var propagates := sticky.Press(client, rectTopLeft);
    calls := sticky.Release();
  }

  /** A full drag: press at a point of the note, move the pointer by d,
      release. The board is asked to move the note by d / zoom. */
  method DragGesture(nota: Note, parentTopLeft: Point, zoom: real, press: Point, d: Point)
    returns (calls: seq<Callback>)
    requires zoom != 0.0
    ensures calls == [MoverNota(nota.id, nota.x + d.x / zoom, nota.y + d.y / zoom)]
  {
    var sticky := new StickyNote(nota);
    var pos := Viewport.Point(nota.x, nota.y);
    var propagates := sticky.Press(press, NoteScreenTopLeft(parentTopLeft, pos, zoom));
    sticky.PointerMove(Viewport.Plus(press, d), parentTopLeft, zoom);
    DragFollowsPointer(pos, parentTopLeft, zoom, press, d);
    calls := sticky.Release();
  }

  /** A press on a note being edited starts no drag and reaches the board. */
  method PressWhileEditing(nota: Note, client: Point, rectTopLeft: Point)
    returns (propagates: bool, calls: seq<Callback>)
    ensures propagates && calls == []
  {
    var sticky := new StickyNote(nota);
    sticky.Click();
    propagates := sticky.Press(client, rectTopLeft);
    calls := sticky.Release();
  }

  /** Selecting text in a note being edited: the press propagates to the
      board, whose pan handler sees it, so moving the pointer from p to q
      pans the board by q - p. */
  method SelectTextWhileEditing(nota: Note, rectTopLeft: Point, v: Viewport.View, p: Point, q: Point)
    returns (w: Viewport.View)
    ensures w.pan == Viewport.Plus(v.pan, Viewport.Minus(q, p)) && w.zoom == v.zoom
  {
    var sticky := new StickyNote(nota);
    sticky.Click();
    var propagates := sticky.Press(p, rectTopLeft);
    w := v;
    if propagates {
      var pressed := Viewport.Press(v, 0, p);
      Viewport.RunAppend(v, [Viewport.MouseDown(0, p)], Viewport.Moves([q]));
      assert Viewport.Run(v, [Viewport.MouseDown(0, p)]) == pressed;
      Viewport.MovesTelescope(pressed, [q]);
      w := Viewport.Run(v, [Viewport.MouseDown(0, p)] + Viewport.Moves([q]));
    }
  }

  /** Click, type, blur: the board hears about the text only if it changed. */
  method EditSession(nota: Note, text: string) returns (calls: seq<Callback>)
    ensures calls == if text != nota.content then [ActualizarNota(nota.id, text)] else []
  {
    var sticky := new StickyNote(nota);
    sticky.Click();
    sticky.ContentChange(text);
    calls := sticky.Blur();
  }
}
