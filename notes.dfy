/** The board's note collection (src/App.tsx): the note record, the colour
    palette and the operations App passes down to each note. Every operation
    is a total function from the old sequence of notes to the new one; an id
    that no note carries leaves the sequence as it was. */
module Notes {

  import opened Cycle

  /** Note ids are only ever compared for equality. App keys notes by a
      number (Date.now()); the note component declares the id a string. */
  type NoteId = int

  datatype Note = Note(
    id: NoteId,
    content: string,
    x: real,
    y: real,
    color: string,
    likes: nat,
    emoji: string)

  /** The fixed palette, in cycling order. */
  const Colores: seq<string> :=
    ["#fef68a", "#ffd7d7", "#fff8b8", "#b1e4ff", "#d9e8fc", "#e7feff"]

  lemma PaletteDistinct()
    ensures |Colores| == 6 && Distinct(Colores)
  {
    assert Colores[0][2] == 'e' && Colores[1][2] == 'f' && Colores[2][2] == 'f';
    assert Colores[3][2] == '1' && Colores[4][2] == '9' && Colores[5][2] == '7';
    assert Colores[1][3] == 'd' && Colores[2][3] == 'f';
  }

  /** The colour after one press of a note's palette button. */
  function NextColour(c: string): (r: string)
    ensures r in Colores
    ensures c !in Colores ==> r == Colores[0]
  {
    NextIn(Colores, c)
  }

  /** A new note, created empty, with no likes and no emoji, coloured with
      palette entry colourIndex (App draws the index at random). */
  function NewNote(id: NoteId, x: real, y: real, colourIndex: nat): (n: Note)
    requires colourIndex < |Colores|
    ensures n.id == id && n.x == x && n.y == y
    ensures n.content == "" && n.likes == 0 && n.emoji == ""
    ensures n.color in Colores
  {
    Note(id, "", x, y, Colores[colourIndex], 0, "")
  }

  function Ids(notes: seq<Note>): (ids: seq<NoteId>)
    ensures |ids| == |notes|
    ensures forall i :: 0 <= i < |notes| ==> ids[i] == notes[i].id
  {
    if notes == [] then [] else [notes[0].id] + Ids(notes[1..])
  }

  /** How many notes carry the id. */
  function Count(notes: seq<Note>, id: NoteId): nat
  {
    if notes == [] then 0
    else (if notes[0].id == id then 1 else 0) + Count(notes[1..], id)
  }

  function TotalLikes(notes: seq<Note>): nat
  {
    if notes == [] then 0 else notes[0].likes + TotalLikes(notes[1..])
  }

  /** The field-level edits App applies to every note carrying a given id. */
  datatype Edit =
    | SetContent(content: string)
    | SetPosition(x: real, y: real)
    | CycleColour
    | AddLike
    | SetEmoji(emoji: string)

  function Edited(n: Note, e: Edit): (m: Note)
    ensures m.id == n.id
  {
    match e
    case SetContent(c) => n.(content := c)
    case SetPosition(x, y) => n.(x := x, y := y)
    case CycleColour => n.(color := NextColour(n.color))
    case AddLike => n.(likes := n.likes + 1)
    case SetEmoji(s) => n.(emoji := s)
  }

  /** `notes.map(n => n.id === id ? edited : n)`. */
  function EditWhere(notes: seq<Note>, id: NoteId, e: Edit): (r: seq<Note>)
    ensures |r| == |notes|
    ensures forall i :: 0 <= i < |notes| && notes[i].id == id ==> r[i] == Edited(notes[i], e)
    ensures forall i :: 0 <= i < |notes| && notes[i].id != id ==> r[i] == notes[i]
    decreases |notes|
  {
    if notes == [] then []
    else [if notes[0].id == id then Edited(notes[0], e) else notes[0]] + EditWhere(notes[1..], id, e)
  }

  /** actualizarNota: only the content of the matching notes changes. */
  function UpdateContent(notes: seq<Note>, id: NoteId, content: string): (r: seq<Note>)
    ensures |r| == |notes| && Ids(r) == Ids(notes)
    ensures forall i :: 0 <= i < |notes| ==>
      r[i] == if notes[i].id == id then notes[i].(content := content) else notes[i]
  {
    EditWhere(notes, id, SetContent(content))
  }

  /** moverNota: only the position of the matching notes changes. */
  function MoveNote(notes: seq<Note>, id: NoteId, x: real, y: real): (r: seq<Note>)
    ensures |r| == |notes| && Ids(r) == Ids(notes)
    ensures forall i :: 0 <= i < |notes| ==>
      r[i] == if notes[i].id == id then notes[i].(x := x, y := y) else notes[i]
  {
    EditWhere(notes, id, SetPosition(x, y))
  }

  /** cambiarColorNota: the matching notes move one step along the palette. */
  function CycleColourOf(notes: seq<Note>, id: NoteId): (r: seq<Note>)
    ensures |r| == |notes| && Ids(r) == Ids(notes)
    ensures forall i :: 0 <= i < |notes| && notes[i].id == id ==>
      r[i] == notes[i].(color := NextColour(notes[i].color)) && r[i].color in Colores
    ensures forall i :: 0 <= i < |notes| && notes[i].id != id ==> r[i] == notes[i]
  {
    EditWhere(notes, id, CycleColour)
  }

  /** likeNota: the matching notes gain exactly one like. */
  function LikeNote(notes: seq<Note>, id: NoteId): (r: seq<Note>)
    ensures |r| == |notes| && Ids(r) == Ids(notes)
    ensures forall i :: 0 <= i < |notes| ==>
      r[i] == notes[i].(likes := r[i].likes) &&
      r[i].likes == notes[i].likes + (if notes[i].id == id then 1 else 0)
  {
    EditWhere(notes, id, AddLike)
  }

  /** setEmojiNota: only the emoji of the matching notes changes. */
  function SetEmojiOf(notes: seq<Note>, id: NoteId, emoji: string): (r: seq<Note>)
    ensures |r| == |notes| && Ids(r) == Ids(notes)
    ensures forall i :: 0 <= i < |notes| ==>
      r[i] == if notes[i].id == id then notes[i].(emoji := emoji) else notes[i]
  {
    EditWhere(notes, id, SetEmoji(emoji))
  }

  /** eliminarNota: `notes.filter(n => n.id !== id)`. */
  function RemoveNote(notes: seq<Note>, id: NoteId): (r: seq<Note>)
    ensures forall n :: n in r <==> n in notes && n.id != id
    ensures |r| == |notes| - Count(notes, id)
    decreases |notes|
  {
    if notes == [] then []
    else if notes[0].id == id then RemoveNote(notes[1..], id)
    else [notes[0]] + RemoveNote(notes[1..], id)
  }

  /** Appending the note created by a double-click. */
  function AddNote(notes: seq<Note>, n: Note): (r: seq<Note>)
    ensures |r| == |notes| + 1 && r[..|notes|] == notes && r[|notes|] == n
  {
    notes + [n]
  }

  // Properties of the operations.

  /** An edit for an id that no note carries changes nothing. */
  lemma {:induction false} EditAbsentId(notes: seq<Note>, id: NoteId, e: Edit)
    requires id !in Ids(notes)
    ensures EditWhere(notes, id, e) == notes
  {
    forall i | 0 <= i < |notes| ensures notes[i].id != id {
      assert Ids(notes)[i] == notes[i].id;
    }
  }

  /** A second content, position or emoji update of the same id overrides the first. */
  lemma LastWriteWins(notes: seq<Note>, id: NoteId, a: Edit, b: Edit)
    requires (a.SetContent? && b.SetContent?) || (a.SetPosition? && b.SetPosition?) ||
             (a.SetEmoji? && b.SetEmoji?)
    ensures EditWhere(EditWhere(notes, id, a), id, b) == EditWhere(notes, id, b)
  {
  }

  /** Edits of different notes commute. */
  lemma EditsOfDifferentIdsCommute(notes: seq<Note>, id1: NoteId, e1: Edit, id2: NoteId, e2: Edit)
    requires id1 != id2
    ensures EditWhere(EditWhere(notes, id1, e1), id2, e2) == EditWhere(EditWhere(notes, id2, e2), id1, e1)
  {
  }

  /** Liking adds to the board's total exactly one like per matching note. */
  lemma {:induction false} LikeAddsCount(notes: seq<Note>, id: NoteId)
    ensures TotalLikes(LikeNote(notes, id)) == TotalLikes(notes) + Count(notes, id)
    decreases |notes|
  {
    if notes != [] {
      var r := LikeNote(notes, id);
      assert r[1..] == LikeNote(notes[1..], id);
      LikeAddsCount(notes[1..], id);
    }
  }

  function CycleTimes(notes: seq<Note>, id: NoteId, n: nat): seq<Note>
  {
    if n == 0 then notes else CycleColourOf(CycleTimes(notes, id, n - 1), id)
  }

  lemma {:induction false} CycleTimesElementwise(notes: seq<Note>, id: NoteId, n: nat)
    ensures |CycleTimes(notes, id, n)| == |notes|
    ensures forall i :: 0 <= i < |notes| ==>
      CycleTimes(notes, id, n)[i] ==
        if notes[i].id == id then notes[i].(color := IterateIn(Colores, notes[i].color, n)) else notes[i]
  {
    if n > 0 {
      CycleTimesElementwise(notes, id, n - 1);
    }
  }

  /** Six presses of the palette button on a note whose colour is a palette
      entry give back the board it started from. */
  lemma CycleSixRestores(notes: seq<Note>, id: NoteId)
    requires forall i :: 0 <= i < |notes| && notes[i].id == id ==> notes[i].color in Colores
    ensures CycleTimes(notes, id, 6) == notes
  {
    CycleTimesElementwise(notes, id, 6);
    forall i | 0 <= i < |notes| && notes[i].id == id
      ensures CycleTimes(notes, id, 6)[i] == notes[i]
    {
      PaletteDistinct();
      SixStepsRestore(Colores, notes[i].color);
    }
  }

  /** Removing an id that no note carries changes nothing. */
  lemma {:induction false} RemoveAbsentId(notes: seq<Note>, id: NoteId)
    requires id !in Ids(notes)
    ensures RemoveNote(notes, id) == notes
    decreases |notes|
  {
    if notes != [] {
      assert Ids(notes)[0] == notes[0].id;
      assert Ids(notes[1..]) == Ids(notes)[1..];
      RemoveAbsentId(notes[1..], id);
    }
  }

  /** Removal filters each part of the board separately, so the remaining
      notes keep their order. */
  lemma {:induction false} RemoveDistributes(a: seq<Note>, b: seq<Note>, id: NoteId)
    ensures RemoveNote(a + b, id) == RemoveNote(a, id) + RemoveNote(b, id)
    decreases |a|
  {
    if a == [] {
      assert a + b == b;
    } else {
      assert (a + b)[0] == a[0];
      assert (a + b)[1..] == a[1..] + b;
      RemoveDistributes(a[1..], b, id);
    }
  }

  /** Removing twice is removing once. */
  lemma RemoveIdempotent(notes: seq<Note>, id: NoteId)
    ensures RemoveNote(RemoveNote(notes, id), id) == RemoveNote(notes, id)
  {
    var r := RemoveNote(notes, id);
    assert id !in Ids(r) by {
      forall i | 0 <= i < |r| ensures Ids(r)[i] != id {
        assert r[i] in r;
      }
    }
    RemoveAbsentId(r, id);
  }

  /** Removing the id of a note just added undoes the addition when no
      earlier note carries that id. */
  lemma RemoveUndoesAdd(notes: seq<Note>, n: Note)
    requires n.id !in Ids(notes)
    ensures RemoveNote(AddNote(notes, n), n.id) == notes
  {
    RemoveDistributes(notes, [n], n.id);
    RemoveAbsentId(notes, n.id);
    assert RemoveNote([n], n.id) == [];
  }

  /** The operations a note component calls on the board (its props). */
  datatype Callback =
    | ActualizarNota(id: NoteId, content: string)
    | MoverNota(id: NoteId, x: real, y: real)
    | CambiarColorNota(id: NoteId)
    | EliminarNota(id: NoteId)
    | LikeNotaCall(id: NoteId)
    | SetEmojiNota(id: NoteId, emoji: string)

  /** What App does with a callback from a note. */
  function Apply(notes: seq<Note>, cb: Callback): (r: seq<Note>)
    ensures |r| <= |notes|
    ensures !cb.EliminarNota? ==> |r| == |notes|
    ensures !cb.EliminarNota? ==>
              forall i :: 0 <= i < |notes| && notes[i].id != cb.id ==> r[i] == notes[i]
    ensures cb.EliminarNota? ==> forall n :: n in r ==> n.id != cb.id
    ensures cb.ActualizarNota? ==> r == UpdateContent(notes, cb.id, cb.content)
    ensures cb.MoverNota? ==> r == MoveNote(notes, cb.id, cb.x, cb.y)
    ensures cb.CambiarColorNota? ==> r == CycleColourOf(notes, cb.id)
    ensures cb.EliminarNota? ==> r == RemoveNote(notes, cb.id)
    ensures cb.LikeNotaCall? ==> r == LikeNote(notes, cb.id)
    ensures cb.SetEmojiNota? ==> r == SetEmojiOf(notes, cb.id, cb.emoji)
  {
    match cb
    case ActualizarNota(id, c) => UpdateContent(notes, id, c)
    case MoverNota(id, x, y) => MoveNote(notes, id, x, y)
    case CambiarColorNota(id) => CycleColourOf(notes, id)
    case EliminarNota(id) => RemoveNote(notes, id)
    case LikeNotaCall(id) => LikeNote(notes, id)
    case SetEmojiNota(id, e) => SetEmojiOf(notes, id, e)
  }

  function ApplyAll(notes: seq<Note>, cbs: seq<Callback>): seq<Note>
    decreases |cbs|
  {
    if cbs == [] then notes else ApplyAll(Apply(notes, cbs[0]), cbs[1..])
  }

  lemma ApplyAllSingle(notes: seq<Note>, cb: Callback)
    ensures ApplyAll(notes, [cb]) == Apply(notes, cb)
  {
    assert [cb][1..] == [];
  }

  /** A callback for an id absent from the board is a no-op, never an error. */
  lemma ApplyAbsentId(notes: seq<Note>, cb: Callback)
    requires cb.id !in Ids(notes)
    ensures Apply(notes, cb) == notes
  {
    match cb
    case EliminarNota(id) => RemoveAbsentId(notes, id);
    case ActualizarNota(id, c) => EditAbsentId(notes, id, SetContent(c));
    case MoverNota(id, x, y) => EditAbsentId(notes, id, SetPosition(x, y));
    case CambiarColorNota(id) => EditAbsentId(notes, id, CycleColour);
    case LikeNotaCall(id) => EditAbsentId(notes, id, AddLike);
    case SetEmojiNota(id, e) => EditAbsentId(notes, id, SetEmoji(e));
  }

  /** Every callback except removal keeps the board's ids in their order;
      removal keeps the other ids. */
  lemma ApplyKeepsOtherNotes(notes: seq<Note>, cb: Callback)
    ensures !cb.EliminarNota? ==> Ids(Apply(notes, cb)) == Ids(notes)
    ensures forall n :: n in notes && n.id != cb.id ==> n in Apply(notes, cb)
  {
    forall n | n in notes && n.id != cb.id ensures n in Apply(notes, cb) {
      var i :| 0 <= i < |notes| && notes[i] == n;
      if !cb.EliminarNota? {
        assert Apply(notes, cb)[i] == n;
      }
    }
  }
}
