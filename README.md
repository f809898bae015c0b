# Talan Board: a verified model of the board and its sticky notes

Talan Board is a single-page sticky-note board. The `App` component
(`src/App.tsx`) owns two things:

- the list of notes;
- a viewport: a zoom clamped to [0.5, 2] and changed by two buttons, and a pan
  offset dragged with the primary mouse button. `App` also has a wheel-zoom
  handler, but as written it is never attached (see Findings).

A double-click whose target is the board element itself adds a note at the
board point the double-click formula gives. That point is under the pointer
only at zoom 1 or with no pan (see "Double-click position" below). Each note is
rendered by `NotaAdhesiva` (`src/components/NotaAdhesiva.tsx`). That component:

- drags the note with document-level move/release listeners;
- lets the user edit its text locally and commits it on blur;
- hands colour, like, emoji and delete requests back to `App` as callbacks.

The Dafny project models this core in five modules:

- `Viewport` (`viewport.dfy`) covers the zoom handlers, the pan
  press/move/release machine as a pure step function over a `View` value, and
  the double-click's screen-to-board formula.
- `Cycle` (`cycle.dfy`) covers `indexOf` plus "next entry modulo six" over any
  six-entry palette without repeats.
- `Notes` (`notes.dfy`) covers the note record, the palette and `App`'s
  collection operations, each as a function from the old sequence of notes to
  the new one. The callbacks a note can invoke form a `Callback` datatype.
- `Board` (`board.dfy`) is `App`'s state as a class whose fields the handlers
  update. Each handler is proved to perform exactly the corresponding
  `Viewport.Step` or collection operation, and to keep the zoom in range and
  every note's colour in the palette.
- `NoteRules` (`note_rules.dfy`) and `NoteController` (`note_controller.dfy`)
  model the note component:
  - its handlers update a `StickyNote` object's fields (edit flag, local text,
    picker flag, captured offset, listeners attached, translate written);
  - each handler returns the callbacks it invokes, in order.

Notable behaviour of the code:

- **Press while editing.** A press on a note that is being edited returns
  before `stopPropagation`, so the press reaches the board's pan handler
  (`NotaAdhesiva.tsx:57`). The model follows the code: `StickyNote.Press`
  returns whether the press propagates, and
  `NoteController.SelectTextWhileEditing` shows that dragging to select text
  in an edited note pans the board.
- **Double-click position.** The double-click formula subtracts the pan and
  then divides by the zoom. The board layer's transform scales the pan as well.
  `Viewport.ScreenToBoardUndoesRenderingOnlyWhen` proves that, on each axis,
  the formula inverts the rendering exactly when the zoom is 1 or that axis's
  pan is 0. At other zooms a note created on a panned board is not placed under
  the pointer. The model keeps the formula as written.
- **Ids.** Ids are not checked for uniqueness. Every operation acts on every
  note carrying the id, and the lemmas say so.

## Model

| member | source | states |
|---|---|---|
| Viewport.WheelZoom | src/App.tsx:31-34 | the zoom after a wheel event is zoom − deltaY·0.001 when that lies in [0.5, 2], else the nearer bound; always in range |
| Viewport.ZoomIn | src/App.tsx:141-143 | the zoom-in button gives exactly zoom + 0.1 when that is at most 2, and 2 otherwise; never decreases an in-range zoom; keeps the range |
| Viewport.ZoomOut | src/App.tsx:145-147 | the zoom-out button gives exactly zoom − 0.1 when that is at least 0.5, and 0.5 otherwise; never increases an in-range zoom; keeps the range |
| Viewport.ScreenToBoard | src/App.tsx:76-77 | the board point computed for a pointer satisfies x·zoom + pan + origin = client on each axis |
| Viewport.Rendered | src/App.tsx:182-185 | where the `scale(zoom) translate(pan)` layer with origin 0 0 draws a board point b: for a non-zero zoom, (drawn − origin) / zoom − pan gives b back |
| Viewport.ScreenToBoardUndoesRenderingOnlyWhen | src/App.tsx:76-77 | applied to where the `scale(zoom) translate(pan)` layer draws a board point, the formula gives that point back on an axis iff zoom = 1 or that axis's pan = 0 |
| Viewport.Press | src/App.tsx:49-54 | only button 0 starts panning and records the pointer; other buttons change nothing |
| Viewport.Move | src/App.tsx:56-66 | while panning, the pan grows by the pointer's displacement since the last event, which becomes the new last pointer; otherwise nothing changes |
| Viewport.Release | src/App.tsx:68-70 | releasing ends panning and keeps zoom, pan and last pointer |
| Viewport.Step | src/App.tsx:159-180 | the bindings: a wheel event runs the wheel clamp (lines 28-35), the zoom buttons run ZoomIn and ZoomOut (159, 165), mouse-down runs Press, mouse-move runs Move, and both mouse-up and mouse-leave run Release (177-180); zoom events change only the zoom and pointer events never change it |
| Viewport.StepKeepsZoomInRange | src/App.tsx:27-70 | every board event keeps the zoom in [0.5, 2] |
| Viewport.RunKeepsZoomInRange | src/App.tsx:27-70 | any sequence of board events keeps an in-range zoom in range |
| Viewport.ZoomAlwaysInRange | src/App.tsx:21-147 | from the initial zoom of 1, the zoom stays in [0.5, 2] after any sequence of events |
| Viewport.RunAppend | src/App.tsx:49-70 | handling events a then b is handling a, then b from the resulting state |
| Viewport.MovesTelescope | src/App.tsx:56-66 | while panning, a run of moves adds the pointer's total displacement to the pan and leaves the last pointer at the final move |
| Viewport.MovesWithoutPressChangeNothing | src/App.tsx:56-66 | moves without a prior press leave the viewport unchanged |
| Viewport.PanGesture | src/App.tsx:49-70 | press at p, moves ending at q, release or mouse-leave: the pan shifts by q − p, zoom is kept, panning has ended |
| Viewport.SecondaryPressDoesNotPan | src/App.tsx:49-54 | after a press with a non-primary button, moves do not pan |
| Cycle.IndexOf | src/App.tsx:108 | −1 exactly when the value is absent, else the first position holding it |
| Cycle.NextIn | src/App.tsx:108-110 | the next colour is a palette entry; a colour outside the palette becomes the first entry |
| Cycle.NextOfEntry | src/App.tsx:108-110 | on a palette without repeats, entry k steps to entry k + 1, and the last entry wraps to the first |
| Cycle.IterateWalksPalette | src/App.tsx:104-115 | n steps from entry k reach the entry at position Walk(k, n) < 6 |
| Cycle.WalkIsModular | src/App.tsx:109 | n steps of `(i + 1) % 6` from position k < 6 reach position (k + n) % 6 |
| Cycle.SixStepsRestore | src/App.tsx:104-115 | six steps bring any palette entry back to itself |
| Notes.PaletteDistinct | src/App.tsx:6 | the palette has six pairwise distinct colours |
| Notes.NextColour | src/App.tsx:104-115 | the palette step of App's palette always yields a palette colour; an unknown colour yields the first |
| Notes.NewNote | src/App.tsx:78-86 | a new note has the given id and position, empty content, no likes, no emoji and a palette colour |
| Notes.Ids | src/App.tsx:191-193 | the ids of the notes, in board order |
| Notes.EditWhere | src/App.tsx:90-135 | a map over the notes: notes with the id get the edit, others are untouched, length kept |
| Notes.UpdateContent | src/App.tsx:90-96 | only the content of notes with the id changes; length and ids kept |
| Notes.MoveNote | src/App.tsx:98-102 | only the position of notes with the id changes; length and ids kept |
| Notes.CycleColourOf | src/App.tsx:104-115 | notes with the id take the next palette colour; others unchanged; length and ids kept |
| Notes.LikeNote | src/App.tsx:121-127 | notes with the id gain exactly one like, nothing else changes |
| Notes.SetEmojiOf | src/App.tsx:129-135 | only the emoji of notes with the id changes; length and ids kept |
| Notes.RemoveNote | src/App.tsx:117-119 | a note remains iff it was there and has a different id; the length drops by the number of notes with the id |
| Notes.AddNote | src/App.tsx:87 | the new note is appended after the unchanged existing notes |
| Notes.EditAbsentId | src/App.tsx:90-135 | an edit for an id no note carries changes nothing |
| Notes.LastWriteWins | src/App.tsx:90-102 | a second content, position or emoji update of the same id overrides the first |
| Notes.EditsOfDifferentIdsCommute | src/App.tsx:90-135 | edits of different ids commute |
| Notes.LikeAddsCount | src/App.tsx:121-127 | the board's total likes grow by the number of notes with the id |
| Notes.CycleTimesElementwise | src/App.tsx:104-115 | n palette presses give each note with the id its colour advanced n steps, others unchanged |
| Notes.CycleSixRestores | src/App.tsx:104-115 | six palette presses give back the original board when the note's colours are palette entries |
| Notes.RemoveAbsentId | src/App.tsx:117-119 | removing an absent id changes nothing |
| Notes.RemoveDistributes | src/App.tsx:117-119 | removal filters each part of the board separately, keeping order |
| Notes.RemoveIdempotent | src/App.tsx:117-119 | removing twice equals removing once |
| Notes.RemoveUndoesAdd | src/App.tsx:117-119 | removing the id of a freshly appended note with a new id gives back the previous board |
| Notes.Apply | src/App.tsx:195-200 | each callback prop runs its own collection operation (actualizarNota → UpdateContent, moverNota → MoveNote, cambiarColorNota → CycleColourOf, eliminarNota → RemoveNote, likeNota → LikeNote, setEmojiNota → SetEmojiOf); no callback adds notes; apart from removal the length and every note with another id are kept; after removal no note carries the id |
| Notes.ApplyAllSingle | src/App.tsx:195-200 | invoking one callback through the list form is invoking it directly |
| Notes.ApplyAbsentId | src/App.tsx:195-200 | any callback for an id absent from the board is a no-op |
| Notes.ApplyKeepsOtherNotes | src/App.tsx:195-200 | every callback except removal keeps the ids in order; no callback drops a note with another id |
| Board.DoubleClick | src/App.tsx:72-88 | a double-click off the board changes nothing; on it, exactly one note is appended with empty content, no likes, no emoji, a palette colour and the board position the formula gives |
| Board.ApplyKeepsPaletteColours | src/App.tsx:104-135 | when every colour is a palette entry, every callback keeps it so |
| Board.StepAsMounted | src/App.tsx:27-47 | with the wheel listener attached every event is handled as usual; without it wheel events change nothing and other events are handled as usual |
| Board.AppStep | src/App.tsx:27-47 | only the first commit runs the `[]`-dependency effect, attaching the listener iff the board is shown (a non-empty user name, lines 149-151) and changing nothing else; any later commit leaves App exactly as it was, so the listener flag never changes; login changes only the name; board input is ignored under the login form and otherwise handled with the listener as attached |
| Board.Launched | src/App.tsx:20-47 | after the first render, which shows the login form, the effect has run and the listener is detached, with the initial viewport |
| Board.DetachedStaysDetached | src/App.tsx:27-47 | once the effect has run without attaching the listener, no sequence of commits, logins or input attaches it |
| Board.WheelNeverZoomsAsWritten | src/App.tsx:27-47 | after launch, whatever events follow (logging in included), the listener is detached and a wheel event leaves App unchanged |
| Board.WheelAfterLogInAsWritten | src/App.tsx:27-47 | logging in, re-rendering and scrolling up by 100 leaves the zoom at 1, where the handler would give 1.1 |
| Board.Board.constructor | src/App.tsx:19-25 | no notes, zoom 1, pan (0, 0), not panning |
| Board.Board.Wheel | src/App.tsx:28-35 | the state becomes the wheel step of the old one, notes unchanged, zoom in range |
| Board.Board.ZoomIn | src/App.tsx:141-143 | the state becomes the zoom-in step of the old one, notes unchanged |
| Board.Board.ZoomOut | src/App.tsx:145-147 | the state becomes the zoom-out step of the old one, notes unchanged |
| Board.Board.MouseDown | src/App.tsx:49-54 | the state becomes the press step of the old one, notes unchanged |
| Board.Board.MouseMove | src/App.tsx:56-66 | the state becomes the move step of the old one, notes unchanged |
| Board.Board.MouseUp | src/App.tsx:68-70 | the state becomes the release step, the same for mouse-up and mouse-leave |
| Board.Board.AddNoteAt | src/App.tsx:72-88 | the notes become the double-click result at the current zoom and pan; viewport unchanged; palette colours kept |
| Board.Board.Handle | src/App.tsx:191-203 | the notes become the callback's result; viewport unchanged; palette colours kept |
| NoteRules.CaptureOffset | src/components/NotaAdhesiva.tsx:61-65 | the note's top-left plus the offset is the pointer |
| NoteRules.DragPosition | src/components/NotaAdhesiva.tsx:74-76 | the written position p satisfies p·zoom + offset + layer origin = pointer on each axis |
| NoteRules.NoteScreenTopLeft | src/components/NotaAdhesiva.tsx:171 | a note translated to pos inside the layer scaled by zoom sits where (top-left − layer origin) / zoom is pos |
| NoteRules.NoteDrawnWhereLayerRenders | src/App.tsx:182-185 | inside the board's scaled and panned layer, a note at pos is drawn exactly where the layer renders board point pos |
| NoteRules.DragFollowsPointer | src/components/NotaAdhesiva.tsx:56-79 | moving the pointer by d from the press point puts the note at its position plus d / zoom |
| NoteRules.BlurCalls | src/components/NotaAdhesiva.tsx:109-114 | at most one callback, none iff the text is unchanged, and that one updates the note's content |
| NoteRules.BlurWithEdit | src/components/NotaAdhesiva.tsx:109-114 | after an edit, the board applies exactly the content update |
| NoteRules.BlurWithoutEdit | src/components/NotaAdhesiva.tsx:109-114 | without an edit the board is unchanged, and it is already what an update would give |
| NoteRules.RewriteSameContent | src/App.tsx:90-96 | rewriting the content every copy already holds changes nothing |
| NoteController.StickyNote.constructor | src/components/NotaAdhesiva.tsx:44-53 | not editing, local text = the note's, picker closed, no listeners, translate at the note's position |
| NoteController.StickyNote.Press | src/components/NotaAdhesiva.tsx:56-69 | propagates iff editing; when editing nothing changes; otherwise the offset is captured and listeners are attached |
| NoteController.StickyNote.PointerMove | src/components/NotaAdhesiva.tsx:72-79 | with listeners attached, the translate becomes the drag position; otherwise nothing changes |
| NoteController.StickyNote.Release | src/components/NotaAdhesiva.tsx:82-90 | with listeners attached, reports the last translate via moverNota; listeners are detached afterwards |
| NoteController.StickyNote.Click | src/components/NotaAdhesiva.tsx:101-106 | enters edit mode, nothing else changes |
| NoteController.StickyNote.Blur | src/components/NotaAdhesiva.tsx:109-114 | leaves edit mode and invokes exactly the blur callbacks |
| NoteController.StickyNote.ContentChange | src/components/NotaAdhesiva.tsx:154-156 | only the local text changes |
| NoteController.StickyNote.Rerender | src/components/NotaAdhesiva.tsx:159-171 | a changed content overwrites the local text; a changed position rewrites the translate; otherwise both are kept |
| NoteController.StickyNote.ToggleEmojiPicker | src/components/NotaAdhesiva.tsx:188 | the picker flag flips, nothing else changes |
| NoteController.StickyNote.EmojiClick | src/components/NotaAdhesiva.tsx:141-144 | invokes setEmojiNota with the chosen emoji and closes the picker |
| NoteController.StickyNote.LikeClick | src/components/NotaAdhesiva.tsx:133-138 | invokes likeNota once for this note |
| NoteController.StickyNote.ColourClick | src/components/NotaAdhesiva.tsx:117-121 | invokes cambiarColorNota once for this note |
| NoteController.StickyNote.DeleteClick | src/components/NotaAdhesiva.tsx:124-130 | invokes eliminarNota once for this note |
| NoteController.PressReleaseInPlace | src/components/NotaAdhesiva.tsx:56-90 | a press and release without moving reports the note's own position |
| NoteController.DragGesture | src/components/NotaAdhesiva.tsx:56-90 | press, move by d, release reports the note's position plus d / zoom |
| NoteController.PressWhileEditing | src/components/NotaAdhesiva.tsx:56-69 | a press on a note being edited propagates to the board and starts no drag |
| NoteController.SelectTextWhileEditing | src/components/NotaAdhesiva.tsx:56-59 | from any viewport, a press on a note in edit mode reaches the board's pan handler (App.tsx:49-66), so moving from p to q pans the board by q − p |
| NoteController.EditSession | src/components/NotaAdhesiva.tsx:101-156 | click, type, blur reports the text iff it differs from the note's content |

## Left out

- The HTTP helpers (`src/api/notas.ts`) are never called by the board. They are not part of this model.
- The login form (`src/components/Login.tsx`) is not part of this model. `App`'s user name only matters for whether the wheel listener is attached (see Findings); the name shown on each note is not modelled.
- Browser geometry is a parameter. This covers `getBoundingClientRect` of the board, the note and the note layer, and whether a double-click's target is the board itself.
- The `!rect` early return in `agregarNota` cannot be taken once the target is the board, so it is not modelled.
- `StickyNote.Release`: the `DOMMatrix` read-back of the computed transform is modelled as the translate last written. The hover `scale` and transition CSS do not contribute to it.
- Timers and visual flags are not modelled: the 300 ms delete fade (`isDeleting`) and the 1 s like animation (`isLiking`). `DeleteClick` reports the removal the timer eventually performs.
- `Date.now()` ids and the random palette draw in `agregarNota` are parameters, `id` and `colourIndex`.
- JavaScript numbers are modelled as mathematical reals and unbounded naturals. Rounding of `zoom ± 0.1` and of pixel arithmetic is not modelled.
- `StickyNote.PointerMove`, `StickyNote.Release`: the zoom is a parameter of each move, and release always detaches the listeners that press attached. In the source, `iniciarArrastre` (`NotaAdhesiva.tsx:56-69`, memoised on `editando`) attaches the `moverNotaHandler` of the render where edit mode last changed, so its zoom is fixed at that moment; a drag after a zoom change made while the note's edit mode stayed unchanged divides by the old zoom. The `soltarNotaHandler` it attaches was created when the note mounted (its dependencies never change) and removes the mount-time `moverNotaHandler`; after a zoom change followed by an edit-mode change, release leaves the attached move listener in place, so the note keeps following the pointer until the next zoom change runs the cleanup effect (`NotaAdhesiva.tsx:93-98`). Both situations are reachable because the click that follows every press and release on a note enters edit mode. The model does not capture these stale handlers.
- The browser's event dispatch is left to the caller. This covers the click that follows a drag's release (it enters edit mode), presses on the note's buttons bubbling into a drag, and the textarea being read-only outside edit mode.
- The focus effect (`NotaAdhesiva.tsx:147-151`) is left out because it only moves DOM focus.
- The emoji picker offers eight glyphs; `EmojiClick` accepts any string.
- The note component declares `id` a string and `App` a number. Both are modelled as `NoteId = int`, since ids are only compared. Id uniqueness is not enforced, and nothing in the source enforces it either.

## Findings

| source | as written | input that shows it | evidently intended | confidence | as-written member | corrected member |
|---|---|---|---|---|---|---|
| src/App.tsx:27-47 | the wheel listener is attached by an effect with no dependencies, so it runs only after the first render. That render shows the login form (lines 149-151), so `boardRef.current` is null and the listener is never attached | log in, then scroll up by 100 over the board: the zoom stays 1 | scrolling zooms, 1 → 1.1 | high, not executed | Board.WheelNeverZoomsAsWritten | Board.Board.Wheel |
