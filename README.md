# Drawing widget engine (drawinz, `darwinz.js`)

A Dafny model of the engine inside the `DrawingApp` canvas widget: the
undo/redo snapshot history, the stroke session that mouse events drive
(`startDrawing`, `draw`, `stopDrawing`), the tool selection and the
keyboard-shortcut dispatch over the nine-button tool table.

The canvas is modelled as a value: the list of paint commands applied to it
since it was blank (`Stroke.Surface`). Its initial state is a white fill.
A snapshot (`toDataURL` for the history, `getImageData` for the pre-stroke
copy) is that value itself. Restoring a snapshot (`loadState`,
`putImageData`) assigns it back.

Modules, leaf first:

- `Wrappers`: `Option`.
- `Geometry`: points, the signed rectangle and circle arguments `draw` computes.
- `Tools`: the tools, the commands, the tool table, `toLowerCase`, the
  shortcut lookup and the dispatch guard.
- `UndoHistory`: the two stacks and the current canvas as a value, with
  `saveState`, `undo` and `redo` as functions. It also proves their laws
  about the "timeline" (the undo stack followed by the reversed redo stack)
  and the "cursor" (the undo stack's size).
- `Stroke`: the paint commands and what one pointer move paints with each tool.
- `Session`: the widget's whole state as a value and every event handler as
  a transition, with the stroke and shortcut lemmas.
- `App`: the class `DrawingApp`, whose fields the handlers update in place.
  Each event handler (`Undo`, `Redo`, `ClearCanvas`, `StartDrawing`, `Draw`,
  `StopDrawing`, `SetTool`, `Click`, `HandleKeyboardShortcuts`) is proved to
  move `State()` exactly as the matching transition, and to keep the object
  invariant `Valid()`. `Undo` and `Redo` move it as `UndoHistory.Undo` and
  `UndoHistory.Redo`; the others as the same-named `Session` functions.
  `Valid()` says the undo stack is never empty and, between strokes, the
  canvas shows its top. The helpers `SaveState`, `LoadState` and
  `SetupStateManagement` neither require nor ensure `Valid()`. They are
  stated by their effect on the fields alone, and `LoadState` on its own can
  break `Valid()`.

Event wiring (`setupEventListeners`, darwinz.js:168-176): mousedown calls
`StartDrawing`, mousemove calls `Draw`, and both mouseup and mouseout call
`StopDrawing`. A keydown calls `HandleKeyboardShortcuts`. A button click
calls `Click` with the button's command.

Two facts about the code that the model keeps:

- `setTool` has no `isDrawing` guard (darwinz.js:132-133). So a keyboard
  shortcut can switch tools in the middle of a stroke (darwinz.js:295-310),
  and the next move uses the new tool.
- No tool is chosen at start-up (darwinz.js:10-17 never calls `setTool`). So
  `currentTool` starts as `None`, and with no tool chosen a move paints
  nothing.

From a fresh widget, n saves, k undos and one more save leave n - k + 2
entries on the undo stack. The extra entry is the seeding save at
darwinz.js:181. `UndoHistory.LinearHistory` states the general form
m + n - k + 1, where m is the undo stack's size at the start.

## Model

| member | source | states |
|---|---|---|
| Geometry.RectArgs | darwinz.js:232-236 | the rectangle tool's `rect` has one corner at the anchor and the opposite corner at the pointer; width and height are signed |
| Geometry.RectSpansBothPoints | darwinz.js:234 | even with negative width or height, the rectangle covers exactly the box spanned by anchor and pointer |
| Geometry.CircleArgs | darwinz.js:238-243 | the circle tool's arc is centred at the anchor and passes through the pointer (squared radius dx² + dy²) |
| Geometry.DegenerateCircle | darwinz.js:240 | the radius is zero exactly when the pointer is at the anchor |
| Geometry.CircleRadiusSymmetric | darwinz.js:240 | swapping anchor and pointer keeps the radius |
| Geometry.ThreeFourFive | darwinz.js:240-241 | anchor (10,10) and pointer (13,14) give a circle centred at (10,10) with squared radius 25 (radius 5) |
| Tools.ToLower | darwinz.js:301 | lower-casing keeps the length, maps each ASCII upper-case letter to its lower-case letter, leaves no upper-case ASCII letter and leaves other characters alone |
| Tools.ToLowerIdempotent | darwinz.js:301 | lower-casing twice equals lower-casing once |
| Tools.FindShortcut | darwinz.js:302-304 | `find` returns the first button whose shortcut equals the key, and nothing exactly when no button matches |
| Tools.Dispatch | darwinz.js:295-299 | without Ctrl or Meta, without Shift, or with focus in an INPUT, no command fires |
| Tools.ShortcutsDistinct | darwinz.js:114-124 | the table has nine buttons and their shortcut letters are pairwise distinct |
| Tools.DispatchSpec | darwinz.js:295-310 | a key fires command c exactly when the guard passes and some button has the lower-cased key as shortcut and c as action |
| Tools.UnmatchedKeyIgnored | darwinz.js:306-309 | a key that matches no button fires nothing |
| Tools.DispatchExamples | darwinz.js:115-123 | Ctrl+Shift+Z fires Undo; Meta+Shift+B selects the brush |
| Tools.IgnoredKeyExamples | darwinz.js:299 | Ctrl+Z without Shift, Ctrl+Shift+Z in an INPUT, and Ctrl+Shift+Q fire nothing |
| Tools.EveryToolHasButton | darwinz.js:115-119 | each of the five drawing tools has a button selecting it |
| UndoHistory.Init | darwinz.js:178-182 | after set-up, the undo stack holds exactly the current canvas and the redo stack is empty |
| UndoHistory.Commit | darwinz.js:254-257 | `saveState` pushes the canvas onto the undo stack and empties the redo stack; afterwards the canvas is the top and the timeline has no future |
| UndoHistory.Undo | darwinz.js:259-264 | with at most one entry, undo changes nothing; otherwise it steps the cursor back one place and the canvas shows the new top; the timeline, the total stack size and non-emptiness are kept |
| UndoHistory.Redo | darwinz.js:266-271 | with an empty redo stack, redo changes nothing; otherwise it steps the cursor forward and the canvas shows the redone snapshot; the timeline, the total size and non-emptiness are kept |
| UndoHistory.Determined | darwinz.js:259-271 | the two stacks and the canvas are fixed by timeline, cursor and canvas |
| UndoHistory.UndoThenRedo | darwinz.js:259-271 | a successful undo followed by redo restores both stacks exactly, with the former top on the canvas |
| UndoHistory.RedoThenUndo | darwinz.js:259-271 | a successful redo followed by undo restores both stacks exactly |
| UndoHistory.UndoAtOldestIsNoOp | darwinz.js:260 | undo on a single-entry stack leaves stacks and canvas unchanged |
| UndoHistory.CommitThenUndo | darwinz.js:254-264 | undo right after a save restores the previous state, with the saved snapshot on the redo stack |
| UndoHistory.UndoNMovesBack | darwinz.js:259-264 | k undos (k below the undo stack's size) move the cursor back k places on an unchanged timeline |
| UndoHistory.RedoNMovesForward | darwinz.js:266-271 | k redos (k at most the redo stack's size) move the cursor forward k places on an unchanged timeline |
| UndoHistory.UndoRedoRoundTrip | darwinz.js:259-271 | between strokes, k undos then k redos restore everything |
| UndoHistory.CommitNGrows | darwinz.js:254-257 | n saves grow the undo stack by n and leave the redo stack empty |
| UndoHistory.LinearHistory | darwinz.js:254-264 | n saves, k undos and one save leave an empty redo stack and m + n - k + 1 undo entries |
| Stroke.OneMovePerTool | darwinz.js:191-243 | one move paints: with no tool, nothing; with the brush, a stroke to the pointer; with the eraser, a disc of the pen's size at the pointer; with a shape tool, its preview on the pre-stroke snapshot |
| Stroke.ShapeMoveIgnoresSurface | darwinz.js:197-199 | a shape tool's move repaints from the pre-stroke snapshot, whatever the canvas showed |
| Stroke.PreviewShapes | darwinz.js:225-243 | the rectangle preview has signed arguments (anchor, pointer minus anchor); the circle preview is centred at the anchor through the pointer |
| Session.Init | darwinz.js:178-182 | the widget starts with a white canvas saved once, an empty redo stack, no stroke, no tool, and its invariant holding |
| Session.StartDrawing | darwinz.js:184-189 | mouse-down enters the stroke, records the anchor and the current canvas as the pre-stroke snapshot, and touches no history |
| Session.Draw | darwinz.js:191-245 | a move between strokes changes nothing; during a stroke it changes only the canvas, never the stacks |
| Session.StopDrawing | darwinz.js:247-252 | between strokes, no-op; otherwise leaves the stroke, pushes exactly the drawn canvas and clears the redo stack; the tool, the anchor and the pre-stroke snapshot stay as they were |
| Session.SetTool | darwinz.js:132-133 | only the current tool changes |
| Session.Clear | darwinz.js:282-286 | the canvas is painted white and saved; the redo stack is emptied; the tool and the stroke fields stay as they were |
| Session.Perform | darwinz.js:115-123 | a tool button selects its tool, Undo and Redo act on the history as `UndoHistory.Undo` and `UndoHistory.Redo`, Clear clears, Save changes no state; every click keeps the invariant |
| Session.HandleKey | darwinz.js:295-310 | a key press keeps the invariant; it does nothing unless the modifier guard passes or when no button matches, and otherwise performs the matching button's click |
| Session.MovesOnlyPaint | darwinz.js:191-245 | any run of moves changes only what the canvas shows |
| Session.ShapeMovesKeepOnePreview | darwinz.js:191-243 | after any number of moves with a shape tool, the canvas is the pre-stroke snapshot plus one preview, for the last pointer position |
| Session.FreehandMovesAccumulate | darwinz.js:206-223 | brush and eraser moves accumulate on top of the canvas: move i appends a brush stroke to its own pointer, or an erased disc of the pen's size centred at it |
| Session.ShapeStroke | darwinz.js:184-252 | a full shape stroke saves exactly one snapshot (old canvas plus final preview) and empties the redo stack |
| Session.ClickWithoutMove | darwinz.js:184-257 | a press and release without a move saves a copy of the current canvas; undo then leaves the canvas as it was |
| Session.FreshStrokeUndoRedo | darwinz.js:178-271 | fresh widget, one brush stroke: 2 undo entries; undo shows the blank canvas with 1 and 1; redo returns exactly to the drawn state |
| App.DrawingApp.constructor | darwinz.js:10-17 | the new widget is in the initial session state and valid |
| App.DrawingApp.SetupStateManagement | darwinz.js:178-182 | the undo stack becomes exactly the current canvas and the redo stack becomes empty |
| App.DrawingApp.SaveState | darwinz.js:254-257 | the stacks change as `UndoHistory.Commit` says; nothing else changes |
| App.DrawingApp.LoadState | darwinz.js:273-280 | the canvas shows the given snapshot |
| App.DrawingApp.Undo | darwinz.js:259-264 | the stacks and canvas move as `UndoHistory.Undo`, nothing else changes, and the object stays valid |
| App.DrawingApp.Redo | darwinz.js:266-271 | the stacks and canvas move as `UndoHistory.Redo`, nothing else changes, and the object stays valid |
| App.DrawingApp.ClearCanvas | darwinz.js:282-286 | the object moves as `Session.Clear` and stays valid |
| App.DrawingApp.StartDrawing | darwinz.js:184-189 | the object moves as `Session.StartDrawing` and stays valid |
| App.DrawingApp.Draw | darwinz.js:191-245 | the object moves as `Session.Draw` and stays valid |
| App.DrawingApp.StopDrawing | darwinz.js:247-252 | the object moves as `Session.StopDrawing` and stays valid |
| App.DrawingApp.SetTool | darwinz.js:132-133 | the object moves as `Session.SetTool` and stays valid |
| App.DrawingApp.DownloadCanvas | darwinz.js:288-293 | the export is the current canvas under the name `my-drawing.png` |
| App.DrawingApp.Click | darwinz.js:115-123 | a button click moves the object as `Session.Perform`; only Save yields a download, of the current canvas |
| App.DrawingApp.HandleKeyboardShortcuts | darwinz.js:295-310 | the default action is prevented exactly when a button matches; the object moves as `Session.HandleKey` |

## Left out

- Style injection, container, toolbar and button creation, tooltips, the
  active-button class and cursor images (darwinz.js:19-166): presentational DOM work.
- Rasterisation: paint commands are recorded and never turned into pixels.
  This includes the white disc the eraser leaves and the clipping it uses.
- Brush path state: `lineTo` continues the canvas's implicit path, and the
  model does not track that path. `BrushTo` records the move, not which
  segment it strokes. So the model does not capture that the first brush
  move after mouse-down strokes no segment.
- Floating point: the circle keeps its squared radius instead of
  `Math.sqrt`. The eraser's `brushSize / 2` offsets are reduced to a centre
  and a diameter. Pointer positions are integers, while the browser's
  `offsetX`/`offsetY` are doubles.
- `toDataURL` PNG encoding and the link click that downloads the file: a
  snapshot is the canvas value itself, and `DownloadCanvas` returns the file
  name and the image.
- App.DrawingApp.LoadState: `loadState` (darwinz.js:273-280) paints the
  snapshot only when the image's `onload` fires. That can be after later
  handlers have run. The model assigns the canvas at once, so it assumes each
  decode finishes before the next event. Without that, two cases go wrong:
  - `undo` then `clearCanvas`: the white canvas is painted and saved
    (darwinz.js:282-285), then the late `onload` paints the undone snapshot
    over it.
  - `undo` then mousedown: `lastDrawing` captures the pre-undo canvas
    (darwinz.js:188), and every shape move then restores that canvas.

  `Valid()` and the conclusions of `Session.ShapeStroke`,
  `Session.ClickWithoutMove` and `Session.FreshStrokeUndoRedo` hold for the
  source only under this assumption.
- `resizeCanvas` (darwinz.js:63-83): browser layout and lossy pixel copying.
  Canvas dimensions are not modelled. The initial white fill is the `Blank`
  surface.
- Brush size and colour are read from live inputs. They are the `Pen`
  parameter of `Draw`, and the string-to-number coercion of the size input
  is not modelled.
- Tools.ToLower: lower-cases ASCII letters only, not the rest of Unicode.
- With several widgets on one page, the source's `querySelectorAll('.tool-btn')`
  also sees other widgets' buttons. The model looks up only this widget's
  table.
