/** The drawing widget's whole state and its transitions as values: the
    specification the `DrawingApp` class is proved against. */
module Session {
  import opened Wrappers
  import opened Geometry
  import opened Stroke
  import T = Tools
  import H = UndoHistory

  /** The canvas and its history, the stroke session (`isDrawing`, the anchor
      `startX`/`startY`, the pre-stroke snapshot `lastDrawing`) and the chosen tool. */
  datatype AppState = AppState(
    history: H.History<Surface>,
    isDrawing: bool,
    startX: int,
    startY: int,
    lastDrawing: Surface,
    currentTool: Option<T.Tool>)

  /** The undo stack is never empty, and between strokes the canvas shows its top. */
  ghost predicate Valid(st: AppState)
  {
    H.Valid(st.history) && (!st.isDrawing ==> H.Settled(st.history))
  }

  function Anchor(st: AppState): Point
  {
    Point(st.startX, st.startY)
  }

  /** After set-up: a white canvas saved once, no stroke and no tool chosen. */
  function Init(): (st: AppState)
    ensures Valid(st) && !st.isDrawing && st.currentTool == None
    ensures st.history.undo == [Blank] && st.history.redo == [] && st.history.surface == Blank
  {
    AppState(H.Init(Blank), false, 0, 0, Blank, None)
  }

  /** `startDrawing`: enter a stroke, remember the anchor and the canvas as it is. */
  function StartDrawing(st: AppState, p: Point): (r: AppState)
    ensures Valid(st) ==> Valid(r)
    ensures r.isDrawing && Anchor(r) == p && r.lastDrawing == st.history.surface
    ensures r.history == st.history && r.currentTool == st.currentTool
  {
    st.(isDrawing := true, startX := p.x, startY := p.y, lastDrawing := st.history.surface)
  }

  /** `draw`: ignored between strokes; during one, repaint per `DrawEffect`. */
  function Draw(st: AppState, p: Point, pen: Pen): (r: AppState)
    ensures Valid(st) ==> Valid(r)
    ensures !st.isDrawing ==> r == st
    ensures r.history.undo == st.history.undo && r.history.redo == st.history.redo
    ensures r.(history := st.history) == st
  {
    if !st.isDrawing then st
    else st.(history := st.history.(surface := DrawEffect(st.currentTool, Anchor(st), st.lastDrawing, st.history.surface, p, pen)))
  }

  /** `stopDrawing`: ignored between strokes; otherwise leave the stroke and save
      exactly one snapshot (the canvas as drawn), emptying the redo stack. */
  function StopDrawing(st: AppState): (r: AppState)
    ensures Valid(st) ==> Valid(r)
    ensures !st.isDrawing ==> r == st
    ensures st.isDrawing ==> !r.isDrawing && r.history == H.Commit(st.history)
    ensures st.isDrawing ==> r.history.undo == st.history.undo + [st.history.surface] && r.history.redo == []
    ensures r.(isDrawing := st.isDrawing, history := st.history) == st
  {
    if !st.isDrawing then st
    else st.(isDrawing := false, history := H.Commit(st.history))
  }

  /** `setTool`: only the chosen tool changes. */
  function SetTool(st: AppState, t: T.Tool): (r: AppState)
    ensures Valid(st) ==> Valid(r)
    ensures r.currentTool == Some(t) && r.(currentTool := st.currentTool) == st
  {
    st.(currentTool := Some(t))
  }

  /** `clearCanvas`: paint the canvas white and save it. */
  function Clear(st: AppState): (r: AppState)
    ensures Valid(st) ==> Valid(r)
    ensures r.history.surface == st.history.surface + [FillWhite]
    ensures r.history.undo == st.history.undo + [r.history.surface] && r.history.redo == []
    ensures r.(history := st.history) == st
  {
    st.(history := H.Commit(st.history.(surface := st.history.surface + [FillWhite])))
  }

  /** A toolbar button's click; Save downloads the canvas and changes no state. */
  function Perform(st: AppState, c: T.Command): (r: AppState)
    ensures Valid(st) ==> Valid(r)
    ensures c.SelectTool? ==> r == SetTool(st, c.tool)
    ensures c == T.Undo ==> r == st.(history := H.Undo(st.history))
    ensures c == T.Redo ==> r == st.(history := H.Redo(st.history))
    ensures c == T.Clear ==> r == Clear(st)
    ensures c == T.Save ==> r == st
  {
    match c
    case SelectTool(t) => SetTool(st, t)
    case Undo => st.(history := H.Undo(st.history))
    case Redo => st.(history := H.Redo(st.history))
    case Clear => Clear(st)
    case Save => st
  }

  /** `handleKeyboardShortcuts`: click the button the key press selects, if any. */
  function HandleKey(st: AppState, e: T.KeyEvent): (r: AppState)
    ensures Valid(st) ==> Valid(r)
    ensures !T.ShortcutsEnabled(e) ==> r == st
    ensures T.Dispatch(e) == None ==> r == st
    ensures T.Dispatch(e).Some? ==> r == Perform(st, T.Dispatch(e).value)
  {
    match T.Dispatch(e)
    case None => st
    case Some(c) => Perform(st, c)
  }

  /** A run of pointer moves during one stroke. */
  function Moves(st: AppState, points: seq<Point>, pen: Pen): AppState
    decreases |points|
  {
    if points == [] then st else Moves(Draw(st, points[0], pen), points[1..], pen)
  }

  /** However many moves a shape tool makes, the canvas ends up as the pre-stroke
      snapshot with exactly one preview on it, the one for the last pointer
      position; nothing else in the state changes. */
  lemma {:induction false} ShapeMovesKeepOnePreview(st: AppState, t: T.Tool, points: seq<Point>, pen: Pen)
    requires st.isDrawing && st.currentTool == Some(t) && IsShape(t) && |points| > 0
    ensures Moves(st, points, pen)
         == st.(history := st.history.(surface := st.lastDrawing + [Preview(t, Anchor(st), points[|points| - 1], pen)]))
    decreases |points|
  {
    var next := Draw(st, points[0], pen);
    if |points| > 1 {
      ShapeMovesKeepOnePreview(next, t, points[1..], pen);
    }
  }

  /** Pointer moves change only what the canvas shows. */
  lemma {:induction false} MovesOnlyPaint(st: AppState, points: seq<Point>, pen: Pen)
    ensures var m := Moves(st, points, pen);
            m == st.(history := st.history.(surface := m.history.surface))
    decreases |points|
  {
    if points != [] {
      var next := Draw(st, points[0], pen);
      MovesOnlyPaint(next, points[1..], pen);
      var m := Moves(next, points[1..], pen);
      assert m == next.(history := next.history.(surface := m.history.surface));
      assert next == st.(history := st.history.(surface := next.history.surface));
    }
  }

  /** The brush and the eraser accumulate: move `i` adds, on top of what the
      canvas already shows, a brush stroke to `points[i]` or an erased disc of
      the pen's size centred at `points[i]`. */
  lemma {:induction false} FreehandMovesAccumulate(st: AppState, points: seq<Point>, pen: Pen)
    requires st.isDrawing && (st.currentTool == Some(T.Brush) || st.currentTool == Some(T.Eraser))
    ensures Moves(st, points, pen).history.surface
         == st.history.surface
            + seq(|points|, i requires 0 <= i < |points| =>
                if st.currentTool == Some(T.Brush) then BrushTo(points[i], pen) else EraseAt(points[i], pen.size))
    decreases |points|
  {
    if points != [] {
      var next := Draw(st, points[0], pen);
      FreehandMovesAccumulate(next, points[1..], pen);
      var rest := points[1..];
      var f := (p: Point) => if st.currentTool == Some(T.Brush) then BrushTo(p, pen) else EraseAt(p, pen.size);
      assert next.history.surface == st.history.surface + [f(points[0])];
      var tail := seq(|rest|, i requires 0 <= i < |rest| => f(rest[i]));
      var whole := seq(|points|, i requires 0 <= i < |points| => f(points[i]));
      assert [f(points[0])] + tail == whole;
    }
  }

  /** One complete shape stroke between strokes (mouse down at `p0`, at least one
      move, mouse up) saves exactly one snapshot: the old canvas with the final
      preview on it; the redo stack is emptied. */
  lemma {:induction false} ShapeStroke(st: AppState, t: T.Tool, p0: Point, points: seq<Point>, pen: Pen)
    requires Valid(st) && !st.isDrawing && st.currentTool == Some(t) && IsShape(t) && |points| > 0
    ensures var r := StopDrawing(Moves(StartDrawing(st, p0), points, pen));
            Valid(r) && !r.isDrawing
            && r.history.undo == st.history.undo + [st.history.surface + [Preview(t, p0, points[|points| - 1], pen)]]
            && r.history.redo == []
  {
    var s := StartDrawing(st, p0);
    ShapeMovesKeepOnePreview(s, t, points, pen);
  }

  /** A press and release without a move still saves a snapshot, a copy of the
      current one, so the next undo leaves the canvas as it was. */
  lemma ClickWithoutMove(st: AppState, p: Point)
    requires Valid(st) && !st.isDrawing
    ensures var r := StopDrawing(StartDrawing(st, p));
            && r.history.undo == st.history.undo + [st.history.surface]
            && H.Undo(r.history).surface == st.history.surface
            && H.Undo(r.history).undo == st.history.undo
  {
    var r := StopDrawing(StartDrawing(st, p));
    assert r.history.undo[..|r.history.undo| - 1] == st.history.undo;
  }

  /** The fresh-widget scenario: one brush stroke saves a second entry, undo
      shows the blank canvas again, and redo returns to the drawn state. */
  lemma {:induction false} FreshStrokeUndoRedo(p0: Point, points: seq<Point>, pen: Pen)
    ensures var drawn := StopDrawing(Moves(StartDrawing(SetTool(Init(), T.Brush), p0), points, pen));
            var undone := H.Undo(drawn.history);
            var redone := H.Redo(undone);
            && |drawn.history.undo| == 2 && drawn.history.redo == []
            && undone.surface == Blank && |undone.undo| == 1 && |undone.redo| == 1
            && redone == drawn.history && redone.redo == []
  {
    var started := StartDrawing(SetTool(Init(), T.Brush), p0);
    FreehandMovesAccumulate(started, points, pen);
    MovesOnlyPaint(started, points, pen);
    var drawn := StopDrawing(Moves(started, points, pen));
    assert |drawn.history.undo| == 2;
    H.UndoThenRedo(drawn.history);
  }
}
