/** The `DrawingApp` widget's drawing-and-history engine as a class whose
    fields the event handlers update in place. */
module App {
  import opened Wrappers
  import opened Geometry
  import opened Stroke
  import T = Tools
  import H = UndoHistory
  import S = Session

  /** The file `downloadCanvas` offers: its name and the exported image. */
  datatype Download = Download(filename: string, image: Surface)

  const FileName: string := "my-drawing.png"

  class DrawingApp {
    var surface: Surface
    var undoStack: seq<Surface>
    var redoStack: seq<Surface>
    var isDrawing: bool
    var startX: int
    var startY: int
    var lastDrawing: Surface
    var currentTool: Option<T.Tool>

    /** The object's whole state as a value. */
    function State(): S.AppState
      reads this
    {
      S.AppState(H.History(undoStack, redoStack, surface), isDrawing, startX, startY, lastDrawing, currentTool)
    }

    ghost predicate Valid()
      reads this
    {
      S.Valid(State())
    }

    /** Set-up: the canvas is filled white, then the history is seeded. The
        stroke fields and the tool, undefined in the widget until first used,
        start as "not drawing" and "no tool". */
    constructor ()
      ensures Valid()
      ensures State() == S.Init()
    {
      surface := Blank;
      undoStack, redoStack := [], [];
      isDrawing := false;
      startX, startY := 0, 0;
      lastDrawing := Blank;
      currentTool := None;
      new;
      SetupStateManagement();
    }

    /** `setupStateManagement`: empty both stacks, then save the current canvas. */
    method SetupStateManagement()
      modifies this`undoStack, this`redoStack
      ensures undoStack == [surface] && redoStack == []
      ensures State() == old(State()).(history := H.Init(surface))
    {
      undoStack := [];
      redoStack := [];
      SaveState();
    }

    /** `saveState`: push the canvas onto the undo stack, drop the redo stack. */
    method SaveState()
      modifies this`undoStack, this`redoStack
      ensures State() == old(State()).(history := H.Commit(old(State()).history))
    {
      undoStack := undoStack + [surface];
      redoStack := [];
    }

    /** `loadState`: the canvas shows the given snapshot (taken as immediate here). */
    method LoadState(snapshot: Surface)
      modifies this`surface
      ensures surface == snapshot
    {
      surface := snapshot;
    }

    method Undo()
      requires Valid()
      modifies this`undoStack, this`redoStack, this`surface
      ensures Valid()
      ensures State() == old(State()).(history := H.Undo(old(State()).history))
    {
      if |undoStack| > 1 {
        var top := undoStack[|undoStack| - 1];
        undoStack := undoStack[..|undoStack| - 1];
        redoStack := redoStack + [top];
        LoadState(undoStack[|undoStack| - 1]);
      }
    }

    method Redo()
      requires Valid()
      modifies this`undoStack, this`redoStack, this`surface
      ensures Valid()
      ensures State() == old(State()).(history := H.Redo(old(State()).history))
    {
      if |redoStack| > 0 {
        undoStack := undoStack + [redoStack[|redoStack| - 1]];
        var top := redoStack[|redoStack| - 1];
        redoStack := redoStack[..|redoStack| - 1];
        LoadState(top);
      }
    }

    method ClearCanvas()
      requires Valid()
      modifies this`surface, this`undoStack, this`redoStack
      ensures Valid()
      ensures State() == S.Clear(old(State()))
    {
      surface := surface + [FillWhite];
      SaveState();
    }

    method StartDrawing(p: Point)
      requires Valid()
      modifies this`isDrawing, this`startX, this`startY, this`lastDrawing
      ensures Valid()
      ensures State() == S.StartDrawing(old(State()), p)
    {
      isDrawing := true;
      startX := p.x;
      startY := p.y;
      lastDrawing := surface;
    }

    method Draw(p: Point, pen: Pen)
      requires Valid()
      modifies this`surface
      ensures Valid()
      ensures State() == S.Draw(old(State()), p, pen)
    {
      if !isDrawing {
        return;
      }
      if currentTool.Some? && IsShape(currentTool.value) {
        surface := lastDrawing;
      }
      match currentTool {
        case None =>
        case Some(t) =>
          match t {
            case Brush => surface := surface + [BrushTo(p, pen)];
            case Eraser => surface := surface + [EraseAt(p, pen.size)];
            case Line => surface := surface + [StrokeLine(Point(startX, startY), p, pen)];
            case Rectangle => surface := surface + [StrokeRect(RectArgs(Point(startX, startY), p), pen)];
            case Circle => surface := surface + [StrokeArc(CircleArgs(Point(startX, startY), p), pen)];
          }
      }
    }

    method StopDrawing()
      requires Valid()
      modifies this`isDrawing, this`undoStack, this`redoStack
      ensures Valid()
      ensures State() == S.StopDrawing(old(State()))
    {
      if !isDrawing {
        return;
      }
      isDrawing := false;
      SaveState();
    }

    method SetTool(t: T.Tool)
      requires Valid()
      modifies this`currentTool
      ensures Valid()
      ensures State() == S.SetTool(old(State()), t)
    {
      currentTool := Some(t);
    }

    /** `downloadCanvas`: export the canvas under the fixed file name. */
    method DownloadCanvas() returns (file: Download)
      ensures file.filename == FileName && file.image == surface
    {
      file := Download(FileName, surface);
    }

    /** A toolbar button's click handler. */
    method Click(c: T.Command) returns (download: Option<Download>)
      requires Valid()
      modifies this
      ensures Valid()
      ensures State() == S.Perform(old(State()), c)
      ensures download == if c == T.Save then Some(Download(FileName, surface)) else None
    {
      download := None;
      match c {
        case SelectTool(t) => SetTool(t);
        case Undo => Undo();
        case Redo => Redo();
        case Clear => ClearCanvas();
        case Save =>
          var file := DownloadCanvas();
          download := Some(file);
      }
    }

    /** `handleKeyboardShortcuts`: `prevented` tells whether the browser's default
        action was suppressed, which happens exactly when a button was clicked. */
    method HandleKeyboardShortcuts(e: T.KeyEvent) returns (prevented: bool, download: Option<Download>)
      requires Valid()
      modifies this
      ensures Valid()
      ensures prevented <==> T.Dispatch(e).Some?
      ensures State() == S.HandleKey(old(State()), e)
      ensures download == if T.Dispatch(e) == Some(T.Save) then Some(Download(FileName, surface)) else None
    {
      prevented, download := false, None;
      var c := T.Dispatch(e);
      if c.Some? {
        prevented := true;
        download := Click(c.value);
      }
    }
  }
}
