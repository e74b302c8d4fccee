/** The drawing surface as the list of paint commands applied to it since it
    was blank, and what one pointer move during a stroke paints. */
module Stroke {
  import opened Wrappers
  import opened Geometry
  import T = Tools

  /** The brush settings read from the toolbar at each move: the size input's
      value (line width, eraser diameter) and the colour picker's value. */
  datatype Pen = Pen(size: int, color: string)

  /** One paint command on the canvas. */
  datatype Paint =
    | FillWhite                                   // fillRect over the whole canvas in white
    | BrushTo(to: Point, pen: Pen)                // lineTo + stroke along the pen's path
    | EraseAt(center: Point, diameter: int)       // clip to a disc, repaint it white
    | StrokeLine(from: Point, to: Point, pen: Pen)
    | StrokeRect(rect: Rect, pen: Pen)
    | StrokeArc(arc: Arc, pen: Pen)

  type Surface = seq<Paint>

  /** The canvas after set-up: filled white. */
  const Blank: Surface := [FillWhite]

  /** Line, rectangle and circle redraw their preview from the pre-stroke snapshot. */
  predicate IsShape(t: T.Tool)
  {
    t == T.Line || t == T.Rectangle || t == T.Circle
  }

  /** The shape a shape tool strokes for an anchor and a pointer position. */
  function Preview(t: T.Tool, anchor: Point, pointer: Point, pen: Pen): (op: Paint)
    requires IsShape(t)
  {
    match t
    case Line => StrokeLine(anchor, pointer, pen)
    case Rectangle => StrokeRect(RectArgs(anchor, pointer), pen)
    case Circle => StrokeArc(CircleArgs(anchor, pointer), pen)
  }

  /** The surface after one move to `pointer` while a stroke is in progress:
      a shape tool first puts back `pre` (the snapshot taken at mouse-down) and
      strokes its preview on it, the brush and the eraser paint on the current
      surface, and with no tool chosen yet nothing is painted. */
  function DrawEffect(tool: Option<T.Tool>, anchor: Point, pre: Surface, surface: Surface, pointer: Point, pen: Pen): Surface
  {
    match tool
    case None => surface
    case Some(t) =>
      if IsShape(t) then pre + [Preview(t, anchor, pointer, pen)]
      else if t == T.Brush then surface + [BrushTo(pointer, pen)]
      else surface + [EraseAt(pointer, pen.size)]
  }

  /** What one move paints with each tool: a shape tool's preview on the
      pre-stroke snapshot, a brush stroke or an erased disc of the pen's size at
      the pointer on the current canvas, and nothing while no tool is chosen. */
  lemma OneMovePerTool(anchor: Point, pre: Surface, surface: Surface, pointer: Point, pen: Pen)
    ensures DrawEffect(None, anchor, pre, surface, pointer, pen) == surface
    ensures DrawEffect(Some(T.Brush), anchor, pre, surface, pointer, pen) == surface + [BrushTo(pointer, pen)]
    ensures DrawEffect(Some(T.Eraser), anchor, pre, surface, pointer, pen) == surface + [EraseAt(pointer, pen.size)]
    ensures forall t :: IsShape(t) ==> DrawEffect(Some(t), anchor, pre, surface, pointer, pen) == pre + [Preview(t, anchor, pointer, pen)]
  {
  }

  /** A shape tool's move does not depend on what the canvas showed before it. */
  lemma ShapeMoveIgnoresSurface(t: T.Tool, anchor: Point, pre: Surface, s1: Surface, s2: Surface, pointer: Point, pen: Pen)
    requires IsShape(t)
    ensures DrawEffect(Some(t), anchor, pre, s1, pointer, pen) == DrawEffect(Some(t), anchor, pre, s2, pointer, pen)
    ensures DrawEffect(Some(t), anchor, pre, s1, pointer, pen) == pre + [Preview(t, anchor, pointer, pen)]
  {
  }

  /** The rectangle and circle previews carry the arguments the geometry fixes:
      corners at anchor and pointer, and a circle centred at the anchor through the pointer. */
  lemma PreviewShapes(anchor: Point, pointer: Point, pen: Pen)
    ensures Preview(T.Rectangle, anchor, pointer, pen)
         == StrokeRect(Rect(anchor.x, anchor.y, pointer.x - anchor.x, pointer.y - anchor.y), pen)
    ensures var op := Preview(T.Circle, anchor, pointer, pen);
            op.StrokeArc? && op.arc.center == anchor && OnArc(op.arc, pointer)
  {
  }
}
