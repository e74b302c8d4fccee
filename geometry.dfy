/** The shape arguments `draw` computes from the anchor of a stroke (where the
    mouse went down) and the current pointer position. */
module Geometry {

  /** A pointer position in canvas pixels (`offsetX`, `offsetY`). */
  datatype Point = Point(x: int, y: int)

  /** The arguments of the canvas call `rect(x, y, w, h)`; `w` and `h` may be negative. */
  datatype Rect = Rect(x: int, y: int, w: int, h: int)

  /** A full circle `arc(center, r, 0, 2*PI)`, kept by its squared radius so that
      no square root is needed. */
  datatype Arc = Arc(center: Point, radiusSquared: nat)

  /** `n * n`; the negative case multiplies two non-negative numbers so that
      the result is seen to be a `nat` without nonlinear reasoning. */
  function Square(n: int): nat
  {
    if n < 0 then (-n) * (-n) else n * n
  }

  function Min(a: int, b: int): int { if a <= b then a else b }
  function Max(a: int, b: int): int { if a <= b then b else a }

  /** Whether `v` lies in the closed interval spanned by `a` and `b`, in either order. */
  predicate Between(a: int, b: int, v: int)
  {
    Min(a, b) <= v <= Max(a, b)
  }

  /** The closed box a signed rectangle covers once its width and height are normalised. */
  predicate Covers(r: Rect, p: Point)
  {
    Between(r.x, r.x + r.w, p.x) && Between(r.y, r.y + r.h, p.y)
  }

  /** Whether `p` lies on the outline of the circle. */
  predicate OnArc(c: Arc, p: Point)
  {
    Square(p.x - c.center.x) + Square(p.y - c.center.y) == c.radiusSquared
  }

  /** The rectangle tool's `rect` arguments: one corner at the anchor, the
      opposite corner at the pointer, whatever side of the anchor it is on. */
  function RectArgs(anchor: Point, pointer: Point): (r: Rect)
    ensures r.x == anchor.x && r.y == anchor.y
    ensures r.x + r.w == pointer.x && r.y + r.h == pointer.y
  {
    Rect(anchor.x, anchor.y, pointer.x - anchor.x, pointer.y - anchor.y)
  }

  /** The circle tool's `arc` arguments: centred at the anchor, passing through the pointer. */
  function CircleArgs(anchor: Point, pointer: Point): (c: Arc)
    ensures c.center == anchor
    ensures OnArc(c, pointer)
  {
    Arc(anchor, Square(pointer.x - anchor.x) + Square(pointer.y - anchor.y))
  }

  /** A rectangle dragged up or left of its anchor (negative width or height)
      still covers exactly the box whose opposite corners are the two points. */
  lemma RectSpansBothPoints(anchor: Point, pointer: Point, q: Point)
    ensures Covers(RectArgs(anchor, pointer), q)
        <==> Between(anchor.x, pointer.x, q.x) && Between(anchor.y, pointer.y, q.y)
    ensures Covers(RectArgs(anchor, pointer), anchor) && Covers(RectArgs(anchor, pointer), pointer)
  {
  }

  lemma SquareZero(n: int)
    ensures Square(n) == 0 <==> n == 0
  {
    if n > 0 {
      assert n * n >= n;
    } else if n < 0 {
      assert (-n) * (-n) >= -n;
    }
  }

  /** The circle collapses to a point exactly when the pointer is back at the anchor. */
  lemma {:induction false} DegenerateCircle(anchor: Point, pointer: Point)
    ensures CircleArgs(anchor, pointer).radiusSquared == 0 <==> pointer == anchor
  {
    SquareZero(pointer.x - anchor.x);
    SquareZero(pointer.y - anchor.y);
  }

  /** Swapping anchor and pointer gives a circle of the same radius. */
  lemma CircleRadiusSymmetric(a: Point, b: Point)
    ensures CircleArgs(a, b).radiusSquared == CircleArgs(b, a).radiusSquared
  {
  }

  /** Anchor (10,10) and pointer (13,14): a 3-4-5 triangle, radius 5. */
  lemma ThreeFourFive()
    ensures CircleArgs(Point(10, 10), Point(13, 14)) == Arc(Point(10, 10), 25)
  {
  }
}
