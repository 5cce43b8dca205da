/** Shape geometry of the SVG editor: the attributes a drawn element carries, the
    positional subset that a drag records and an undo restores, the default shapes the
    tools place, and one step of a drag. */
module Geometry {

  /** A canvas-local point (the mouse position minus the canvas's client offset). */
  datatype Point = Point(x: real, y: real)

  /** The shape tools (the values of `currentShape`). */
  datatype Tool = LineTool | EllipseTool | RectTool | CircleTool | SquareTool

  /** The geometry of an SVG element. A square is an SVG `rect`, so there is no square
      geometry; a freehand path is its list of points. */
  datatype Shape =
    | Line(x1: real, y1: real, x2: real, y2: real)
    | Rect(x: real, y: real, width: real, height: real)
    | Ellipse(cx: real, cy: real, rx: real, ry: real)
    | Circle(cx: real, cy: real, r: real)
    | Path(points: seq<Point>)

  /** The positional attributes a drag captures: `x,y` of a rect, `cx,cy` of an ellipse or
      circle, all four ends of a line, and nothing (`{}`) for a path. */
  datatype Positions =
    | Corner(x: real, y: real)
    | Center(cx: real, cy: real)
    | Ends(x1: real, y1: real, x2: real, y2: real)
    | NoPositions

  /** `pos` is the kind of positions an element of shape `g` records. */
  predicate Fits(g: Shape, pos: Positions)
  {
    match g
    case Line(_, _, _, _) => pos.Ends?
    case Rect(_, _, _, _) => pos.Corner?
    case Ellipse(_, _, _, _) => pos.Center?
    case Circle(_, _, _) => pos.Center?
    case Path(_) => pos.NoPositions?
  }

  /** Two shapes of the same kind that differ at most in their positional attributes. */
  predicate SameFigure(a: Shape, b: Shape)
  {
    match a
    case Line(_, _, _, _) => b.Line?
    case Rect(_, _, w, h) => b.Rect? && b.width == w && b.height == h
    case Ellipse(_, _, rx, ry) => b.Ellipse? && b.rx == rx && b.ry == ry
    case Circle(_, _, r) => b.Circle? && b.r == r
    case Path(ps) => b.Path? && b.points == ps
  }

  /** Reading the positional attributes (the oldPositions / newPositions objects). */
  function PositionsOf(g: Shape): (pos: Positions)
    ensures Fits(g, pos)
  {
    match g
    case Line(x1, y1, x2, y2) => Ends(x1, y1, x2, y2)
    case Rect(x, y, _, _) => Corner(x, y)
    case Ellipse(cx, cy, _, _) => Center(cx, cy)
    case Circle(cx, cy, _) => Center(cx, cy)
    case Path(_) => NoPositions
  }

  /** Writing positional attributes back, as undo of a move does. Positions of another kind
      leave the shape as it is. */
  function Reposition(g: Shape, pos: Positions): (r: Shape)
    ensures SameFigure(g, r)
    ensures Fits(g, pos) ==> PositionsOf(r) == pos
    ensures !Fits(g, pos) ==> r == g
  {
    match (g, pos)
    case (Line(_, _, _, _), Ends(x1, y1, x2, y2)) => Line(x1, y1, x2, y2)
    case (Rect(_, _, w, h), Corner(x, y)) => Rect(x, y, w, h)
    case (Ellipse(_, _, rx, ry), Center(cx, cy)) => Ellipse(cx, cy, rx, ry)
    case (Circle(_, _, r), Center(cx, cy)) => Circle(cx, cy, r)
    case _ => g
  }

  /** The point a drag tracks at its start (`startX`, `startY`): the rect's corner, the
      centre, or the line's first end. A path has none; the origin stands in for it. */
  function Anchor(pos: Positions): Point
  {
    match pos
    case Corner(x, y) => Point(x, y)
    case Center(cx, cy) => Point(cx, cy)
    case Ends(x1, y1, _, _) => Point(x1, y1)
    case NoPositions => Point(0.0, 0.0)
  }

  /** The element a shape tool places at the clicked point: a 100-unit horizontal line,
      an ellipse with radii 50 and 30, a 100 by 50 rect, a circle of radius 50, or a
      100 by 100 rect for the square tool. */
  function Placed(tool: Tool, p: Point): (g: Shape)
    ensures Anchor(PositionsOf(g)) == p
    ensures g.Line? <==> tool == LineTool
    ensures g.Ellipse? <==> tool == EllipseTool
    ensures g.Circle? <==> tool == CircleTool
    ensures g.Rect? <==> tool == RectTool || tool == SquareTool
    ensures g.Line? ==> g.y2 == g.y1 && g.x2 > g.x1
    ensures g.Rect? ==> (g.width == g.height <==> tool == SquareTool)
  {
    match tool
    case LineTool => Line(p.x, p.y, p.x + 100.0, p.y)
    case EllipseTool => Ellipse(p.x, p.y, 50.0, 30.0)
    case RectTool => Rect(p.x, p.y, 100.0, 50.0)
    case CircleTool => Circle(p.x, p.y, 50.0)
    case SquareTool => Rect(p.x, p.y, 100.0, 100.0)
  }

  /** `b` is `a` moved by `(dx, dy)`. */
  predicate Translated(a: Shape, b: Shape, dx: real, dy: real)
    requires a.Line? && b.Line?
  {
    b.x1 == a.x1 + dx && b.y1 == a.y1 + dy && b.x2 == a.x2 + dx && b.y2 == a.y2 + dy
  }

  /** One mouse move of a drag, with `start` the tracked point: a rect, ellipse or circle
      is put with its anchor on the mouse; a line is moved by the mouse's displacement
      from the tracked point; a path is left alone. */
  function DragStep(g: Shape, start: Point, p: Point): (r: Shape)
    ensures SameFigure(g, r)
    ensures (g.Rect? || g.Ellipse? || g.Circle?) ==> Anchor(PositionsOf(r)) == p
    ensures g.Line? ==> r.Line? && Translated(g, r, p.x - start.x, p.y - start.y)
    ensures g.Path? ==> r == g
  {
    match g
    case Rect(_, _, w, h) => Rect(p.x, p.y, w, h)
    case Ellipse(_, _, rx, ry) => Ellipse(p.x, p.y, rx, ry)
    case Circle(_, _, r) => Circle(p.x, p.y, r)
    case Line(x1, y1, x2, y2) =>
      var dx, dy := p.x - start.x, p.y - start.y;
      Line(x1 + dx, y1 + dy, x2 + dx, y2 + dy)
    case Path(_) => g
  }

  /** The tracked point after a move: only the line branch updates it. */
  function NextStart(g: Shape, start: Point, p: Point): Point
  {
    if g.Line? then p else start
  }

  /** A whole drag gesture: the moves `ps`, in order, starting from the tracked point `start`. */
  function DragGesture(g: Shape, start: Point, ps: seq<Point>): Shape
    decreases |ps|
  {
    if ps == [] then g
    else DragGesture(DragStep(g, start, ps[0]), NextStart(g, start, ps[0]), ps[1..])
  }

  /** Undoing a move restores the shape exactly: whatever a drag did to a shape, writing
      its recorded positions back gives the shape it started from. */
  lemma RepositionRestores(g: Shape, h: Shape)
    requires SameFigure(g, h)
    ensures Reposition(h, PositionsOf(g)) == g
  {
  }

  /** A shape is determined by its figure and its positions, so "the positions did not
      change" means "the shape did not change". */
  lemma SamePositionsSameShape(g: Shape, h: Shape)
    requires SameFigure(g, h)
    ensures PositionsOf(g) == PositionsOf(h) <==> g == h
  {
  }

  /** A drag started as `startDragging` starts it (tracking the shape's own anchor) leaves
      the shape with its anchor on the last mouse position, keeps its figure, and for a
      line keeps the vector from the first end to the second. */
  lemma {:induction false} DragEndsAtMouse(g: Shape, start: Point, ps: seq<Point>)
    requires !g.Path? && ps != []
    requires g.Line? ==> start == Anchor(PositionsOf(g))
    ensures var r := DragGesture(g, start, ps);
      && SameFigure(g, r)
      && Anchor(PositionsOf(r)) == ps[|ps| - 1]
      && (g.Line? ==> r.x2 - r.x1 == g.x2 - g.x1 && r.y2 - r.y1 == g.y2 - g.y1)
    decreases |ps|
  {
    var g', start' := DragStep(g, start, ps[0]), NextStart(g, start, ps[0]);
    if |ps| > 1 {
      DragEndsAtMouse(g', start', ps[1..]);
      assert ps[1..][|ps[1..]| - 1] == ps[|ps| - 1];
    }
  }
}
