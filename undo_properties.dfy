/** What undoing each kind of record gives back, and the other promises of the editor's
    handlers, stated over all states that satisfy the invariant. */
module UndoProperties {
  import opened Geometry
  import opened Styles
  import opened Scene
  import opened History
  import opened Interaction
  import opened Invariants

  /** A click with a shape tool active, on anything, places exactly one new element with
      the tool's geometry at the click and the inputs' styles, pushes one add record, leaves
      nothing selected and the tool active; undoing it gives back the canvas and the stack. */
  lemma ClickWithToolPlaces(s: EditorState, t: Target, p: Point, tool: Tool)
    requires Inv(s) && OnCanvas(s, t) && s.currentShape == Some(tool)
    ensures var r := Click(s, t, p);
      && r.canvas == s.canvas + [s.nextId]
      && s.nextId !in s.canvas
      && r.nodes == s.nodes[s.nextId := Node(Placed(tool, p), s.inputs)]
      && r.undo == s.undo + [Add(s.nextId)]
      && r.selected == None && r.currentShape == s.currentShape
      && r.lastStyle == s.lastStyle && r.inputs == s.inputs
      && r.nextId == s.nextId + 1
      && r.(canvas := s.canvas, nodes := s.nodes, nextId := s.nextId, undo := s.undo,
            selected := s.selected, highlight := s.highlight) == s
    ensures var u := Undo(Click(s, t, p));
      u.canvas == s.canvas && u.undo == s.undo && u.selected == None
  {
    assert s.nextId !in s.canvas;
    WithoutAppended(s.canvas, s.nextId);
  }

  /** Undoing an add record takes its element off the canvas and out of the selection,
      and changes nothing else that is visible. */
  lemma UndoAdd(s: EditorState)
    requires Inv(s) && s.undo != [] && s.undo[|s.undo| - 1].Add?
    ensures var id, u := s.undo[|s.undo| - 1].id, Undo(s);
      && id in s.canvas && id !in u.canvas
      && |u.canvas| == |s.canvas| - 1
      && (forall x :: x != id ==> (x in u.canvas <==> x in s.canvas))
      && u.canvas == Without(s.canvas, id)
      && (forall i :: 0 <= i < |s.canvas| && s.canvas[i] == id ==> u.canvas == s.canvas[..i] + s.canvas[i + 1..])
      && u.nodes == s.nodes && u.inputs == s.inputs
      && u.selected == (if s.selected == Some(id) then None else s.selected)
      && u.undo == s.undo[..|s.undo| - 1]
  {
    var below, top := s.undo[..|s.undo| - 1], s.undo[|s.undo| - 1];
    assert s.undo == below + [top];
    PresenceAfterPush(below, top, top.id);
    forall i | 0 <= i < |s.canvas| && s.canvas[i] == top.id
      ensures Without(s.canvas, top.id) == s.canvas[..i] + s.canvas[i + 1..]
    {
      WithoutRemovesAt(s.canvas, top.id, i);
    }
  }

  /** Undoing a delete record, whatever happened since the delete, appends its element,
      which is off the canvas, as the last child; nothing else that is visible changes. */
  lemma UndoDelete(s: EditorState)
    requires Inv(s) && s.undo != [] && s.undo[|s.undo| - 1].Delete?
    ensures var id, u := s.undo[|s.undo| - 1].id, Undo(s);
      && id !in s.canvas
      && u.canvas == s.canvas + [id]
      && u.nodes == s.nodes && u.selected == s.selected && u.inputs == s.inputs
      && u.undo == s.undo[..|s.undo| - 1]
  {
    var below, top := s.undo[..|s.undo| - 1], s.undo[|s.undo| - 1];
    assert s.undo == below + [top];
    PresenceAfterPush(below, top, top.id);
  }

  /** Undoing a style record gives its element's attribute the recorded value and leaves
      everything else of every element alone; the matching input shows the value exactly
      when the element is still the selected one. */
  lemma UndoRestyle(s: EditorState)
    requires Wf(s) && s.undo != [] && s.undo[|s.undo| - 1].Restyle?
    ensures var top, u := s.undo[|s.undo| - 1], Undo(s);
      && Get(u.nodes[top.id].style, top.attr) == top.oldValue
      && (forall b :: b != top.attr ==> Get(u.nodes[top.id].style, b) == Get(s.nodes[top.id].style, b))
      && u.nodes[top.id].shape == s.nodes[top.id].shape
      && (forall x :: x in s.nodes && x != top.id ==> x in u.nodes && u.nodes[x] == s.nodes[x])
      && u.canvas == s.canvas && u.selected == s.selected
      && (u.inputs != s.inputs ==> s.selected == Some(top.id))
      && (s.selected == Some(top.id) ==> Get(u.inputs, top.attr) == top.oldValue)
      && (forall b :: b != top.attr ==> Get(u.inputs, b) == Get(s.inputs, b))
  {
  }

  /** Undoing a move record keeps its element's figure and style and, when the recorded
      positions are of the element's kind, gives it exactly those positions; no other
      element changes. */
  lemma UndoMove(s: EditorState)
    requires Wf(s) && s.undo != [] && s.undo[|s.undo| - 1].Move?
    ensures var top, u := s.undo[|s.undo| - 1], Undo(s);
      && SameFigure(s.nodes[top.id].shape, u.nodes[top.id].shape)
      && (Fits(s.nodes[top.id].shape, top.oldPositions) ==> PositionsOf(u.nodes[top.id].shape) == top.oldPositions)
      && u.nodes[top.id].style == s.nodes[top.id].style
      && (forall x :: x in s.nodes && x != top.id ==> x in u.nodes && u.nodes[x] == s.nodes[x])
      && u.canvas == s.canvas && u.selected == s.selected && u.inputs == s.inputs
  {
  }

  /** Deleting a shape pushes a delete record of it, takes it off the canvas and out of
      the selection; undoing that appends the same element, with the same attributes, as
      the canvas's last child. */
  lemma DeleteThenUndo(s: EditorState, id: Id)
    requires Inv(s) && id in s.canvas && Listens(s, id)
    ensures var d := ContextMenu(s, Element(id));
      && d.undo == s.undo + [Delete(id)]
      && id !in d.canvas && d.nodes == s.nodes
      && d.selected == (if s.selected == Some(id) then None else s.selected)
    ensures var u := Undo(ContextMenu(s, Element(id)));
      && u.canvas == Without(s.canvas, id) + [id]
      && (forall x :: x in u.canvas <==> x in s.canvas)
      && u.nodes == s.nodes && u.undo == s.undo
  {
  }

  /** Committing a style that differs from the cached one pushes a record holding the
      cached value; undoing it gives the selected element's attribute the cached value and
      shows it in the input. The cache itself keeps the committed value. */
  lemma CommitThenUndo(s: EditorState, a: Attr)
    requires Inv(s) && s.selected.Some? && Get(s.lastStyle, a) != Get(s.inputs, a)
    ensures var id, c := s.selected.value, StyleChange(s, a);
      && c.undo == s.undo + [Restyle(id, a, Get(s.lastStyle, a))]
      && Get(c.lastStyle, a) == Get(s.inputs, a)
    ensures var id, u := s.selected.value, Undo(StyleChange(s, a));
      && u.undo == s.undo
      && Get(u.nodes[id].style, a) == Get(s.lastStyle, a)
      && (forall b :: b != a ==> Get(u.nodes[id].style, b) == Get(s.nodes[id].style, b))
      && u.nodes[id].shape == s.nodes[id].shape
      && Get(u.inputs, a) == Get(s.lastStyle, a)
      && Get(u.lastStyle, a) == Get(s.inputs, a)
  {
  }

  /** A style commit that finds nothing selected, or the input equal to the cache, pushes
      nothing, so a following undo reverses the record that was on top before. */
  lemma NoOpCommitNotRecorded(s: EditorState, a: Attr)
    requires Inv(s) && (s.selected.None? || Get(s.lastStyle, a) == Get(s.inputs, a))
    ensures StyleChange(s, a) == s
    ensures Undo(StyleChange(s, a)) == Undo(s)
  {
  }

  /** The cache of committed styles changes only on a commit: not on selection, reset,
      input or undo. */
  lemma CacheChangesOnlyOnCommit(s: EditorState, e: Event)
    requires Inv(s) && Enabled(s, e)
    ensures Step(s, e).lastStyle != s.lastStyle ==> e.ChangeEvent?
  {
  }

  /** The move listener over a series of mouse positions drags the selected element
      through the whole gesture and touches nothing else. */
  lemma {:induction false} DragMovesGesture(s: EditorState, ps: seq<Point>)
    requires Wf(s) && s.drag.Some? && s.selected.Some?
    ensures var id, r := s.selected.value, DragMoves(s, ps);
      && r.nodes == s.nodes[id := s.nodes[id].(shape := DragGesture(s.nodes[id].shape, s.drag.value.start, ps))]
      && r.drag.value.oldPositions == s.drag.value.oldPositions
      && r.(nodes := s.nodes, drag := s.drag) == s
    decreases |ps|
  {
    if ps != [] {
      DragMovesGesture(DragMove(s, ps[0]), ps[1..]);
    }
  }

  /** A drag never changes what kind of figure a shape is. */
  lemma {:induction false} GestureKeepsFigure(g: Shape, start: Point, ps: seq<Point>)
    ensures SameFigure(g, DragGesture(g, start, ps))
    decreases |ps|
  {
    if ps != [] {
      GestureKeepsFigure(DragStep(g, start, ps[0]), NextStart(g, start, ps[0]), ps[1..]);
    }
  }

  /** A full drag of the selected element (press, moves, release) pushes a move record
      exactly when it changed the element, and undoing that record restores every element
      exactly as it was before the press. */
  lemma DragThenUndo(s: EditorState, ps: seq<Point>)
    requires Inv(s) && s.selected.Some?
    ensures var e := StopDragging(DragMoves(StartDragging(s), ps));
      && (e.undo == s.undo <==> e.nodes == s.nodes)
      && (e.undo != s.undo ==> Undo(e).nodes == s.nodes && Undo(e).undo == s.undo)
  {
    var id, n := s.selected.value, s.nodes[s.selected.value];
    var g := n.shape;
    var h := DragGesture(g, Anchor(PositionsOf(g)), ps);
    var d0 := StartDragging(s);
    var d := DragMoves(d0, ps);
    DragMovesGesture(d0, ps);
    GestureKeepsFigure(g, Anchor(PositionsOf(g)), ps);
    SamePositionsSameShape(g, h);
    assert d.nodes == s.nodes[id := n.(shape := h)];
    assert d.selected == Some(id) && d.undo == s.undo;
    assert d.drag.value.oldPositions == PositionsOf(g);
    var e := StopDragging(d);
    if h == g {
      assert d.nodes == s.nodes;
    } else {
      assert d.nodes[id] != s.nodes[id];
      assert e.undo == s.undo + [Move(id, PositionsOf(g), PositionsOf(h))];
      RepositionRestores(g, h);
      assert Undo(e).nodes == d.nodes[id := n];
    }
  }

  /** Clicking a shape with no tool active selects exactly that shape, whatever was
      selected before, and shows its style in the inputs; nothing else changes. */
  lemma ClickSelects(s: EditorState, id: Id, p: Point)
    requires Inv(s) && id in s.canvas && Listens(s, id) && s.currentShape.None?
    ensures var r := Click(s, Element(id), p);
      && r.selected == Some(id) && r.highlight
      && r.inputs == Shown(s.nodes[id].style)
      && r.canvas == s.canvas && r.nodes == s.nodes && r.undo == s.undo
  {
  }

  /** Freehand paths get no listeners: a context-menu request on one does nothing, and with
      no tool active a click on one does nothing either. */
  lemma PathsIgnoreClicks(s: EditorState, id: Id, p: Point)
    requires Inv(s) && id in s.canvas && s.nodes[id].shape.Path?
    ensures ContextMenu(s, Element(id)) == s
    ensures s.currentShape.None? ==> Click(s, Element(id), p) == s
  {
  }

  /** The tool flags do not exclude each other: after the freehand button and then a shape
      button both are on, so a press starts a path and a click places a shape. */
  lemma ToolFlagsIndependent(s: EditorState, tool: Tool, p: Point)
    requires Inv(s)
    ensures var r := Step(Step(s, PathButton), ToolButton(tool));
      && r.isDrawing && r.currentShape == Some(tool)
      && MouseDown(r, Background, p).canvas == r.canvas + [r.nextId]
      && Click(r, Background, p).canvas == r.canvas + [r.nextId]
  {
  }

  /** Mouse moves while a path is drawn extend it and push nothing; a release ends it. */
  lemma FreehandStroke(s: EditorState, p: Point, q: Point)
    requires Inv(s) && s.isDrawing
    ensures var b := MouseDown(s, Background, p);
      && b.undo == s.undo + [Add(s.nextId)]
      && b.canvas == s.canvas + [s.nextId]
      && b.nodes[s.nextId] == Node(Path([p]), Style(s.inputs.stroke, s.inputs.strokeWidth, "none"))
      && b.currentPath == Some(s.nextId)
    ensures var m := MouseMove(MouseDown(s, Background, p), q);
      && m.undo == s.undo + [Add(s.nextId)]
      && m.nodes[s.nextId].shape == Path([p, q])
    ensures MouseUp(MouseMove(MouseDown(s, Background, p), q)).currentPath == None
  {
  }

  /** The state of the rect scenario below: the rect placed at (100, 100) with its corner
      at `corner`, the style inputs and cache as given, and the stack `undo`. */
  function RectState(initial: Style, corner: Point, selected: bool, drag: Option<Drag>,
                     undo: seq<Record>): EditorState
  {
    EditorState([0], map[0 := Node(Rect(corner.x, corner.y, 100.0, 50.0), ResetValues)], 1,
                 if selected then Some(0) else None, selected, None, false, None, drag,
                 ResetValues, initial, undo)
  }

  /** The rect tool, then a click at (100, 100), then the reset button. */
  lemma RectPlaced(initial: Style)
    ensures ResetTools(PlaceShape(ChooseShape(Init(initial), RectTool), RectTool, Point(100.0, 100.0)))
            == RectState(initial, Point(100.0, 100.0), false, None, [Add(0)])
  {
  }

  /** A click on the rect, a press on it, a move to (150, 160), a release. */
  lemma RectDragged(initial: Style)
    ensures var s := Select(RectState(initial, Point(100.0, 100.0), false, None, [Add(0)]), 0);
      StopDragging(DragMove(StartDragging(s), Point(150.0, 160.0)))
      == RectState(initial, Point(150.0, 160.0), true, None,
                   [Add(0), Move(0, Corner(100.0, 100.0), Corner(150.0, 160.0))])
  {
    var s := Select(RectState(initial, Point(100.0, 100.0), false, None, [Add(0)]), 0);
    assert s == RectState(initial, Point(100.0, 100.0), true, None, [Add(0)]);
    var d := StartDragging(s);
    assert d.drag == Some(Drag(Corner(100.0, 100.0), Point(100.0, 100.0)));
    var m := DragMove(d, Point(150.0, 160.0));
    assert m == RectState(initial, Point(150.0, 160.0), true, d.drag, [Add(0)]);
  }

  /** The two undos that end the scenario. */
  lemma RectUndone(initial: Style)
    ensures var s := RectState(initial, Point(150.0, 160.0), true, None,
                               [Add(0), Move(0, Corner(100.0, 100.0), Corner(150.0, 160.0))]);
      && Undo(s) == RectState(initial, Point(100.0, 100.0), true, None, [Add(0)])
      && Undo(Undo(s)).canvas == [] && Undo(Undo(s)).undo == []
  {
    var s := RectState(initial, Point(150.0, 160.0), true, None,
                       [Add(0), Move(0, Corner(100.0, 100.0), Corner(150.0, 160.0))]);
    assert Undo(s) == RectState(initial, Point(100.0, 100.0), true, None, [Add(0)]);
    assert Without([0], 0) == [];
  }

  /** A rect placed at (100, 100), selected, dragged to (150, 160) and released has its
      corner there; one undo puts it back at (100, 100) with its size, a second takes it off
      the canvas. */
  lemma RectScenario(initial: Style)
    ensures
      var s3 := ResetTools(PlaceShape(ChooseShape(Init(initial), RectTool), RectTool, Point(100.0, 100.0)));
      var s7 := StopDragging(DragMove(StartDragging(Select(s3, 0)), Point(150.0, 160.0)));
      && s3.canvas == [0] && s3.nodes[0].shape == Rect(100.0, 100.0, 100.0, 50.0)
      && s7.nodes[0].shape == Rect(150.0, 160.0, 100.0, 50.0)
      && Undo(s7).nodes[0].shape == Rect(100.0, 100.0, 100.0, 50.0)
      && Undo(Undo(s7)).canvas == [] && Undo(Undo(s7)).undo == []
  {
    RectPlaced(initial);
    RectDragged(initial);
    RectUndone(initial);
  }
}
