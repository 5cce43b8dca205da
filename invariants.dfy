/** What stays true of the editor's state through every user action: one selected element
    at most, always a drawn shape on the canvas, highlighted, and never while a shape tool
    is active; and the canvas agrees with the add and delete records on the undo stack,
    which is what `undoAction`'s `removeChild` and `appendChild` take for granted. */
module Invariants {
  import opened Geometry
  import opened Styles
  import opened Scene
  import opened History
  import opened Interaction

  /** An element the undo stack last records as added is on the canvas; one it last records
      as deleted is not. */
  ghost predicate Consistent(s: EditorState)
  {
    forall id :: Presence(s.undo, id).Some? ==> (id in s.canvas <==> Presence(s.undo, id).value)
  }

  ghost predicate Inv(s: EditorState)
  {
    && Wf(s)
    && Distinct(s.canvas)
    && (s.selected.Some? ==> s.selected.value in s.canvas && !s.nodes[s.selected.value].shape.Path?)
    && s.highlight == s.selected.Some?
    && (s.currentShape.Some? ==> s.selected.None?)
    && WellStacked(s.undo)
    && Consistent(s)
  }

  lemma InitInv(initial: Style)
    ensures Inv(Init(initial))
  {
  }

  /** Appending a fresh element and its add record. */
  lemma AddFreshInv(s: EditorState, n: Node, r: EditorState)
    requires Inv(s)
    requires r == s.(nodes := s.nodes[s.nextId := n], nextId := s.nextId + 1,
                     canvas := s.canvas + [s.nextId], undo := s.undo + [Add(s.nextId)])
    requires s.currentPath.Some? ==> r.nodes[s.currentPath.value].shape.Path?
    ensures Inv(r)
  {
    var id := s.nextId;
    assert id !in s.nodes;
    assert id !in s.canvas;
    assert forall i :: 0 <= i < |s.undo| ==> s.undo[i].id != id;
    PresenceNone(s.undo, id);
    WellStackedPush(s.undo, Add(id));
    forall x
      ensures Presence(r.undo, x) == if x == id then Some(true) else Presence(s.undo, x)
    {
      PresenceAfterPush(s.undo, Add(id), x);
    }
  }

  /** Pushing a style or move record. */
  lemma PushOtherInv(s: EditorState, rec: Record, r: EditorState)
    requires Inv(s) && (rec.Restyle? || rec.Move?) && rec.id in s.nodes
    requires r.undo == s.undo + [rec]
    requires r == s.(undo := r.undo, drag := r.drag, lastStyle := r.lastStyle)
    ensures Inv(r)
  {
    WellStackedPush(s.undo, rec);
    forall x ensures Presence(r.undo, x) == Presence(s.undo, x) {
      PresenceAfterPush(s.undo, rec, x);
    }
  }

  lemma SelectInv(s: EditorState, id: Id)
    requires Inv(s) && id in s.canvas && Listens(s, id)
    ensures Inv(Select(s, id))
  {
  }

  lemma DragMoveInv(s: EditorState, p: Point)
    requires Inv(s) && s.drag.Some?
    ensures Inv(DragMove(s, p))
  {
  }

  lemma StopDraggingInv(s: EditorState)
    requires Inv(s) && s.drag.Some?
    ensures Inv(StopDragging(s))
  {
    var r := StopDragging(s);
    if r.undo != s.undo {
      PushOtherInv(s, r.undo[|s.undo|], r);
    }
  }

  lemma DeleteElementInv(s: EditorState, id: Id)
    requires Inv(s) && id in s.canvas
    ensures Inv(DeleteElement(s, id))
  {
    var r := DeleteElement(s, id);
    WellStackedPush(s.undo, Delete(id));
    forall x
      ensures Presence(r.undo, x) == if x == id then Some(false) else Presence(s.undo, x)
    {
      PresenceAfterPush(s.undo, Delete(id), x);
    }
  }

  lemma PlaceShapeInv(s: EditorState, tool: Tool, p: Point)
    requires Inv(s)
    ensures Inv(PlaceShape(s, tool, p))
  {
    var id := s.nextId;
    AddFreshInv(s, Node(Placed(tool, p), s.inputs),
      s.(nodes := s.nodes[id := Node(Placed(tool, p), s.inputs)], nextId := id + 1,
         canvas := s.canvas + [id], undo := s.undo + [Add(id)]));
  }

  lemma BeginPathInv(s: EditorState, p: Point)
    requires Inv(s)
    ensures Inv(BeginPath(s, p))
  {
    if s.isDrawing {
      var id := s.nextId;
      var n := Node(Path([p]), Style(s.inputs.stroke, s.inputs.strokeWidth, "none"));
      var r := s.(nodes := s.nodes[id := n], nextId := id + 1,
                  canvas := s.canvas + [id], undo := s.undo + [Add(id)]);
      AddFreshInv(s, n, r);
    }
  }

  lemma StyleChangeInv(s: EditorState, a: Attr)
    requires Inv(s)
    ensures Inv(StyleChange(s, a))
  {
    var r := StyleChange(s, a);
    if r != s {
      PushOtherInv(s, Restyle(s.selected.value, a, Get(s.lastStyle, a)), r);
    }
  }

  lemma UndoInv(s: EditorState)
    requires Inv(s)
    ensures Inv(Undo(s))
  {
    if s.undo != [] {
      var below, top := s.undo[..|s.undo| - 1], s.undo[|s.undo| - 1];
      assert s.undo == below + [top];
      WellStackedPush(below, top);
      forall x ensures Presence(s.undo, x) == if x == top.id && (top.Add? || top.Delete?) then Some(top.Add?) else Presence(below, x) {
        PresenceAfterPush(below, top, x);
      }
      assert forall i :: 0 <= i < |below| ==> below[i] == s.undo[i];
      if top.Delete? {
        assert top.id !in s.canvas;
      }
    }
  }

  /** Every user action keeps the invariant, so it holds in every state the editor reaches
      from the initial one. */
  lemma StepPreservesInv(s: EditorState, e: Event)
    requires Inv(s) && Enabled(s, e)
    ensures Inv(Step(s, e))
  {
    match e
    case ClickOn(t, p) =>
      if t.Element? && Listens(s, t.id) && s.currentShape.None? {
        SelectInv(s, t.id);
      } else if s.currentShape.Some? {
        PlaceShapeInv(s, s.currentShape.value, p);
      }
    case PressOn(t, p) =>
      var s1 := if t.Element? && s.selected == Some(t.id) then StartDragging(s) else s;
      BeginPathInv(s1, p);
    case MoveTo(p) =>
      var s1 := ExtendPath(s, p);
      if s1.drag.Some? {
        DragMoveInv(s1, p);
      }
    case Release =>
      var s1 := EndPath(s);
      if s1.drag.Some? {
        StopDraggingInv(s1);
      }
    case ContextMenuOn(t) =>
      if t.Element? && Listens(s, t.id) {
        DeleteElementInv(s, t.id);
      }
    case ToolButton(_) =>
    case PathButton =>
    case ResetButton =>
    case UndoButton => UndoInv(s);
    case InputEvent(_, _) =>
    case ChangeEvent(a) => StyleChangeInv(s, a);
  }

  /** A session: the events `es` applied in order from `s`, or `None` if one of them could
      not happen (it lands on something not on the canvas). Every state a session reaches
      satisfies the invariant, so by `InitInv` every state reachable from page load does. */
  ghost function Run(s: EditorState, es: seq<Event>): (r: Option<EditorState>)
    requires Inv(s)
    ensures r.Some? ==> Inv(r.value)
    decreases |es|
  {
    if es == [] then Some(s)
    else if !Enabled(s, es[0]) then None
    else
      StepPreservesInv(s, es[0]);
      Run(Step(s, es[0]), es[1..])
  }
}
