/** The editor as the script runs it: module-level variables updated in place by event
    listeners. Each method updates the fields as its listener does and is proved to act as
    its function in `Interaction` says: the one of the same name, except that
    `SelectElement` acts as `Select` and `Reset` as `ResetTools` (`ResetColors` only sets
    the inputs). The listener methods that a user action triggers keep the invariant of
    `Invariants`. */
module Editors {
  import opened Geometry
  import opened Styles
  import opened Scene
  import opened History
  import I = Interaction
  import Invariants

  class Editor {
    var canvas: seq<Id>
    var nodes: map<Id, Node>
    var nextId: Id
    var selected: Option<Id>
    var highlight: bool
    var currentShape: Option<Tool>
    var isDrawing: bool
    var currentPath: Option<Id>
    var drag: Option<I.Drag>
    var inputs: Style
    var lastStyle: Style
    var undo: seq<Record>

    /** The fields, as a value. */
    function Snapshot(): I.EditorState
      reads this
    {
      I.EditorState(canvas, nodes, nextId, selected, highlight, currentShape, isDrawing,
                    currentPath, drag, inputs, lastStyle, undo)
    }

    ghost predicate WellFormed()
      reads this
    {
      I.Wf(Snapshot())
    }

    ghost predicate Valid()
      reads this
    {
      Invariants.Inv(Snapshot())
    }

    /** Page load: the inputs hold their initial values, which the style cache copies. */
    constructor (initial: Style)
      ensures Valid() && Snapshot() == I.Init(initial)
    {
      canvas, nodes, nextId := [], map[], 0;
      selected, highlight := None, false;
      currentShape, isDrawing, currentPath, drag := None, false, None, None;
      inputs, lastStyle := initial, initial;
      undo := [];
      new;
      Invariants.InitInv(initial);
    }

    method ResetColors()
      modifies this
      ensures Snapshot() == old(Snapshot()).(inputs := ResetValues)
    {
      inputs := ResetValues;
    }

    method Deselect()
      modifies this
      ensures Snapshot() == I.Deselect(old(Snapshot()))
    {
      if selected.Some? {
        selected := None;
      }
      if highlight {
        highlight := false;
      }
    }

    /** Returns whether the listener stopped the click's propagation. */
    method SelectElement(id: Id) returns (stopped: bool)
      requires WellFormed() && id in nodes
      modifies this
      ensures stopped == old(currentShape).None?
      ensures Snapshot() == I.Select(old(Snapshot()), id)
    {
      if currentShape.Some? {
        return false;
      }
      stopped := true;
      Deselect();
      selected := Some(id);
      if !highlight {
        highlight := true;
      }
      inputs := Shown(nodes[id].style);
    }

    method StartDragging()
      requires WellFormed() && selected.Some?
      modifies this
      ensures Snapshot() == I.StartDragging(old(Snapshot()))
    {
      var oldPositions := PositionsOf(nodes[selected.value].shape);
      drag := Some(I.Drag(oldPositions, Anchor(oldPositions)));
    }

    method DragMove(p: Point)
      requires WellFormed() && drag.Some?
      modifies this
      ensures Snapshot() == I.DragMove(old(Snapshot()), p)
    {
      if selected.None? {
        return;
      }
      var id := selected.value;
      var n := nodes[id];
      var start := drag.value.start;
      nodes := nodes[id := n.(shape := DragStep(n.shape, start, p))];
      if n.shape.Line? {
        drag := Some(drag.value.(start := p));
      }
    }

    method StopDragging()
      requires WellFormed() && drag.Some?
      modifies this
      ensures Snapshot() == I.StopDragging(old(Snapshot()))
    {
      var oldPositions := drag.value.oldPositions;
      drag := None;
      if selected.None? {
        return;
      }
      var newPositions := PositionsOf(nodes[selected.value].shape);
      if oldPositions != newPositions {
        undo := undo + [Move(selected.value, oldPositions, newPositions)];
      }
    }

    method DeleteElement(id: Id)
      requires WellFormed() && id in canvas
      modifies this
      ensures Snapshot() == I.DeleteElement(old(Snapshot()), id)
    {
      undo := undo + [Delete(id)];
      canvas := Without(canvas, id);
      if selected == Some(id) {
        Deselect();
      }
    }

    method PlaceShape(tool: Tool, p: Point)
      requires WellFormed()
      modifies this
      ensures Snapshot() == I.PlaceShape(old(Snapshot()), tool, p)
    {
      var id := nextId;
      nextId := nextId + 1;
      nodes := nodes[id := Node(Placed(tool, p), inputs)];
      canvas := canvas + [id];
      undo := undo + [Add(id)];
      Deselect();
    }

    method CanvasClick(t: I.Target, p: Point)
      requires WellFormed()
      modifies this
      ensures Snapshot() == I.CanvasClick(old(Snapshot()), t, p)
    {
      if currentShape.Some? {
        PlaceShape(currentShape.value, p);
      } else if t == I.Background && selected.Some? {
        Deselect();
      }
    }

    method BeginPath(p: Point)
      requires WellFormed()
      modifies this
      ensures Snapshot() == I.BeginPath(old(Snapshot()), p)
    {
      if !isDrawing {
        return;
      }
      var id := nextId;
      nextId := nextId + 1;
      nodes := nodes[id := Node(Path([p]), Style(inputs.stroke, inputs.strokeWidth, "none"))];
      canvas := canvas + [id];
      undo := undo + [Add(id)];
      currentPath := Some(id);
    }

    method ExtendPath(p: Point)
      requires WellFormed()
      modifies this
      ensures Snapshot() == I.ExtendPath(old(Snapshot()), p)
    {
      if !isDrawing || currentPath.None? {
        return;
      }
      var id := currentPath.value;
      var n := nodes[id];
      nodes := nodes[id := n.(shape := Path(n.shape.points + [p]))];
    }

    method EndPath()
      modifies this
      ensures Snapshot() == I.EndPath(old(Snapshot()))
    {
      if isDrawing {
        currentPath := None;
      }
    }

    // The listeners a user action triggers, in the order the browser calls them.

    method Click(t: I.Target, p: Point)
      requires Valid() && I.OnCanvas(Snapshot(), t)
      modifies this
      ensures Valid() && Snapshot() == I.Click(old(Snapshot()), t, p)
    {
      Invariants.StepPreservesInv(Snapshot(), I.ClickOn(t, p));
      var stopped := false;
      if t.Element? && !nodes[t.id].shape.Path? {
        stopped := SelectElement(t.id);
      }
      if !stopped {
        CanvasClick(t, p);
      }
    }

    method MouseDown(t: I.Target, p: Point)
      requires Valid() && I.OnCanvas(Snapshot(), t)
      modifies this
      ensures Valid() && Snapshot() == I.MouseDown(old(Snapshot()), t, p)
    {
      Invariants.StepPreservesInv(Snapshot(), I.PressOn(t, p));
      if t.Element? && selected == Some(t.id) {
        StartDragging();
      }
      BeginPath(p);
    }

    method MouseMove(p: Point)
      requires Valid()
      modifies this
      ensures Valid() && Snapshot() == I.MouseMove(old(Snapshot()), p)
    {
      Invariants.StepPreservesInv(Snapshot(), I.MoveTo(p));
      ExtendPath(p);
      if drag.Some? {
        DragMove(p);
      }
    }

    method MouseUp()
      requires Valid()
      modifies this
      ensures Valid() && Snapshot() == I.MouseUp(old(Snapshot()))
    {
      Invariants.StepPreservesInv(Snapshot(), I.Release);
      EndPath();
      if drag.Some? {
        StopDragging();
      }
    }

    method ContextMenu(t: I.Target)
      requires Valid() && I.OnCanvas(Snapshot(), t)
      modifies this
      ensures Valid() && Snapshot() == I.ContextMenu(old(Snapshot()), t)
    {
      Invariants.StepPreservesInv(Snapshot(), I.ContextMenuOn(t));
      if t.Element? && !nodes[t.id].shape.Path? {
        DeleteElement(t.id);
      }
    }

    /** A shape tool's button. */
    method ChooseShape(tool: Tool)
      requires Valid()
      modifies this
      ensures Valid() && Snapshot() == I.ChooseShape(old(Snapshot()), tool)
    {
      Invariants.StepPreservesInv(Snapshot(), I.ToolButton(tool));
      currentShape := Some(tool);
      ResetColors();
      Deselect();
    }

    /** The freehand button. */
    method ChoosePath()
      requires Valid()
      modifies this
      ensures Valid() && Snapshot() == I.ChoosePath(old(Snapshot()))
    {
      Invariants.StepPreservesInv(Snapshot(), I.PathButton);
      currentShape := None;
      Deselect();
      isDrawing := true;
    }

    /** The reset button. */
    method Reset()
      requires Valid()
      modifies this
      ensures Valid() && Snapshot() == I.ResetTools(old(Snapshot()))
    {
      Invariants.StepPreservesInv(Snapshot(), I.ResetButton);
      currentShape := None;
      isDrawing := false;
      Deselect();
      ResetColors();
    }

    /** An `input` event of the input for `a`, whose value the user has set to `v`. */
    method StyleInput(a: Attr, v: string)
      requires Valid()
      modifies this
      ensures Valid() && Snapshot() == I.StyleInput(old(Snapshot()), a, v)
    {
      Invariants.StepPreservesInv(Snapshot(), I.InputEvent(a, v));
      inputs := Set(inputs, a, v);
      if selected.Some? {
        var n := nodes[selected.value];
        nodes := nodes[selected.value := n.(style := Set(n.style, a, v))];
      }
    }

    /** A `change` event of the input for `a`. */
    method StyleChange(a: Attr)
      requires Valid()
      modifies this
      ensures Valid() && Snapshot() == I.StyleChange(old(Snapshot()), a)
    {
      Invariants.StepPreservesInv(Snapshot(), I.ChangeEvent(a));
      if selected.None? {
        return;
      }
      var oldValue := Get(lastStyle, a);
      var newValue := Get(inputs, a);
      if oldValue != newValue {
        undo := undo + [Restyle(selected.value, a, oldValue)];
        lastStyle := Set(lastStyle, a, newValue);
      }
    }

    /** `undoAction`, the undo button's listener. */
    method Undo()
      requires Valid()
      modifies this
      ensures Valid() && Snapshot() == I.Undo(old(Snapshot()))
    {
      Invariants.StepPreservesInv(Snapshot(), I.UndoButton);
      if undo == [] {
        return;
      }
      var last := undo[|undo| - 1];
      undo := undo[..|undo| - 1];
      match last
      case Add(id) =>
        canvas := Without(canvas, id);
        if selected == Some(id) {
          Deselect();
        }
      case Delete(id) =>
        canvas := canvas + [id];
      case Restyle(id, a, v) =>
        var n := nodes[id];
        nodes := nodes[id := n.(style := Set(n.style, a, v))];
        if selected == Some(id) {
          inputs := Set(inputs, a, v);
        }
      case Move(id, oldPositions, _) =>
        var n := nodes[id];
        nodes := nodes[id := n.(shape := Reposition(n.shape, oldPositions))];
    }
  }
}
