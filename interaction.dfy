/** The editor's state and its event handlers, as functions from the state before an event
    to the state after it. The class `Editors.Editor` is the imperative model; its methods
    are proved to act as these functions say. */
module Interaction {
  import opened Geometry
  import opened Styles
  import opened Scene
  import opened History

  /** An active drag: the positions captured when the button went down, and the point the
      move handler tracks (`startX`, `startY`). The handlers act on whatever element is
      selected when they run. */
  datatype Drag = Drag(oldPositions: Positions, start: Point)

  /** What a mouse event lands on: empty canvas, an element, or the highlight box (a
      `rect` the editor itself appends to the canvas around the selection). */
  datatype Target = Background | Element(id: Id) | HighlightBox

  /** The editor's state.
      - `canvas`: the canvas's drawn children in paint order (the highlight box is left out
        of it and kept as the flag `highlight`);
      - `nodes`: the attributes of every element created so far, by identity;
      - `nextId`: the identity the next created element gets;
      - `selected`, `currentShape`, `isDrawing`, `currentPath`: the module-level variables
        of the same names (`selectedElement` is `selected`);
      - `drag`: the drag in progress, if any (`isDragging` is `drag.Some?`);
      - `inputs`: the values of the three style inputs;
      - `lastStyle`: `lastStyleValues`, the last committed value of each style;
      - `undo`: `undoStack`, bottom first. */
  datatype EditorState = EditorState(
    canvas: seq<Id>,
    nodes: map<Id, Node>,
    nextId: Id,
    selected: Option<Id>,
    highlight: bool,
    currentShape: Option<Tool>,
    isDrawing: bool,
    currentPath: Option<Id>,
    drag: Option<Drag>,
    inputs: Style,
    lastStyle: Style,
    undo: seq<Record>)

  /** Every identity the state refers to names a created element, and the element being
      drawn freehand is a path. */
  ghost predicate Wf(s: EditorState)
  {
    && (forall id :: id in s.canvas ==> id in s.nodes)
    && (forall id :: id in s.nodes ==> id < s.nextId)
    && (forall i :: 0 <= i < |s.undo| ==> s.undo[i].id in s.nodes)
    && (s.selected.Some? ==> s.selected.value in s.nodes)
    && (s.currentPath.Some? ==> s.currentPath.value in s.nodes && s.nodes[s.currentPath.value].shape.Path?)
  }

  /** The state after the page loads: empty canvas and stack, no tool, and both the inputs
      and the style cache holding the inputs' initial values. */
  function Init(initial: Style): (s: EditorState)
    ensures Wf(s)
    ensures s.canvas == [] && s.undo == [] && s.selected == None
    ensures s.lastStyle == s.inputs == initial
    ensures s.currentShape == None && !s.isDrawing && s.currentPath == None
    ensures s.drag == None && !s.highlight
  {
    EditorState([], map[], 0, None, false, None, false, None, None, initial, initial, [])
  }

  /** `deselectElement`: no selection and no highlight box. */
  function Deselect(s: EditorState): EditorState
  {
    s.(selected := None, highlight := false)
  }

  /** `selectElement`: nothing while a shape tool is active; otherwise `id` becomes the one
      selected element, gets the highlight box, and the inputs show its style. */
  function Select(s: EditorState, id: Id): (r: EditorState)
    requires Wf(s) && id in s.nodes
    ensures Wf(r)
    ensures s.currentShape.Some? ==> r == s
    ensures s.currentShape.None? ==> r.selected == Some(id) && r.highlight
    ensures s.currentShape.None? ==> r.inputs == Shown(s.nodes[id].style)
    ensures r.(selected := s.selected, highlight := s.highlight, inputs := s.inputs) == s
    ensures r.canvas == s.canvas && r.nodes == s.nodes && r.undo == s.undo && r.lastStyle == s.lastStyle
  {
    if s.currentShape.Some? then s
    else Deselect(s).(selected := Some(id), highlight := true, inputs := Shown(s.nodes[id].style))
  }

  /** `startDragging` (the selected element's mousedown listener): capture the selected
      element's positions and track its anchor. */
  function StartDragging(s: EditorState): (r: EditorState)
    requires Wf(s) && s.selected.Some?
    ensures Wf(r)
    ensures r.drag.Some? && Fits(s.nodes[s.selected.value].shape, r.drag.value.oldPositions)
    ensures r.drag.value.oldPositions == PositionsOf(s.nodes[s.selected.value].shape)
    ensures r.drag.value.start == Anchor(r.drag.value.oldPositions)
    ensures r.(drag := s.drag) == s
  {
    var pos := PositionsOf(s.nodes[s.selected.value].shape);
    s.(drag := Some(Drag(pos, Anchor(pos))))
  }

  /** The drag's `move` listener at mouse `p`: moves the selected element one drag step
      (with no selection the source's handler throws before changing anything). */
  function DragMove(s: EditorState, p: Point): (r: EditorState)
    requires Wf(s) && s.drag.Some?
    ensures Wf(r)
    ensures r.drag.Some? && r.drag.value.oldPositions == s.drag.value.oldPositions
    ensures r.selected == s.selected && r.nodes.Keys == s.nodes.Keys && r.undo == s.undo
    ensures s.selected.Some? ==> r.nodes == s.nodes[s.selected.value := r.nodes[s.selected.value]]
    ensures s.selected.Some? ==>
      var n := s.nodes[s.selected.value];
      r.nodes[s.selected.value] == n.(shape := DragStep(n.shape, s.drag.value.start, p))
    ensures s.selected.None? ==> r == s
  {
    match s.selected
    case None => s
    case Some(id) =>
      var n, d := s.nodes[id], s.drag.value;
      s.(nodes := s.nodes[id := n.(shape := DragStep(n.shape, d.start, p))],
         drag := Some(d.(start := NextStart(n.shape, d.start, p))))
  }

  /** The drag's `move` listener over the mouse positions `ps`, in order. */
  function DragMoves(s: EditorState, ps: seq<Point>): (r: EditorState)
    requires Wf(s) && s.drag.Some?
    ensures Wf(r) && r.drag.Some?
    decreases |ps|
  {
    if ps == [] then s else DragMoves(DragMove(s, ps[0]), ps[1..])
  }

  /** The drag's `stopDragging` listener: ends the drag and pushes a move record when the
      selected element's positions differ from the captured ones. */
  function StopDragging(s: EditorState): (r: EditorState)
    requires Wf(s) && s.drag.Some?
    ensures Wf(r)
    ensures r.drag.None? && r.nodes == s.nodes && r.canvas == s.canvas
    ensures r.(drag := s.drag, undo := s.undo) == s
    ensures r.undo == s.undo ||
      (s.selected.Some? &&
       r.undo == s.undo + [Move(s.selected.value, s.drag.value.oldPositions, PositionsOf(s.nodes[s.selected.value].shape))])
    ensures r.undo != s.undo <==>
      s.selected.Some? && PositionsOf(s.nodes[s.selected.value].shape) != s.drag.value.oldPositions
  {
    var r := s.(drag := None);
    match s.selected
    case None => r
    case Some(id) =>
      var now := PositionsOf(s.nodes[id].shape);
      if now != s.drag.value.oldPositions then r.(undo := s.undo + [Move(id, s.drag.value.oldPositions, now)])
      else r
  }

  /** `deleteElement` (an element's contextmenu listener): push a delete record, remove the
      element from the canvas, and deselect it if it was selected. */
  function DeleteElement(s: EditorState, id: Id): (r: EditorState)
    requires Wf(s) && id in s.canvas
    ensures Wf(r)
    ensures r.undo == s.undo + [Delete(id)]
    ensures r.canvas == Without(s.canvas, id) && id !in r.canvas
    ensures r.nodes == s.nodes
    ensures r.selected == if s.selected == Some(id) then None else s.selected
    ensures r.(undo := s.undo, canvas := s.canvas, selected := s.selected, highlight := s.highlight) == s
  {
    var r := s.(undo := s.undo + [Delete(id)], canvas := Without(s.canvas, id));
    if s.selected == Some(id) then Deselect(r) else r
  }

  /** The canvas click with a shape tool active: a new element with the tool's default
      geometry and the inputs' styles is appended, an add record pushed, and the selection
      cleared. */
  function PlaceShape(s: EditorState, tool: Tool, p: Point): (r: EditorState)
    requires Wf(s)
    ensures Wf(r)
    ensures s.nextId !in s.nodes && r.nextId == s.nextId + 1
    ensures r.canvas == s.canvas + [s.nextId] && r.undo == s.undo + [Add(s.nextId)]
    ensures r.nodes == s.nodes[s.nextId := Node(Placed(tool, p), s.inputs)]
    ensures r.selected == None && !r.highlight
    ensures r.(canvas := s.canvas, nodes := s.nodes, nextId := s.nextId, undo := s.undo,
               selected := s.selected, highlight := s.highlight) == s
  {
    var id := s.nextId;
    Deselect(s.(nodes := s.nodes[id := Node(Placed(tool, p), s.inputs)],
                nextId := id + 1,
                canvas := s.canvas + [id],
                undo := s.undo + [Add(id)]))
  }

  /** The canvas click listener: place a shape while a tool is active; otherwise a click
      on empty canvas clears the selection. */
  function CanvasClick(s: EditorState, t: Target, p: Point): (r: EditorState)
    requires Wf(s)
    ensures Wf(r)
    ensures s.currentShape.Some? ==>
      && r.canvas == s.canvas + [s.nextId] && r.undo == s.undo + [Add(s.nextId)]
      && r.nextId == s.nextId + 1 && r.selected == None
      && r.(canvas := s.canvas, nodes := s.nodes, nextId := s.nextId, undo := s.undo,
            selected := s.selected, highlight := s.highlight) == s
    ensures s.currentShape.None? && t == Background ==>
      && r.selected == None && (s.selected.Some? ==> !r.highlight)
      && r.(selected := s.selected, highlight := s.highlight) == s
    ensures s.currentShape.None? && t != Background ==> r == s
  {
    if s.currentShape.Some? then PlaceShape(s, s.currentShape.value, p)
    else if t == Background && s.selected.Some? then Deselect(s)
    else s
  }

  /** The canvas mousedown listener: in freehand mode, start a path at `p` with the inputs'
      stroke and width and no fill, append it, and push an add record. */
  function BeginPath(s: EditorState, p: Point): (r: EditorState)
    requires Wf(s)
    ensures Wf(r)
    ensures !s.isDrawing ==> r == s
    ensures s.isDrawing ==>
      && s.nextId !in s.nodes && r.nextId == s.nextId + 1
      && r.canvas == s.canvas + [s.nextId]
      && r.nodes == s.nodes[s.nextId := Node(Path([p]), Style(s.inputs.stroke, s.inputs.strokeWidth, "none"))]
      && r.undo == s.undo + [Add(s.nextId)]
      && r.currentPath == Some(s.nextId)
      && r.(nodes := s.nodes, nextId := s.nextId, canvas := s.canvas, undo := s.undo, currentPath := s.currentPath) == s
  {
    if !s.isDrawing then s
    else
      var id := s.nextId;
      s.(nodes := s.nodes[id := Node(Path([p]), Style(s.inputs.stroke, s.inputs.strokeWidth, "none"))],
         nextId := id + 1,
         canvas := s.canvas + [id],
         undo := s.undo + [Add(id)],
         currentPath := Some(id))
  }

  /** The canvas mousemove listener: while a path is being drawn, append `p` to it. No
      record is pushed. */
  function ExtendPath(s: EditorState, p: Point): (r: EditorState)
    requires Wf(s)
    ensures Wf(r)
    ensures r.(nodes := s.nodes) == s
    ensures r.undo == s.undo && r.canvas == s.canvas && r.drag == s.drag && r.selected == s.selected
    ensures r.currentPath == s.currentPath && r.nodes.Keys == s.nodes.Keys
    ensures forall id :: id in s.nodes && s.currentPath != Some(id) ==> r.nodes[id] == s.nodes[id]
    ensures s.isDrawing && s.currentPath.Some? ==>
      && r.nodes[s.currentPath.value].shape.points == s.nodes[s.currentPath.value].shape.points + [p]
      && r.nodes[s.currentPath.value].style == s.nodes[s.currentPath.value].style
    ensures !s.isDrawing ==> r == s
  {
    if s.isDrawing && s.currentPath.Some? then
      var id := s.currentPath.value;
      var n := s.nodes[id];
      s.(nodes := s.nodes[id := n.(shape := Path(n.shape.points + [p]))])
    else s
  }

  /** The canvas mouseup listener: in freehand mode, the path in progress is finished. */
  function EndPath(s: EditorState): EditorState
  {
    if s.isDrawing then s.(currentPath := None) else s
  }

  /** A shape tool's button: set the tool, reset the inputs, deselect. `isDrawing` is left
      as it was. */
  function ChooseShape(s: EditorState, tool: Tool): EditorState
  {
    Deselect(s.(currentShape := Some(tool), inputs := ResetValues))
  }

  /** The freehand button: no shape tool, deselect, freehand on. The inputs keep their
      values. */
  function ChoosePath(s: EditorState): EditorState
  {
    Deselect(s.(currentShape := None)).(isDrawing := true)
  }

  /** The reset button: no tool, freehand off, deselect, reset the inputs. */
  function ResetTools(s: EditorState): EditorState
  {
    Deselect(s.(currentShape := None, isDrawing := false)).(inputs := ResetValues)
  }

  /** An input's `input` event: the user sets input `a` to `v`; the selected element, if
      any, takes the value at once. Nothing is pushed. */
  function StyleInput(s: EditorState, a: Attr, v: string): (r: EditorState)
    requires Wf(s)
    ensures Wf(r)
    ensures r.undo == s.undo && r.lastStyle == s.lastStyle && r.canvas == s.canvas
    ensures r.selected == s.selected && r.nodes.Keys == s.nodes.Keys
    ensures Get(r.inputs, a) == v
    ensures s.selected.Some? ==> Get(r.nodes[s.selected.value].style, a) == v
    ensures r.(inputs := s.inputs, nodes := s.nodes) == s
    ensures forall b :: b != a ==> Get(r.inputs, b) == Get(s.inputs, b)
    ensures forall id :: id in s.nodes && s.selected != Some(id) ==> r.nodes[id] == s.nodes[id]
    ensures s.selected.Some? ==>
      var id := s.selected.value;
      && r.nodes[id].shape == s.nodes[id].shape
      && forall b :: b != a ==> Get(r.nodes[id].style, b) == Get(s.nodes[id].style, b)
  {
    var r := s.(inputs := Set(s.inputs, a, v));
    match s.selected
    case None => r
    case Some(id) =>
      var n := s.nodes[id];
      r.(nodes := s.nodes[id := n.(style := Set(n.style, a, v))])
  }

  /** An input's `change` event: with an element selected and the input's value different
      from the cached last committed value, push a style record holding the cached value
      and cache the new one; otherwise nothing. */
  function StyleChange(s: EditorState, a: Attr): (r: EditorState)
    ensures r.nodes == s.nodes && r.canvas == s.canvas && r.inputs == s.inputs && r.selected == s.selected
    ensures s.selected.None? || Get(s.lastStyle, a) == Get(s.inputs, a) ==> r == s
    ensures s.selected.Some? && Get(s.lastStyle, a) != Get(s.inputs, a) ==>
      && r.undo == s.undo + [Restyle(s.selected.value, a, Get(s.lastStyle, a))]
      && Get(r.lastStyle, a) == Get(s.inputs, a)
      && (forall b :: b != a ==> Get(r.lastStyle, b) == Get(s.lastStyle, b))
    ensures r.(undo := s.undo, lastStyle := s.lastStyle) == s
  {
    if s.selected.None? then s
    else
      var oldValue, newValue := Get(s.lastStyle, a), Get(s.inputs, a);
      if oldValue != newValue then
        s.(undo := s.undo + [Restyle(s.selected.value, a, oldValue)], lastStyle := Set(s.lastStyle, a, newValue))
      else s
  }

  /** `undoAction`: nothing on an empty stack; otherwise pop the top record and reverse
      it. An add is removed from the canvas (and deselected); a delete is appended again;
      a style attribute gets its recorded value back (shown in its input if the element is
      selected); a move writes the recorded positions back. */
  function Undo(s: EditorState): (r: EditorState)
    requires Wf(s)
    ensures Wf(r)
    ensures s.undo == [] ==> r == s
    ensures s.undo != [] ==> r.undo == s.undo[..|s.undo| - 1]
    ensures r.lastStyle == s.lastStyle && r.currentShape == s.currentShape && r.nextId == s.nextId
    ensures r.(undo := s.undo, canvas := s.canvas, nodes := s.nodes, selected := s.selected,
               highlight := s.highlight, inputs := s.inputs) == s
  {
    if s.undo == [] then s
    else
      var r := s.(undo := s.undo[..|s.undo| - 1]);
      match s.undo[|s.undo| - 1]
      case Add(id) =>
        var r' := r.(canvas := Without(s.canvas, id));
        if s.selected == Some(id) then Deselect(r') else r'
      case Delete(id) =>
        r.(canvas := s.canvas + [id])
      case Restyle(id, a, v) =>
        var n := s.nodes[id];
        var r' := r.(nodes := s.nodes[id := n.(style := Set(n.style, a, v))]);
        if s.selected == Some(id) then r'.(inputs := Set(s.inputs, a, v)) else r'
      case Move(id, oldPositions, _) =>
        var n := s.nodes[id];
        r.(nodes := s.nodes[id := n.(shape := Reposition(n.shape, oldPositions))])
  }

  // The browser's dispatch of one user action to the listeners above.

  /** A mouse event can land only on what is on the canvas. */
  ghost predicate OnCanvas(s: EditorState, t: Target)
  {
    match t
    case Background => true
    case Element(id) => id in s.canvas
    case HighlightBox => s.highlight
  }

  /** An element that got click and contextmenu listeners: every placed shape, no path. */
  predicate Listens(s: EditorState, id: Id)
    requires id in s.nodes
  {
    !s.nodes[id].shape.Path?
  }

  /** A click: the element's listener runs first and stops propagation when it selects;
      otherwise the click reaches the canvas listener. */
  function Click(s: EditorState, t: Target, p: Point): (r: EditorState)
    requires Wf(s) && OnCanvas(s, t)
    ensures Wf(r)
    ensures s.currentShape.None? && t == Background ==>
      && r.selected == None && (s.selected.Some? ==> !r.highlight)
      && r.(selected := s.selected, highlight := s.highlight) == s
    ensures s.currentShape.None? && t == HighlightBox ==> r == s
  {
    if t.Element? && Listens(s, t.id) && s.currentShape.None? then Select(s, t.id)
    else CanvasClick(s, t, p)
  }

  /** A button press: the selected element's drag listener, then the canvas listener. */
  function MouseDown(s: EditorState, t: Target, p: Point): (r: EditorState)
    requires Wf(s) && OnCanvas(s, t)
    ensures Wf(r)
  {
    var s1 := if t.Element? && s.selected == Some(t.id) then StartDragging(s) else s;
    BeginPath(s1, p)
  }

  /** A mouse move over the canvas: the path listener, then the drag's listener. */
  function MouseMove(s: EditorState, p: Point): (r: EditorState)
    requires Wf(s)
    ensures Wf(r)
  {
    var s1 := ExtendPath(s, p);
    if s1.drag.Some? then DragMove(s1, p) else s1
  }

  /** A button release over the canvas: the path listener, then the drag's listener. */
  function MouseUp(s: EditorState): (r: EditorState)
    requires Wf(s)
    ensures Wf(r)
  {
    var s1 := EndPath(s);
    if s1.drag.Some? then StopDragging(s1) else s1
  }

  /** A context-menu request: only placed shapes have a listener for it. */
  function ContextMenu(s: EditorState, t: Target): (r: EditorState)
    requires Wf(s) && OnCanvas(s, t)
    ensures Wf(r)
  {
    if t.Element? && Listens(s, t.id) then DeleteElement(s, t.id) else s
  }

  /** One user action. */
  datatype Event =
    | ClickOn(target: Target, at: Point)
    | PressOn(target: Target, at: Point)
    | MoveTo(at: Point)
    | Release
    | ContextMenuOn(target: Target)
    | ToolButton(tool: Tool)
    | PathButton
    | ResetButton
    | UndoButton
    | InputEvent(attr: Attr, value: string)
    | ChangeEvent(attr: Attr)

  ghost predicate Enabled(s: EditorState, e: Event)
  {
    match e
    case ClickOn(t, _) => OnCanvas(s, t)
    case PressOn(t, _) => OnCanvas(s, t)
    case ContextMenuOn(t) => OnCanvas(s, t)
    case _ => true
  }

  function Step(s: EditorState, e: Event): (r: EditorState)
    requires Wf(s) && Enabled(s, e)
    ensures Wf(r)
  {
    match e
    case ClickOn(t, p) => Click(s, t, p)
    case PressOn(t, p) => MouseDown(s, t, p)
    case MoveTo(p) => MouseMove(s, p)
    case Release => MouseUp(s)
    case ContextMenuOn(t) => ContextMenu(s, t)
    case ToolButton(tool) => ChooseShape(s, tool)
    case PathButton => ChoosePath(s)
    case ResetButton => ResetTools(s)
    case UndoButton => Undo(s)
    case InputEvent(a, v) => StyleInput(s, a, v)
    case ChangeEvent(a) => StyleChange(s, a)
  }
}
