# A verified model of a browser SVG editor's state machine

The editor draws shapes on one SVG canvas. The shape buttons pick a tool: line, ellipse,
rect, circle or square. A click on the canvas then places the tool's default figure. With
no tool active, a click on a shape selects it: it gets a dashed highlight box, and the
three style inputs (stroke, stroke width, fill) show its style. Pressing on the selected
shape and moving the mouse drags it. A context-menu request deletes a shape. The
freehand button turns on path drawing: press, move and release draw a path. Editing a
style input restyles the selected shape as you type. Committing the edit (the `change`
event) records it for undo. The undo button reverses the last recorded add, delete,
restyle or move.

The model has three layers:

- `Geometry`, `Styles`, `Scene`, `History`: values.
  - shapes and their positional attributes;
  - the default figures and one step of a drag;
  - the three style attributes and the fallbacks the inputs show;
  - the canvas's child list and `removeChild`;
  - the undo records and the order the editor pushes them in.
- `Interaction`: the editor's whole state as a value, `EditorState`.
  - Each listener is a function from the state before the event to the state after it.
  - The browser's dispatch is modelled too. A click reaches the element's listener first
    and then the canvas's, unless the first one stopped propagation.
  - `Step` applies one user action.
- `Editors.Editor`: a class whose fields are the script's module-level variables.
  - Its methods update the fields as the listeners do.
  - Each method is proved to act as its function in `Interaction`: the same name, except
    that `SelectElement` acts as `Select` and `Reset` as `ResetTools`. `ResetColors` sets
    the inputs only and has no function of its own.
  - The methods a user action triggers also keep the invariant of `Invariants`.

Element identity is a number. `nodes` maps each identity to the element's attributes,
whether or not it is on the canvas at the moment. So undoing a delete re-appends the very
element that was removed, attributes and all. `canvas` is the canvas's drawn children in
paint order. The highlight box is kept out of that list and held as a separate flag.
`isDragging` is `drag.Some?`.

`Invariants.Inv` states what holds through every user action:

- at most one selected element, always a drawn shape (not a path) on the canvas;
- the selected element is highlighted;
- there is never a selection while a shape tool is active;
- the canvas agrees with the add and delete records on the undo stack. `undoAction`'s
  `removeChild` and `appendChild` take this for granted, and the model proves it.

The model follows the code in these places, where one might expect otherwise:

- The shape tools and freehand mode are independent flags. A shape button never clears
  `isDrawing`, and the freehand button does not reset the colours.
- The style cache `lastStyleValues` is one global cache. It is set at load and on commit
  only. So a restyle record holds the last committed value of that attribute, which need
  not be the element's own previous value.
- The square tool creates an SVG `rect`, so a square is rect geometry. The source's
  `"square"` tag-name branches can never run.
- The drag's move and release listeners act on whatever element is selected when they
  run. With nothing selected, the move listener throws before it changes anything, so
  in the model such a move does nothing. The release listener first ends the drag
  (`isDragging` and its listeners) and then throws before it pushes a record, so in the
  model such a release ends the drag and pushes nothing.

## Model

| member | source | states |
|---|---|---|
| Geometry.PositionsOf | 6_1088_BOROS_KEVIN_CRISTIAN.js:84-99 | the captured positions are those of the shape's kind: x,y for a rect, cx,cy for an ellipse or circle, the four ends for a line, none for a path |
| Geometry.Reposition | 6_1088_BOROS_KEVIN_CRISTIAN.js:390-405 | writing recorded positions back keeps the shape's kind and size, and the shape then has exactly those positions |
| Geometry.Placed | 6_1088_BOROS_KEVIN_CRISTIAN.js:209-245 | the placed figure has its anchor at the click and the tool's kind; a line is horizontal and runs rightwards from the click; a rect is square exactly when the square tool placed it |
| Geometry.DragStep | 6_1088_BOROS_KEVIN_CRISTIAN.js:116-137 | one move puts a rect's corner or an ellipse's or circle's centre on the mouse; it translates a line by the mouse's displacement from the tracked point; it leaves a path alone; size and kind are kept |
| Geometry.RepositionRestores | 6_1088_BOROS_KEVIN_CRISTIAN.js:390-405 | after any change that keeps kind and size, writing back the original positions gives the original shape |
| Geometry.SamePositionsSameShape | 6_1088_BOROS_KEVIN_CRISTIAN.js:162 | for shapes of the same kind and size, equal captured positions mean equal shapes, and conversely |
| Geometry.DragEndsAtMouse | 6_1088_BOROS_KEVIN_CRISTIAN.js:101-137 | after a drag gesture that starts from the shape's own anchor, the anchor is on the last mouse position, and a line's x2−x1 and y2−y1 are unchanged |
| Styles.Set | 6_1088_BOROS_KEVIN_CRISTIAN.js:382 | setting one style attribute gives it the value and leaves the other two as they were |
| Styles.Shown | 6_1088_BOROS_KEVIN_CRISTIAN.js:73-75 | an input shows the element's attribute when it is non-empty, and "#000000", "1" or "#ffffff" otherwise |
| Scene.Without | 6_1088_BOROS_KEVIN_CRISTIAN.js:189 | removing a child leaves exactly the children other than it; a list without repeats stays without repeats and loses exactly one entry (the order is stated by `Scene.WithoutRemovesAt`) |
| Scene.WithoutAppended | 6_1088_BOROS_KEVIN_CRISTIAN.js:374 | removing the child that was just appended gives back the list from before |
| Scene.WithoutRemovesAt | 6_1088_BOROS_KEVIN_CRISTIAN.js:189 | in a list without repeats, removing the child at position i leaves the children before it and those after it, each in their order |
| History.PresenceAfterPush | 6_1088_BOROS_KEVIN_CRISTIAN.js:188 | pushing a record changes what the stack says about its own element only, and only when it is an add or a delete |
| History.PresenceNone | 6_1088_BOROS_KEVIN_CRISTIAN.js:368-378 | the stack says nothing about an element exactly when it holds no add or delete record of it |
| History.WellStackedPush | 6_1088_BOROS_KEVIN_CRISTIAN.js:188 | a push keeps the stack in the editor's order exactly when an add is of an element the stack does not know and a delete is of one not already deleted |
| Interaction.Init | 6_1088_BOROS_KEVIN_CRISTIAN.js:17-31 | at load the canvas and the stack are empty; there is no selection, highlight box, tool, freehand mode, path in progress or drag; the style cache holds the inputs' values |
| Interaction.Select | 6_1088_BOROS_KEVIN_CRISTIAN.js:56-78 | with a shape tool active nothing changes; otherwise exactly that element is selected and highlighted, the inputs show its style with the fallbacks, and nothing else changes |
| Interaction.StartDragging | 6_1088_BOROS_KEVIN_CRISTIAN.js:80-114 | a press on the selected element captures exactly that element's positions (`PositionsOf` its shape) and tracks their anchor; nothing else changes |
| Interaction.DragMove | 6_1088_BOROS_KEVIN_CRISTIAN.js:116-139 | a move changes only the selected element, by one drag step, and pushes nothing |
| Interaction.DragMoves | 6_1088_BOROS_KEVIN_CRISTIAN.js:116-139 | a series of moves keeps the drag active and the state well formed |
| Interaction.StopDragging | 6_1088_BOROS_KEVIN_CRISTIAN.js:141-170 | the release ends the drag; it pushes a move record of the selected element exactly when its positions differ from the captured ones, and changes nothing else |
| Interaction.DeleteElement | 6_1088_BOROS_KEVIN_CRISTIAN.js:186-191 | a delete record is pushed, the element leaves the canvas, its attributes are kept, it is deselected if it was selected, and nothing else changes |
| Interaction.PlaceShape | 6_1088_BOROS_KEVIN_CRISTIAN.js:200-257 | a fresh element with the tool's figure at the click and the inputs' styles is appended with its add record, the selection is cleared, and nothing else changes (the tool, freehand mode, the path in progress and the drag stay) |
| Interaction.CanvasClick | 6_1088_BOROS_KEVIN_CRISTIAN.js:199-264 | with a tool active, a click appends a new element and its add record and clears the selection; with no tool, a click on empty canvas clears the selection and changes nothing else, and a click anywhere else changes nothing |
| Interaction.BeginPath | 6_1088_BOROS_KEVIN_CRISTIAN.js:267-282 | outside freehand mode nothing changes; in it, a fresh path of the one point, with the inputs' stroke and width and fill "none", is appended, an add record is pushed, and it becomes the path in progress; nothing else changes |
| Interaction.ExtendPath | 6_1088_BOROS_KEVIN_CRISTIAN.js:284-293 | a move while drawing appends the point to the path in progress and keeps its style; no other element and no other part of the state changes; outside freehand mode nothing changes |
| Interaction.StyleInput | 6_1088_BOROS_KEVIN_CRISTIAN.js:324-326 | a live input sets that input and that attribute of the selected element; the other inputs, the element's shape and other attributes, the other elements and the rest of the state stay; nothing is pushed |
| Interaction.StyleChange | 6_1088_BOROS_KEVIN_CRISTIAN.js:327-364 | with a selection and an input that differs from the cache, it pushes a style record holding the cached value and caches the new one, leaving the other cached attributes; otherwise it changes nothing; it never changes anything but the stack and the cache |
| Interaction.Undo | 6_1088_BOROS_KEVIN_CRISTIAN.js:368-371 | an empty stack changes nothing; otherwise exactly the top record is popped and the records below stay; only the canvas, the elements, the selection, the highlight and the inputs can change besides the stack |
| Interaction.Click | 6_1088_BOROS_KEVIN_CRISTIAN.js:251 | a click, dispatched to the element's listener and then the canvas's, keeps the state well formed; with no tool active, a click on empty canvas clears the selection and changes nothing else, and a click on the highlight box changes nothing |
| Interaction.MouseDown | 6_1088_BOROS_KEVIN_CRISTIAN.js:77 | a press, dispatched to the drag listener and then the canvas's, keeps the state well formed |
| Interaction.MouseMove | 6_1088_BOROS_KEVIN_CRISTIAN.js:172 | a move, dispatched to the path listener and then the drag's, keeps the state well formed |
| Interaction.MouseUp | 6_1088_BOROS_KEVIN_CRISTIAN.js:173 | a release, dispatched to the path listener and then the drag's, keeps the state well formed |
| Interaction.ContextMenu | 6_1088_BOROS_KEVIN_CRISTIAN.js:193-195 | a context-menu request on a placed shape deletes it and keeps the state well formed |
| Interaction.Step | 6_1088_BOROS_KEVIN_CRISTIAN.js:199-408 | every user action keeps the state well formed |
| Invariants.InitInv | 6_1088_BOROS_KEVIN_CRISTIAN.js:17-31 | the state at load satisfies the invariant |
| Invariants.AddFreshInv | 6_1088_BOROS_KEVIN_CRISTIAN.js:254-256 | appending a new element together with its add record keeps the invariant |
| Invariants.PushOtherInv | 6_1088_BOROS_KEVIN_CRISTIAN.js:333 | pushing a style or move record keeps the invariant |
| Invariants.SelectInv | 6_1088_BOROS_KEVIN_CRISTIAN.js:56-78 | selecting a placed shape on the canvas keeps the invariant |
| Invariants.DragMoveInv | 6_1088_BOROS_KEVIN_CRISTIAN.js:116-139 | a drag move keeps the invariant |
| Invariants.StopDraggingInv | 6_1088_BOROS_KEVIN_CRISTIAN.js:141-170 | a release keeps the invariant |
| Invariants.DeleteElementInv | 6_1088_BOROS_KEVIN_CRISTIAN.js:186-191 | a delete keeps the invariant |
| Invariants.PlaceShapeInv | 6_1088_BOROS_KEVIN_CRISTIAN.js:200-257 | placing a shape keeps the invariant |
| Invariants.BeginPathInv | 6_1088_BOROS_KEVIN_CRISTIAN.js:267-282 | starting a path keeps the invariant |
| Invariants.StyleChangeInv | 6_1088_BOROS_KEVIN_CRISTIAN.js:327-364 | a style commit keeps the invariant |
| Invariants.UndoInv | 6_1088_BOROS_KEVIN_CRISTIAN.js:368-408 | undo keeps the invariant (that the element an add record names is on the canvas when the record is popped, and the one a delete record names is off it, is stated by `UndoProperties.UndoAdd` and `UndoProperties.UndoDelete`) |
| Invariants.StepPreservesInv | 6_1088_BOROS_KEVIN_CRISTIAN.js:199-408 | every user action keeps the invariant |
| Invariants.Run | 6_1088_BOROS_KEVIN_CRISTIAN.js:199-408 | every state a session of user actions reaches from an invariant state satisfies the invariant |
| UndoProperties.ClickWithToolPlaces | 6_1088_BOROS_KEVIN_CRISTIAN.js:199-258 | a click with a tool active appends one new element with the tool's figure at the click and the inputs' styles, pushes one add record, clears the selection, and changes nothing else (the tool and freehand mode stay); undoing it restores the canvas and the stack |
| UndoProperties.UndoAdd | 6_1088_BOROS_KEVIN_CRISTIAN.js:373-375 | in any reachable state, undoing an add record removes its element, which is on the canvas, from its place, leaving the children before and after it in their order; it deselects the element if it was selected and pops exactly that record; the elements' attributes and the inputs are unchanged |
| UndoProperties.UndoDelete | 6_1088_BOROS_KEVIN_CRISTIAN.js:377-378 | in any reachable state, undoing a delete record appends its element, which is off the canvas, as the last child; elements, selection and inputs are unchanged |
| UndoProperties.UndoRestyle | 6_1088_BOROS_KEVIN_CRISTIAN.js:380-388 | undoing a style record gives the element's attribute the recorded value and changes nothing else of any element; the inputs change only if the element is selected, and then the matching input shows the value |
| UndoProperties.UndoMove | 6_1088_BOROS_KEVIN_CRISTIAN.js:390-406 | undoing a move record keeps the element's figure and style and, for positions of its kind, gives it exactly the recorded positions; no other element changes |
| UndoProperties.DeleteThenUndo | 6_1088_BOROS_KEVIN_CRISTIAN.js:186-191 | a delete pushes a delete record, removes the element and deselects it; undoing it re-appends the same element as the last child, with the stack as before |
| UndoProperties.CommitThenUndo | 6_1088_BOROS_KEVIN_CRISTIAN.js:380-388 | undoing a commit gives the element's attribute and its input the cached old value and touches no other attribute; the cache keeps the committed value |
| UndoProperties.NoOpCommitNotRecorded | 6_1088_BOROS_KEVIN_CRISTIAN.js:328-332 | a commit with nothing selected, or with the input equal to the cache, changes nothing, so undo after it reverses the earlier record |
| UndoProperties.CacheChangesOnlyOnCommit | 6_1088_BOROS_KEVIN_CRISTIAN.js:27-31 | only a style commit changes the style cache: not selection, reset, live input or undo |
| UndoProperties.DragMovesGesture | 6_1088_BOROS_KEVIN_CRISTIAN.js:116-139 | a series of moves drags the selected element through the whole gesture and changes nothing else |
| UndoProperties.GestureKeepsFigure | 6_1088_BOROS_KEVIN_CRISTIAN.js:116-137 | a drag never changes a shape's kind or size |
| UndoProperties.DragThenUndo | 6_1088_BOROS_KEVIN_CRISTIAN.js:141-169 | a press, moves and release push a move record exactly when they changed the element, and undoing that record restores every element as it was before the press |
| UndoProperties.ClickSelects | 6_1088_BOROS_KEVIN_CRISTIAN.js:56-78 | with no tool active, a click on a shape selects exactly it, replacing any earlier selection, and shows its style; the canvas, elements and stack are unchanged |
| UndoProperties.PathsIgnoreClicks | 6_1088_BOROS_KEVIN_CRISTIAN.js:274-281 | a freehand path has no listeners: a context-menu request on it does nothing, and with no tool active neither does a click |
| UndoProperties.ToolFlagsIndependent | 6_1088_BOROS_KEVIN_CRISTIAN.js:300-311 | after the freehand button and then a shape button, both modes are on: a press starts a path and a click places a shape |
| UndoProperties.FreehandStroke | 6_1088_BOROS_KEVIN_CRISTIAN.js:267-297 | a press while drawing appends a one-point path with the inputs' stroke and width and no fill, makes it the path in progress and pushes its add record; a move extends it and pushes nothing; a release ends it |
| UndoProperties.RectScenario | 6_1088_BOROS_KEVIN_CRISTIAN.js:225-231 | a rect placed at (100, 100) and dragged to (150, 160) has its corner there; one undo puts it back with its size, and a second takes it off the canvas and empties the stack |
| UndoProperties.RectPlaced | 6_1088_BOROS_KEVIN_CRISTIAN.js:225-231 | after the rect tool, a click at (100, 100) and the reset button, the canvas holds one 100 by 50 rect at (100, 100) in the reset colours, with one add record, no tool and no selection |
| UndoProperties.RectDragged | 6_1088_BOROS_KEVIN_CRISTIAN.js:116-169 | selecting that rect and dragging it to (150, 160) moves its corner there and pushes one move record from (100, 100) to (150, 160) |
| UndoProperties.RectUndone | 6_1088_BOROS_KEVIN_CRISTIAN.js:390-395 | the first undo puts the rect's corner back at (100, 100) and pops the move record; the second takes the rect off the canvas and empties the stack |
| Editors.Editor.constructor | 6_1088_BOROS_KEVIN_CRISTIAN.js:17-31 | the fields start as at page load, and the invariant holds |
| Editors.Editor.ResetColors | 6_1088_BOROS_KEVIN_CRISTIAN.js:39-43 | the inputs get "#000000", "2" and "#ffffff"; nothing else changes |
| Editors.Editor.Deselect | 6_1088_BOROS_KEVIN_CRISTIAN.js:45-54 | the selection and the highlight box are cleared; nothing else changes |
| Editors.Editor.SelectElement | 6_1088_BOROS_KEVIN_CRISTIAN.js:56-78 | the fields change as `Interaction.Select` says; the result says whether propagation was stopped, which happens exactly when no tool is active |
| Editors.Editor.StartDragging | 6_1088_BOROS_KEVIN_CRISTIAN.js:80-114 | the fields change as `Interaction.StartDragging` says |
| Editors.Editor.DragMove | 6_1088_BOROS_KEVIN_CRISTIAN.js:116-139 | the fields change as `Interaction.DragMove` says |
| Editors.Editor.StopDragging | 6_1088_BOROS_KEVIN_CRISTIAN.js:141-170 | the fields change as `Interaction.StopDragging` says |
| Editors.Editor.DeleteElement | 6_1088_BOROS_KEVIN_CRISTIAN.js:186-191 | the fields change as `Interaction.DeleteElement` says |
| Editors.Editor.PlaceShape | 6_1088_BOROS_KEVIN_CRISTIAN.js:200-257 | the fields change as `Interaction.PlaceShape` says |
| Editors.Editor.CanvasClick | 6_1088_BOROS_KEVIN_CRISTIAN.js:199-264 | the fields change as `Interaction.CanvasClick` says |
| Editors.Editor.BeginPath | 6_1088_BOROS_KEVIN_CRISTIAN.js:267-282 | the fields change as `Interaction.BeginPath` says |
| Editors.Editor.ExtendPath | 6_1088_BOROS_KEVIN_CRISTIAN.js:284-293 | the fields change as `Interaction.ExtendPath` says |
| Editors.Editor.EndPath | 6_1088_BOROS_KEVIN_CRISTIAN.js:295-297 | in freehand mode the path in progress is cleared; nothing else changes |
| Editors.Editor.Click | 6_1088_BOROS_KEVIN_CRISTIAN.js:251 | the invariant is kept, and the fields change as `Interaction.Click` says |
| Editors.Editor.MouseDown | 6_1088_BOROS_KEVIN_CRISTIAN.js:267-282 | the invariant is kept, and the fields change as `Interaction.MouseDown` says |
| Editors.Editor.MouseMove | 6_1088_BOROS_KEVIN_CRISTIAN.js:284-293 | the invariant is kept, and the fields change as `Interaction.MouseMove` says |
| Editors.Editor.MouseUp | 6_1088_BOROS_KEVIN_CRISTIAN.js:295-297 | the invariant is kept, and the fields change as `Interaction.MouseUp` says |
| Editors.Editor.ContextMenu | 6_1088_BOROS_KEVIN_CRISTIAN.js:193-195 | the invariant is kept, and the fields change as `Interaction.ContextMenu` says |
| Editors.Editor.ChooseShape | 6_1088_BOROS_KEVIN_CRISTIAN.js:300-304 | the invariant is kept; the tool is set, the inputs are reset and the selection cleared, with `isDrawing` left as it was |
| Editors.Editor.ChoosePath | 6_1088_BOROS_KEVIN_CRISTIAN.js:306-311 | the invariant is kept; no shape tool, no selection, freehand on, and the inputs keep their values |
| Editors.Editor.Reset | 6_1088_BOROS_KEVIN_CRISTIAN.js:313-319 | the invariant is kept; no tool, freehand off, no selection, and the inputs reset |
| Editors.Editor.StyleInput | 6_1088_BOROS_KEVIN_CRISTIAN.js:324-326 | the invariant is kept, and the fields change as `Interaction.StyleInput` says |
| Editors.Editor.StyleChange | 6_1088_BOROS_KEVIN_CRISTIAN.js:327-364 | the invariant is kept, and the fields change as `Interaction.StyleChange` says |
| Editors.Editor.Undo | 6_1088_BOROS_KEVIN_CRISTIAN.js:368-408 | the invariant is kept, and the fields change as `Interaction.Undo` says |

## Left out

- Saving to and loading from local storage, and re-arming listeners after a load
  (6_1088_BOROS_KEVIN_CRISTIAN.js:413-431): persistence I/O.
- PNG and SVG export (6_1088_BOROS_KEVIN_CRISTIAN.js:435-472): serialisation, blobs,
  raster canvas and download links are browser APIs.
- DOM lookups and the cursor (6_1088_BOROS_KEVIN_CRISTIAN.js:1-14, 35-37): UI plumbing.
  `setCursor` calls in the button listeners are dropped.
- `updateHighlightBox` (6_1088_BOROS_KEVIN_CRISTIAN.js:176-183): its geometry comes from
  the browser's `getBBox`. The highlight box is only a flag, and its place among the
  canvas's children is not modelled.
- Listener registration and removal, `stopPropagation` and `preventDefault`: the model
  dispatches each user action to the listeners that would be attached.
- The `getBoundingClientRect` translation: points are given in canvas coordinates.
- The path's `d` string: a path is its list of points.
- Attribute strings for coordinates, `parseFloat`, and floating point: coordinates are
  exact reals.
- `JSON.stringify` comparison of positions: replaced by equality of positions, which
  agrees with it for finite numbers.
- The initial values of the style inputs come from the page: the model takes them as a
  parameter of page load.
- Drag listeners left behind when a button is released outside the canvas: the source
  would then run two drags' listeners on the next press. The model keeps one drag, and a
  new press replaces it.
- Geometry.Reposition: with positions of another kind than the shape's, the source would
  write `undefined` attributes; the model leaves the shape unchanged. In the browser such
  a record cannot arise: a click selects only after its button release has run the drag's
  release listener, and everything else only clears the selection. The model's `Step`
  accepts any sequence of events, including a click between a press and its release, and
  only there can the selection change mid-drag.
- UndoProperties.UndoMove: states the restored positions only for a record whose
  positions are of the element's kind, for the reason given for `Geometry.Reposition`.
- Geometry.Anchor: a path has no anchor, and the source's `undefined` tracked point is
  modelled as the origin. The drag step never reads it for a path.
- Interaction.DragMoves: its own contract states only well-formedness; what the moves do
  is stated by `UndoProperties.DragMovesGesture`.
- Interaction.MouseDown: its own contract states only well-formedness; its effects are
  those of `Interaction.StartDragging` and `Interaction.BeginPath`, and
  `UndoProperties.FreehandStroke` states a press in freehand mode.
- Interaction.MouseMove: its own contract states only well-formedness; its effects are
  those of `Interaction.ExtendPath` and `Interaction.DragMove`, and
  `UndoProperties.DragMovesGesture` and `FreehandStroke` state series of moves.
- Interaction.MouseUp: its own contract states only well-formedness; its effects are those
  of `Interaction.StopDragging`, and `UndoProperties.FreehandStroke` states a release in
  freehand mode.
- Interaction.ContextMenu: its own contract states only well-formedness; its effects are
  stated by `UndoProperties.DeleteThenUndo` and `PathsIgnoreClicks`.
- Interaction.Step: its own contract states only well-formedness; the invariant it keeps is
  stated by `Invariants.StepPreservesInv`.
