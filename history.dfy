/** The undo stack: one record per committed change, with what undoing it needs. */
module History {
  import opened Geometry
  import opened Styles
  import opened Scene

  /** The records `undoStack` holds ("add", "delete", "style", "move"). */
  datatype Record =
    | Add(id: Id)
    | Delete(id: Id)
    | Restyle(id: Id, attr: Attr, oldValue: string)
    | Move(id: Id, oldPositions: Positions, newPositions: Positions)

  /** What the topmost add or delete record of `id` says about it: `Some(true)` if it was
      added, `Some(false)` if it was deleted, `None` if the stack has neither for `id`. */
  function Presence(stack: seq<Record>, id: Id): Option<bool>
    decreases |stack|
  {
    if stack == [] then None
    else
      var r := stack[|stack| - 1];
      if r.id == id && r.Add? then Some(true)
      else if r.id == id && r.Delete? then Some(false)
      else Presence(stack[..|stack| - 1], id)
  }

  /** The order in which the editor can push records: an element's add record comes before
      every other add or delete record of it, and an element is only deleted while it is
      not already deleted. */
  predicate WellStacked(stack: seq<Record>)
    decreases |stack|
  {
    stack == [] ||
    var below, r := stack[..|stack| - 1], stack[|stack| - 1];
    && WellStacked(below)
    && (r.Add? ==> Presence(below, r.id) == None)
    && (r.Delete? ==> Presence(below, r.id) != Some(false))
  }

  /** Pushing a record changes what the stack says about its own element only, and only
      when it is an add or a delete record. */
  lemma PresenceAfterPush(stack: seq<Record>, r: Record, id: Id)
    ensures Presence(stack + [r], id) ==
      if r.id == id && (r.Add? || r.Delete?) then Some(r.Add?) else Presence(stack, id)
  {
    assert (stack + [r])[..|stack|] == stack;
  }

  /** The stack says nothing about an element exactly when it holds no add or delete
      record of that element. */
  lemma {:induction false} PresenceNone(stack: seq<Record>, id: Id)
    ensures Presence(stack, id) == None <==>
      forall i :: 0 <= i < |stack| && stack[i].id == id ==> !stack[i].Add? && !stack[i].Delete?
    decreases |stack|
  {
    if stack != [] {
      var below := stack[..|stack| - 1];
      PresenceNone(below, id);
      assert forall i :: 0 <= i < |below| ==> below[i] == stack[i];
    }
  }

  /** Pushing a record keeps the stack well stacked exactly when an add is of an element
      the stack says nothing about and a delete is of an element not already deleted. */
  lemma WellStackedPush(stack: seq<Record>, r: Record)
    ensures WellStacked(stack + [r]) <==>
      && WellStacked(stack)
      && (r.Add? ==> Presence(stack, r.id) == None)
      && (r.Delete? ==> Presence(stack, r.id) != Some(false))
  {
    assert (stack + [r])[..|stack|] == stack;
  }
}
