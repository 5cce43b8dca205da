/** The drawing surface: element identities, the attributes of each element, and the
    ordered child list of the canvas (paint order = insertion order). */
module Scene {
  import opened Geometry
  import opened Styles

  datatype Option<T> = None | Some(value: T)

  /** The identity of an SVG element created in the session. */
  type Id = nat

  /** An element's attributes: its geometry and its stroke, stroke-width and fill. */
  datatype Node = Node(shape: Shape, style: Style)

  predicate Distinct(s: seq<Id>)
  {
    forall i, j :: 0 <= i < j < |s| ==> s[i] != s[j]
  }

  /** `canvas.removeChild(x)`: the child list without `x`, the others in their order. */
  function Without(s: seq<Id>, x: Id): (r: seq<Id>)
    ensures forall y :: y in r <==> y in s && y != x
    ensures x !in s ==> r == s
    ensures Distinct(s) ==> Distinct(r)
    ensures Distinct(s) && x in s ==> |r| == |s| - 1
  {
    if s == [] then []
    else if s[0] == x then Without(s[1..], x)
    else
      var rest := Without(s[1..], x);
      assert Distinct(s) ==> s[0] !in s[1..] && Distinct(s[1..]);
      assert forall i :: 0 < i < |[s[0]] + rest| ==> ([s[0]] + rest)[i] == rest[i - 1];
      [s[0]] + rest
  }

  /** Removing the child that was just appended gives back the child list before it. */
  lemma {:induction false} WithoutAppended(s: seq<Id>, x: Id)
    requires x !in s
    ensures Without(s + [x], x) == s
  {
    if s != [] {
      assert (s + [x])[1..] == s[1..] + [x];
      WithoutAppended(s[1..], x);
    }
  }

  /** In a child list without repeats, removing `x` from position `i` leaves the children
      before it and the children after it, each in their order. */
  lemma {:induction false} WithoutRemovesAt(s: seq<Id>, x: Id, i: nat)
    requires Distinct(s) && i < |s| && s[i] == x
    ensures Without(s, x) == s[..i] + s[i + 1..]
    decreases |s|
  {
    if i == 0 {
      assert x !in s[1..];
    } else {
      assert Distinct(s[1..]);
      WithoutRemovesAt(s[1..], x, i - 1);
      assert s[1..][..i - 1] == s[1..i] && s[1..][i..] == s[i + 1..];
      assert [s[0]] + s[1..i] == s[..i];
    }
  }
}
