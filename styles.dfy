/** The three style inputs (stroke colour, stroke width, fill colour) and the style
    attributes they edit. Values are the inputs' text values, as the editor passes them to
    `setAttribute` and compares them with `!==`. */
module Styles {

  datatype Attr = Stroke | StrokeWidth | Fill

  /** One value per style attribute: an element's attributes, the inputs' values, or the
      cache of last committed values. */
  datatype Style = Style(stroke: string, strokeWidth: string, fill: string)

  function Get(s: Style, a: Attr): string
  {
    match a
    case Stroke => s.stroke
    case StrokeWidth => s.strokeWidth
    case Fill => s.fill
  }

  function Set(s: Style, a: Attr, v: string): (r: Style)
    ensures Get(r, a) == v
    ensures forall b :: b != a ==> Get(r, b) == Get(s, b)
  {
    match a
    case Stroke => s.(stroke := v)
    case StrokeWidth => s.(strokeWidth := v)
    case Fill => s.(fill := v)
  }

  /** The values `resetColors` puts in the inputs. */
  const ResetValues := Style("#000000", "2", "#ffffff")

  /** What the inputs show for an element attribute that is missing or empty. */
  function Fallback(a: Attr): string
  {
    match a
    case Stroke => "#000000"
    case StrokeWidth => "1"
    case Fill => "#ffffff"
  }

  /** What the inputs show when an element with attributes `attrs` is selected: each
      attribute, or its fallback where the attribute is empty. */
  function Shown(attrs: Style): (r: Style)
    ensures forall a :: Get(r, a) != ""
    ensures forall a :: Get(attrs, a) != "" ==> Get(r, a) == Get(attrs, a)
    ensures forall a :: Get(attrs, a) == "" ==> Get(r, a) == Fallback(a)
  {
    Style(if attrs.stroke == "" then Fallback(Stroke) else attrs.stroke,
          if attrs.strokeWidth == "" then Fallback(StrokeWidth) else attrs.strokeWidth,
          if attrs.fill == "" then Fallback(Fill) else attrs.fill)
  }
}
