/** Points, sizes and rectangles of the toolkit, with `f32` coordinates
    modelled as exact reals. */
module Geometry {

  datatype Point = Point(x: real, y: real)

  const Origin := Point(0.0, 0.0)

  datatype Size = Size(width: real, height: real)

  const ZeroSize := Size(0.0, 0.0)

  /** An axis-aligned box: top-left corner plus extent. */
  datatype Rectangle = Rectangle(x: real, y: real, width: real, height: real)

  /** `f32::max` (no NaN among the reals). */
  function Max(a: real, b: real): (r: real)
    ensures a <= r && b <= r
    ensures r == a || r == b
  {
    if a >= b then a else b
  }

  /** `f32::min` (no NaN among the reals). */
  function Min(a: real, b: real): (r: real)
    ensures r <= a && r <= b
    ensures r == a || r == b
  {
    if a <= b then a else b
  }

  /** `Size::pad`: grows both axes by the padding on each side. */
  function PadSize(s: Size, padding: real): Size
  {
    Size(s.width + 2.0 * padding, s.height + 2.0 * padding)
  }

  /** `inner` lies entirely inside `outer` (edges may touch). */
  predicate Within(inner: Rectangle, outer: Rectangle)
  {
    && outer.x <= inner.x
    && outer.y <= inner.y
    && inner.x + inner.width <= outer.x + outer.width
    && inner.y + inner.height <= outer.y + outer.height
  }
}
