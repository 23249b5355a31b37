/** Core Graphics values used by the layout, with `CGFloat` as `real`. */
module Geometry {

  datatype Point = Point(x: real, y: real)

  datatype Size = Size(width: real, height: real)

  /** A rectangle given by its origin and size (sizes are taken as non-normalised). */
  datatype Rect = Rect(origin: Point, size: Size) {
    function MinX(): real { origin.x }
    function MinY(): real { origin.y }
    function MaxX(): real { origin.x + size.width }
    function MaxY(): real { origin.y + size.height }
  }

  datatype Insets = Insets(top: real, left: real, bottom: real, right: real)

  function Abs(r: real): real {
    if r < 0.0 then -r else r
  }

  function Max(a: real, b: real): real {
    if a < b then b else a
  }

  function Min(a: real, b: real): real {
    if a < b then a else b
  }

  /** Componentwise sum, the `CGPoint + CGPoint` the auto-scroll tick applies. */
  function Add(a: Point, b: Point): Point {
    Point(a.x + b.x, a.y + b.y)
  }
}
