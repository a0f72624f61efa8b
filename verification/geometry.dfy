/**
 Exact real-valued geometry standing in for `java.awt.geom.Rectangle2D`,
 `java.awt.geom.Dimension2D` and `java.awt.Point`.
 */
module Geometry {

  /** A width/height pair, as stored in a `Dimension2D`. */
  datatype Dim = Dim(width: real, height: real)

  /** A point with integer coordinates, as a `java.awt.Point`. */
  datatype Point = Point(x: int, y: int)

  /** A point with real coordinates, as used by `Path2D`. */
  datatype RealPoint = RealPoint(x: real, y: real)

  /** An axis-aligned rectangle given by its origin (top-left corner) and size. */
  datatype Rect = Rect(x: real, y: real, width: real, height: real) {

    function CenterX(): real {
      x + width / 2.0
    }

    function CenterY(): real {
      y + height / 2.0
    }

    function Center(): RealPoint {
      RealPoint(CenterX(), CenterY())
    }
  }

  /**
   Rectangle containment of a point, taken as the host toolkit's rule:
   inclusive on the minimum edges, exclusive on the maximum edges. An
   empty or negative-sized rectangle therefore contains nothing.
   */
  predicate ContainsXY(r: Rect, px: real, py: real) {
    r.x <= px && r.y <= py && px < r.x + r.width && py < r.y + r.height
  }

  predicate Contains(r: Rect, p: Point) {
    ContainsXY(r, p.x as real, p.y as real)
  }

  /** Every point of `inner` is a point of `outer`. */
  ghost predicate Within(inner: Rect, outer: Rect) {
    forall px: real, py: real {:trigger ContainsXY(inner, px, py)} ::
      ContainsXY(inner, px, py) ==> ContainsXY(outer, px, py)
  }

  function Max(a: real, b: real): (m: real)
    ensures m >= a && m >= b
    ensures m == a || m == b
  {
    if a >= b then a else b
  }

  /** `Math.round` of a float: the nearest integer, halves rounded up. */
  function Round(v: real): (r: int)
    ensures r as real - 0.5 <= v < r as real + 0.5
  {
    (v + 0.5).Floor
  }

  /** A point on the minimum corner is inside, one on the maximum edge is not. */
  lemma HalfOpenBoundary(r: Rect)
    requires r.width > 0.0 && r.height > 0.0
    ensures ContainsXY(r, r.x, r.y)
    ensures !ContainsXY(r, r.x + r.width, r.y)
    ensures !ContainsXY(r, r.x, r.y + r.height)
  {
  }
}
