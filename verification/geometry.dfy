/**
  Two-dimensional points and the comparisons the game scripts make with
  `Utils.Distance` / `math.hypot`. Euclidean distance is never computed:
  `dist(a, b) <= d` is stated on squared distances, which is equivalent for
  the non-negative distance.
 */
module Geometry {

  datatype Point = Point(x: real, y: real)

  /** The squared Euclidean distance. */
  function DistSq(a: Point, b: Point): (r: real)
    ensures r >= 0.0
  {
    (a.x - b.x) * (a.x - b.x) + (a.y - b.y) * (a.y - b.y)
  }

  /** `dist(a, b) <= d` */
  predicate DistLe(a: Point, b: Point, d: real) {
    d >= 0.0 && DistSq(a, b) <= d * d
  }

  /** `dist(a, b) < d` */
  predicate DistLt(a: Point, b: Point, d: real) {
    d > 0.0 && DistSq(a, b) < d * d
  }

  /** `dist(a, b) >= d` */
  predicate DistGe(a: Point, b: Point, d: real) {
    d <= 0.0 || DistSq(a, b) >= d * d
  }

  /** Python's `int(x)` on a float: truncation toward zero. */
  function Trunc(x: real): (r: int)
    ensures x >= 0.0 ==> r as real <= x < r as real + 1.0
    ensures x < 0.0 ==> r as real - 1.0 < x <= r as real
  {
    if x >= 0.0 then x.Floor else -((-x).Floor)
  }
}
