/** Exact plane geometry shared by the drawing aids and the Bezier helpers.
    Python floats are modelled as mathematical reals. */
module Geometry {

  datatype Point = Point(x: real, y: real)

  /** Linear interpolation as the Bezier splitter writes it: `(v - u) * t + u`. */
  function Lerp(u: real, v: real, t: real): real {
    (v - u) * t + u
  }

  function LerpPoint(p: Point, q: Point, t: real): Point {
    Point(Lerp(p.x, q.x, t), Lerp(p.y, q.y, t))
  }

  /** Interpolating from the far end with the complementary parameter gives
      the same value. */
  lemma LerpReverse(u: real, v: real, t: real, t': real)
    requires t' == 1.0 - t
    ensures Lerp(u, v, t) == Lerp(v, u, t')
  {
  }
}
