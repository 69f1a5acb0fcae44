/** Points, squared distances and page orientation shared by the viewer, the
    dialogs, the exporters and the snap plugin. */
module Geometry {
  import opened Arith

  /** A point in document pixels. */
  datatype Point = Point(x: real, y: real)

  lemma SquareNonNeg(t: real)
    ensures t * t >= 0.0
  {
    if t > 0.0 {
      MulStrict(0.0, t, t);
    } else if t < 0.0 {
      MulStrict(t, 0.0, -t);
    }
  }

  /** Squared Euclidean distance; the model compares distances squared instead
      of taking square roots. */
  function Dist2(a: Point, b: Point): (d: real)
    ensures d >= 0.0
  {
    SquareNonNeg(a.x - b.x);
    SquareNonNeg(a.y - b.y);
    (a.x - b.x) * (a.x - b.x) + (a.y - b.y) * (a.y - b.y)
  }

  lemma Dist2Symmetric(a: Point, b: Point)
    ensures Dist2(a, b) == Dist2(b, a)
  {
  }

  /** A page orientation of the print and PDF layouts. */
  datatype Orientation = Portrait | Landscape
}
