/** The two-point pick both calibration dialogs share: clicks on the document
    fill in the first point, then the second, and a third click starts over
    with a new first point. */
module PointPair {
  import opened Wrappers
  import opened Geometry

  datatype Pick = Pick(p1: Option<Point>, p2: Option<Point>, count: nat)

  const NoPick := Pick(None, None, 0)

  /** The count never exceeds 2, a count of 1 or more means the first point
      is set and a count of 2 that both are. Every operation keeps this. */
  predicate Valid(s: Pick) {
    s.count <= 2 && (s.count >= 1 ==> s.p1.Some?) && (s.count == 2 ==> s.p2.Some?)
  }

  /** `on_point_selected`: 0 -> 1 sets the first point, 1 -> 2 the second,
      and from 2 the points are cleared and the click becomes the new first
      point. */
  function Select(s: Pick, p: Point): (t: Pick)
    ensures s.count == 0 ==> t == s.(p1 := Some(p), count := 1)
    ensures s.count == 1 ==> t == s.(p2 := Some(p), count := 2)
    ensures s.count >= 2 ==> t == Pick(Some(p), None, 1)
  {
    if s.count == 0 then s.(p1 := Some(p), count := 1)
    else if s.count == 1 then s.(p2 := Some(p), count := 2)
    else Pick(Some(p), None, 1)
  }

  /** `clear_points`. */
  function Clear(): (t: Pick)
    ensures t.p1.None? && t.p2.None? && t.count == 0
  {
    NoPick
  }

  /** Selecting keeps the pick valid and the count cycles 0, 1, 2, 1, 2, ... */
  lemma SelectCycle(s: Pick, p: Point)
    requires Valid(s)
    ensures Valid(Select(s, p))
    ensures Select(s, p).count == (if s.count == 1 then 2 else 1)
    ensures Select(s, p).count == 2 ==> Select(s, p).p1 == s.p1 && Select(s, p).p2 == Some(p)
    ensures Select(s, p).count == 1 ==> Select(s, p).p1 == Some(p)
  {
  }

  /** Two clicks after clearing give exactly those two points. */
  lemma TwoClicks(a: Point, b: Point)
    ensures Select(Select(Clear(), a), b) == Pick(Some(a), Some(b), 2)
  {
  }
}
