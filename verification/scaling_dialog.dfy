/** The scaling (calibration) dialog: two points on the document and the real
    distance between them give the scale in real units per pixel. The
    Euclidean pixel distance is an input `d` with `d * d` equal to the squared
    distance of the points, since square roots are not modelled. */
module ScalingDialog {
  import opened Wrappers
  import opened Text
  import opened Geometry
  import opened Helpers
  import opened PointPair

  /** `on_point_moved`: dragging endpoint 0 or 1 moves that point, set or not;
      any other index changes nothing. */
  function MovePoint(s: Pick, p: Point, index: int): (t: Pick)
    ensures index == 0 ==> t == s.(p1 := Some(p))
    ensures index == 1 ==> t == s.(p2 := Some(p))
    ensures index != 0 && index != 1 ==> t == s
    ensures Valid(s) ==> Valid(t)
  {
    if index == 0 then s.(p1 := Some(p))
    else if index == 1 then s.(p2 := Some(p))
    else s
  }

  predicate IsDistance(s: Pick, d: real) {
    s.p1.Some? && s.p2.Some? ==> d >= 0.0 && d * d == Dist2(s.p1.value, s.p2.value)
  }

  /** What the preview line shows. */
  datatype Preview =
    | NotCalculated
    | InvalidValues
    | InvalidDistance
    | ScaleShown(scale: real, form: RatioForm)

  /** `update_scale_preview`. `distance` is the text field read by `float`,
      `Blank` when the field is empty. */
  function UpdatePreview(s: Pick, distance: FloatText, d: real): (r: Preview)
    requires IsDistance(s, d)
    ensures r.NotCalculated? <==> s.p1.None? || s.p2.None? || distance.Blank?
    ensures r.ScaleShown? <==> ApplyEnabled(s, distance, d)
    ensures r.ScaleShown? ==> r.scale * d == distance.value && (r.form.TimesOne? <==> r.scale >= 1.0)
  {
    if s.p1.None? || s.p2.None? || distance.Blank? then NotCalculated
    else match distance
      case NotANumber => InvalidDistance
      case Num(v) =>
        if d > 0.0 && v > 0.0 then
          var scale := v / d;
          ScaleShown(scale, if scale >= 1.0 then TimesOne(scale) else OneTo(1.0 / scale))
        else InvalidValues
  }

  /** The Apply button is enabled exactly when both points are set, the
      distance parses, and both distances are positive; the scale it would
      apply is then positive. */
  function ApplyEnabled(s: Pick, distance: FloatText, d: real): (b: bool)
    ensures b ==> distance.Num? && d > 0.0 && distance.value / d > 0.0
  {
    s.p1.Some? && s.p2.Some? && distance.Num? && distance.value > 0.0 && d > 0.0
  }

  /** `apply_scale` as written: it emits real distance over pixel distance in
      whatever unit the combo shows. */
  function ApplyScaleAsWritten(s: Pick, distance: FloatText, d: real, units: string): (emitted: Option<real>)
    requires IsDistance(s, d)
    ensures emitted.Some? <==> ApplyEnabled(s, distance, d)
    ensures emitted.Some? ==> emitted.value * d == distance.value
  {
    if ApplyEnabled(s, distance, d) then Some(distance.value / d) else None
  }

  /** `apply_scale` as intended: the emitted scale is in mm per pixel (what
      every consumer of the scale assumes), so inches are converted first. */
  function ApplyScale(s: Pick, distance: FloatText, d: real, units: string): (emitted: Option<real>)
    requires IsDistance(s, d)
    ensures emitted.Some? <==> ApplyEnabled(s, distance, d)
    ensures emitted.Some? ==> emitted.value * d == distance.value * (if units == "inches" then MmPerInch else 1.0)
  {
    if ApplyEnabled(s, distance, d) then Some(CalculateScaleFactor(d, distance.value, units)) else None
  }

  /** The corrected scale is the one `calculate_scale_factor` computes, and
      for mm it agrees with the code as written. */
  lemma ApplyScaleAgrees(s: Pick, distance: FloatText, d: real, units: string)
    requires IsDistance(s, d) && ApplyEnabled(s, distance, d)
    ensures ApplyScale(s, distance, d, units) == Some(CalculateScaleFactor(d, distance.value, units))
    ensures units != "inches" ==> ApplyScale(s, distance, d, units) == ApplyScaleAsWritten(s, distance, d, units)
  {
  }

  /** The discrepancy: two points 100 px apart marked as 1 inch. The code as
      written emits 0.01, a scale 25.4 times too small for a consumer that
      reads it as mm per pixel; the intended scale is 0.254 mm per pixel. */
  lemma InchesNotConverted()
    ensures var s := Pick(Some(Point(0.0, 0.0)), Some(Point(100.0, 0.0)), 2);
      ApplyScaleAsWritten(s, Num(1.0), 100.0, "inches") == Some(0.01)
      && ApplyScale(s, Num(1.0), 100.0, "inches") == Some(0.254)
  {
    var s := Pick(Some(Point(0.0, 0.0)), Some(Point(100.0, 0.0)), 2);
    assert Dist2(s.p1.value, s.p2.value) == 10000.0;
  }
}
