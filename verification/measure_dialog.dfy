/** The measure dialog: the distance between two picked points in pixels and,
    with a positive mm-per-pixel scale, in mm and inches. As in the scaling
    dialog the Euclidean pixel distance is an input `d`. */
module MeasureDialog {
  import opened Wrappers
  import opened Text
  import opened Geometry
  import opened Helpers
  import opened PointPair
  import ScalingDialog

  /** `on_point_moved`: only a point that is already set follows the drag. */
  function MovePoint(s: Pick, p: Point, index: int): (t: Pick)
    ensures index == 0 && s.p1.Some? ==> t == s.(p1 := Some(p))
    ensures index == 1 && s.p2.Some? ==> t == s.(p2 := Some(p))
    ensures !(index == 0 && s.p1.Some?) && !(index == 1 && s.p2.Some?) ==> t == s
    ensures t.count == s.count && (t.p1.Some? <==> s.p1.Some?) && (t.p2.Some? <==> s.p2.Some?)
  {
    if index == 0 && s.p1.Some? then s.(p1 := Some(p))
    else if index == 1 && s.p2.Some? then s.(p2 := Some(p))
    else s
  }

  /** The read-outs: zeros without two points, the pixel distance alone when
      no positive scale is set, or all three lengths. */
  datatype Readout = Zero | NeedScale(px: real) | Lengths(px: real, mm: real, inches: real)

  /** `_recompute`: the read-outs for the current points and scale. */
  function Recompute(s: Pick, scale: real, d: real): (r: Readout)
    requires ScalingDialog.IsDistance(s, d)
    ensures r.Zero? <==> s.p1.None? || s.p2.None?
    ensures r.NeedScale? <==> s.p1.Some? && s.p2.Some? && scale <= 0.0
    ensures r.NeedScale? ==> r.px == d
    ensures r.Lengths? ==> r.px == d && r.mm == d * scale && r.inches * MmPerInch == r.mm
  {
    if s.p1.None? || s.p2.None? then Zero
    else if scale > 0.0 then Lengths(d, d * scale, d * scale / MmPerInch)
    else NeedScale(d)
  }

  /** Whether the viewer keeps a measurement text after a recompute. */
  predicate ViewerShowsText(r: Readout) {
    r.Lengths?
  }

  /** Calibrating with the scaling dialog on two points and then measuring
      the same points reads back the calibrated length in mm. */
  lemma CalibrationRoundTrip(s: Pick, d: real, lengthMm: real)
    requires ScalingDialog.IsDistance(s, d)
    requires ScalingDialog.ApplyEnabled(s, Num(lengthMm), d)
    ensures var scale := ScalingDialog.ApplyScale(s, Num(lengthMm), d, "mm").value;
      Recompute(s, scale, d).Lengths? && Recompute(s, scale, d).mm == lengthMm
  {
  }

  /** After `clear_points` the dialog holds no points, so the next recompute
      reads zero and is the branch that sets the viewer's measurement text to
      empty. `clear_points` itself does not touch that text. */
  lemma ClearedReadsZero(scale: real, d: real)
    ensures Recompute(Clear(), scale, d) == Zero && !ViewerShowsText(Recompute(Clear(), scale, d))
  {
  }
}
