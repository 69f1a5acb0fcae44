/** The document viewer's state and the operations that change it: rotation,
    zoom, point selection and the list of measurements with its hit test,
    deletion and text. Painting, panning and the widget geometry beyond the
    click mapping are not modelled. */
module Viewer {
  import opened Wrappers
  import opened Arith
  import opened Geometry

  /** What a measurement's text says: nothing (negative scale), or the pixel
      distance (squared) and the mm-per-pixel scale it was formatted with. */
  datatype Reading = NoReading | Reading(distance2: real, scale: real)

  datatype Measurement = Measurement(p1: Point, p2: Point, text: Reading)

  datatype ViewerState = ViewerState(
    zoom: real,
    scale: real,
    rotation: int,
    selectionMode: bool,
    points: seq<Point>,
    measurements: seq<Measurement>,
    selected: Option<nat>,
    measurementText: string,
    cursor: Option<Point>,
    hover: Option<nat>)

  /** A freshly created viewer. */
  function InitialViewer(): (v: ViewerState)
    ensures v.rotation == 0 && v.zoom == 1.0 && v.measurements == [] && v.points == []
  {
    ViewerState(1.0, 1.0, 0, false, [], [], None, "", None, None)
  }

  // Rotation

  function RotateClockwise(rotation: int): (r: int)
    ensures 0 <= r < 360 && (r - rotation - 90) % 360 == 0
  {
    (rotation + 90) % 360
  }

  function RotateCounterclockwise(rotation: int): (r: int)
    ensures 0 <= r < 360 && (r - rotation + 90) % 360 == 0
  {
    (rotation - 90) % 360
  }

  predicate RightAngle(r: int) {
    r == 0 || r == 90 || r == 180 || r == 270
  }

  /** Starting from a right angle, both rotations stay on right angles, undo
      each other, and four clockwise turns come back to the start. */
  lemma RotationCycle(r: int)
    requires RightAngle(r)
    ensures RightAngle(RotateClockwise(r)) && RightAngle(RotateCounterclockwise(r))
    ensures RotateCounterclockwise(RotateClockwise(r)) == r
    ensures RotateClockwise(RotateCounterclockwise(r)) == r
    ensures RotateClockwise(RotateClockwise(RotateClockwise(RotateClockwise(r)))) == r
  {
  }

  // Zoom

  function ZoomIn(zoom: real): (z: real)
    ensures zoom > 0.0 ==> z > zoom
  {
    zoom * 1.25
  }

  function ZoomOut(zoom: real): (z: real)
    ensures zoom > 0.0 ==> 0.0 < z < zoom
  {
    zoom / 1.25
  }

  /** Zooming out undoes zooming in, and the other way round. */
  lemma ZoomInverse(zoom: real)
    ensures ZoomOut(ZoomIn(zoom)) == zoom && ZoomIn(ZoomOut(zoom)) == zoom
  {
  }

  /** `zoom_fit`: 90% of the zoom at which the document just fits the scroll
      area; an empty document divides by zero. */
  function ZoomFit(areaW: int, areaH: int, docW: int, docH: int): (z: Option<real>)
    ensures z.None? <==> docW == 0 || docH == 0
    ensures z.Some? && docW > 0 && docH > 0 ==>
      z.value * docW as real <= 0.9 * areaW as real && z.value * docH as real <= 0.9 * areaH as real
      && (z.value * docW as real == 0.9 * areaW as real || z.value * docH as real == 0.9 * areaH as real)
  {
    if docW == 0 || docH == 0 then None
    else
      var zx, zy := areaW as real / docW as real, areaH as real / docH as real;
      var z := MinR(zx, zy) * 0.9;
      if docW > 0 && docH > 0 then
        FitBoth(zx, zy, docW as real, docH as real, areaW as real, areaH as real);
        Some(z)
      else Some(z)
  }

  lemma FitBoth(zx: real, zy: real, w: real, h: real, aw: real, ah: real)
    requires w > 0.0 && h > 0.0 && zx == aw / w && zy == ah / h
    ensures var z := MinR(zx, zy) * 0.9;
      z * w <= 0.9 * aw && z * h <= 0.9 * ah && (z * w == 0.9 * aw || z * h == 0.9 * ah)
  {
    DivMul(aw, w);
    DivMul(ah, h);
    var m := MinR(zx, zy);
    MulLeft(m, zx, w);
    MulLeft(m, zy, h);
    assert m * 0.9 * w == 0.9 * (m * w);
    assert m * 0.9 * h == 0.9 * (m * h);
  }

  // Measurements

  /** `_format_measurement_text`: a scale of 0 counts as 1 (`or 1.0`); a
      positive scale gives a reading, a negative one no text. */
  function FormatMeasurement(p1: Point, p2: Point, scale: real): (t: Reading)
    ensures t.NoReading? <==> scale < 0.0
    ensures t.Reading? ==> t.distance2 == Dist2(p1, p2) && t.scale > 0.0
    ensures t.Reading? && scale != 0.0 ==> t.scale == scale
  {
    var s := if scale == 0.0 then 1.0 else scale;
    if s > 0.0 then Reading(Dist2(p2, p1), s) else NoReading
  }

  /** The squared distance from `c` to the measurement as the hit test sees it
      at zoom `z`: the nearer endpoint or the nearest point of the segment. */
  function HitDistance(m: Measurement, c: Point, z: real): real {
    var click := Point(c.x * z, c.y * z);
    var p1, p2 := Point(m.p1.x * z, m.p1.y * z), Point(m.p2.x * z, m.p2.y * z);
    var dEnds := MinR(Dist2(click, p1), Dist2(click, p2));
    var vx, vy := p2.x - p1.x, p2.y - p1.y;
    var segLen2 := MaxR(1.0, vx * vx + vy * vy);
    var t := MaxR(0.0, MinR(1.0, ((click.x - p1.x) * vx + (click.y - p1.y) * vy) / segLen2));
    MinR(dEnds, Dist2(click, Point(p1.x + t * vx, p1.y + t * vy)))
  }

  /** The hit tolerance: 12 display pixels, squared. */
  const Tolerance2: real := 144.0

  /** The outcome `select_measurement_at` promises: nothing when no
      measurement is within the tolerance, otherwise the first measurement at
      the least hit distance. Distances are taken at the zoom, which is
      floored at 0.0001. */
  predicate NearestHit(ms: seq<Measurement>, c: Point, zoom: real, sel: Option<nat>) {
    var z := MaxR(0.0001, zoom);
    (sel.None? <==> forall i :: 0 <= i < |ms| ==> HitDistance(ms[i], c, z) > Tolerance2)
    && (sel.Some? ==>
          sel.value < |ms| && HitDistance(ms[sel.value], c, z) <= Tolerance2
          && (forall i :: 0 <= i < |ms| ==> HitDistance(ms[sel.value], c, z) <= HitDistance(ms[i], c, z))
          && (forall i :: 0 <= i < sel.value ==> HitDistance(ms[i], c, z) > HitDistance(ms[sel.value], c, z)))
  }

  /** The outcome is determined: at most one selection meets the promise. */
  lemma NearestHitUnique(ms: seq<Measurement>, c: Point, zoom: real, a: Option<nat>, b: Option<nat>)
    requires NearestHit(ms, c, zoom, a) && NearestHit(ms, c, zoom, b)
    ensures a == b
  {
  }

  /** `select_measurement_at`: the first measurement at the least hit distance,
      provided that distance is within the tolerance. */
  method SelectMeasurementAt(ms: seq<Measurement>, c: Point, zoom: real) returns (sel: Option<nat>)
    ensures NearestHit(ms, c, zoom, sel)
  {
    if ms == [] {
      return None;
    }
    var z := MaxR(0.0001, zoom);
    sel := None;
    var best := Tolerance2 + 1.0;
    var i := 0;
    while i < |ms|
      invariant 0 <= i <= |ms|
      invariant sel.None? ==> best == Tolerance2 + 1.0 && forall j :: 0 <= j < i ==> HitDistance(ms[j], c, z) > Tolerance2
      invariant sel.Some? ==>
        (sel.value < i && best == HitDistance(ms[sel.value], c, z) && best <= Tolerance2
         && (forall j :: 0 <= j < i ==> best <= HitDistance(ms[j], c, z))
         && (forall j :: 0 <= j < sel.value ==> HitDistance(ms[j], c, z) > best))
    {
      var d := HitDistance(ms[i], c, z);
      if d <= Tolerance2 && d < best {
        best := d;
        sel := Some(i);
      }
      i := i + 1;
    }
  }

  /** Delete or Backspace: with a valid selection that measurement is removed
      and the selection cleared; otherwise nothing changes. */
  function DeleteSelected(v: ViewerState): (w: ViewerState)
    ensures v.selected.Some? && v.selected.value < |v.measurements| ==>
      var i := v.selected.value;
      |w.measurements| == |v.measurements| - 1 && w.selected.None?
      && (forall j :: 0 <= j < i ==> w.measurements[j] == v.measurements[j])
      && (forall j :: i <= j < |w.measurements| ==> w.measurements[j] == v.measurements[j + 1])
    ensures !(v.selected.Some? && v.selected.value < |v.measurements|) ==> w == v
    ensures w.points == v.points && w.zoom == v.zoom && w.scale == v.scale
  {
    match v.selected
    case Some(i) =>
      if i < |v.measurements| then
        v.(measurements := v.measurements[..i] + v.measurements[i + 1..], selected := None)
      else v
    case None => v
  }

  /** Deleting removes exactly the selected measurement. */
  lemma DeleteRemovesSelected(v: ViewerState)
    requires v.selected.Some? && v.selected.value < |v.measurements|
    ensures multiset(DeleteSelected(v).measurements) + multiset{v.measurements[v.selected.value]}
      == multiset(v.measurements)
  {
    var i := v.selected.value;
    var ms := v.measurements;
    assert ms == ms[..i] + [ms[i]] + ms[i + 1..];
  }

  /** Where a click on the label falls on the document: the label centres the
      image, so the offset is half the size difference (rounded down). */
  function ImageOffset(labelSize: int, imageSize: int): int {
    (labelSize - imageSize) / 2
  }

  /** The document point a click at (`px`, `py`) on the label stands for:
      relative to the centred image and divided by the zoom. `None` when the
      click misses the image, or when the zoom is 0 and the division aborts
      the handler. */
  function ClickPoint(zoom: real, px: int, py: int, labelW: int, labelH: int, imageW: int, imageH: int): (p: Option<Point>)
    ensures var ix, iy := px - ImageOffset(labelW, imageW), py - ImageOffset(labelH, imageH);
      (p.None? <==> !(0 <= ix <= imageW && 0 <= iy <= imageH) || zoom == 0.0)
      && (p.Some? ==> p.value.x * zoom == ix as real && p.value.y * zoom == iy as real)
  {
    var ix, iy := px - ImageOffset(labelW, imageW), py - ImageOffset(labelH, imageH);
    if !(0 <= ix <= imageW && 0 <= iy <= imageH) || zoom == 0.0 then None
    else Some(Point(ix as real / zoom, iy as real / zoom))
  }

  /** `on_image_clicked`. A click with no document, outside the shown image
      or at zoom 0 changes nothing. In selection mode the point is added, and
      the second point completes a measurement and clears the points;
      otherwise the click selects the nearest measurement. */
  method OnImageClicked(v: ViewerState, hasDocument: bool, px: int, py: int,
                        labelW: int, labelH: int, imageW: int, imageH: int) returns (w: ViewerState)
    ensures var c := ClickPoint(v.zoom, px, py, labelW, labelH, imageW, imageH);
      !hasDocument || c.None? ==> w == v
    ensures var c := ClickPoint(v.zoom, px, py, labelW, labelH, imageW, imageH);
      hasDocument && c.Some? && v.selectionMode && v.points == [] ==>
        w == v.(points := [c.value])
    ensures var c := ClickPoint(v.zoom, px, py, labelW, labelH, imageW, imageH);
      hasDocument && c.Some? && v.selectionMode && v.points != [] ==>
        var ps := v.points + [c.value];
        w == v.(points := [], cursor := None,
                 measurements := v.measurements + [Measurement(ps[0], ps[1], FormatMeasurement(ps[0], ps[1], v.scale))])
    ensures var c := ClickPoint(v.zoom, px, py, labelW, labelH, imageW, imageH);
      hasDocument && c.Some? && !v.selectionMode ==>
        w == v.(selected := w.selected) && NearestHit(v.measurements, c.value, v.zoom, w.selected)
    ensures v.selectionMode && |v.points| < 2 ==> |w.points| < 2
  {
    var c := ClickPoint(v.zoom, px, py, labelW, labelH, imageW, imageH);
    if !hasDocument || c.None? {
      return v;
    }
    var p := c.value;
    if v.selectionMode {
      var points := v.points + [p];
      if |points| >= 2 {
        var m := Measurement(points[0], points[1], FormatMeasurement(points[0], points[1], v.scale));
        w := v.(points := [], measurements := v.measurements + [m], cursor := None);
      } else {
        w := v.(points := points);
      }
    } else {
      var sel := SelectMeasurementAt(v.measurements, p, v.zoom);
      w := v.(selected := sel);
    }
  }

  /** `set_point_selection_mode`: switching on clears the points, the text and
      the live cursor; switching off clears the hover and the cursor. */
  function SetPointSelectionMode(v: ViewerState, enabled: bool): (w: ViewerState)
    ensures w.selectionMode == enabled && w.cursor.None?
    ensures enabled ==> w.points == [] && w.measurementText == "" && w.hover == v.hover
    ensures !enabled ==> w.hover.None? && w.points == v.points && w.measurementText == v.measurementText
    ensures w.measurements == v.measurements && w.selected == v.selected
  {
    if enabled then v.(selectionMode := true, points := [], measurementText := "", cursor := None)
    else v.(selectionMode := false, hover := None, cursor := None)
  }

  /** `set_scale`: the measurements keep the text they were given when made. */
  function SetScale(v: ViewerState, scale: real): (w: ViewerState)
    ensures w.scale == scale && w.measurements == v.measurements
  {
    v.(scale := scale)
  }

  /** Grabbing the line: the nearer endpoint, the first one on a tie. */
  function GrabEndpoint(d1: int, d2: int): (k: nat)
    ensures k <= 1 && (k == 0 <==> d1 <= d2)
  {
    if d1 <= d2 then 0 else 1
  }
}
