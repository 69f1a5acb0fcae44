/** The single-page viewer dialog: which overlays it draws on a page, where
    document points land on the page image, and its zoom-to-fit rule. Zooming
    in and out by 1.25 is the viewer's rule (`Viewer.ZoomIn`, `Viewer.ZoomOut`). */
module PageViewerDialog {
  import opened Wrappers
  import opened Arith
  import opened Geometry

  /** The page shown: its rectangle in document coordinates and whether it is
      the metadata page. */
  datatype PageInfo = PageInfo(x: real, y: real, width: real, height: real, isMetadata: bool)

  /** A scale line or measurement; either endpoint may be missing. */
  datatype Segment = Segment(p1: Option<Point>, p2: Option<Point>)

  /** The point lies on the page, edges included. */
  predicate InPage(p: Point, page: PageInfo) {
    page.x <= p.x <= page.x + page.width && page.y <= p.y <= page.y + page.height
  }

  /** The segment's bounding box meets the page rectangle, edges included. */
  predicate BoxMeetsPage(a: Point, b: Point, page: PageInfo) {
    !(MaxR(a.x, b.x) < page.x || MinR(a.x, b.x) > page.x + page.width
      || MaxR(a.y, b.y) < page.y || MinR(a.y, b.y) > page.y + page.height)
  }

  /** `_add_scale_overlay`'s decision to draw the scale line: there is scale
      and page information, the page is not the metadata page, the line
      display is on, both points are set, and one point is on the page or the
      line's bounding box meets it. */
  function DrawScaleLine(scale: Option<Segment>, page: Option<PageInfo>, showLine: bool): (draw: bool)
    ensures draw ==> scale.Some? && page.Some? && !page.value.isMetadata && showLine
    ensures draw ==> scale.value.p1.Some? && scale.value.p2.Some?
    ensures (scale.Some? && page.Some? && !page.value.isMetadata && showLine
             && scale.value.p1.Some? && scale.value.p2.Some?) ==>
        (draw <==> BoxMeetsPage(scale.value.p1.value, scale.value.p2.value, page.value))
  {
    if scale.None? || page.None? then false
    else if page.value.isMetadata then false
    else if !showLine then false
    else if scale.value.p1.None? || scale.value.p2.None? then false
    else
      var a, b, pg := scale.value.p1.value, scale.value.p2.value, page.value;
      InPageMeets(a, b, pg);
      InPage(a, pg) || InPage(b, pg) || BoxMeetsPage(a, b, pg)
  }

  /** An endpoint on the page means the bounding box meets it, so the point
      tests add nothing to the box test. */
  lemma InPageMeets(a: Point, b: Point, page: PageInfo)
    ensures InPage(a, page) || InPage(b, page) ==> BoxMeetsPage(a, b, page)
  {
  }

  /** Document coordinates to page-image pixels: relative to the page origin,
      stretched by image size over page size. A page of zero width or height
      divides by zero. */
  function ToPixmap(p: Point, page: PageInfo, pixW: real, pixH: real): (q: Option<Point>)
    ensures q.None? <==> page.width == 0.0 || page.height == 0.0
    ensures q.Some? ==> (q.value.x * page.width == (p.x - page.x) * pixW
                         && q.value.y * page.height == (p.y - page.y) * pixH)
  {
    if page.width == 0.0 || page.height == 0.0 then None
    else Some(Point((p.x - page.x) * (pixW / page.width), (p.y - page.y) * (pixH / page.height)))
  }

  /** The page origin maps to the image origin and the far corner to the
      image's size. */
  lemma ToPixmapCorners(page: PageInfo, pixW: real, pixH: real)
    requires page.width != 0.0 && page.height != 0.0
    ensures ToPixmap(Point(page.x, page.y), page, pixW, pixH) == Some(Point(0.0, 0.0))
    ensures ToPixmap(Point(page.x + page.width, page.y + page.height), page, pixW, pixH) == Some(Point(pixW, pixH))
  {
    var origin := ToPixmap(Point(page.x, page.y), page, pixW, pixH).value;
    assert origin.x == 0.0 * (pixW / page.width) == 0.0;
    assert origin.y == 0.0 * (pixH / page.height) == 0.0;
    var far := ToPixmap(Point(page.x + page.width, page.y + page.height), page, pixW, pixH).value;
    MulCancel(far.x, pixW, page.width);
    MulCancel(far.y, pixH, page.height);
  }

  /** Measurement `m` is drawn on the page: both endpoints set and its
      bounding box meets the page. */
  predicate MeasurementShown(m: Segment, page: PageInfo) {
    m.p1.Some? && m.p2.Some? && BoxMeetsPage(m.p1.value, m.p2.value, page)
  }

  /** `_add_measurements_overlay`: the indices of the measurements drawn, in
      order; none without measurements, without page information or on the
      metadata page. On a page of zero width or height the first measurement
      to draw divides by zero, and the handler's `except` returns the page
      image without any of them. */
  function DrawnMeasurements(ms: seq<Segment>, page: Option<PageInfo>): (shown: seq<nat>)
    ensures page.None? || page.value.isMetadata ==> shown == []
    ensures page.Some? && (page.value.width == 0.0 || page.value.height == 0.0) ==> shown == []
    ensures page.Some? && !page.value.isMetadata && page.value.width != 0.0 && page.value.height != 0.0 ==>
      forall i: nat :: i in shown <==> i < |ms| && MeasurementShown(ms[i], page.value)
    ensures forall a, b :: 0 <= a < b < |shown| ==> shown[a] < shown[b]
  {
    if page.None? || page.value.isMetadata || page.value.width == 0.0 || page.value.height == 0.0 then []
    else Shown(ms, page.value, 0)
  }

  /** The measurements from index `k` on that are drawn. */
  function Shown(ms: seq<Segment>, page: PageInfo, k: nat): (shown: seq<nat>)
    requires k <= |ms|
    ensures forall i: nat :: i in shown <==> k <= i < |ms| && MeasurementShown(ms[i], page)
    ensures forall a, b :: 0 <= a < b < |shown| ==> k <= shown[a] < shown[b]
    ensures forall a :: 0 <= a < |shown| ==> k <= shown[a]
    decreases |ms| - k
  {
    if k == |ms| then []
    else
      var rest := Shown(ms, page, k + 1);
      if MeasurementShown(ms[k], page) then [k] + rest else rest
  }

  /** `zoom_fit`: the zoom at which the page image fits the scroll area less
      a 50-pixel margin, never above 100%. Without a page image (an image of
      zero size is a null image) the zoom is left alone. */
  function ZoomFit(zoom: real, scrollW: int, scrollH: int, pixW: nat, pixH: nat): (z: real)
    ensures pixW == 0 || pixH == 0 ==> z == zoom
    ensures pixW > 0 && pixH > 0 ==> (z <= 1.0
      && z * (pixW as real) <= (scrollW - 50) as real
      && z * (pixH as real) <= (scrollH - 50) as real)
    ensures pixW > 0 && pixH > 0 ==> (z == 1.0 || z * (pixW as real) == (scrollW - 50) as real
      || z * (pixH as real) == (scrollH - 50) as real)
  {
    if pixW == 0 || pixH == 0 then zoom
    else
      var w, h := pixW as real, pixH as real;
      var avW, avH := (scrollW - 50) as real, (scrollH - 50) as real;
      var z := MinR(MinR(avW / w, avH / h), 1.0);
      FitZoom(avW, avH, w, h);
      z
  }

  /** The smallest of `avW / w`, `avH / h` and 1 fits both extents and meets
      one of the three bounds. */
  lemma FitZoom(avW: real, avH: real, w: real, h: real)
    requires w > 0.0 && h > 0.0
    ensures var z := MinR(MinR(avW / w, avH / h), 1.0);
      z <= 1.0 && z * w <= avW && z * h <= avH
      && (z == 1.0 || z * w == avW || z * h == avH)
  {
    var zx, zy := avW / w, avH / h;
    var z := MinR(MinR(zx, zy), 1.0);
    DivMul(avW, w);
    DivMul(avH, h);
    FitBound(z, zx, w);
    FitBound(z, zy, h);
  }

  /** A zoom no larger than `avail / size` fits `avail`. */
  lemma FitBound(z: real, q: real, size: real)
    requires size > 0.0 && z <= q
    ensures z * size <= q * size
  {
  }
}
