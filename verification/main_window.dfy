/** The decisions of the main window around the page grid: orienting the page
    size, converting it to document pixels, the guards before planning, the
    print orientation and the project-file extension rules. */
module MainWindow {
  import opened Wrappers
  import opened Arith
  import opened Text
  import opened Geometry
  import opened Helpers
  import opened PageGrid
  import opened PageStats

  /** The orientation preference applied to a (width, height) page size in mm:
      "landscape" puts the longer side across, "portrait" puts it down, anything
      else ("auto") keeps the size as configured. */
  function ApplyOrientation(wh: (real, real), pref: string): (r: (real, real))
    ensures r == wh || r == (wh.1, wh.0)
    ensures pref == "landscape" ==> r.0 >= r.1
    ensures pref == "portrait" ==> r.1 >= r.0
    ensures pref != "landscape" && pref != "portrait" ==> r == wh
  {
    if pref == "landscape" then (if wh.0 < wh.1 then (wh.1, wh.0) else wh)
    else if pref == "portrait" then (if wh.1 < wh.0 then (wh.1, wh.0) else wh)
    else wh
  }

  /** Orienting twice in the same way changes nothing more. */
  lemma ApplyOrientationIdempotent(wh: (real, real), pref: string)
    ensures ApplyOrientation(ApplyOrientation(wh, pref), pref) == ApplyOrientation(wh, pref)
  {
  }

  /** A page length in document pixels: mm divided by the mm-per-pixel scale,
      or the mm value itself when the scale is not positive. */
  function PagePixels(mm: real, scale: real): (px: real)
    ensures scale > 0.0 ==> px * scale == mm
    ensures scale <= 0.0 ==> px == mm
  {
    if scale > 0.0 then mm / scale else mm
  }

  /** The configured page, oriented, in document pixels. */
  function PageInPixels(pageSize: string, orientation: string, scale: real): (px: (real, real))
    ensures var mm := ApplyOrientation(PageSizeMm(pageSize), orientation);
      px.0 > 0.0 && px.1 > 0.0 && (scale > 0.0 ==> px.0 * scale == mm.0 && px.1 * scale == mm.1)
  {
    var mm := ApplyOrientation(PageSizeMm(pageSize), orientation);
    (PagePixels(mm.0, scale), PagePixels(mm.1, scale))
  }

  /** The outcomes of applying a scale: the handler returns early without a
      document, with too small pages or with too many estimated pages; a zero
      scale reaches the unguarded gutter division and raises; otherwise the
      planned grid replaces the old one. */
  datatype ScaleOutcome =
    | NoDocument
    | ScaleTooLarge(pageW: real, pageH: real)
    | TooManyTiles(estimate: real)
    | GutterDivisionByZero
    | Applied(pageW: real, pageH: real, gutter: real, pages: seq<Page>)

  /** The estimate the handler compares with the limit: document size over
      page size, multiplied across both axes. */
  function EstimatedTiles(docW: nat, docH: nat, pageW: real, pageH: real): (n: real)
    requires pageW != 0.0 && pageH != 0.0
    ensures n * (pageW * pageH) == (docW * docH) as real
    ensures pageW > 0.0 && pageH > 0.0 ==> n >= 0.0
  {
    (docW as real / pageW) * (docH as real / pageH)
  }

  /** `on_scale_applied` for a document of `doc` pixels (none when no document
      is loaded), the configured page size, orientation and gutter (mm), and a
      scale in mm per pixel. */
  function OnScaleApplied(doc: Option<(nat, nat)>, pageSize: string, orientation: string, scale: real, gutterMm: real): (out: ScaleOutcome)
    ensures out.NoDocument? <==> doc.None?
    ensures out.Applied? ==>
      doc.Some? && scale != 0.0
      && out.pageW >= 50.0 && out.pageH >= 50.0
      && EstimatedTiles(doc.value.0, doc.value.1, out.pageW, out.pageH) <= 100.0
      && out.gutter * scale == gutterMm
      && out.pages == PageGridWithGutters(doc.value.0 as real, doc.value.1 as real, out.pageW, out.pageH, out.gutter)
    ensures out.GutterDivisionByZero? ==> scale == 0.0
    ensures out.Applied? ==> (out.pageW, out.pageH) == PageInPixels(pageSize, orientation, scale)
    ensures doc.Some? ==> var px := PageInPixels(pageSize, orientation, scale);
      out.ScaleTooLarge? <==> px.0 < 50.0 || px.1 < 50.0
    ensures doc.Some? ==> var px := PageInPixels(pageSize, orientation, scale);
      px.0 >= 50.0 && px.1 >= 50.0 ==>
        var est := EstimatedTiles(doc.value.0, doc.value.1, px.0, px.1);
        (out.TooManyTiles? <==> est > 100.0) && (out.TooManyTiles? ==> out.estimate == est)
    ensures doc.Some? ==> var px := PageInPixels(pageSize, orientation, scale);
      px.0 >= 50.0 && px.1 >= 50.0
      && EstimatedTiles(doc.value.0, doc.value.1, px.0, px.1) <= 100.0 && scale != 0.0 ==>
        out.Applied? && out.gutter == gutterMm / scale
        && out.pages == PageGridWithGutters(doc.value.0 as real, doc.value.1 as real, px.0, px.1, gutterMm / scale)
  {
    match doc
    case None => NoDocument
    case Some(size) =>
      var px := PageInPixels(pageSize, orientation, scale);
      var pw, ph := px.0, px.1;
      if pw < 50.0 || ph < 50.0 then ScaleTooLarge(pw, ph)
      else if EstimatedTiles(size.0, size.1, pw, ph) > 100.0 then TooManyTiles(EstimatedTiles(size.0, size.1, pw, ph))
      else if scale == 0.0 then GutterDivisionByZero
      else
        var g := gutterMm / scale;
        Applied(pw, ph, g, PageGridWithGutters(size.0 as real, size.1 as real, pw, ph, g))
  }

  /** With a positive scale the handler refuses exactly the scales that make a
      page side shorter than 50 px, i.e. a page side in mm below `50 * scale`. */
  lemma ScaleTooLargeIff(doc: Option<(nat, nat)>, pageSize: string, orientation: string, scale: real, gutterMm: real)
    requires doc.Some? && scale > 0.0
    ensures var mm := ApplyOrientation(PageSizeMm(pageSize), orientation);
      OnScaleApplied(doc, pageSize, orientation, scale, gutterMm).ScaleTooLarge?
      <==> (mm.0 < 50.0 * scale || mm.1 < 50.0 * scale)
  {
    var mm := ApplyOrientation(PageSizeMm(pageSize), orientation);
    PixelsBelow(mm.0, scale);
    PixelsBelow(mm.1, scale);
  }

  lemma PixelsBelow(mm: real, scale: real)
    requires scale > 0.0
    ensures PagePixels(mm, scale) < 50.0 <==> mm < 50.0 * scale
  {
    QuotientBelow(mm, 50.0, scale);
  }

  /** A zero scale is not caught by the page-size guard (pages keep their mm
      size as pixel size), so whenever the estimate admits it the handler
      reaches the gutter division and raises. */
  lemma ZeroScaleRaises(docW: nat, docH: nat, pageSize: string, orientation: string, gutterMm: real)
    requires var mm := ApplyOrientation(PageSizeMm(pageSize), orientation);
      mm.0 >= 50.0 && mm.1 >= 50.0 && EstimatedTiles(docW, docH, mm.0, mm.1) <= 100.0
    ensures OnScaleApplied(Some((docW, docH)), pageSize, orientation, 0.0, gutterMm) == GutterDivisionByZero
  {
  }

  /** Every applied page has the full page size and the gutter in pixels. */
  lemma AppliedPagesFullSize(doc: Option<(nat, nat)>, pageSize: string, orientation: string, scale: real, gutterMm: real)
    requires OnScaleApplied(doc, pageSize, orientation, scale, gutterMm).Applied?
    ensures var out := OnScaleApplied(doc, pageSize, orientation, scale, gutterMm);
      forall i :: 0 <= i < |out.pages| ==>
        out.pages[i].width == out.pageW && out.pages[i].height == out.pageH && out.pages[i].gutter == out.gutter
  {
    var out := OnScaleApplied(doc, pageSize, orientation, scale, gutterMm);
    if out.pageW - 2.0 * out.gutter > 0.0 && out.pageH - 2.0 * out.gutter > 0.0 {
      GridShape(doc.value.0 as real, doc.value.1 as real, out.pageW, out.pageH, out.gutter);
    }
  }

  /** `_determine_print_orientation`: an explicit preference wins; "auto" picks
      landscape when the pages are on average more than 20% wider than tall;
      everything else is portrait. */
  function PrintOrientation(pref: string, grid: seq<Page>): (o: Orientation)
    ensures pref == "landscape" ==> o == Landscape
    ensures pref != "landscape" && pref != "auto" ==> o == Portrait
    ensures pref == "auto" && AspectTotal(grid).1 == 0 ==> o == Portrait
  {
    if pref == "landscape" then Landscape
    else if pref == "portrait" then Portrait
    else if pref == "auto" then
      if grid == [] then Portrait
      else
        var t := AspectTotal(grid);
        if t.1 > 0 then (if t.0 / t.1 as real > 1.2 then Landscape else Portrait)
        else Portrait
    else Portrait
  }

  /** On "auto", a non-empty planned grid of pw x ph pages is printed in
      landscape exactly when pw / ph exceeds 1.2. */
  lemma AutoOrientationOfGrid(W: real, H: real, pw: real, ph: real, g: real)
    requires pw > 0.0 && ph > 0.0 && pw - 2.0 * g > 0.0 && ph - 2.0 * g > 0.0
    requires PageGridWithGutters(W, H, pw, ph, g) != []
    ensures PrintOrientation("auto", PageGridWithGutters(W, H, pw, ph, g)) == Landscape <==> pw / ph > 1.2
  {
    GridUniform(W, H, pw, ph, g);
    AutoOrientationUniform(PageGridWithGutters(W, H, pw, ph, g), pw, ph);
  }

  /** On "auto", pages of one positive size w x h are printed in landscape
      exactly when w / h exceeds 1.2. */
  lemma AutoOrientationUniform(grid: seq<Page>, w: real, h: real)
    requires grid != [] && w > 0.0 && h > 0.0
    requires forall i :: 0 <= i < |grid| ==> grid[i].width == w && grid[i].height == h
    ensures PrintOrientation("auto", grid) == Landscape <==> w / h > 1.2
  {
    UniformAspectTotal(grid, w, h);
    var t := AspectTotal(grid);
    AverageOfUniform(|grid|, w / h);
    assert t.0 / t.1 as real == w / h;
    assert PrintOrientation("auto", grid) == (if t.0 / t.1 as real > 1.2 then Landscape else Portrait);
  }

  /** The planned grid consists of pages of one size. */
  lemma GridUniform(W: real, H: real, pw: real, ph: real, g: real)
    requires pw - 2.0 * g > 0.0 && ph - 2.0 * g > 0.0
    ensures var grid := PageGridWithGutters(W, H, pw, ph, g);
      forall i :: 0 <= i < |grid| ==> grid[i].width == pw && grid[i].height == ph
  {
    GridShape(W, H, pw, ph, g);
  }

  /** The extensions a project file may carry: a zipped project or the
      legacy JSON one. */
  function HasProjectExtension(path: string): (b: bool)
    ensures b <==> SavesAsZip(path) || EndsWith(path, ".otproj")
  {
    EndsWith(path, ".otproj") || EndsWith(path, ".otprjz") || EndsWith(path, ".otprj")
  }

  /** The extension step of `save_project_as`: a cancelled dialog (empty path)
      saves nothing; a path without a project extension gets ".otprj". */
  function EnsureProjectExtension(path: string): (r: Option<string>)
    ensures r.None? <==> path == []
    ensures r.Some? ==> HasProjectExtension(r.value) && StartsWith(r.value, path)
    ensures r.Some? && HasProjectExtension(path) ==> r.value == path
    ensures r.Some? && !HasProjectExtension(path) ==> r.value == path + ".otprj"
  {
    if path == [] then None
    else if HasProjectExtension(path) then Some(path)
    else Some(path + ".otprj")
  }

  /** Normalising a normalised path changes nothing. */
  lemma EnsureProjectExtensionIdempotent(path: string)
    requires path != []
    ensures EnsureProjectExtension(EnsureProjectExtension(path).value) == EnsureProjectExtension(path)
  {
  }

  /** `_save_project_to_path` writes a zip archive for ".otprjz" and ".otprj"
      and plain JSON otherwise; no zipped path ends in ".otproj". */
  function SavesAsZip(path: string): (b: bool)
    ensures b ==> !EndsWith(path, ".otproj")
  {
    assert EndsWith(path, ".otproj") ==> path[|path| - 1] == 'j' && path[|path| - 2] == 'o';
    assert EndsWith(path, ".otprjz") ==> path[|path| - 1] == 'z';
    assert EndsWith(path, ".otprj") ==> path[|path| - 2] == 'r';
    EndsWith(path, ".otprjz") || EndsWith(path, ".otprj")
  }

  /** After the extension step, the project is zipped exactly when the path
      does not end in the legacy JSON extension ".otproj". */
  lemma ZipUnlessLegacyJson(path: string)
    requires path != []
    ensures var p := EnsureProjectExtension(path).value;
      SavesAsZip(p) <==> !EndsWith(p, ".otproj")
  {
    var p := EnsureProjectExtension(path).value;
    assert EndsWith(p, ".otproj") ==> p[|p| - 2] == 'o' && p[|p| - 1] == 'j';
    assert EndsWith(p, ".otprjz") ==> p[|p| - 1] == 'z';
    assert EndsWith(p, ".otprj") ==> p[|p| - 2] == 'r';
  }
}
