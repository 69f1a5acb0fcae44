/** The gutter validation script: it converts an A4 page and the configured
    gutter from mm to document pixels with a fixed scale and plans the pages of
    a synthetic document with its own (asserting) copy of the planner. */
module ValidateGutter {
  import opened Wrappers
  import opened Helpers
  import opened PageGrid
  import opened MainWindow
  import opened Arith

  /** The script's conversion: mm divided by the mm-per-pixel scale, without
      the main window's guard against a non-positive scale. */
  function MmToDocPixels(mm: real, scale: real): (px: real)
    requires scale != 0.0
    ensures px * scale == mm
  {
    mm / scale
  }

  /** The pages the script plans for a `docW` x `docH` document: A4 at `scale`
      with a gutter of `gutterMm`, provided the printable area is positive (the
      script asserts it). */
  method ScriptPlan(docW: nat, docH: nat, scale: real, gutterMm: real) returns (pages: seq<Page>)
    requires scale != 0.0
    requires var a4 := PageSizeMm("A4"); var g := MmToDocPixels(gutterMm, scale);
      MmToDocPixels(a4.0, scale) - 2.0 * g > 0.0 && MmToDocPixels(a4.1, scale) - 2.0 * g > 0.0
    ensures var a4 := PageSizeMm("A4");
      pages == PageGridWithGutters(docW as real, docH as real,
                                   MmToDocPixels(a4.0, scale), MmToDocPixels(a4.1, scale), MmToDocPixels(gutterMm, scale))
  {
    var a4 := PageSizeMm("A4");
    pages := CalcPageGridValidated(docW as real, docH as real,
                                   MmToDocPixels(a4.0, scale), MmToDocPixels(a4.1, scale), MmToDocPixels(gutterMm, scale));
  }

  /** For a positive scale the script plans the same pages as the main window
      does for an A4 page in "auto" orientation, whenever the main window's
      guards let the scale through. */
  lemma ScriptAgreesWithMainWindow(docW: nat, docH: nat, scale: real, gutterMm: real)
    requires scale > 0.0
    requires OnScaleApplied(Some((docW, docH)), "A4", "auto", scale, gutterMm).Applied?
    ensures var a4 := PageSizeMm("A4");
      OnScaleApplied(Some((docW, docH)), "A4", "auto", scale, gutterMm).pages
      == PageGridWithGutters(docW as real, docH as real,
                             MmToDocPixels(a4.0, scale), MmToDocPixels(a4.1, scale), MmToDocPixels(gutterMm, scale))
  {
    var out := OnScaleApplied(Some((docW, docH)), "A4", "auto", scale, gutterMm);
    var px := PageInPixels("A4", "auto", scale);
    assert (out.pageW, out.pageH) == px;
    assert px == (MmToDocPixels(210.0, scale), MmToDocPixels(297.0, scale));
    assert out.gutter == MmToDocPixels(gutterMm, scale) by {
      assert out.gutter * scale == gutterMm;
      MulCancel(out.gutter, MmToDocPixels(gutterMm, scale), scale);
    }
  }

  /** The script's own numbers: at 0.5 mm per pixel an A4 page is 420 x 594 px
      and the default 10 mm gutter is 20 px; the 1800 x 1200 document then
      takes 5 columns and 3 rows, 15 pages. */
  lemma ScriptScenario()
    ensures MmToDocPixels(210.0, 0.5) == 420.0 && MmToDocPixels(297.0, 0.5) == 594.0
    ensures MmToDocPixels(10.0, 0.5) == 20.0
    ensures Lanes(1800.0, 20.0, 380.0) == 5 && Lanes(1200.0, 20.0, 554.0) == 3
    ensures |PageGridWithGutters(1800.0, 1200.0, 420.0, 594.0, 20.0)| == 15
  {
    LanesIsCeil(1800.0, 20.0, 380.0);
    LanesIsCeil(1200.0, 20.0, 554.0);
    GridRowsLength(3, 5, 420.0, 594.0, 20.0);
  }
}
