/** The PDF exporter's decisions: which export path runs, the PDF page size,
    the tile orientation, the order of the pages in a multi-page PDF (with the
    optional metadata page) and the canvas of a composite PDF. Both exports
    first create the output file's directory, which fails for a bare file
    name. Rasterising and writing the PDF are not modelled. */
module PdfExporter {
  import opened Wrappers
  import opened Arith
  import opened Geometry
  import opened PageGrid
  import opened PageStats
  import opened Text
  import opened Paths

  /** The two export paths; `composite` is the keyword argument (absent when
      the caller did not pass it). */
  datatype ExportPath = CompositePath | MultipagePath

  function ExportPathOf(composite: Option<bool>): (p: ExportPath)
    ensures p == CompositePath <==> composite == Some(true)
  {
    match composite
    case Some(true) => CompositePath
    case _ => MultipagePath
  }

  /** The Qt page sizes the exporter selects. */
  datatype PdfPageSize = A4 | Letter | A3

  /** The page size for a configured name; unknown names fall back to A4. */
  function PdfPageSizeOf(name: string): (s: PdfPageSize)
    ensures name !in {"A4", "Letter", "A3"} ==> s == A4
  {
    if name == "A4" then A4
    else if name == "Letter" then Letter
    else if name == "A3" then A3
    else A4
  }

  function SizeName(s: PdfPageSize): string {
    match s
    case A4 => "A4"
    case Letter => "Letter"
    case A3 => "A3"
  }

  /** Each size is selected by its own name. */
  lemma PdfPageSizeOfName(s: PdfPageSize)
    ensures PdfPageSizeOf(SizeName(s)) == s
  {
  }

  /** The portrait size of a page in PostScript points, as Qt reports it. */
  function PointsSize(s: PdfPageSize): (wh: (real, real))
    ensures 0.0 < wh.0 < wh.1
  {
    match s
    case A4 => (595.0, 842.0)
    case Letter => (612.0, 792.0)
    case A3 => (842.0, 1191.0)
  }

  /** `_determine_optimal_orientation`: an explicit preference wins; on "auto"
      the orientation whose page ratio is closer to the average page ratio wins,
      with ties going to portrait. */
  function OptimalOrientation(pref: string, grid: seq<Page>, size: PdfPageSize): (o: Orientation)
    ensures pref == "landscape" ==> o == Landscape
    ensures pref != "landscape" && pref != "auto" ==> o == Portrait
    ensures pref == "auto" && AspectTotal(grid).1 == 0 ==> o == Portrait
  {
    if pref == "landscape" then Landscape
    else if pref == "portrait" then Portrait
    else if pref == "auto" then
      if grid == [] then Portrait
      else
        var t := AspectTotal(grid);
        if t.1 > 0 then
          var avg := t.0 / t.1 as real;
          var pts := PointsSize(size);
          var portraitRatio := pts.0 / pts.1;
          var landscapeRatio := pts.1 / pts.0;
          if AbsR(avg - landscapeRatio) < AbsR(avg - portraitRatio) then Landscape else Portrait
        else Portrait
    else Portrait
  }

  /** Being strictly closer to the larger of two ratios means lying above their
      midpoint. */
  lemma CloserToLarger(a: real, p: real, q: real)
    requires p < q
    ensures AbsR(a - q) < AbsR(a - p) <==> a > (p + q) / 2.0
  {
  }

  /** The portrait ratio of a page is below one and the landscape ratio above. */
  lemma RatiosApart(size: PdfPageSize)
    ensures var pts := PointsSize(size); pts.0 / pts.1 < 1.0 < pts.1 / pts.0
  {
  }

  /** On "auto", pages of one positive size w x h are printed in landscape
      exactly when w / h lies above the midpoint of the page's two ratios. */
  lemma AutoOrientationMidpoint(grid: seq<Page>, w: real, h: real, size: PdfPageSize)
    requires grid != [] && w > 0.0 && h > 0.0
    requires forall i :: 0 <= i < |grid| ==> grid[i].width == w && grid[i].height == h
    ensures var pts := PointsSize(size);
      OptimalOrientation("auto", grid, size) == Landscape <==> w / h > (pts.0 / pts.1 + pts.1 / pts.0) / 2.0
  {
    UniformAspectTotal(grid, w, h);
    AverageOfUniform(|grid|, w / h);
    var pts := PointsSize(size);
    RatiosApart(size);
    CloserToLarger(w / h, pts.0 / pts.1, pts.1 / pts.0);
  }

  /** What the multi-page export does to the PDF writer, in order. */
  datatype PdfEvent = NewPage | DrawMetadata | DrawTile(index: nat)

  /** The content drawn on each page of the PDF: the writer starts with one
      open page and `newPage` opens the next one. */
  function PageContents(events: seq<PdfEvent>): (pages: seq<seq<PdfEvent>>)
    ensures |pages| >= 1
  {
    if events == [] then [[]]
    else
      var before := PageContents(events[..|events| - 1]);
      var e := events[|events| - 1];
      if e == NewPage then before + [[]]
      else before[..|before| - 1] + [before[|before| - 1] + [e]]
  }

  lemma ContentsAfterNewPage(events: seq<PdfEvent>)
    ensures PageContents(events + [NewPage]) == PageContents(events) + [[]]
  {
    assert (events + [NewPage])[..|events|] == events;
  }

  lemma ContentsAfterDraw(events: seq<PdfEvent>, e: PdfEvent)
    requires e != NewPage
    ensures var before := PageContents(events);
      PageContents(events + [e]) == before[..|before| - 1] + [before[|before| - 1] + [e]]
  {
    assert (events + [e])[..|events|] == events;
  }

  /** One page per tile, tile `i` on the `i`-th of them. */
  function TilePages(n: nat): (pages: seq<seq<PdfEvent>>)
    ensures |pages| == n && forall i :: 0 <= i < n ==> pages[i] == [DrawTile(i)]
  {
    seq(n, i requires 0 <= i => [DrawTile(i)])
  }

  lemma TilePagesSucc(n: nat)
    ensures TilePages(n + 1) == TilePages(n) + [[DrawTile(n)]]
  {
  }

  /** The intended page sequence: the metadata page first if configured so,
      then one page per tile in grid order, then the metadata page last if
      configured so; a PDF with nothing to show has its one blank page. */
  function IntendedPages(n: nat, includeMeta: bool, position: string): seq<seq<PdfEvent>> {
    var lead := if includeMeta && position == "first" then [[DrawMetadata]] else [];
    var trail := if includeMeta && position == "last" then [[DrawMetadata]] else [];
    var pages := lead + TilePages(n) + trail;
    if pages == [] then [[]] else pages
  }

  /** The pages of a PDF on which `done` has been drawn so far: the writer's
      first page is there (blank) even before anything is drawn. */
  function Shown(done: seq<seq<PdfEvent>>): seq<seq<PdfEvent>> {
    if done == [] then [[]] else done
  }

  /** Drawing `e` after starting a new page unless nothing has been drawn yet
      puts `e` on a page of its own. */
  lemma DrawOnFreshPage(events: seq<PdfEvent>, done: seq<seq<PdfEvent>>, e: PdfEvent)
    requires e != NewPage && PageContents(events) == Shown(done)
    ensures PageContents((if done != [] then events + [NewPage] else events) + [e]) == done + [[e]]
  {
    var before := if done != [] then events + [NewPage] else events;
    if done != [] {
      ContentsAfterNewPage(events);
    }
    assert PageContents(before) == done + [[]];
    ContentsAfterDraw(before, e);
    assert (done + [[]])[..|done|] == done;
    assert [] + [e] == [e];
  }

  /** Drawing `e` after an unconditional new page. */
  lemma DrawAfterNewPage(events: seq<PdfEvent>, done: seq<seq<PdfEvent>>, e: PdfEvent)
    requires e != NewPage && PageContents(events) == Shown(done)
    ensures PageContents(events + [NewPage] + [e]) == Shown(done) + [[e]]
  {
    ContentsAfterNewPage(events);
    ContentsAfterDraw(events + [NewPage], e);
    assert (Shown(done) + [[]])[..|Shown(done)|] == Shown(done);
    assert [] + [e] == [e];
  }

  /** The tile loop shared by both versions of the multi-page export: a new
      page before every tile unless nothing has been drawn yet. */
  method TileLoop(n: nat, lead: bool) returns (events: seq<PdfEvent>, pageCount: nat)
    ensures var done := (if lead then [[DrawMetadata]] else []) + TilePages(n);
      pageCount == |done| && PageContents(events) == Shown(done)
  {
    ghost var lead0: seq<seq<PdfEvent>> := if lead then [[DrawMetadata]] else [];
    events := [];
    pageCount := 0;
    if lead {
      DrawOnFreshPage([], [], DrawMetadata);
      events := [DrawMetadata];
      pageCount := 1;
    }
    var i := 0;
    while i < n
      invariant 0 <= i <= n
      invariant pageCount == |lead0 + TilePages(i)|
      invariant PageContents(events) == Shown(lead0 + TilePages(i))
    {
      TileStep(events, lead0, i);
      if pageCount > 0 {
        events := events + [NewPage];
      }
      events := events + [DrawTile(i)];
      pageCount := pageCount + 1;
      i := i + 1;
    }
  }

  /** One turn of the tile loop: tile `i` lands on a page of its own after
      the pages drawn so far. */
  lemma TileStep(events: seq<PdfEvent>, lead0: seq<seq<PdfEvent>>, i: nat)
    requires PageContents(events) == Shown(lead0 + TilePages(i))
    ensures |lead0 + TilePages(i + 1)| == |lead0 + TilePages(i)| + 1
    ensures PageContents((if |lead0 + TilePages(i)| > 0 then events + [NewPage] else events) + [DrawTile(i)])
         == Shown(lead0 + TilePages(i + 1))
  {
    var done := lead0 + TilePages(i);
    DrawOnFreshPage(events, done, DrawTile(i));
    TilePagesSucc(i);
    assert lead0 + TilePages(i + 1) == done + [[DrawTile(i)]];
  }

  /** Both exports start with `os.makedirs(os.path.dirname(output_path),
      exist_ok=True)`. For a bare file name the directory is "", for which
      `makedirs` raises; the exporter catches that and reports a failed export
      before anything is written. */
  predicate OutputDirFails(outputPath: string) {
    DirName(outputPath) == []
  }

  /** The output directory cannot be made exactly for a path without a slash. */
  lemma OutputDirFailsIff(outputPath: string)
    ensures OutputDirFails(outputPath) <==> NoChar(outputPath, '/')
  {
  }

  /** `_export_multipage_pdf` as written: before the trailing metadata page it
      starts a new page unconditionally. `ok` is the returned flag; a failed
      export draws nothing. */
  method MultipageEventsAsWritten(outputPath: string, n: nat, includeMeta: bool, position: string)
    returns (ok: bool, events: seq<PdfEvent>)
    ensures ok <==> !NoChar(outputPath, '/')
    ensures !ok ==> events == []
    ensures ok && n == 0 && includeMeta && position == "last" ==> PageContents(events) == [[], [DrawMetadata]]
    ensures ok && !(n == 0 && includeMeta && position == "last") ==> PageContents(events) == IntendedPages(n, includeMeta, position)
  {
    if OutputDirFails(outputPath) {
      return false, [];
    }
    ok := true;
    var first := includeMeta && position == "first";
    ghost var done := (if first then [[DrawMetadata]] else []) + TilePages(n);
    var pageCount;
    events, pageCount := TileLoop(n, first);
    if includeMeta && position == "last" {
      DrawAfterNewPage(events, done, DrawMetadata);
      events := events + [NewPage];
      events := events + [DrawMetadata];
    }
  }

  /** The blank page: with no tiles and the metadata page configured last, the
      PDF as written opens with an empty page. */
  lemma BlankLeadingPage()
    ensures IntendedPages(0, true, "last") == [[DrawMetadata]]
  {
  }

  /** The multi-page export with the trailing metadata page started on a new
      page only when a page has already been drawn, as for the tiles. */
  method MultipageEvents(outputPath: string, n: nat, includeMeta: bool, position: string)
    returns (ok: bool, events: seq<PdfEvent>)
    ensures ok <==> !NoChar(outputPath, '/')
    ensures !ok ==> events == []
    ensures ok ==> PageContents(events) == IntendedPages(n, includeMeta, position)
  {
    if OutputDirFails(outputPath) {
      return false, [];
    }
    ok := true;
    var first := includeMeta && position == "first";
    ghost var done := (if first then [[DrawMetadata]] else []) + TilePages(n);
    var pageCount;
    events, pageCount := TileLoop(n, first);
    if includeMeta && position == "last" {
      DrawOnFreshPage(events, done, DrawMetadata);
      if pageCount > 0 {
        events := events + [NewPage];
      }
      events := events + [DrawMetadata];
    }
  }

  /** The composite PDF's canvas (whole pixels) and page setup. */
  datatype CompositePlan = CompositePlan(canvasW: int, canvasH: int, size: PdfPageSize, orientation: Orientation)

  /** `_export_composite_pdf`: the canvas spans the pages' extent; its aspect
      ratio decides the orientation on A4 and A3, every other name gets A4
      portrait. The output directory is made first, which fails for a bare
      file name. A canvas with a side of 0 pixels is a null pixmap, whose
      reported size is 0 x 0, so the ratio divides by zero. The exporter
      reports either failure as a failed export. */
  function CompositePdf(grid: seq<Page>, pageName: string, outputPath: string): (r: Result<CompositePlan, string>)
    ensures r.Failure? <==> NoChar(outputPath, '/') || Trunc(Extent(grid).0) == 0 || Trunc(Extent(grid).1) == 0
    ensures r.Success? ==> r.value.canvasW > 0 && r.value.canvasH > 0
    ensures r.Success? && pageName != "A4" && pageName != "A3" ==> r.value.size == A4 && r.value.orientation == Portrait
  {
    if OutputDirFails(outputPath) then Failure("No such file or directory: ''")
    else
      var e := Extent(grid);
      var cw, ch := Trunc(e.0), Trunc(e.1);
      if cw == 0 || ch == 0 then Failure("float division by zero")
      else
        var aspect := cw as real / ch as real;
        if pageName == "A4" then Success(CompositePlan(cw, ch, A4, if aspect > 1.414 then Landscape else Portrait))
        else if pageName == "A3" then Success(CompositePlan(cw, ch, A3, if aspect > 1.414 then Landscape else Portrait))
        else Success(CompositePlan(cw, ch, A4, Portrait))
  }

  /** The composite export to a path with a directory fails exactly when
      every page ends left of x = 1 or every page ends above y = 1. */
  lemma CompositeFailsIff(grid: seq<Page>, pageName: string, outputPath: string)
    requires !NoChar(outputPath, '/')
    ensures CompositePdf(grid, pageName, outputPath).Failure? <==> Extent(grid).0 < 1.0 || Extent(grid).1 < 1.0
  {
  }

  /** On A4 and A3 the composite page is landscape exactly when the canvas is
      more than 1.414 times as wide as it is high. */
  lemma CompositeLandscapeIff(grid: seq<Page>, pageName: string, outputPath: string)
    requires pageName == "A4" || pageName == "A3"
    requires CompositePdf(grid, pageName, outputPath).Success?
    ensures var plan := CompositePdf(grid, pageName, outputPath).value;
      plan.orientation == Landscape <==> plan.canvasW as real > 1.414 * plan.canvasH as real
  {
    var plan := CompositePdf(grid, pageName, outputPath).value;
    RatioAbove(plan.canvasW as real, plan.canvasH as real, 1.414);
  }

  lemma RatioAbove(a: real, b: real, k: real)
    requires b > 0.0
    ensures a / b > k <==> a > k * b
  {
    DivMul(a, b);
    if a / b > k {
      MulStrict(k, a / b, b);
    } else {
      MulLeft(a / b, k, b);
    }
  }

  /** Every page fits on the composite canvas (in whole pixels). */
  lemma CompositeHoldsPages(grid: seq<Page>, pageName: string, outputPath: string, i: nat)
    requires CompositePdf(grid, pageName, outputPath).Success? && i < |grid|
    ensures Trunc(grid[i].x + grid[i].width) <= CompositePdf(grid, pageName, outputPath).value.canvasW
  {
    TruncMonotone(grid[i].x + grid[i].width, Extent(grid).0);
  }
}
