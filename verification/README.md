# OpenTiler core, modelled in Dafny

OpenTiler splits a large scanned or vector plan into printable pages. Neighbouring pages overlap by a gutter so they can be trimmed and taped together. The program writes the pages out as a multi-page PDF, single images or one composite sheet. It can add an assembly-map ("metadata") page and a scale bar. A plug-in layer adds features such as snapping measurements to points.

This project models the deterministic layer under OpenTiler's Qt widgets and proves properties of it. Qt, QSettings and filesystem calls become inputs or results. Coordinates are Dafny `real`, and the integer rectangle arithmetic is `int`. Python's `int(float)` truncates toward zero and appears as `Arith.Trunc`.

- **Page grid planner** (`PageGrid`, `ValidateGutter`). The main window's gutter-aware planner is modelled as a loop with invariants, next to a closed-form reference grid. The proofs cover:
  - the grid shape and the ceil column and row counts;
  - drawable areas that are disjoint and cover the document;
  - a 2·gutter overlap between neighbouring pages.

  The asserting twin in the validation tool is proved equal to the planner. So is the twin in the tiling-fix script, which also carries drawable rectangles.
- **Plain overlap tiler** (`TileGrid`, `TileGridExamples`). Tiles are row-major and clipped to the image. They cover the image, and without overlap they are pairwise disjoint.
- **Tile extraction** (`TileExtract`). The integer source and destination rectangles that cut one page out of the document.
- **Output assembly** (`PdfExporter`, `ImageExporter`, `BaseExporter`, `PageStats`, `MetadataPage`, `Overlays`). This covers:
  - page order around the metadata page, and the orientation choices;
  - the composite canvas and tile file names;
  - stopping at the first failed save, and export metadata defaults;
  - the assembly-map numbers and the scale-bar placement.
- **Scale and measurement arithmetic** (`Helpers`, `ScaleCalculator`, `UnitConverter`, `ScalingDialog`, `MeasureDialog`, `PointPair`, `Viewer`, `PageViewerDialog`). This covers:
  - unit and scale conversions;
  - the two-point selection cycle;
  - the viewer's rotation, zoom, measurement list and nearest-measurement hit test;
  - the page viewer's culling tests.
- **String and list logic** (`SaveAsDialog`, `ExtensionLogic`, `MainWindow`, `HelpDialog`, `Config`, `AppLogger`, plus the shared `Text` and `Paths` helpers). This covers:
  - file-extension rules;
  - help-topic filtering and selection;
  - the recent-files list and boolean coercion of stored settings;
  - the DPI list round trip and the logging filter.
- **Plug-in infrastructure** (`PluginRegistry`, `HookSystem`, `ContentAccess`, `BasePlugin`, `PluginManager`, `SnapPlugin`). This covers:
  - dependency maps, and a topological load order that falls back to the input order on a cycle;
  - priority-ordered handler lists with cancellation;
  - access-level gating;
  - the plug-in lifecycle;
  - the snap plug-in's point generation and nearest-snap search.

Distances are compared squared, so no square root is taken. Where the source divides by a Euclidean distance, that distance is an input `d` with `d * d` equal to the sum of squares. Text read with `float()` is the abstract `FloatText`: the empty text (which the callers test before calling `float`), text `float` rejects, or a value. A `:.Nf` format is rendered digit by digit by `NumFormat.Fixed`; the few members that state only the branch a format takes are named under "## Left out".

Two behaviours of the plug-in layer are worth knowing when reading the model:
- The snap plug-in's plan-view access is never assigned in the program. So in a running program its viewport and content bounds are always absent. `SnapPlugin` keeps both as inputs, which shows what the code does once they are supplied.
- Initialised through the plug-in manager, the snap handler is registered twice: once under "snap" by the plug-in itself, and once under the plug-in's name by the manager. Cleanup removes only the first (`SnapPlugin.RegisteredTwice`).

The shared modules are:
- `Wrappers`: `Option` and `Result`.
- `Arith`: truncation and integer division facts.
- `Geometry`: points and squared distance.
- `Text`: Python string methods and `int()` on text, with its underscore grouping of digits.
- `NumFormat`: fixed-point rendering of `:.Nf`.
- `Paths`: `os.path` and `pathlib` name handling.

## Model

| member | source | states |
|---|---|---|
| PageGrid.StepCountFacts | opentiler/main_window.py:1054-1075 | the lane count along an axis is the least `n >= 1` whose `n` steps reach the limit: `n` steps reach it, `n - 1` do not |
| PageGrid.InsideLanes | opentiler/main_window.py:1054-1075 | while the loop guard `x < doc_width` holds and the stop test `x + gutter >= doc_width` has not fired, the loop is still inside the planned lanes |
| PageGrid.StopAfterLane | opentiler/main_window.py:1066-1068 | when the stop test fires after lane `k`, `k` was the last lane |
| PageGrid.GuardFailsAtLane | opentiler/main_window.py:1054-1056 | when the `while` guard fails before lane `k`, exactly `k` lanes were emitted |
| PageGrid.LaneStep | opentiler/main_window.py:1065-1069 | one pass of either loop: the lane exists, the next origin is one step further, and the `break` fires exactly at the last lane |
| PageGrid.PlanRow | opentiler/main_window.py:1054-1069 | the inner loop emits exactly the pages (x = -g + c·step_x, this row, full page size, gutter) for columns 0 .. cols-1, in column order |
| PageGrid.PlanPages | opentiler/main_window.py:1050-1076 | the nested loops terminate and emit the row-major reference grid `GridSpec` |
| PageGrid.CalculatePageGridWithGutters | opentiler/main_window.py:1032-1078 | no pages when page_width - 2g <= 0 or page_height - 2g <= 0; otherwise the reference grid |
| PageGrid.CalcPageGridValidated | tools/validate_gutter_pdf.py:49-79 | the validation script's copy, whose assertion makes a positive drawable size a precondition, plans the same pages as the main window, each with the full page size and the gutter |
| PageGrid.PlanWithDrawables | test_tiling_fix.py:6-51 | the tiling test's copy plans the same pages, each annotated with the drawable rect (x + g, y + g, pw - 2g, ph - 2g) |
| PageGrid.GridShape | opentiler/main_window.py:1050-1076 | every page has the full page size and the gutter; page `i` is cell (i / cols, i % cols) with origin (-g + c·(pw - 2g), -g + r·(ph - 2g)), so pages are row-major with consecutive indices |
| PageGrid.LanesIsCeil | opentiler/main_window.py:1054-1069 | for a positive extent and g >= 0 the loop emits ceil(extent / step) lanes, and they reach the extent |
| PageGrid.GridDimensions | opentiler/main_window.py:1050-1076 | for W, H > 0 and g >= 0 the grid has ceil(H / (ph - 2g)) · ceil(W / (pw - 2g)) pages |
| PageGrid.GridAt | opentiler/main_window.py:1050-1076 | cell (r, c) of the grid is the page at index r·cols + c |
| PageGrid.LaneOfPoint | opentiler/main_window.py:1054-1069 | every coordinate in [0, extent) lies in the half-open lane [k·step, (k + 1)·step) of some planned lane `k` |
| PageGrid.DrawableOfCell | test_tiling_fix.py:33-36 | the drawable rect of page (r, c) is the lattice cell [c·sx, (c + 1)·sx) x [r·sy, (r + 1)·sy) |
| PageGrid.DrawableCover | test_tiling_fix.py:92-111 | no gaps: every point of [0, W) x [0, H) lies in the half-open drawable rect of some planned page |
| PageGrid.CellIsDrawable | test_tiling_fix.py:28-37 | lattice cell (r, c) is the drawable rect of page r·cols + c |
| PageGrid.DrawableIsCell | test_tiling_fix.py:28-37 | the drawable rect of any page `i` is the lattice cell of its row and column, with i == r·cols + c |
| PageGrid.DrawablesDisjoint | test_tiling_fix.py:113-124 | no overlaps: the drawable rects of two different pages do not meet |
| PageGrid.CellsApart | test_tiling_fix.py:117-120 | two different cells of the step lattice do not meet |
| PageGrid.LanesApart | opentiler/main_window.py:1065 | lanes with different indices are disjoint half-open intervals |
| PageGrid.NeighbourOverlap | opentiler/main_window.py:1047-1075 | the next page in a row (one row down) has the same row (column), the next column (row), overlaps by exactly 2g, and its drawable rect starts where this one's ends |
| PageGrid.RowNeighbour | opentiler/main_window.py:1065-1069 | the horizontal half of the neighbour property |
| PageGrid.ColumnNeighbour | opentiler/main_window.py:1071-1075 | the vertical half of the neighbour property |
| PageGrid.NextInRow | opentiler/main_window.py:1065 | the page right of cell (r, c) overlaps it by 2g and its drawable rect starts where (r, c)'s ends |
| PageGrid.NextInColumn | opentiler/main_window.py:1071 | the page below cell (r, c) overlaps it by 2g and its drawable rect starts where (r, c)'s ends |
| PageGrid.TilingFixScenario | test_tiling_fix.py:58-73 | a 1000 x 800 document with 400 x 300 pages and a 20 px gutter gives 3 columns, 4 rows, 12 pages |
| ValidateGutter.MmToDocPixels | tools/validate_gutter_pdf.py:97-99 | page and gutter sizes in document pixels are the mm sizes divided by the mm-per-pixel scale: multiplying back by the scale gives the mm size |
| ValidateGutter.ScriptPlan | tools/validate_gutter_pdf.py:85-101 | the script plans an A4 page and the configured gutter, converted at the fixed scale, with its asserting planner; the pages are the main window's grid for those sizes |
| ValidateGutter.ScriptAgreesWithMainWindow | tools/validate_gutter_pdf.py:94-101 | for a positive scale that the main window's guards accept, the script's pages equal the ones `on_scale_applied` builds for A4 in "auto" orientation |
| ValidateGutter.ScriptScenario | tools/validate_gutter_pdf.py:85-99 | at 0.5 mm/px A4 is 420 x 594 px and a 10 mm gutter 20 px; the 1800 x 1200 document takes 5 columns and 3 rows, 15 pages |
| TileGrid.LaneIff | opentiler/utils/helpers.py:115-130 | lane `k` of the tiler exists exactly when k·step starts before the image edge |
| TileGrid.LanesCeil | opentiler/utils/helpers.py:115-130 | for a positive extent the tiler emits ceil(extent / step) lanes |
| TileGrid.TileRow | opentiler/utils/helpers.py:117-127 | the inner loop emits, in column order, the tiles (c·step_x, y) clipped to min(tile_width, W - x) x min(tile_height, H - y) for every lane before the image width |
| TileGrid.CalculateTileGrid | opentiler/utils/helpers.py:90-135 | under the termination condition (positive steps whenever a loop is entered) the loops produce the reference layout, and no tiles when a dimension is <= 0 |
| TileGrid.SpecIsRows | opentiler/utils/helpers.py:114-133 | the reference layout is `Lanes(H)` full rows of `Lanes(W)` tiles |
| TileGrid.TileGridShape | opentiler/utils/helpers.py:116-125 | every tile starts on the step lattice strictly inside the image and is clipped to min(tile size, remaining image), so it lies in the image; a non-empty image gives rows x columns tiles |
| TileGrid.TileInside | opentiler/utils/helpers.py:119-123 | tile (r, c) starts on the lattice inside the image with the clipped size |
| TileGrid.TileCount | opentiler/utils/helpers.py:112-133 | a non-empty image takes ceil(H / step_y) · ceil(W / step_x) tiles |
| TileGrid.TileCover | opentiler/utils/helpers.py:112-133 | with 0 <= overlap < tile size the loops terminate and every pixel of the image lies in some tile |
| TileGrid.SpecAt | opentiler/utils/helpers.py:112-133 | cell (r, c) of the layout is the tile at index r · cols + c |
| TileGrid.TileContains | opentiler/utils/helpers.py:119-123 | tile (r, c) holds every image pixel of its lattice cell |
| TileGrid.TileDisjoint | opentiler/utils/helpers.py:112-133 | with overlap 0 two different tiles share no pixel |
| TileGrid.CellsApart | opentiler/utils/helpers.py:119-123 | with overlap 0 the tiles of two different cells do not meet |
| TileGridExamples.SimpleTestScenario | simple_test.py:37-54 | the 3000 x 2000 image with 2100 x 2970 tiles and no overlap gives exactly (0, 0, 2100, 2000), (2100, 0, 900, 2000) |
| TileGridExamples.OneRowOfTwo | opentiler/utils/helpers.py:114-133 | a layout of one row and two columns lists tile (0, 0) then tile (0, 1) |
| MainWindow.ApplyOrientation | opentiler/main_window.py:979-989 | "landscape" yields width >= height, "portrait" height >= width, anything else leaves the size unchanged; the result is always the pair or its swap |
| MainWindow.ApplyOrientationIdempotent | opentiler/main_window.py:979-989 | applying the same preference twice changes nothing more |
| MainWindow.PagePixels | opentiler/main_window.py:991-993 | a page length in document pixels is mm / scale for a positive scale (it times the scale gives back the mm), and the mm value itself otherwise |
| MainWindow.PageInPixels | opentiler/main_window.py:975-993 | the configured, oriented page in document pixels: both sides positive, mm / scale for a positive scale |
| MainWindow.EstimatedTiles | opentiler/main_window.py:1002 | the estimate times the page area is the document area; it is never negative for positive page sides |
| MainWindow.OnScaleApplied | opentiler/main_window.py:965-1030 | no document: nothing happens; a page side below 50 px: refused as "scale too large"; an estimate (W / pw)·(H / ph) above 100: refused; a zero scale that passes both guards raises in the gutter division; otherwise the grid of the oriented page and the gutter in pixels: a document whose page sides are at least 50 px is refused exactly when the estimate exceeds 100, and then with that estimate, and with a non-zero scale and an estimate of at most 100 it is applied with the gutter `gutter_mm / scale` and the gutter grid of those page sides |
| MainWindow.ScaleTooLargeIff | opentiler/main_window.py:995-998 | for a positive scale the handler refuses exactly the scales at which a page side in mm is below 50·scale |
| MainWindow.ZeroScaleRaises | opentiler/main_window.py:991-1007 | a zero scale is not caught by the page-size guard, so whenever the estimate admits it the unguarded gutter division raises |
| MainWindow.AppliedPagesFullSize | opentiler/main_window.py:1009-1016 | every page the handler applies has the full page size and the gutter in pixels |
| MainWindow.PrintOrientation | opentiler/main_window.py:1080-1119 | "landscape" and "portrait" are returned as given; "auto" with no page of positive size, and any other preference, gives portrait |
| MainWindow.AutoOrientationUniform | opentiler/main_window.py:1099-1117 | on "auto", pages of one positive size w x h give landscape exactly when the mean aspect w / h exceeds 1.2 |
| MainWindow.AutoOrientationOfGrid | opentiler/main_window.py:1089-1117 | on "auto", a non-empty planned grid of pw x ph pages gives landscape exactly when pw / ph exceeds 1.2 |
| MainWindow.GridUniform | opentiler/main_window.py:1058-1063 | every page of the planned grid has the same size pw x ph |
| MainWindow.EnsureProjectExtension | opentiler/main_window.py:1387-1392 | an empty path (a cancelled dialog) saves nothing; otherwise ".otprj" is appended unless the path already ends in ".otproj", ".otprjz" or ".otprj", so the result has a project extension and starts with the path, and a path without one becomes exactly the path followed by ".otprj" |
| MainWindow.EnsureProjectExtensionIdempotent | opentiler/main_window.py:1389-1392 | the extension step is idempotent |
| MainWindow.HasProjectExtension | opentiler/main_window.py:1392 | a path carries a project extension exactly when it is saved zipped or ends in the legacy ".otproj" |
| MainWindow.SavesAsZip | opentiler/main_window.py:1408-1409 | a path that is saved zipped never ends in the legacy JSON extension ".otproj" |
| MainWindow.ZipUnlessLegacyJson | opentiler/main_window.py:1406-1409 | after the extension step the project is zipped exactly when the path does not end in ".otproj" |
| TileExtract.PlanTile | opentiler/main_window.py:712-763 | the tile has int(width) x int(height); source_x = max(0, int(x)) and dest_x = max(0, -int(x)) differ by exactly -int(x) (and so for y); the source rect stays in the image and in the tile; a clip rect exists exactly when int(gutter) > 0 |
| TileExtract.AxisCopied | opentiler/main_window.py:740-763 | along one axis a pixel is copied exactly when it lies in the image and in the page's span [int(x), int(x) + tile) |
| TileExtract.ClipSpan | opentiler/main_window.py:729-736 | the clip rect (g, g, max(0, t - 2g), ...) holds exactly the tile coordinates at least g from both edges |
| TileExtract.VisibleIffPrinted | opentiler/main_window.py:729-763 | a tile pixel shows image pixel (u, v) exactly when that pixel is in the image and in the page's printable area: nothing is shifted, lost or duplicated |
| TileExtract.NoCopyOutsideImage | opentiler/main_window.py:751-763 | nothing is copied when the page lies entirely right of the image (source_w <= 0) |
| Helpers.ToMm | opentiler/utils/helpers.py:21-27 | the mm factor of a unit is positive, and an unknown unit silently counts as mm (factor 1) |
| Helpers.ConvertUnits | opentiler/utils/helpers.py:9-30 | the converted value in mm equals the input in mm: result · factor(to) == value · factor(from) |
| Helpers.ConvertSameUnit | opentiler/utils/helpers.py:29-30 | converting into the unit one started from is the identity |
| Helpers.ConvertRoundTrip | opentiler/utils/helpers.py:29-30 | converting a -> b -> a gives back the value |
| Helpers.ConvertUnknownUnit | opentiler/utils/helpers.py:29-30 | an unknown source or target unit behaves exactly like "mm" |
| Helpers.ConvertExamples | tests/test_utils.py:20-33 | 25.4 mm is 1 inch, 1 inch is 25.4 mm, 100 mm stay 100 mm |
| Helpers.CalculateScaleFactor | opentiler/utils/helpers.py:49-70 | the sentinel 1.0 when either distance is <= 0; otherwise a positive mm-per-pixel scale with scale · pixels == real distance in mm (inches times 25.4) |
| Helpers.ScaleFactorUnitInvariant | opentiler/utils/helpers.py:63-70 | a length given in inches yields the same scale as the same length in mm |
| Helpers.ScaleFactorExamples | tests/test_utils.py:57-74 | 50 mm over 100 px is 0.5; 1 inch over 100 px is 0.254; a zero distance gives 1.0 |
| Helpers.ScaleRatioForm | opentiler/utils/helpers.py:73-87 | the "<s>:1" branch is taken exactly when s >= 1; the other branch prints 1 / s; a zero scale divides by zero |
| Helpers.FormatScaleRatio | opentiler/utils/helpers.py:73-87 | only a zero scale fails; a scale of at least 1 is printed as "<s>:1" with two decimals, a smaller one as "1:<1/s>" with one |
| Helpers.FormatScaleRatioBranch | opentiler/utils/helpers.py:83-87 | for a non-zero scale the text ends in ":1" exactly when scale >= 1 |
| Helpers.FormatScaleRatioTwoAndHalf | tests/test_utils.py:80-83 | 2.5 prints as "2.50:1" |
| Helpers.FormatScaleRatioHundredth | tests/test_utils.py:85-88 | 0.01 prints as "1:100.0" |
| Helpers.PageSizeMm | opentiler/utils/helpers.py:138-157 | every size is portrait with positive sides, and an unknown name gives A4 210 x 297 |
| Helpers.PageSizeTests | tests/test_utils.py:94-110 | A4 is 210 x 297, Letter 215.9 x 279.4, an unknown name A4 |
| Helpers.PixelsToMm | opentiler/utils/helpers.py:160-172 | mm · dpi == pixels · 25.4; a zero dpi raises |
| Helpers.MmToPixels | opentiler/utils/helpers.py:175-187 | pixels · 25.4 == mm · dpi |
| Helpers.PixelsMmInverse | opentiler/utils/helpers.py:160-187 | for a non-zero dpi the two conversions undo each other in both orders |
| Helpers.ValidateNumericInput | opentiler/utils/helpers.py:190-209 | the parsed number exactly when the text parses and lies in [min, max]; None otherwise |
| NumFormat.FixedOneDecimal | opentiler/utils/helpers.py:87 | a `:.1f` rendering ends in a point and one digit |
| NumFormat.FixedTwoDecimals | opentiler/utils/helpers.py:84 | a `:.2f` rendering ends in a point and two digits |
| ScaleCalculator.DocToMm | opentiler/dialogs/scale_calculator.py:204-210 | a document length in mm: inches times 25.4, pixels at an assumed 300 DPI, any other unit taken as mm |
| ScaleCalculator.RealToMm | opentiler/dialogs/scale_calculator.py:213-216 | a real length in mm: inches times 25.4, any other unit taken as mm |
| ScaleCalculator.CalculateScale | opentiler/dialogs/scale_calculator.py:181-235 | "Not calculated" exactly when a field is empty; "Invalid input" exactly when both are filled and one does not parse; a factor exactly when both are positive, with factor · doc mm == real mm and the ":1" ratio form exactly when the factor is >= 1 |
| ScaleCalculator.ScaleUnitInvariant | opentiler/dialogs/scale_calculator.py:213-219 | a real length entered in inches gives the same result as the same length entered in mm |
| ScaleCalculator.ScaleDocUnitInvariant | opentiler/dialogs/scale_calculator.py:204-219 | a document length entered in inches gives the same result as the same length entered in mm |
| ScaleCalculator.UseScale | opentiler/dialogs/scale_calculator.py:237-275 | the same three-way classification of the inputs; otherwise the result in mm is the known length in mm times the scale |
| ScaleCalculator.UseScaleRoundTrip | opentiler/dialogs/scale_calculator.py:181-275 | feeding the computed factor and the document length back into "use scale" returns the real length in its own unit |
| UnitConverter.Factor | opentiler/dialogs/unit_converter.py:115-122 | mm -> inches uses 0.0393701, inches -> mm 25.4, every other pair 1 |
| UnitConverter.Convert | opentiler/dialogs/unit_converter.py:103-128 | the output is cleared exactly when the input is empty or does not parse; otherwise input times the factor, and the input itself for equal units |
| UnitConverter.MmInchesRoundTrip | opentiler/dialogs/unit_converter.py:115-120 | mm -> inches -> mm is not exact: the value comes back times 1.00000054, off by less than one part in a million and different for any non-zero value |
| UnitConverter.InchesMmRoundTrip | opentiler/dialogs/unit_converter.py:115-120 | inches -> mm -> inches comes back times 1.00000054 too |
| UnitConverter.Swap | opentiler/dialogs/unit_converter.py:130-146 | the units trade places, the old output becomes the new input (or the input is cleared), and the conversion runs again |
| UnitConverter.SwapConvertsBack | opentiler/dialogs/unit_converter.py:130-146 | swapping a settled mm -> inches conversion shows the old input times 1.00000054 |
| UnitConverter.SwapTwice | opentiler/dialogs/unit_converter.py:130-146 | swapping twice restores the units; an empty output clears both fields |
| ScalingDialog.MovePoint | opentiler/dialogs/scaling_dialog.py:271-279 | index 0 or 1 moves that point whether or not it was set; any other index changes nothing; a valid pick stays valid |
| ScalingDialog.UpdatePreview | opentiler/dialogs/scaling_dialog.py:143-193 | "Not calculated" exactly when a point or the distance text is missing; a scale (and an enabled Apply button) exactly when both distances are positive, with scale · pixels == distance and the ":1" form exactly when scale >= 1 |
| ScalingDialog.ApplyEnabled | opentiler/dialogs/scaling_dialog.py:143-190 | Apply is enabled only with a distance that parses and a positive pixel distance, so the scale it applies is positive |
| ScalingDialog.ApplyScaleAsWritten | opentiler/dialogs/scaling_dialog.py:195-220 | as written: a scale is emitted exactly when Apply is enabled, and it is the entered distance over the pixel distance in whatever unit the combo shows |
| ScalingDialog.ApplyScale | opentiler/dialogs/scaling_dialog.py:195-220 | corrected: the emitted scale is in mm per pixel, inches converted by 25.4 |
| ScalingDialog.ApplyScaleAgrees | opentiler/utils/helpers.py:49-70 | the corrected scale is what `calculate_scale_factor` computes, and for mm it equals the scale as written |
| ScalingDialog.InchesNotConverted | opentiler/dialogs/scaling_dialog.py:210-213 | two points 100 px apart marked as 1 inch: as written 0.01 is emitted, the intended mm-per-pixel scale is 0.254 |
| MeasureDialog.MovePoint | opentiler/dialogs/measure_dialog.py:132-139 | only a point that is already set follows the drag; the count and which points are set never change |
| MeasureDialog.Recompute | opentiler/dialogs/measure_dialog.py:78-114 | zeros exactly when a point is missing; "(set scale)" exactly when both are set and the scale is <= 0; otherwise mm == pixels · scale and inches · 25.4 == mm |
| MeasureDialog.CalibrationRoundTrip | opentiler/dialogs/measure_dialog.py:78-114 | measuring the two points just calibrated in mm reads back the calibrated length |
| MeasureDialog.ClearedReadsZero | opentiler/dialogs/measure_dialog.py:78-86 | after `clear_points` (lines 141-144) both points are gone, so the next recompute reads zero and takes the branch that empties the viewer's measurement text; `clear_points` itself does not touch that text |
| PointPair.Select | opentiler/dialogs/scaling_dialog.py:257-269 | count 0 sets the first point, count 1 the second, and from 2 the points are cleared and the click becomes the new first point |
| PointPair.Clear | opentiler/dialogs/scaling_dialog.py:281-291 | clearing forgets both points and resets the count to 0 |
| PointPair.SelectCycle | opentiler/dialogs/measure_dialog.py:116-130 | selecting keeps the pick valid and the count cycles 0, 1, 2, 1, 2, ... with the new point last |
| PointPair.TwoClicks | opentiler/dialogs/scaling_dialog.py:257-269 | two clicks after clearing hold exactly those two points |
| Viewer.InitialViewer | opentiler/viewer/viewer.py:430-451 | a new viewer has rotation 0, zoom 1, no measurements and no selected points |
| Viewer.RotateClockwise | opentiler/viewer/viewer.py:1367-1370 | the new rotation lies in [0, 360) and is the old one plus 90 modulo 360 |
| Viewer.RotateCounterclockwise | opentiler/viewer/viewer.py:1372-1375 | the new rotation lies in [0, 360) and is the old one minus 90 modulo 360 (Python's `%` is never negative for a positive divisor) |
| Viewer.RotationCycle | opentiler/viewer/viewer.py:1367-1375 | from a right angle both rotations stay on right angles, undo each other, and four clockwise turns come back to the start |
| Viewer.ZoomIn | opentiler/viewer/viewer.py:1342-1345 | zooming in makes a positive zoom larger |
| Viewer.ZoomOut | opentiler/viewer/viewer.py:1347-1350 | zooming out makes a positive zoom smaller and keeps it positive |
| Viewer.ZoomInverse | opentiler/viewer/viewer.py:1342-1350 | zooming out undoes zooming in and the other way round |
| Viewer.ZoomFit | opentiler/viewer/viewer.py:1352-1365 | an empty document divides by zero; otherwise the zoom is 90% of the largest zoom at which the document fits: both sides fit into 90% of the area and one fills it |
| Viewer.FormatMeasurement | opentiler/viewer/viewer.py:987-996 | a scale of 0 counts as 1; a non-negative scale gives a reading of the squared pixel distance at a positive scale, a negative scale no text |
| Viewer.SelectMeasurementAt | opentiler/viewer/viewer.py:998-1034 | nothing is selected exactly when every measurement's hit distance exceeds 12²; otherwise the first measurement of least hit distance, which is within the tolerance |
| Viewer.NearestHitUnique | opentiler/viewer/viewer.py:998-1034 | the selection `select_measurement_at` promises is unique: at most one selection is within the tolerance, nearest, and first among ties |
| Viewer.DeleteSelected | opentiler/viewer/viewer.py:1036-1051 | with a valid selection the selected measurement is removed (the others keep their order) and the selection cleared; otherwise nothing changes |
| Viewer.DeleteRemovesSelected | opentiler/viewer/viewer.py:1040-1045 | deleting removes exactly the selected measurement, as a multiset |
| Viewer.ClickPoint | opentiler/viewer/viewer.py:1425-1443 | nothing exactly when the click misses the centred image or the zoom is 0; otherwise the point times the zoom is the image pixel clicked |
| Viewer.OnImageClicked | opentiler/viewer/viewer.py:1418-1466 | a click with no document, outside the image or at zoom 0 changes nothing; in selection mode the first click stores the point (x / zoom, y / zoom) in image coordinates, and the second appends the measurement from the stored point to the new one with its text and clears the points and the cursor; outside selection mode only the selection changes, to the nearest measurement within the tolerance as `SelectMeasurementAt` picks it |
| Viewer.SetPointSelectionMode | opentiler/viewer/viewer.py:1393-1407 | switching on clears the points, the text and the live cursor; switching off clears the hover and the cursor; the measurements stay |
| Viewer.SetScale | opentiler/viewer/viewer.py:1377-1380 | the scale changes and the measurements keep the text they were given when made |
| Viewer.GrabEndpoint | opentiler/viewer/viewer.py:144-152 | the nearer endpoint is grabbed, the first one on a tie |
| PageViewerDialog.DrawScaleLine | opentiler/dialogs/page_viewer_dialog.py:191-248 | the line is drawn only with scale and page information, off the metadata page, with the line display on and both points set; then exactly when the line's bounding box meets the page |
| PageViewerDialog.InPageMeets | opentiler/dialogs/page_viewer_dialog.py:221-247 | an endpoint on the page implies the bounding-box test, so the point tests add nothing |
| PageViewerDialog.ToPixmap | opentiler/dialogs/page_viewer_dialog.py:254-267 | document coordinates map to page-image pixels relative to the page origin, stretched by image size over page size; a zero-size page divides by zero |
| PageViewerDialog.ToPixmapCorners | opentiler/dialogs/page_viewer_dialog.py:254-267 | the page origin maps to (0, 0) and the far corner to the image size |
| PageViewerDialog.DrawnMeasurements | opentiler/dialogs/page_viewer_dialog.py:347-426 | none without page information, on the metadata page or on a zero-size page (the division raises and the `except` drops the drawing); otherwise, in order, exactly the measurements with both endpoints whose bounding box meets the page |
| PageViewerDialog.Shown | opentiler/dialogs/page_viewer_dialog.py:360-378 | the drawn measurements from index k on, in increasing order |
| PageViewerDialog.ZoomFit | opentiler/dialogs/page_viewer_dialog.py:438-455 | without a page image the zoom stays; otherwise the zoom never exceeds 100%, the image fits the scroll area less 50 px, and one of the three bounds is met |
| PageViewerDialog.FitZoom | opentiler/dialogs/page_viewer_dialog.py:448-454 | the least of avW / w, avH / h and 1 fits both extents and meets one of the bounds |
| PdfExporter.ExportPathOf | opentiler/exporter/pdf_exporter.py:52-60 | the composite path runs exactly when `composite` was passed as true |
| PdfExporter.PdfPageSizeOf | opentiler/exporter/pdf_exporter.py:86-94 | an unknown page-size name falls back to A4 |
| PdfExporter.PdfPageSizeOfName | opentiler/exporter/pdf_exporter.py:86-94 | each of A4, Letter and A3 is selected by its own name |
| PdfExporter.PointsSize | opentiler/exporter/pdf_exporter.py:516-518 | every page size is taller than wide in points |
| PdfExporter.OptimalOrientation | opentiler/exporter/pdf_exporter.py:475-533 | "landscape" gives landscape, anything but "landscape" and "auto" gives portrait, and "auto" without a page of positive size gives portrait |
| PdfExporter.AutoOrientationMidpoint | opentiler/exporter/pdf_exporter.py:497-531 | on "auto" with pages of one positive size, landscape is chosen exactly when w / h lies above the midpoint of the page's portrait and landscape ratios (ties go to portrait) |
| PdfExporter.PageContents | opentiler/exporter/pdf_exporter.py:157-177 | the writer always has at least one (open) page |
| PdfExporter.ContentsAfterNewPage | opentiler/exporter/pdf_exporter.py:158-159 | `newPage` appends an empty page and keeps the earlier ones |
| PdfExporter.ContentsAfterDraw | opentiler/exporter/pdf_exporter.py:167-170 | a drawing lands on the last page and nothing else changes |
| PdfExporter.TilePages | opentiler/exporter/pdf_exporter.py:156-172 | one page per tile, tile i on the i-th |
| PdfExporter.TileLoop | opentiler/exporter/pdf_exporter.py:156-172 | after the loop every tile sits on a page of its own after the leading pages, and the page count is the number of pages drawn |
| PdfExporter.TileStep | opentiler/exporter/pdf_exporter.py:157-172 | one turn of the loop adds exactly one page, holding the tile |
| PdfExporter.OutputDirFailsIff | opentiler/exporter/pdf_exporter.py:80-81 | making the output file's directory fails exactly for a path without a slash, whose `dirname` is "" |
| PdfExporter.MultipageEventsAsWritten | opentiler/exporter/pdf_exporter.py:80-201 | the export fails, drawing nothing, exactly for a bare file name; otherwise the PDF has the intended pages except with no tiles and the metadata page last, where it is a blank page followed by the metadata page |
| PdfExporter.BlankLeadingPage | opentiler/exporter/pdf_exporter.py:175-177 | the intended PDF for that case is the metadata page alone, so the blank page is the discrepancy |
| PdfExporter.MultipageEvents | opentiler/exporter/pdf_exporter.py:80-201 | the export fails, drawing nothing, exactly for a bare file name; otherwise the PDF holds the metadata page first or last as configured and one page per tile in order, with no blank page |
| PdfExporter.CompositePdf | opentiler/exporter/pdf_exporter.py:369-473 | the export fails exactly for a bare output file name (`makedirs("")` raises) or when the canvas has a side of 0 pixels; otherwise the canvas is positive and names other than A4 and A3 get A4 portrait |
| PdfExporter.CompositeFailsIff | opentiler/exporter/pdf_exporter.py:380-411 | for an output path with a directory, failure happens exactly when all pages end left of x = 1 or above y = 1 |
| PdfExporter.CompositeLandscapeIff | opentiler/exporter/pdf_exporter.py:411-425 | on A4 and A3 landscape is chosen exactly when the canvas is more than 1.414 times as wide as it is high |
| PdfExporter.CompositeHoldsPages | opentiler/exporter/pdf_exporter.py:382-391 | every page's right edge fits on the canvas |
| ImageExporter.OutputTarget | opentiler/exporter/image_exporter.py:47-53 | a directory gets stem "tile"; a file path gives its `dirname` and a stem without slashes that is the base name minus at most one extension; the directory is empty exactly for a bare file name (or an empty directory path) |
| ImageExporter.OutputStemOfFile | opentiler/exporter/image_exporter.py:51-53 | a file `<stem><ext>` yields exactly the stem `stem` |
| ImageExporter.FileExtension | opentiler/exporter/image_exporter.py:58-63 | "jpeg" in any case becomes ".jpg", every other format a dot and its lower-cased name |
| ImageExporter.TileFileName | opentiler/exporter/image_exporter.py:69 | the name is `<stem>_page_` plus at least three digits whose value is i + 1, plus the extension |
| ImageExporter.TileFileNamesDistinct | opentiler/exporter/image_exporter.py:66-70 | different tiles get different names |
| ImageExporter.Stop | opentiler/exporter/image_exporter.py:66-84 | the loop stops at the first failed save, or at the end |
| ImageExporter.AttemptTiles | opentiler/exporter/image_exporter.py:66-87 | the result is true exactly when no save failed; saves are attempted, in order, for exactly the non-empty tiles up to the first failure, and a false result comes from the last attempt |
| ImageExporter.ExportTiles | opentiler/exporter/image_exporter.py:65-87 | one file name per successful save, each the name of its tile |
| ImageExporter.Export | opentiler/exporter/image_exporter.py:46-91 | a bare file name fails with false and writes nothing, because `os.makedirs("")` raises and the handler returns false; otherwise the result is true exactly when no save failed, and each file written is its tile's name joined to the output directory |
| ImageExporter.InDir | opentiler/exporter/image_exporter.py:66-70 | the k-th path is the k-th name joined to the directory |
| ImageExporter.Names | opentiler/exporter/image_exporter.py:68-70 | the k-th name is the name of the k-th saved tile |
| ImageExporter.ExportedFilesDistinct | opentiler/exporter/image_exporter.py:65-82 | the files written have pairwise distinct names |
| ImageExporter.CompositeSize | opentiler/exporter/image_exporter.py:114-124 | the canvas is non-negative and holds every page in whole pixels; it is (0, 0) for no pages, and each side is 0 or reached by some page's edge |
| BaseExporter.SetMetadata | opentiler/exporter/base_exporter.py:16-18 | the keyword values are set, the other entries keep their values, and no other key appears |
| BaseExporter.SetDefault | opentiler/exporter/base_exporter.py:22-24 | a present key is left alone; an absent key gets the default |
| BaseExporter.AddDefaultMetadata | opentiler/exporter/base_exporter.py:20-24 | exactly timestamp, application and version are added, absent ones get the current time, "OpenTiler" and "0.1.0", and existing values are never overwritten |
| BaseExporter.DefaultsIdempotent | opentiler/exporter/base_exporter.py:20-24 | adding the defaults again later changes nothing |
| MetadataPage.LayoutScale | opentiler/utils/metadata_page.py:36-37 | the layout scale always lies in [0.5, 3.0] |
| MetadataPage.Margin | opentiler/utils/metadata_page.py:38 | the margin always lies between 50 and 300 pixels |
| MetadataPage.LayoutScaleClamp | opentiler/utils/metadata_page.py:36-37 | between 1754 and 10524 px the scale is the page height over 3508; below it is 0.5, above it 3.0 |
| MetadataPage.Closest | opentiler/utils/metadata_page.py:565 | the chosen common scale is at least as close to the ratio as every other one, and strictly closer than every earlier one (Python's `min` keeps the first of equal keys) |
| MetadataPage.ChooseRatioLabel | opentiler/utils/metadata_page.py:543-575 | a zero scale divides by zero; a plain label shows exactly 1 / scale; a common label is chosen only for mm |
| MetadataPage.ScaleRatioText | opentiler/utils/metadata_page.py:543-575 | the text fails exactly for a zero scale |
| MetadataPage.CommonScalesIncreasing | opentiler/utils/metadata_page.py:550-562 | the common scales are strictly increasing |
| MetadataPage.CommonLabelIff | opentiler/utils/metadata_page.py:564-570 | with mm, common scale j is shown exactly when it lies within 0.1 of 1 / scale |
| MetadataPage.CommonScalesApart | opentiler/utils/metadata_page.py:550-562 | two different common scales are at least 1 apart, so at most one can be within 0.1 |
| MetadataPage.OtherUnitsPlain | opentiler/utils/metadata_page.py:571-574 | units other than mm always get the plain ratio |
| MetadataPage.ScaleRatioFullSize | opentiler/utils/metadata_page.py:551 | scale 1 in mm is labelled "1:1 (Full Size)" |
| MetadataPage.ScaleRatioFifty | opentiler/utils/metadata_page.py:557 | scale 0.02 in mm is labelled "1:50" |
| MetadataPage.BaseInfo | opentiler/utils/metadata_page.py:606-626 | the total is tiles_x times tiles_y, the real size is the pixel size times the scale, and the original file is shown by its base name |
| MetadataPage.BaseInfoKeys | opentiler/utils/metadata_page.py:608-626 | exactly the thirteen computed keys are filled in |
| MetadataPage.CreateDocumentInfo | opentiler/utils/metadata_page.py:577-631 | the keys are the thirteen computed ones plus the extra ones; extra values win, and the computed ones are kept where no extra value replaces them |
| MetadataPage.OriginalFileName | opentiler/utils/metadata_page.py:610-612 | no path gives "Unknown"; otherwise a name without slashes that ends the path |
| MetadataPage.OriginalFileOfJoin | opentiler/utils/metadata_page.py:610-612 | a file in any directory is shown by its own name |
| MetadataPage.TotalTilesOfGrid | opentiler/utils/metadata_page.py:624 | with the gutter grid's column and row counts the total equals the number of pages planned |
| MetadataPage.FileSizeOf | opentiler/utils/metadata_page.py:634-645 | a failing `getsize` gives "Unknown"; bytes below 1024, KB below 1024², MB above, each shown number equal to the size in that unit |
| MetadataPage.FileSizeString | opentiler/utils/metadata_page.py:634-645 | "Unknown" exactly when the size cannot be read; below 1024 a byte count that reads back as the size; then a number in KB, then in MB |
| MetadataPage.FileSizeUnitMonotone | opentiler/utils/metadata_page.py:638-643 | a larger file never gets a smaller unit, and a KB figure is below 1024 |
| MetadataPage.MinOf | opentiler/utils/metadata_page.py:247-249 | the least value of the list, which is one of its elements |
| MetadataPage.MaxOf | opentiler/utils/metadata_page.py:248-250 | the largest value of the list, which is one of its elements |
| MetadataPage.PlanBounds | opentiler/utils/metadata_page.py:246-257 | without pages the whole document from the origin; otherwise a box that holds every page |
| MetadataPage.Edges | opentiler/utils/metadata_page.py:247-250 | the left, top, right and bottom edges of the pages, in order |
| MetadataPage.PlanBoundsAttained | opentiler/utils/metadata_page.py:247-250 | some page touches each side of the box |
| MetadataPage.PlanBoundsTightest | opentiler/utils/metadata_page.py:247-250 | every box that holds the pages contains the plan box |
| MetadataPage.ReportedOverlapIsNeighbourOverlap | opentiler/utils/metadata_page.py:182-185 | the reported overlap, twice the gutter, is the overlap of neighbouring pages of the gutter grid in both directions; the grid's gutter is in document pixels and the report's in mm, so they agree for the pixel gutter the main window derives from the mm one |
| Overlays.MmToPx | opentiler/utils/overlays.py:5-9 | with a positive scale the pixels times the scale give back the mm; otherwise twice the mm |
| Overlays.ParseLocation | opentiler/utils/overlays.py:43-45 | whatever the case of the input, the zone comes back lower-case and the direction upper-case |
| Overlays.ParseLocationDefault | opentiler/utils/overlays.py:43-45 | no location means the page zone, direction S |
| Overlays.ParseLocationOfParts | opentiler/utils/overlays.py:43-45 | `zone-dir` reads back as the lower-cased zone and upper-cased direction |
| Overlays.ParseLocationZoneOnly | opentiler/utils/overlays.py:43-45 | a location without a dash is a zone with direction S |
| Overlays.BarRect | opentiler/utils/overlays.py:47-90 | in the page zone the bar is no longer than the requested length and no thicker than the thickness |
| Overlays.PageBarInside | opentiler/utils/overlays.py:56-72 | a drawn page-zone bar lies inside the printable area shrunk by the padding |
| Overlays.Drawn | opentiler/utils/overlays.py:92-94 | a bar is drawn only with positive width and height, so a drawn bar always covers some pixels |
| Overlays.GutterBarInStrip | opentiler/utils/overlays.py:73-88 | a drawn gutter-zone bar lies in the gutter strip on its side, between the paddings |
| Overlays.Count | opentiler/utils/overlays.py:135-152 | the loop stops at the end of the sizes, at an empty block, or right after the block that reaches the bar length |
| Overlays.DrawBlocks | opentiler/utils/overlays.py:135-152 | the k-th block drawn is the k-th size, cut at the bar end |
| Overlays.BlocksWithinBar | opentiler/utils/overlays.py:135-152 | each block is non-empty and inside the bar; the blocks follow without gaps from 0 and alternate dark and light, starting dark |
| Overlays.OffsetsNonNegative | opentiler/utils/overlays.py:135-152 | the offsets of the blocks drawn never go below 0 |
| Overlays.BlocksCoverBar | opentiler/utils/overlays.py:135-152 | positive sizes that reach the bar length cover the bar: the last block ends at its end |
| PageStats.AspectTotal | opentiler/exporter/pdf_exporter.py:502-511 | the count is at most the number of pages, and 0 exactly when no page has a positive size |
| PageStats.UniformAspectTotal | opentiler/exporter/pdf_exporter.py:502-511 | for pages of one positive size the total is the page count times w / h |
| PageStats.AverageOfUniform | opentiler/exporter/pdf_exporter.py:513-514 | the average of n equal ratios is that ratio |
| PageStats.Extent | opentiler/exporter/pdf_exporter.py:382-388 | the extent is non-negative, bounds every page edge and is 0 or some page's edge |
| PageStats.ExtentIsLeast | opentiler/exporter/image_exporter.py:114-121 | every non-negative bound of the page edges is at least the extent |
| SaveAsDialog.AddExtension | opentiler/dialogs/save_as_dialog.py:259-269 | the path is kept or gets the extension appended; afterwards it ends with the extension in lower case, and it is kept exactly when it already did |
| SaveAsDialog.AddExtensionIdempotent | opentiler/dialogs/save_as_dialog.py:259-269 | adding the extension twice is adding it once |
| SaveAsDialog.StartSave | opentiler/dialogs/save_as_dialog.py:245-306 | no document and an empty stripped path are refused first; a save starts exactly when the chosen format's library is available, on the extended path |
| SaveAsDialog.UpdateOutputExtension | opentiler/dialogs/save_as_dialog.py:196-201 | an empty path stays empty; otherwise the root of the path plus the new extension |
| SaveAsDialog.UpdateOutputExtensionSplits | opentiler/dialogs/save_as_dialog.py:196-201 | with a file name in the root, the result splits back into that root and the new extension, so a second update changes nothing |
| SaveAsDialog.UpdateOutputExtensionOfDirectory | opentiler/dialogs/save_as_dialog.py:196-201 | for a directory path without dots, such as "dir/", the update is not idempotent: the extension is appended on the first update and appended again on the second |
| SaveAsDialog.OnFormatChanged | opentiler/dialogs/save_as_dialog.py:186-194 | DXF swaps in ".dxf", FreeCAD ".FCStd", any other format leaves the path |
| SaveAsDialog.ScaleLabel | opentiler/dialogs/save_as_dialog.py:228-232 | "Not set (1:1)" exactly for scale 1.0; otherwise a text ending " mm/pixel" |
| ExtensionLogic.TestRule | test_extension_logic.py:28-40 | the test's copy of the rule agrees with the dialog's rule on every path and format |
| ExtensionLogic.ExistingExtensionKept | test_extension_logic.py:15-20 | a path that already ends with the extension in any case comes back unchanged, case kept |
| ExtensionLogic.MissingExtensionAppended | test_extension_logic.py:14-21 | a path whose tail differs from the extension in a character, case aside, gets the extension appended |
| ExtensionLogic.DxfCases | test_extension_logic.py:14-17 | a name like "test01" or "my_drawing" (no dot four characters from the end) gets ".dxf", and with ".dxf" or ".DXF" already on it is kept |
| ExtensionLogic.FreeCadCases | test_extension_logic.py:18-21 | a name like "test01" or "my_model" (no dot six characters from the end) gets ".FCStd", and with ".FCStd" or ".fcstd" already on it is kept |
| ExtensionLogic.CaseTable | test_extension_logic.py:12-22 | all eight rows of the table, with the test's own format texts, come out as listed |
| HelpDialog.Insert | opentiler/dialogs/help_dialog.py:154 | inserting into a list sorted by lower-cased name keeps it sorted and adds exactly the one name |
| HelpDialog.SortByLower | opentiler/dialogs/help_dialog.py:154 | the result is sorted by lower-cased name and a permutation of the input |
| HelpDialog.KeepTopics | opentiler/dialogs/help_dialog.py:155 | exactly the topic files are kept, each as often as it was listed |
| HelpDialog.TopicFiles | opentiler/dialogs/help_dialog.py:154-158 | the topics of a directory are exactly its Markdown and HTML files, suffix compared without case, sorted by lower-cased name |
| HelpDialog.IsTopicFile | opentiler/dialogs/help_dialog.py:155 | a topic file has a suffix and a stem before it, so a file named only ".md" is not a topic |
| HelpDialog.FilterItem | opentiler/dialogs/help_dialog.py:182-192 | every item of the tree is filtered (no early stop) and an item is shown exactly when it or a shown child matches |
| HelpDialog.FilterItems | opentiler/dialogs/help_dialog.py:184-186 | each child is filtered on its own |
| HelpDialog.FilterTopics | opentiler/dialogs/help_dialog.py:180-194 | every top-level tree is filtered with the lower-cased, stripped text |
| HelpDialog.EmptyFilterShowsAll | opentiler/dialogs/help_dialog.py:188 | an empty search shows every item |
| HelpDialog.EmptyFilterTopics | opentiler/dialogs/help_dialog.py:180-194 | a blank search shows every item of every tree |
| HelpDialog.PreOrder | opentiler/dialogs/help_dialog.py:237-245 | the pre-order of a tree starts with its root |
| HelpDialog.Walk | opentiler/dialogs/help_dialog.py:237-245 | a found item is labelled with the file name and opens a file |
| HelpDialog.WalkAll | opentiler/dialogs/help_dialog.py:242-245 | a found item among the children is labelled with the name and opens a file |
| HelpDialog.FirstSelectable | opentiler/dialogs/help_dialog.py:237-250 | none exactly when no item fits; otherwise the first fitting one |
| HelpDialog.FirstSelectableAppend | opentiler/dialogs/help_dialog.py:246-250 | searching a concatenation searches the first part first |
| HelpDialog.WalkIsFirst | opentiler/dialogs/help_dialog.py:237-245 | the walk finds exactly the first fitting item in pre-order |
| HelpDialog.WalkAllIsFirst | opentiler/dialogs/help_dialog.py:242-245 | walking the children finds the first fitting item in their pre-orders |
| HelpDialog.SelectByName | opentiler/dialogs/help_dialog.py:235-250 | the current item becomes the first fitting item in pre-order over the top-level trees, or stays without one |
| HelpDialog.SelectListItem | opentiler/dialogs/help_dialog.py:235-236 | the item is looked up by the file name at the end of the path |
| HelpDialog.OpenHelpFile | opentiler/dialogs/help_dialog.py:211-214 | the file in the help directory is loaded and its item selected |
| HelpDialog.OpenDefaultTopic | opentiler/dialogs/help_dialog.py:203-220 | nothing without a help directory; then "index.md", "README.md" or the first top-level item, in that order of preference |
| Config.Get | opentiler/settings/config.py:190-192 | a stored value, or the default for an absent key |
| Config.Defaults | opentiler/settings/config.py:18-188 | both last-used directories default to the home directory, and originals are stored "embedded" by default |
| Config.LoadDefaults | opentiler/settings/config.py:18-188 | every default key ends up present; present keys keep their values, absent ones get the default |
| Config.LoadDefaultsIdempotent | opentiler/settings/config.py:18-188 | loading the defaults twice is loading them once |
| Config.SafeBool | opentiler/settings/config.py:326-329 | text is true exactly when it reads "true" in any case; a flag is itself |
| Config.GetBool | opentiler/settings/config.py:326-329 | an absent key reads as the default; a stored flag reads as itself; stored text reads true exactly when it is "true" in any case |
| Config.GetBoolRoundTrip | opentiler/settings/config.py:326-333 | a flag stored and read back, also as the text "true"/"false", gives the flag |
| Config.PyBool | opentiler/settings/config.py:590-592 | Python's truth: any non-empty text is true |
| Config.IncludeMetadataPage | opentiler/settings/config.py:590-596 | absent means true, a flag is itself, text is true exactly when it reads "true" |
| Config.IncludeMetadataPageFalseText | opentiler/settings/config.py:590-592 | the stored text "false" reads as true as written and as false in the corrected getter |
| Config.PyInt | opentiler/settings/config.py:581-583 | an integer value reads as itself |
| Config.RecentList | opentiler/settings/config.py:539-547 | the stored list, or empty when nothing or no list is stored |
| Config.Find | opentiler/settings/config.py:554-555 | the index of the first occurrence, or the length exactly when absent |
| Config.RemoveFirst | opentiler/settings/config.py:554-555 | a present value loses exactly one occurrence; an absent one changes nothing |
| Config.PySliceTo | opentiler/settings/config.py:562 | Python's prefix slice, a negative bound counting from the end |
| Config.RemoveFirstKeeps | opentiler/settings/config.py:568-574 | nothing new appears, and from a list without duplicates the value is gone |
| Config.AddRecent | opentiler/settings/config.py:549-566 | with a positive limit the path comes first, the length is within the limit, no duplicate is introduced and nothing new but the path appears; the length is the limit or the old list without the path plus one, whichever is smaller (Python's slice for a negative limit), and after the path come the first entries of the old list without the path, in order |
| Config.SliceOfFront | opentiler/settings/config.py:564-566 | cutting the path followed by a list keeps the path in front of a prefix of that list, of the length the slice gives |
| Config.FrontKeepsDistinct | opentiler/settings/config.py:561-566 | the path followed by a prefix of the list without it holds nothing new and repeats nothing when the list had no duplicates |
| Config.AddRecentSetting | opentiler/settings/config.py:549-566 | the update fails exactly when the limit is not an integer; otherwise the list is stored back updated |
| Config.RemoveRecentSetting | opentiler/settings/config.py:568-574 | the store changes only when the path is listed, and then loses its first occurrence |
| Config.AddThenRemove | opentiler/settings/config.py:549-574 | adding and then removing a new path gives back the old list when the limit keeps everything |
| Config.ParseInts | opentiler/settings/config.py:214-217 | a parse gives one number per piece |
| Config.SetDpiOptions | opentiler/settings/config.py:219-222 | only the DPI key changes, to a text |
| Config.GetDpiOptions | opentiler/settings/config.py:214-217 | with nothing stored the options are 75, 100, 150, 300 and 600; a stored value that is not text does not read |
| Config.DefaultDpiText | opentiler/settings/config.py:216-217 | the fallback text "75,100,150,300,600" reads as those five numbers |
| Config.DpiOptionsRoundTrip | opentiler/settings/config.py:214-222 | a non-empty DPI list stored and read back is the same list |
| Config.EmptyDpiOptions | opentiler/settings/config.py:214-222 | an empty list does not read back: `int("")` raises |
| Config.GroupedDpiOptions | opentiler/settings/config.py:214-217 | a stored "75,1_200" reads as 75 and 1200, since `int()` accepts underscores between digits |
| Config.GroupedLimit | opentiler/settings/config.py:581-583 | a stored limit of "1_0" reads as ten, and adding a recent path keeps at most ten entries |
| Text.ParseInt | opentiler/settings/config.py:216-217 | empty text does not read, and a plain run of digits reads as its decimal value |
| Text.ParseIntToString | opentiler/settings/config.py:214-222 | `int(str(n)) == n` for every integer, negative ones included, so stored DPI values read back |
| Text.ParseIntGrouped | opentiler/settings/config.py:216-217 | `int("1_200")` is 1200: an underscore between two digits is grouping |
| Text.ParseIntSignedGroups | opentiler/settings/config.py:581-583 | `int("1_0")` is 10, and with a sign `int("-1_0")` is -10 |
| Text.ParseIntBadGroups | opentiler/settings/config.py:216-217 | an underscore at either end or two in a row raise: "1__0", "_1" and "1_" do not read |
| Config.SetStorageMode | opentiler/settings/config.py:611-615 | a known mode is stored as is, any other as "reference" |
| Config.GetStorageMode | opentiler/settings/config.py:607-609 | an absent key reads "reference"; otherwise the stored value is returned as it is |
| Config.StorageModeDefaults | opentiler/settings/config.py:607-615 | set and get agree; absent reads "reference" but the defaults write "embedded" |
| AppLogger.Passes | opentiler/utils/app_logger.py:36-56 | no settings pass everything; logging off passes only errors; otherwise records without a component, of an enabled component, or of at least WARNING pass |
| AppLogger.PassesMonotone | opentiler/utils/app_logger.py:36-56 | a passing record's higher-level siblings pass too |
| AppLogger.ErrorsAlwaysPass | opentiler/utils/app_logger.py:40-43 | errors always pass, and with default settings only errors do |
| AppLogger.LevelOf | opentiler/utils/app_logger.py:77-80 | `getattr` then `setLevel`: a level name gives its level; an upper-case module attribute that is not a level (the default format, the style table) makes `setLevel` raise; any other name is WARNING |
| AppLogger.ConfiguredLevel | opentiler/utils/app_logger.py:76-80 | WARNING without settings, without a stored name or for a stored value that is not text; otherwise what the upper-cased name gives, a raise included |
| AppLogger.ConfiguredLevelIgnoresCase | opentiler/utils/app_logger.py:77 | for every stored text, the text and its upper-cased form configure the same level or both raise |
| AppLogger.ConfiguredLevelRaisesIff | opentiler/utils/app_logger.py:77-80 | configuring raises exactly when the upper-cased stored name is a module attribute other than a level |
| AppLogger.LowerCaseLevelName | opentiler/utils/app_logger.py:77 | "debug" is DEBUG |
| AppLogger.MixedCaseLevelName | opentiler/utils/app_logger.py:77 | "Error" is ERROR |
| AppLogger.UnknownLevelName | opentiler/utils/app_logger.py:77 | "verbose" falls back to WARNING |
| AppLogger.BasicFormatRaises | opentiler/utils/app_logger.py:77-80 | a stored "basic_format" makes `setLevel` raise |
| Config.IncludeMetadataPageAsWritten | opentiler/settings/config.py:590-592 | as written: absent reads as true, and any stored text reads as true exactly when it is non-empty |
| PluginRegistry.Empty | plugins/plugin_registry.py:21-25 | a new registry is valid and holds no plugins, dependencies or dependents |
| PluginRegistry.Dependencies | plugins/plugin_registry.py:107-117 | the recorded dependencies, none without a record; in a linked registry the plugin is among the dependents of each of them |
| PluginRegistry.Dependents | plugins/plugin_registry.py:119-129 | the recorded dependents, none without a record |
| PluginRegistry.Register | plugins/plugin_registry.py:27-53 | the metadata is stored under the name; a non-empty dependency list replaces the recorded dependencies and adds the plugin to exactly its dependencies' dependents; without dependencies the old records stay |
| PluginRegistry.RegisterLinked | plugins/plugin_registry.py:38-48 | registering keeps every recorded dependency linked back from its dependents |
| PluginRegistry.Without | plugins/plugin_registry.py:66-67 | exactly the other names are kept, without duplicates |
| PluginRegistry.Unregister | plugins/plugin_registry.py:55-84 | the plugin's metadata and both of its records go, it leaves the dependents of exactly the plugins it depended on, and other records stay |
| PluginRegistry.UnregisterLinked | plugins/plugin_registry.py:55-84 | removing a plugin nobody depends on keeps every dependency linked back |
| PluginRegistry.RegisterUnregister | plugins/plugin_registry.py:27-84 | registering a new plugin without dependencies and unregistering it gives the registry back |
| PluginRegistry.RegisterNoDeps | plugins/plugin_registry.py:38-41 | a new plugin without dependencies only adds its name and metadata |
| PluginRegistry.UnregisterNoRecords | plugins/plugin_registry.py:66-82 | a plugin without records only loses its name and metadata |
| PluginRegistry.CheckDependencies | plugins/plugin_registry.py:131-151 | the missing dependencies are exactly the recorded ones not available, each once |
| PluginRegistry.Visit | plugins/plugin_registry.py:168-187 | meeting a plugin already on the chain means a circular dependency; otherwise the plugin is finished after all its dependencies among the plugins named |
| PluginRegistry.VisitDependencies | plugins/plugin_registry.py:178-182 | every dependency among the plugins named ends up finished, unless a cycle is met |
| PluginRegistry.Push | plugins/plugin_registry.py:175-176 | entering a dependency of the chain's last plugin extends the chain and leaves fewer plugins off it |
| PluginRegistry.CycleOnStack | plugins/plugin_registry.py:169-173 | meeting a plugin on the chain again closes a dependency cycle |
| PluginRegistry.FinishedAppend | plugins/plugin_registry.py:184-186 | a plugin whose dependencies are all finished can follow them |
| PluginRegistry.GetLoadOrder | plugins/plugin_registry.py:153-197 | with circular dependencies among the plugins named, the names as given; otherwise each named plugin once, every dependency among them before its dependents |
| PluginRegistry.FinishedOrdersAll | plugins/plugin_registry.py:184-186 | a finished list puts every dependency first |
| PluginRegistry.FinishedHasNoCycle | plugins/plugin_registry.py:188-197 | plugins that can all be finished have no circular dependency, so the fallback is taken exactly on a cycle |
| PluginRegistry.PathDescends | plugins/plugin_registry.py:184-186 | along a dependency path the positions in a finished list never go up |
| PluginRegistry.Matching | plugins/plugin_registry.py:211-217 | exactly the names whose description or name contains the category, without case |
| PluginRegistry.FindByCategory | plugins/plugin_registry.py:199-219 | exactly the registered plugins matching the category, each once |
| PluginRegistry.EmptyCategoryFindsAll | plugins/plugin_registry.py:199-219 | the empty category finds every plugin, in registration order |
| PluginRegistry.SumSizes | plugins/plugin_registry.py:292-294 | the sum of the set sizes is the number of pairs recorded |
| PluginRegistry.PairsSplit | plugins/plugin_registry.py:292-294 | one key's pairs are as many as its set's size |
| PluginRegistry.GetStatistics | plugins/plugin_registry.py:282-295 | the counts are the plugins, the two record tables, and the pairs recorded in each |
| PluginRegistry.LinkedCounts | plugins/plugin_registry.py:282-295 | when every dependency is linked back, total dependents are at least total dependencies |
| HookSystem.Cancel | plugins/hook_system.py:93-96 | cancelling sets the flag exactly when it may be set, and changes nothing else |
| HookSystem.CancelIdempotent | plugins/hook_system.py:93-96 | cancelling twice is cancelling once |
| HookSystem.NewManager | plugins/hook_system.py:201-217 | a new manager is valid with no handlers and no counters |
| HookSystem.InsertPos | plugins/hook_system.py:236-238 | the new entry goes after every entry of at least its priority and before the others |
| HookSystem.Insert | plugins/hook_system.py:234-238 | appending and sorting stably by priority, highest first, keeps the list sorted and puts the entry at its place with the rest unmoved |
| HookSystem.InsertPermutation | plugins/hook_system.py:234-238 | the new list is the old one plus the entry, as a multiset |
| HookSystem.InsertMembers | plugins/hook_system.py:234-238 | the new list holds exactly the old entries and the new one |
| HookSystem.RegisterOne | plugins/hook_system.py:232-242 | the entry is inserted by priority in its hook's list, the plugin's counter is created at 0 if absent, and other hooks are untouched |
| HookSystem.Register | plugins/hook_system.py:219-247 | registration keeps the manager valid |
| HookSystem.Remove | plugins/hook_system.py:262-265 | exactly the entries of other handlers or other plugins remain, still sorted |
| HookSystem.UnregisterOne | plugins/hook_system.py:262-265 | one hook's list loses the handler's entries for the plugin; counters stay |
| HookSystem.Unregister | plugins/hook_system.py:249-272 | only the lists of the hooks the handler lists change, each losing the handler's entries for the plugin; counters stay |
| HookSystem.RemoveInsert | plugins/hook_system.py:234-265 | removing an entry's registrations after inserting it is removing them before |
| HookSystem.RemoveIdempotent | plugins/hook_system.py:262-265 | removing twice is removing once |
| HookSystem.RemoveAbsent | plugins/hook_system.py:262-265 | a list without the handler's entries stays as it is |
| HookSystem.RegisterThenRemove | plugins/hook_system.py:219-265 | after registering, removing the handler's entries gives what removing them before gives |
| HookSystem.RegisterUnregister | plugins/hook_system.py:219-272 | registering and unregistering a handler the plugin had not registered restores every list |
| HookSystem.RegisterKeeps | plugins/hook_system.py:219-247 | registering never drops an entry |
| HookSystem.Handlers | plugins/hook_system.py:322-332 | the i-th name is the plugin of the i-th registration in execution order, so exactly the plugins with registrations are named, and in a valid manager the registrations behind the names come highest priority first |
| HookSystem.RegisteredIsListed | plugins/hook_system.py:219-247 | after registering, the plugin is listed for every hook the handler serves |
| HookSystem.RunHandlers | plugins/hook_system.py:299-318 | handlers run in order up to the first that returns normally with the context cancelled; the context is cancelled exactly when a handler asked for it and it may be |
| HookSystem.Tallied | plugins/hook_system.py:305-307 | each counter grows by its plugin's successful calls so far |
| HookSystem.Execute | plugins/hook_system.py:274-320 | the context carries the hook, data, source and permission; handlers run in order until the first normal return with the context cancelled, raising handlers are passed over, each success is counted for its plugin, and other hooks' counters stay |
| HookSystem.NoCancelRunsAll | plugins/hook_system.py:299-318 | without permission to cancel every handler runs |
| ContentAccess.ContentImageAsWritten | plugins/content_access.py:134-153 | as written, the content image is handed out exactly when the level is read-only and a plan view exists; a writer or full-control plugin never gets it |
| ContentAccess.ContentImageNotMonotone | plugins/content_access.py:149 | the as-written check lets a read-only plugin read the image and refuses the same image to a full-control plugin |
| ContentAccess.ContentImage | plugins/content_access.py:134-153 | corrected: every granted level, read-only and above, gets the plan view's image, and nothing when there is no plan view |
| ContentAccess.ContentImageMonotone | plugins/content_access.py:21-23 | with the corrected check, raising the access level never takes the content image away |
| ContentAccess.SetViewTransform | plugins/content_access.py:161-188 | the transform is applied exactly when the level allows writing and a plan view exists; each of zoom, pan and rotation changes only when given, and a refused call leaves the view as it was |
| ContentAccess.SetNothingKeepsView | plugins/content_access.py:177-187 | a call giving none of zoom, pan or rotation succeeds for a writer and leaves the view unchanged |
| ContentAccess.OverlayChange | plugins/content_access.py:190-211 | adding or removing an overlay succeeds exactly under full control and a successful viewer call |
| ContentAccess.TileImageAsWritten | plugins/content_access.py:255-271 | as written, a tile image is returned exactly when the level is read-only and the preview renders one, the same inverted check as the content image |
| ContentAccess.TileChange | plugins/content_access.py:283-302 | setting the tile configuration or regenerating succeeds exactly when the level allows writing and the preview call succeeds |
| ContentAccess.TilesBelow | plugins/content_access.py:273-281 | the listing holds, in increasing order, every tile index below the count that has data, each with its own data, and nothing else |
| ContentAccess.AllTilesInfo | plugins/content_access.py:273-281 | without a tile preview the listing is empty; otherwise every entry is an index below the tile count that has data |
| ContentAccess.AllTilesListed | plugins/content_access.py:277-280 | when every index below the count has data, the listing is exactly the indices 0 to n-1 in order, each with its data |
| ContentAccess.AddMeasurement | plugins/content_access.py:349-374 | a measurement id comes back only for a writer with a measurement system; the added signal fires exactly when such a call returns a non-empty id |
| ContentAccess.EnableSnap | plugins/content_access.py:391-396 | enabling snap succeeds exactly when the level allows writing and the measurement system accepts it |
| ContentAccess.WritesMonotone | plugins/content_access.py:21-23 | every write operation a lower level may perform, a higher level may perform too |
| ContentAccess.AccessObjects | plugins/content_access.py:437-451 | an access object exists for plan view, tile preview and measurements exactly when that area is required, each at the granted level, and no other keys |
| ContentAccess.GrantAccess | plugins/content_access.py:418-460 | the plugin's entry is replaced by its requirements, level and the objects built for them, and those objects are returned |
| ContentAccess.RevokeAccess | plugins/content_access.py:462-465 | the plugin's entry is removed and every other plugin's entry is kept unchanged |
| ContentAccess.GrantRevokeAccess | plugins/content_access.py:418-469 | after a grant the plugin's access reads back as the granted objects, other plugins' access is unchanged, and after a revoke the plugin has none |
| ContentAccess.PluginAccess | plugins/content_access.py:467-469 | nothing exactly for a plugin without a grant; otherwise the access objects of its grant |
| ContentAccess.GrantNothing | plugins/content_access.py:437-451 | a plugin keeping the default requirements is granted no access objects |
| BasePlugin.NewPlugin | plugins/base_plugin.py:45-55 | a new plugin is neither enabled nor initialised and keeps its metadata, requirements and handlers |
| BasePlugin.Status | plugins/base_plugin.py:241-253 | the status is one of "Not initialized", "Enabled" and "Disabled" |
| BasePlugin.StatusMeaning | plugins/base_plugin.py:241-253 | "Not initialized" exactly when not initialised; "Enabled" exactly when initialised and enabled; "Disabled" exactly when initialised and not enabled |
| BasePlugin.NewPluginStatus | plugins/base_plugin.py:45-55 | a freshly constructed plugin reports "Not initialized" |
| BasePlugin.DefaultRequirements | plugins/base_plugin.py:166-186 | the default requirements name exactly the six access kinds, none of them required |
| BasePlugin.DefaultRequiresNothing | plugins/base_plugin.py:166-186 | a plugin keeping the defaults asks for no access |
| BasePlugin.ExceptionMessage | plugins/base_plugin.py:264-270 | the message starts with "Plugin '", then the plugin name, then "': ", and ends with the given text |
| BasePlugin.ExceptionMessageInjective | plugins/base_plugin.py:270 | for plugin names without a quote, equal messages mean equal plugin names and equal texts |
| PluginManager.IsValidPlugin | plugins/plugin_manager.py:115-131 | an unreadable file is never a plugin, and no text shorter than "BasePlugin" is one |
| PluginManager.ValidPluginText | plugins/plugin_manager.py:125-131 | a class deriving from `BasePlugin` qualifies; an import of `BasePlugin` without a class does not, nor does an unreadable file |
| PluginManager.Accept | plugins/plugin_manager.py:97-111 | an accepted entry does not start with an underscore; a file is accepted as its stem only with the ".py" suffix and valid contents, a package as its name only with a valid `__init__.py` |
| PluginManager.AcceptExactly | plugins/plugin_manager.py:97-111 | both directions: a file is accepted exactly when it has no leading underscore, the ".py" suffix and valid contents; a package exactly when it has no leading underscore and a valid `__init__.py`; anything else never |
| PluginManager.DiscoverDir | plugins/plugin_manager.py:96-111 | a name is discovered in a directory exactly when some entry there is accepted under it |
| PluginManager.Discover | plugins/plugin_manager.py:81-113 | a name is discovered exactly when some entry of some plugin directory is accepted under it |
| PluginManager.DiscoveredNoUnderscore | plugins/plugin_manager.py:98-105 | no discovered plugin name starts with an underscore |
| PluginManager.NewManager | plugins/plugin_manager.py:49-60 | a new manager holds no plugins, no load order and no access grants |
| PluginManager.LoadPlugin | plugins/plugin_manager.py:133-187 | an already loaded plugin reports success without change; a missing one fails without change; otherwise the plugin is stored, appended to the load order and its metadata registered, hooks and access untouched |
| PluginManager.LoadIdempotent | plugins/plugin_manager.py:143-145 | loading a plugin a second time succeeds and changes nothing |
| PluginManager.ChooseLevel | plugins/plugin_manager.py:273-277 | full control exactly when transformations are required; read-write exactly when they are not but measurements or tile preview are; read-only otherwise |
| PluginManager.RegisterAll | plugins/plugin_manager.py:171 | registering a plugin's handlers keeps the hook manager valid and with no handlers changes nothing |
| PluginManager.RegisterAllKeeps | plugins/plugin_manager.py:171 | registering more handlers keeps every handler already listed for a hook |
| PluginManager.RegisterAllListed | plugins/plugin_manager.py:171 | after registration the plugin is listed for every hook each of its handlers declares |
| PluginManager.InitializePlugin | plugins/plugin_manager.py:239-296 | succeeds exactly for a loaded plugin whose initialise succeeds, and a failure changes nothing; on success the plugin is marked initialised, and when it requires any access it is granted its requirements at the chosen level, otherwise grants are untouched |
| PluginManager.InitializedHandlersListed | plugins/plugin_manager.py:239-296 | after a successful initialisation the plugin is listed for every hook its handlers declare |
| PluginManager.EnablePlugin | plugins/plugin_manager.py:298-318 | enabling succeeds exactly for a loaded plugin that is or can be initialised and whose enable succeeds; it is then initialised and enabled; load order and registry are untouched |
| PluginManager.DisablePlugin | plugins/plugin_manager.py:320-336 | disabling succeeds exactly for a loaded plugin whose disable succeeds, clears only its enabled flag, and leaves hooks and grants in place |
| PluginManager.EnabledAmong | plugins/plugin_manager.py:342-344 | a name is listed exactly when it is in the load order, loaded and enabled |
| PluginManager.GetEnabledPlugins | plugins/plugin_manager.py:342-344 | a name is listed exactly when that plugin is loaded and enabled |
| PluginManager.EnableDisableListed | plugins/plugin_manager.py:298-344 | a plugin just enabled is listed as enabled, one just disabled is not, and disabling one plugin does not change whether any other is listed |
| PluginManager.GetPluginInfo | plugins/plugin_manager.py:346-349 | metadata is returned exactly for a loaded plugin, and it is that plugin's own |
| PluginManager.CleanUp | plugins/plugin_manager.py:370-378 | after the plugins' cleanups, a hook entry remains exactly when it was there and no cleanup takes out its handler under its plugin name |
| PluginManager.Shutdown | plugins/plugin_manager.py:370-382 | shutting down forgets every plugin and the load order, leaves registry and grants as they were, and keeps exactly the hook entries that no plugin's cleanup unregisters |
| PluginManager.ShutdownUnregistersSnap | plugins/builtin/snap_plugin.py:214-221 | with the snap plugin's cleanup among them, no entry of its handler under "snap" survives shutdown, while the entry the manager registered under the plugin's name is kept or absent as before |
| PluginManager.ShutdownForgets | plugins/plugin_manager.py:381-382 | after shutdown no plugin is listed as enabled and none can be enabled or initialised |
| PluginManager.SnapRequirements | plugins/builtin/snap_plugin.py:234-243 | the snap plugin asks for plan view and measurements but not transformations, among the six access kinds |
| PluginManager.WriterCannotReadAsWritten | plugins/content_access.py:149 | any plugin that needs plan view and also any write access is, as written, refused the content image, while the corrected check gives it |
| PluginManager.SnapCannotReadAsWritten | plugins/plugin_manager.py:273-277 | the snap plugin is granted read-write access and so, as written, never gets the content image |
| SnapPlugin.NewSnapState | plugins/builtin/snap_plugin.py:134-162 | a new snap plugin is disabled with no points, snapping on, a snap distance of 10 and a grid spacing of 50 |
| SnapPlugin.Scan | plugins/builtin/snap_plugin.py:259-269 | from any point of the loop, the scan ends with no index when no point lies within the distance, otherwise with the nearest point, the first of equally near ones |
| SnapPlugin.SnapIndex | plugins/builtin/snap_plugin.py:245-269 | no index exactly when no point lies within the distance; otherwise the first point at the least distance within it |
| SnapPlugin.SnapUnique | plugins/builtin/snap_plugin.py:262-267 | the snap choice is unique: at most one index is the first nearest point within the distance |
| SnapPlugin.FindSnapPoint | plugins/builtin/snap_plugin.py:245-269 | with snapping off nothing is found; otherwise nothing exactly when no point lies within the distance, else the first nearest point within it |
| SnapPlugin.SnapToSelf | plugins/builtin/snap_plugin.py:245-269 | with a positive snap distance, a snap point snaps to a point at distance zero from itself |
| SnapPlugin.Steps | plugins/builtin/snap_plugin.py:304-306 | the range holds start, start+step, … in order, every one below the stop, and the next one would reach it |
| SnapPlugin.StepsCount | plugins/builtin/snap_plugin.py:304-306 | the range from 0 below n by step has ceil(n / step) entries |
| SnapPlugin.Grid | plugins/builtin/snap_plugin.py:304-306 | the nested loop yields one point per pair of x and y |
| SnapPlugin.GridAt | plugins/builtin/snap_plugin.py:304-306 | the point for x index i and y index j sits at position i times the number of ys plus j and is (xs[i], ys[j]) |
| SnapPlugin.GridPoints | plugins/builtin/snap_plugin.py:288-306 | no viewport gives no grid points; a spacing truncating to zero with a viewport is the error range raises; a negative one gives no points |
| SnapPlugin.GridPointsCount | plugins/builtin/snap_plugin.py:288-306 | a grid with positive spacing s over a w by h viewport has ceil(w/s) times ceil(h/s) points |
| SnapPlugin.GridPointsAt | plugins/builtin/snap_plugin.py:304-306 | each grid point is (i·s, j·s) at its row-major position, inside the viewport |
| SnapPlugin.ContentPoints | plugins/builtin/snap_plugin.py:308-343 | without bounds, or with null bounds, there are no content points; otherwise four corners if asked, four edge midpoints if asked, and the centre last |
| SnapPlugin.ContentPointsOnRect | plugins/builtin/snap_plugin.py:308-343 | every content point has an x among left, centre and right and a y among top, centre and bottom of the bounds |
| SnapPlugin.Generate | plugins/builtin/snap_plugin.py:271-286 | generation fails exactly when grid snapping is on and the grid range raises, and then empties the snap and grid points; otherwise the snap points are the grid points followed by the content points, each regenerated only when its kind of snapping is on |
| SnapPlugin.GenerateIdempotent | plugins/builtin/snap_plugin.py:271-286 | generating again from the same view gives the same state and outcome |
| SnapPlugin.Enable | plugins/builtin/snap_plugin.py:180-194 | enabling succeeds exactly when generation does, then marks the plugin enabled; the snap points are the generated ones |
| SnapPlugin.Disable | plugins/builtin/snap_plugin.py:196-212 | disabling always succeeds, clears the enabled flag and all points, and keeps the configuration |
| SnapPlugin.DisabledFindsNothing | plugins/builtin/snap_plugin.py:196-212 | a disabled snap plugin finds no snap point |
| SnapPlugin.DisableEnable | plugins/builtin/snap_plugin.py:180-212 | with grid and content snapping on, disabling and re-enabling gives the same outcome and snap points as enabling directly |
| SnapPlugin.SetConfig | plugins/builtin/snap_plugin.py:430-441 | the new configuration is taken and the enabled flag kept; when disabled nothing else changes, when enabled the points are regenerated under the new configuration |
| SnapPlugin.SnapHandler | plugins/builtin/snap_plugin.py:30-40 | the handler runs at priority 200 on the four hooks measurement start, measurement update, render after draw and document loaded |
| SnapPlugin.InitializeCleanup | plugins/builtin/snap_plugin.py:164-228 | registering the handler under "snap" and unregistering it in cleanup leaves every hook's list as it was |
| SnapPlugin.RegisteredTwice | plugins/builtin/snap_plugin.py:169 | initialised through the manager, the handler is listed under both "snap" and the plugin's name, and cleanup removes only the "snap" entry |
| SnapPlugin.MeasurementStartAsWritten | plugins/builtin/snap_plugin.py:60-76 | as written, the start changes exactly when snapping is on, the start tests true (is not the origin) and its snap point exists and tests true (is not the origin), and then it becomes that snap point; in every other case, a start at the origin included, it stays |
| SnapPlugin.MeasurementStartDropsOrigin | plugins/builtin/snap_plugin.py:66-69 | with the only snap point at the origin, a start at (1, 1) is left in place as written but snaps to the origin when the test is for presence |
| SnapPlugin.MeasurementStartOriginStays | plugins/builtin/snap_plugin.py:65 | with the only snap point at (1, 1), a start at the origin is left in place as written but snaps to (1, 1) when the test is for presence |
| SnapPlugin.MeasurementStart | plugins/builtin/snap_plugin.py:60-76 | corrected: whenever a snap point is found for the start it replaces the start; with no start there is none |
| SnapPlugin.MeasurementUpdateAsWritten | plugins/builtin/snap_plugin.py:78-92 | as written, the context is marked snapped exactly when snapping is on, the current point tests true (is not the origin) and its snap point exists and tests true; then the current point becomes that snap point, otherwise it is unchanged |
| SnapPlugin.MeasurementUpdateDropsOrigin | plugins/builtin/snap_plugin.py:82-87 | with the only snap point at the origin, a current point at (1, 1) is left unsnapped as written but snaps to the origin when the test is for presence |
| SnapPlugin.MeasurementUpdateAgreesOffOrigin | plugins/builtin/snap_plugin.py:78-92 | when snapping is on and neither the current point nor its snap point is the origin, the as-written and corrected hooks give the same result |
| SnapPlugin.MeasurementUpdate | plugins/builtin/snap_plugin.py:78-92 | corrected: the current point is replaced exactly when a snap point is found for it, and then by that point |
| SnapPlugin.RenderedPoints | plugins/builtin/snap_plugin.py:94-103 | all snap points are drawn when showing is on and a painter is given, and none otherwise |
| SnapPlugin.DocumentLoaded | plugins/builtin/snap_plugin.py:105-108 | loading a document regenerates the points from the new view, snap points being grid points then content points |
| Paths.BaseName | opentiler/utils/metadata_page.py:611 | the base name holds no "/" and ends the path |
| Paths.DirName | opentiler/exporter/image_exporter.py:52 | the path is the directory, then only slashes, then the base name; the directory is empty exactly when the path has no slash, and ends in a slash only when it is all slashes, in which case nothing but the base name follows it |
| Paths.SplitExt | opentiler/dialogs/save_as_dialog.py:200 | root and extension concatenate back to the path, the extension is empty or a dot followed by text with no further dot and no "/", and it is non-empty exactly when some dot of the file name follows a character other than a dot |
| Paths.ExtensionDotFound | opentiler/dialogs/save_as_dialog.py:200 | when the last dot follows the last slash with a non-dot before it in the file name, the file name has an extension dot |
| Paths.NoExtensionDot | opentiler/dialogs/save_as_dialog.py:200 | when the last dot is not in the file name or only dots precede it there, no dot of the file name follows a non-dot |
| Paths.SplitExtDotFile | opentiler/dialogs/save_as_dialog.py:200 | a hidden file such as ".bashrc" has no extension |
| Paths.SplitExtNoDot | opentiler/dialogs/save_as_dialog.py:200 | a path without dots has no extension |
| Paths.SplitExtHiddenIn | opentiler/dialogs/save_as_dialog.py:200 | a hidden file inside a directory has no extension |
| Paths.SplitExtOfJoin | opentiler/exporter/image_exporter.py:53 | splitting a root joined with an extension gives them back, when the root's last component has a character other than a dot |
| Paths.JoinPath | opentiler/exporter/image_exporter.py:66 | the joined path starts with the directory and ends with the file name, with at most one slash between them, which is added when the directory does not end in one |
| Paths.DirNameOfJoin | opentiler/exporter/image_exporter.py:52-66 | the directory of a directory joined with a file name is that directory again, when it has no trailing slash |
| Paths.BaseNameOfJoin | opentiler/exporter/image_exporter.py:66 | the base name of a directory joined with a file name without "/" is that file name |
| Paths.Suffix | opentiler/dialogs/help_dialog.py:155 | the suffix is empty or a dot-led ending of the name, at least two characters long, shorter than the name and with no further dot; a name without dots, ending in a dot, or a hidden file name has none |
| Paths.SuffixOfJoin | opentiler/dialogs/help_dialog.py:155 | a non-empty stem followed by an extension of at least two characters has that extension as its suffix |
| Paths.Stem | plugins/plugin_manager.py:100 | stem followed by suffix gives the name back |
| ContentAccess.TileImage | plugins/content_access.py:255-271 | corrected: every granted level gets the rendered tile image, and nothing when the preview renders none |
| ContentAccess.ReadersAgreeOnlyForReadOnly | plugins/content_access.py:149 | the as-written image readers agree with the corrected ones exactly at read-only; for a writer with something to read they return nothing instead |

## Left out

- Painting and rendering are left out: QPainter and QPixmap drawing, PDF and image rasterising, and the print pipeline. Only the numbers and decisions computed before drawing are modelled.
- Document decoding (PDF, image, SVG, RAW, DXF, FreeCAD) is left out. Each of these is a foreign library call.
- Persistence is left out. The settings store is an in-memory map, and JSON encoding of stored lists is not modelled. Project zip and JSON files, the registry's JSON export and import, and the plug-in configuration file are left out too.
- Discovering plug-ins reads directory listings and file texts as inputs. `importlib` loading and the plug-in's `set_config` before `initialize` are not modelled. The plug-in's own `initialize`, `enable`, `disable` and `cleanup` outcomes are inputs.
- Threads (export and save workers, plug-in discovery) and the automation server's sockets are left out.
- Qt signals, log messages and message boxes are left out. Where a signal matters, it is a boolean or an emitted value in the result.
- Pure UI construction is left out: menus, toolbars, the settings, export, calibration and plug-in manager dialogs, the preview panel and plug-in settings widgets.
- The help dialog's reading of directories into a tree is left out. The tree is an input.
- Hook context time stamps are left out. `configure_hook`, `get_hook_config` and the copy returned by `get_execution_stats` are left out too.
- The snap plug-in's distance helper is left out, because it takes a square root. The search compares squared distances, which picks the same point.
- The snap plug-in's viewport and content bounds are inputs. The program never assigns its plan-view access.
- The rounding of scale-bar segment sizes to whole pixels is left out. The overlay model takes the sizes in whole pixels.
- `compute_tile_layout` and `summarize_page_grid` are called by the exporters but defined in no source file here. They are not part of this model.
- Square roots are not modelled. Distances are squared, or a distance `d` is an input with `d * d` equal to the squared distance.
- Binary floating point is not modelled. Arithmetic is exact over `real`. `NumFormat` renders `:.Nf` with ties rounded away from zero. Python rounds the binary value, so a tie may round either way.
- UnitConverter.Swap: the output field's text is the value, not its six-decimal rendering, so swapping carries the exact value back.
- Viewer.FormatMeasurement: states which branch the text takes and the value shown, not the digits printed.
- Helpers.FormatScaleRatioBranch: states the branch and the ":1" ending, not the digits printed.
- MetadataPage.ScaleRatioText: states only when the text fails. The label it picks is stated by `MetadataPage.ChooseRatioLabel` and `MetadataPage.CommonLabelIff`, not the digits of the "1:<r>" text.
- HookSystem.Register: its own contract states only that the manager stays valid. Ordering and membership are stated by `HookSystem.InsertPermutation`, `HookSystem.RegisteredIsListed` and `HookSystem.RegisterKeeps`.
- AppLogger.LevelOf: the module attributes that are not levels are those of the standard logging module (`BASIC_FORMAT` and `_STYLES`); an attribute another Python version adds is not modelled.
- Text.Lower, Text.Upper, Text.Strip: ASCII only. Python's `str.lower`, `str.upper` and `str.strip` map and strip the whole of Unicode, so for text outside ASCII the members that use them state less than the program does: HelpDialog.SortByLower, HelpDialog.FilterTopics, Config.SafeBool, AppLogger.ConfiguredLevel, ImageExporter.FileExtension, SaveAsDialog.AddExtension and PluginRegistry.Matching.
- Text.ParseInt: only ASCII digits are read. Python's `int()` also accepts every other Unicode decimal digit, such as Arabic-Indic digits; the model reads such text as the `ValueError`. Underscores between digits are modelled.
- Config.PyInt, Config.AddRecentSetting: a stored limit written in non-ASCII decimal digits reads as a failure, where `int()` would read it (see Text.ParseInt).
- Config.ParseInts, Config.GetDpiOptions: a DPI piece written in non-ASCII decimal digits reads as a failure, where `int()` would read it (see Text.ParseInt).
- MeasureDialog.ClearedReadsZero: `clear_points` also empties the viewer's selected points and redraws it. That call into the viewer is not modelled.
- ImageExporter.Export: the only failure of `os.makedirs` modelled is the empty directory of a bare file name. Other file-system errors (permissions, a file in the way) are left out, as is the tile rendering, whose outcome is an input.
- PdfExporter.CompositePdf, PdfExporter.MultipageEvents, PdfExporter.MultipageEventsAsWritten: as for the image exporter, the only `os.makedirs` failure modelled is the bare file name. Other file-system errors and failures of the PDF writer itself are left out.
- PluginManager.Shutdown: a plug-in whose `cleanup` raises is logged and skipped; the model takes the cleanups that ran as the `cleanups` input. Saving the plug-in configuration afterwards is persistence and left out.
- SnapPlugin.DisableEnable: stated only with grid and content snapping both on. With a category off, disabling clears that category's old list, which generation then keeps empty.

## Findings

| source | as written | input that shows it | evidently intended | confidence | as-written member | corrected member |
|---|---|---|---|---|---|---|
| opentiler/exporter/pdf_exporter.py:175-177 | with the metadata page last, a new page is started before it even when no tile page was drawn | an empty page grid with the metadata page included last: the PDF is a blank page, then the metadata page | a new page only when something was drawn before, so the PDF is the metadata page alone | not executed | PdfExporter.MultipageEventsAsWritten, PdfExporter.BlankLeadingPage | PdfExporter.MultipageEvents |
| opentiler/dialogs/scaling_dialog.py:210-213 | the emitted scale is the entered distance over the pixel distance in whatever unit the combo shows | two points 100 px apart marked as 1 inch: 0.01 is emitted | mm per pixel, as every consumer reads it: 0.254 | not executed | ScalingDialog.ApplyScaleAsWritten, ScalingDialog.InchesNotConverted | ScalingDialog.ApplyScale |
| opentiler/settings/config.py:590-592 | `bool()` of the stored value, so any non-empty text reads as true | a stored False handed back by the settings store as the text "false": the getter answers True | the same reading as every other boolean setting: "false" is false | not executed | Config.IncludeMetadataPageAsWritten, Config.IncludeMetadataPageFalseText | Config.IncludeMetadataPage |
| plugins/content_access.py:149 | the content image (and, at line 267, the tile image) is returned only to a read-only access object | any plug-in granted read-write access that asks for the plan view's image (such as one with the snap plug-in's requirements) gets nothing | every level may read, since reading is what read-only grants | not executed | ContentAccess.ContentImageAsWritten, ContentAccess.ContentImageNotMonotone, PluginManager.SnapCannotReadAsWritten | ContentAccess.ContentImage, ContentAccess.ContentImageMonotone, ContentAccess.TileImage |
| plugins/builtin/snap_plugin.py:65-69 | the start point is looked at only when it tests true, and replaced only when the snap point tests true; a QPointF at (0, 0) tests false | the only snap point at the origin and a start at (1, 1): the start is not moved; the only snap point at (1, 1) and a start at the origin: the start is not moved either | the start snaps to any point found, wherever it is | not executed | SnapPlugin.MeasurementStartAsWritten, SnapPlugin.MeasurementStartDropsOrigin, SnapPlugin.MeasurementStartOriginStays | SnapPlugin.MeasurementStart |
| plugins/builtin/snap_plugin.py:82-87 | the current point is snapped only when it and the snap point test true, and a QPointF at (0, 0) tests false | the only snap point at the origin and a current point at (1, 1): the point is not moved and the context is not marked snapped | the current point snaps to any point found | not executed | SnapPlugin.MeasurementUpdateAsWritten, SnapPlugin.MeasurementUpdateDropsOrigin | SnapPlugin.MeasurementUpdate |
