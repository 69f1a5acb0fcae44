/** The numbers behind the assembly-map (metadata) page: the layout scale and
    margin, the scale-ratio label, the document-info record, the file-size
    text, the plan-view bounds and the overlap figure. Drawing is not
    modelled. */
module MetadataPage {
  import opened Wrappers
  import opened Arith
  import opened Text
  import opened NumFormat
  import opened Paths
  import opened PageGrid

  /** Layout scale relative to an A4 page at 300 DPI (3508 px high), clamped
      to [0.5, 3.0]. */
  function LayoutScale(pageHeight: int): (s: real)
    ensures 0.5 <= s <= 3.0
  {
    MaxR(0.5, MinR(3.0, pageHeight as real / 3508.0))
  }

  /** The page margin: `int(100 * scale)`. */
  function Margin(pageHeight: int): (m: int)
    ensures 50 <= m <= 300
  {
    var s := LayoutScale(pageHeight);
    assert 50.0 <= 100.0 * s <= 300.0;
    Trunc(100.0 * s)
  }

  /** Between half and three times the A4 height the scale is the plain ratio;
      outside it is pinned to the nearer bound. */
  lemma LayoutScaleClamp(pageHeight: int)
    ensures 1754 <= pageHeight <= 10524 ==> LayoutScale(pageHeight) == pageHeight as real / 3508.0
    ensures pageHeight < 1754 ==> LayoutScale(pageHeight) == 0.5
    ensures pageHeight > 10524 ==> LayoutScale(pageHeight) == 3.0
  {
  }

  /** The architectural scales the label snaps to, with their labels. */
  const CommonScales: seq<(nat, string)> := [
    (1, "1:1 (Full Size)"), (2, "1:2"), (5, "1:5"), (10, "1:10"), (20, "1:20"),
    (25, "1:25"), (50, "1:50"), (100, "1:100"), (200, "1:200"), (500, "1:500"),
    (1000, "1:1000")]

  function Distance(scales: seq<(nat, string)>, k: nat, ratio: real): real
    requires k < |scales|
  {
    AbsR(scales[k].0 as real - ratio)
  }

  /** `min(scales, key=...)` from position `i` on, with `best` the first
      closest entry before `i`: Python's `min` keeps the first of equal keys. */
  function Closest(scales: seq<(nat, string)>, ratio: real, best: nat, i: nat): (k: nat)
    requires best < i <= |scales|
    requires forall j :: 0 <= j < i ==> Distance(scales, best, ratio) <= Distance(scales, j, ratio)
    requires forall j :: 0 <= j < best ==> Distance(scales, j, ratio) > Distance(scales, best, ratio)
    ensures k < |scales|
    ensures forall j :: 0 <= j < |scales| ==> Distance(scales, k, ratio) <= Distance(scales, j, ratio)
    ensures forall j :: 0 <= j < k ==> Distance(scales, j, ratio) > Distance(scales, k, ratio)
    decreases |scales| - i
  {
    if i == |scales| then best
    else if Distance(scales, i, ratio) < Distance(scales, best, ratio) then Closest(scales, ratio, i, i + 1)
    else Closest(scales, ratio, best, i + 1)
  }

  /** What the scale label shows: one of the common scales, or the plain
      ratio. */
  datatype RatioLabel = Common(index: nat) | Plain(ratio: real)

  /** `_calculate_scale_ratio`'s choice. With mm the closest common scale is
      used when it is within 0.1 of 1/scale; every other unit shows the plain
      ratio. A zero scale divides by zero. */
  function ChooseRatioLabel(scale: real, units: string): (r: Result<RatioLabel, string>)
    ensures r.Failure? <==> scale == 0.0
    ensures r.Success? && r.value.Plain? ==> r.value.ratio * scale == 1.0
    ensures r.Success? && r.value.Common? ==> units == "mm" && r.value.index < |CommonScales|
  {
    if scale == 0.0 then Failure("ZeroDivisionError")
    else
      var ratio := 1.0 / scale;
      if units == "mm" then
        var k := Closest(CommonScales, ratio, 0, 1);
        if Distance(CommonScales, k, ratio) < 0.1 then Success(Common(k)) else Success(Plain(ratio))
      else Success(Plain(ratio))
  }

  /** The label text: the common scale's own label, or "1:" and the ratio
      with one decimal. */
  function ScaleRatioText(scale: real, units: string): (r: Result<string, string>)
    ensures r.Failure? <==> scale == 0.0
  {
    match ChooseRatioLabel(scale, units)
    case Failure(e) => Failure(e)
    case Success(Common(k)) => Success(CommonScales[k].1)
    case Success(Plain(q)) => Success("1:" + Fixed(q, 1))
  }

  /** The common scales are strictly increasing, so at most one lies within
      0.1 of any ratio. */
  lemma CommonScalesIncreasing()
    ensures forall a, b :: 0 <= a < b < |CommonScales| ==> CommonScales[a].0 < CommonScales[b].0
  {
  }

  /** With mm units a common label is shown exactly when some common scale is
      within 0.1 of the ratio, and then it is that scale's label. */
  lemma CommonLabelIff(scale: real, j: nat)
    requires scale != 0.0 && j < |CommonScales|
    ensures var r := ChooseRatioLabel(scale, "mm").value;
      Distance(CommonScales, j, 1.0 / scale) < 0.1 <==> r == Common(j)
  {
    var ratio := 1.0 / scale;
    var k := Closest(CommonScales, ratio, 0, 1);
    if k != j {
      CommonScalesApart(k, j, ratio);
    }
  }

  /** Two different common scales are at least 1 apart, so their distances to
      any ratio add up to at least 1. */
  lemma CommonScalesApart(a: nat, b: nat, ratio: real)
    requires a < |CommonScales| && b < |CommonScales| && a != b
    ensures Distance(CommonScales, a, ratio) + Distance(CommonScales, b, ratio) >= 1.0
  {
    CommonScalesIncreasing();
  }

  /** Units other than mm always show the plain ratio. */
  lemma OtherUnitsPlain(scale: real, units: string)
    requires scale != 0.0 && units != "mm"
    ensures ChooseRatioLabel(scale, units) == Success(Plain(1.0 / scale))
  {
  }

  /** The label of a full-size drawing. */
  lemma ScaleRatioFullSize(scale: real)
    requires scale == 1.0
    ensures ScaleRatioText(scale, "mm") == Success("1:1 (Full Size)")
  {
    assert 1.0 / scale == 1.0;
    assert Distance(CommonScales, 0, 1.0) == 0.0;
    CommonLabelIff(scale, 0);
  }

  /** The label of a 1:50 drawing. */
  lemma ScaleRatioFifty(scale: real)
    requires scale == 0.02
    ensures ScaleRatioText(scale, "mm") == Success("1:50")
  {
    assert 1.0 / scale == 50.0;
    assert Distance(CommonScales, 6, 50.0) == 0.0;
    CommonLabelIff(scale, 6);
  }

  /** The value types the document-info record holds. */
  datatype InfoValue = InfoText(text: string) | InfoInt(value: int) | InfoReal(amount: real)

  type DocumentInfo = map<string, InfoValue>

  /** The keys `create_document_info` fills in itself. */
  const InfoKeys: set<string> := {"document_name", "original_file", "file_size", "doc_width", "doc_height",
    "real_width", "real_height", "scale_factor", "units", "tiles_x", "tiles_y", "total_tiles", "version"}

  /** The fields `create_document_info` computes itself. */
  function BaseInfo(documentName: string, originalFile: string, size: Option<nat>, scale: real,
                    units: string, docW: int, docH: int, tilesX: int, tilesY: int): (base: DocumentInfo)
    ensures "total_tiles" in base && base["total_tiles"] == InfoInt(tilesX * tilesY)
    ensures "real_width" in base && base["real_width"] == InfoReal(docW as real * scale)
    ensures "real_height" in base && base["real_height"] == InfoReal(docH as real * scale)
    ensures "original_file" in base && base["original_file"] == InfoText(OriginalFileName(originalFile))
  {
    map[
      "document_name" := InfoText(documentName),
      "original_file" := InfoText(OriginalFileName(originalFile)),
      "file_size" := InfoText(if originalFile == [] then "Unknown" else FileSizeString(size)),
      "doc_width" := InfoInt(docW),
      "doc_height" := InfoInt(docH),
      "real_width" := InfoReal(docW as real * scale),
      "real_height" := InfoReal(docH as real * scale),
      "scale_factor" := InfoReal(scale),
      "units" := InfoText(units),
      "tiles_x" := InfoInt(tilesX),
      "tiles_y" := InfoInt(tilesY),
      "total_tiles" := InfoInt(tilesX * tilesY),
      "version" := InfoText("1.0")]
  }

  /** The computed fields are exactly the thirteen keys. */
  lemma BaseInfoKeys(documentName: string, originalFile: string, size: Option<nat>, scale: real,
                     units: string, docW: int, docH: int, tilesX: int, tilesY: int)
    ensures BaseInfo(documentName, originalFile, size, scale, units, docW, docH, tilesX, tilesY).Keys == InfoKeys
  {
  }

  /** `create_document_info`. `size` is what `os.path.getsize` reports for the
      original file (`None` when it raises); `extra` are the keyword
      arguments, which override the computed fields. */
  function CreateDocumentInfo(documentName: string, originalFile: string, size: Option<nat>, scale: real,
                              units: string, docW: int, docH: int, tilesX: int, tilesY: int,
                              extra: DocumentInfo): (info: DocumentInfo)
    ensures info.Keys == InfoKeys + extra.Keys
    ensures forall k :: k in extra ==> info[k] == extra[k]
    ensures "total_tiles" !in extra ==> "total_tiles" in info && info["total_tiles"] == InfoInt(tilesX * tilesY)
    ensures "real_width" !in extra ==> "real_width" in info && info["real_width"] == InfoReal(docW as real * scale)
    ensures "real_height" !in extra ==> "real_height" in info && info["real_height"] == InfoReal(docH as real * scale)
    ensures "original_file" !in extra ==>
      "original_file" in info && info["original_file"] == InfoText(OriginalFileName(originalFile))
  {
    BaseInfoKeys(documentName, originalFile, size, scale, units, docW, docH, tilesX, tilesY);
    BaseInfo(documentName, originalFile, size, scale, units, docW, docH, tilesX, tilesY) + extra
  }

  /** The file name shown for the original file: its base name, or "Unknown"
      when there is no path. */
  function OriginalFileName(path: string): (name: string)
    ensures path == [] ==> name == "Unknown"
    ensures path != [] ==> NoChar(name, '/') && EndsWith(path, name)
  {
    if path == [] then "Unknown" else BaseName(path)
  }

  /** A file `name` in any directory is shown by its name. */
  lemma OriginalFileOfJoin(d: string, name: string)
    requires name != [] && NoChar(name, '/')
    ensures OriginalFileName(JoinPath(d, name)) == name
  {
    BaseNameOfJoin(d, name);
  }

  /** For the gutter grid, taking its column and row counts as the tile counts
      makes the total the number of pages planned. */
  lemma TotalTilesOfGrid(W: real, H: real, pw: real, ph: real, g: real, name: string, file: string,
                         size: Option<nat>, scale: real, units: string, docW: int, docH: int)
    requires pw - 2.0 * g > 0.0 && ph - 2.0 * g > 0.0
    ensures var cols, rows := Lanes(W, g, pw - 2.0 * g), Lanes(H, g, ph - 2.0 * g);
      CreateDocumentInfo(name, file, size, scale, units, docW, docH, cols, rows, map[])["total_tiles"]
      == InfoInt(|GridSpec(W, H, pw, ph, g)|)
  {
    GridRowsLength(Lanes(H, g, ph - 2.0 * g), Lanes(W, g, pw - 2.0 * g), pw, ph, g);
  }

  /** The unit `_get_file_size_string` chooses. */
  datatype FileSize = UnknownSize | Bytes(count: nat) | KiloBytes(kb: real) | MegaBytes(mb: real)

  /** Below 1024 bytes the size is shown in bytes, below 1024 * 1024 in KB,
      otherwise in MB; a failing `getsize` gives "Unknown". */
  function FileSizeOf(size: Option<nat>): (f: FileSize)
    ensures size.None? <==> f.UnknownSize?
    ensures f.Bytes? ==> size == Some(f.count) && f.count < 1024
    ensures f.KiloBytes? ==> size.Some? && 1024 <= size.value < 1048576 && f.kb * 1024.0 == size.value as real
    ensures f.MegaBytes? ==> size.Some? && 1048576 <= size.value && f.mb * 1048576.0 == size.value as real
  {
    match size
    case None => UnknownSize
    case Some(n) =>
      if n < 1024 then Bytes(n)
      else if n < 1048576 then KiloBytes(n as real / 1024.0)
      else MegaBytes(n as real / 1048576.0)
  }

  function UnitRank(f: FileSize): nat {
    match f
    case UnknownSize => 0
    case Bytes(_) => 1
    case KiloBytes(_) => 2
    case MegaBytes(_) => 3
  }

  /** A larger file never gets a smaller unit, and the shown number is below
      1024 except in MB. */
  lemma FileSizeUnitMonotone(a: nat, b: nat)
    requires a <= b
    ensures UnitRank(FileSizeOf(Some(a))) <= UnitRank(FileSizeOf(Some(b)))
    ensures FileSizeOf(Some(a)).KiloBytes? ==> FileSizeOf(Some(a)).kb < 1024.0
  {
  }

  /** The size as shown on the page: "Unknown" only when the size could not
      be read; otherwise the number followed by the unit its size class
      calls for, a byte count reading back as the exact size. */
  function FileSizeString(size: Option<nat>): (s: string)
    ensures s == "Unknown" <==> size.None?
    ensures size.Some? && size.value < 1024 ==>
      EndsWith(s, " bytes") && ParseInt(s[..|s| - 6]) == Some(size.value)
    ensures size.Some? && 1024 <= size.value < 1048576 ==> EndsWith(s, " KB")
    ensures size.Some? && 1048576 <= size.value ==> EndsWith(s, " MB")
  {
    match FileSizeOf(size)
    case UnknownSize => "Unknown"
    case Bytes(n) =>
      var s := NatToDigits(n) + " bytes";
      ParseIntToString(n);
      assert s[..|s| - 6] == IntToString(n);
      assert s[|s| - 1] == 's';
      s
    case KiloBytes(v) =>
      var s := Fixed(v, 1) + " KB";
      assert s[|s| - 1] == 'B';
      s
    case MegaBytes(v) =>
      var s := Fixed(v, 1) + " MB";
      assert s[|s| - 1] == 'B';
      s
  }

  /** The least and largest value of a non-empty list. */
  function MinOf(xs: seq<real>): (m: real)
    requires xs != []
    ensures forall i :: 0 <= i < |xs| ==> m <= xs[i]
    ensures exists i :: 0 <= i < |xs| && m == xs[i]
  {
    if |xs| == 1 then xs[0]
    else
      var rest := MinOf(xs[1..]);
      assert forall i :: 1 <= i < |xs| ==> xs[i] == xs[1..][i - 1];
      MinR(xs[0], rest)
  }

  function MaxOf(xs: seq<real>): (m: real)
    requires xs != []
    ensures forall i :: 0 <= i < |xs| ==> xs[i] <= m
    ensures exists i :: 0 <= i < |xs| && m == xs[i]
  {
    if |xs| == 1 then xs[0]
    else
      var rest := MaxOf(xs[1..]);
      assert forall i :: 1 <= i < |xs| ==> xs[i] == xs[1..][i - 1];
      MaxR(xs[0], rest)
  }

  /** The plan view's area: min x, min y, max right and max bottom over the
      pages; without pages, the whole document from the origin. */
  datatype Bounds = Bounds(minX: real, minY: real, maxX: real, maxY: real)

  function PlanBounds(grid: seq<Page>, docW: real, docH: real): (b: Bounds)
    ensures grid == [] ==> b == Bounds(0.0, 0.0, docW, docH)
    ensures forall i :: 0 <= i < |grid| ==>
      b.minX <= grid[i].x && grid[i].x + grid[i].width <= b.maxX &&
      b.minY <= grid[i].y && grid[i].y + grid[i].height <= b.maxY
  {
    if grid == [] then Bounds(0.0, 0.0, docW, docH)
    else
      var (xs, ys, rs, bs) := Edges(grid);
      Bounds(MinOf(xs), MinOf(ys), MaxOf(rs), MaxOf(bs))
  }

  /** The four edge lists of the pages: left, top, right and bottom. */
  function Edges(grid: seq<Page>): (e: (seq<real>, seq<real>, seq<real>, seq<real>))
    ensures |e.0| == |e.1| == |e.2| == |e.3| == |grid|
    ensures forall i :: 0 <= i < |grid| ==>
      e.0[i] == grid[i].x && e.1[i] == grid[i].y && e.2[i] == grid[i].x + grid[i].width && e.3[i] == grid[i].y + grid[i].height
  {
    (seq(|grid|, i requires 0 <= i < |grid| => grid[i].x),
     seq(|grid|, i requires 0 <= i < |grid| => grid[i].y),
     seq(|grid|, i requires 0 <= i < |grid| => grid[i].x + grid[i].width),
     seq(|grid|, i requires 0 <= i < |grid| => grid[i].y + grid[i].height))
  }

  /** Each bound is attained: some page touches each side of the box; the
      four pages returned do. */
  lemma PlanBoundsAttained(grid: seq<Page>, docW: real, docH: real) returns (left: nat, top: nat, right: nat, bottom: nat)
    requires grid != []
    ensures left < |grid| && top < |grid| && right < |grid| && bottom < |grid|
    ensures var b := PlanBounds(grid, docW, docH);
      grid[left].x == b.minX && grid[top].y == b.minY &&
      grid[right].x + grid[right].width == b.maxX && grid[bottom].y + grid[bottom].height == b.maxY
  {
    var (xs, ys, rs, bs) := Edges(grid);
    left :| 0 <= left < |xs| && MinOf(xs) == xs[left];
    top :| 0 <= top < |ys| && MinOf(ys) == ys[top];
    right :| 0 <= right < |rs| && MaxOf(rs) == rs[right];
    bottom :| 0 <= bottom < |bs| && MaxOf(bs) == bs[bottom];
  }

  /** The bounds are the tightest box around the pages. */
  lemma PlanBoundsTightest(grid: seq<Page>, docW: real, docH: real, box: Bounds)
    requires grid != []
    requires forall i :: 0 <= i < |grid| ==>
      box.minX <= grid[i].x && grid[i].x + grid[i].width <= box.maxX &&
      box.minY <= grid[i].y && grid[i].y + grid[i].height <= box.maxY
    ensures var b := PlanBounds(grid, docW, docH);
      box.minX <= b.minX && b.maxX <= box.maxX && box.minY <= b.minY && b.maxY <= box.maxY
  {
    var left, top, right, bottom := PlanBoundsAttained(grid, docW, docH);
    assert box.minX <= grid[left].x && box.minY <= grid[top].y;
    assert grid[right].x + grid[right].width <= box.maxX;
    assert grid[bottom].y + grid[bottom].height <= box.maxY;
  }

  /** The overlap the tiling section reports: twice the gutter. */
  function OverlapArea(gutter: real): real {
    gutter * 2.0
  }

  /** The reported overlap is the overlap of horizontally and vertically
      neighbouring pages of the gutter grid. The grid and `g` are in document
      pixels, while the page reports twice the gutter in mm; the two agree
      once `g` is the mm gutter divided by the scale (mm per pixel), as the
      main window computes it. */
  lemma ReportedOverlapIsNeighbourOverlap(W: real, H: real, pw: real, ph: real, g: real, i: nat)
    requires pw - 2.0 * g > 0.0 && ph - 2.0 * g > 0.0
    requires i < |GridSpec(W, H, pw, ph, g)|
    ensures var grid := GridSpec(W, H, pw, ph, g);
      var cols := Lanes(W, g, pw - 2.0 * g);
      (grid[i].col + 1 < cols ==> grid[i].x + grid[i].width - grid[i + 1].x == OverlapArea(grid[i].gutter)) &&
      (i + cols < |grid| ==> grid[i].y + grid[i].height - grid[i + cols].y == OverlapArea(grid[i].gutter))
  {
    NeighbourOverlap(W, H, pw, ph, g, i);
    GridShape(W, H, pw, ph, g);
  }
}
