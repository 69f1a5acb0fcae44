/** The image exporter: where the tile images go, what they are called, when
    the export gives up, and the size of the composite image. Rendering a
    page and writing the file are outside the model; the outcome of each
    page's render-and-save is an input. */
module ImageExporter {
  import opened Arith
  import opened Text
  import opened Paths
  import opened PageGrid
  import opened PageStats

  /** The directory the tiles go to and the stem of their names. `isDir` is
      what the file system says about `path`. */
  function OutputTarget(path: string, isDir: bool): (t: (string, string))
    ensures isDir ==> t == (path, "tile")
    ensures !isDir ==> (t.0 == DirName(path) && StartsWith(path, t.0) && NoChar(t.1, '/')
      && exists e :: (e == [] || IsExtension(e)) && BaseName(path) == t.1 + e)
    ensures t.0 == [] <==> (isDir && path == []) || (!isDir && NoChar(path, '/'))
  {
    if isDir then (path, "tile")
    else
      var b := BaseName(path);
      var parts := SplitExt(b);
      assert forall i :: 0 <= i < |parts.0| ==> parts.0[i] == b[i];
      (DirName(path), parts.0)
  }

  /** A file `<stem><ext>` in directory `d` gives the tiles the stem `stem`,
      for a stem without slashes and with a character other than a dot. */
  lemma OutputStemOfFile(d: string, stem: string, e: string)
    requires NoChar(stem, '/') && HasNonDot(stem) && IsExtension(e)
    ensures OutputTarget(JoinPath(d, stem + e), false).1 == stem
  {
    var name := stem + e;
    assert NoChar(name, '/');
    BaseNameOfJoin(d, name);
    RFindNoSlash(stem);
    assert BaseName(stem) == stem;
    SplitExtOfJoin(stem, e);
  }

  /** The file extension for an image format: "jpeg" in any case becomes
      ".jpg", every other format its lower-cased name after a dot. */
  function FileExtension(format: string): (ext: string)
    ensures Lower(format) == "jpeg" ==> ext == ".jpg"
    ensures Lower(format) != "jpeg" ==> ext == "." + Lower(format)
  {
    var f := Lower(format);
    if f == "jpeg" then ".jpg" else "." + f
  }

  /** The name of the `i`-th tile (counting from 0): `<stem>_page_NNN<ext>`,
      numbered from 1 with at least three digits. */
  function TileFileName(stem: string, ext: string, i: nat): (name: string)
    ensures StartsWith(name, stem + "_page_") && EndsWith(name, ext)
    ensures |name| >= |stem| + 9 + |ext|
    ensures var digits := name[|stem| + 6..|name| - |ext|];
      AllDigits(digits) && DigitsValue(digits) == i + 1 && |digits| >= 3
  {
    var digits := ZeroPad(i + 1, 3);
    var name := stem + "_page_" + digits + ext;
    assert name[..|stem| + 6] == stem + "_page_";
    assert name[|stem| + 6..|name| - |ext|] == digits;
    name
  }

  /** Different tiles get different names. */
  lemma TileFileNamesDistinct(stem: string, ext: string, i: nat, j: nat)
    requires i != j
    ensures TileFileName(stem, ext, i) != TileFileName(stem, ext, j)
  {
    var a, b := TileFileName(stem, ext, i), TileFileName(stem, ext, j);
    var da, db := a[|stem| + 6..|a| - |ext|], b[|stem| + 6..|b| - |ext|];
    assert DigitsValue(da) == i + 1 && DigitsValue(db) == j + 1;
    assert a == b ==> da == db;
  }

  /** The outcome of rendering and saving one tile. */
  datatype TileOutcome =
    | NullImage   // the page image came out empty: skipped
    | Saved       // written
    | SaveFailed  // the write failed: the export stops with False

  /** Where the export stops: the first failed save, or the end. */
  function Stop(outcomes: seq<TileOutcome>): (k: nat)
    ensures k <= |outcomes|
    ensures forall i :: 0 <= i < k ==> outcomes[i] != SaveFailed
    ensures k < |outcomes| ==> outcomes[k] == SaveFailed
  {
    if outcomes == [] then 0
    else if outcomes[0] == SaveFailed then 0
    else
      var k := Stop(outcomes[1..]);
      assert forall i :: 1 <= i < k + 1 ==> outcomes[i] == outcomes[1..][i - 1];
      k + 1
  }

  /** The tile loop of `export`: every non-empty tile up to and including the
      first failed one is written (or attempted); the result is True exactly
      when no save failed. `saves` are the indices of the attempted writes. */
  method AttemptTiles(outcomes: seq<TileOutcome>) returns (ok: bool, saves: seq<nat>)
    ensures ok <==> forall i :: 0 <= i < |outcomes| ==> outcomes[i] != SaveFailed
    ensures forall i: nat :: i in saves <==> i <= Stop(outcomes) && i < |outcomes| && outcomes[i] != NullImage
    ensures forall a, b :: 0 <= a < b < |saves| ==> saves[a] < saves[b]
    ensures forall a :: 0 <= a < |saves| ==> saves[a] < |outcomes|
    ensures ok ==> forall a :: 0 <= a < |saves| ==> outcomes[saves[a]] == Saved
    ensures !ok ==> (|saves| > 0 && outcomes[saves[|saves| - 1]] == SaveFailed
      && forall a :: 0 <= a < |saves| - 1 ==> outcomes[saves[a]] == Saved)
  {
    saves := [];
    var i := 0;
    while i < |outcomes|
      invariant 0 <= i <= |outcomes| && i <= Stop(outcomes)
      invariant forall j: nat :: j in saves <==> j < i && outcomes[j] != NullImage
      invariant forall a, b :: 0 <= a < b < |saves| ==> saves[a] < saves[b]
      invariant forall a :: 0 <= a < |saves| ==> saves[a] < i && outcomes[saves[a]] == Saved
    {
      if outcomes[i] == SaveFailed {
        assert i == Stop(outcomes);
        saves := saves + [i];
        ok := false;
        return;
      } else if outcomes[i] == Saved {
        saves := saves + [i];
      }
      i := i + 1;
    }
    ok := true;
  }

  /** `export`'s tiles: the attempted writes and, as `files`, the names of
      the files written, one per successful write. */
  method ExportTiles(outcomes: seq<TileOutcome>, stem: string, format: string)
    returns (ok: bool, saves: seq<nat>, files: seq<string>)
    ensures ok <==> forall i :: 0 <= i < |outcomes| ==> outcomes[i] != SaveFailed
    ensures forall i: nat :: i in saves <==> i <= Stop(outcomes) && i < |outcomes| && outcomes[i] != NullImage
    ensures forall a, b :: 0 <= a < b < |saves| ==> saves[a] < saves[b]
    ensures |files| == if ok then |saves| else |saves| - 1
    ensures WrittenAs(files, saves, outcomes, stem, FileExtension(format))
  {
    ok, saves := AttemptTiles(outcomes);
    var written := if ok then saves else saves[..|saves| - 1];
    files := Names(stem, FileExtension(format), written);
  }

  /** `export` as a whole: the output directory must be created first, and
      `os.makedirs("")` raises, so a bare file name (whose directory is
      empty) fails with False before any tile is rendered. Otherwise the
      tiles are attempted as in `ExportTiles` and `files` holds the paths
      written, each the tile's name joined to the output directory. */
  method Export(path: string, isDir: bool, outcomes: seq<TileOutcome>, format: string)
    returns (ok: bool, saves: seq<nat>, files: seq<string>)
    ensures !isDir && NoChar(path, '/') ==> !ok && saves == [] && files == []
    ensures var t := OutputTarget(path, isDir);
      t.0 != [] ==>
        (ok <==> forall i :: 0 <= i < |outcomes| ==> outcomes[i] != SaveFailed)
        && (forall i: nat :: i in saves <==> i <= Stop(outcomes) && i < |outcomes| && outcomes[i] != NullImage)
        && |files| == (if ok then |saves| else |saves| - 1)
        && WrittenTo(files, saves, outcomes, t.0, t.1, FileExtension(format))
  {
    var t := OutputTarget(path, isDir);
    if t.0 == [] {
      return false, [], [];
    }
    var names;
    ok, saves, names := ExportTiles(outcomes, t.1, format);
    files := InDir(t.0, names);
    WrittenInDir(names, saves, outcomes, t.0, t.1, FileExtension(format));
  }

  /** Joining the names of the written tiles to a directory gives their paths
      there. */
  lemma WrittenInDir(names: seq<string>, saves: seq<nat>, outcomes: seq<TileOutcome>, dir: string, stem: string, ext: string)
    requires WrittenAs(names, saves, outcomes, stem, ext)
    ensures WrittenTo(InDir(dir, names), saves, outcomes, dir, stem, ext)
  {
  }

  /** Each name joined to directory `dir`, in order. */
  function InDir(dir: string, names: seq<string>): (paths: seq<string>)
    ensures |paths| == |names|
    ensures forall k :: 0 <= k < |names| ==> paths[k] == JoinPath(dir, names[k])
  {
    seq(|names|, k requires 0 <= k < |names| => JoinPath(dir, names[k]))
  }

  /** `files[k]` is the path, in directory `dir`, of the `k`-th attempted
      write `saves[k]`, which succeeded. */
  predicate WrittenTo(files: seq<string>, saves: seq<nat>, outcomes: seq<TileOutcome>, dir: string, stem: string, ext: string) {
    |files| <= |saves|
    && forall k :: 0 <= k < |files| ==>
         saves[k] < |outcomes| && outcomes[saves[k]] == Saved
         && files[k] == JoinPath(dir, TileFileName(stem, ext, saves[k]))
  }

  /** The names of the tiles `saves`, in order. */
  function Names(stem: string, ext: string, saves: seq<nat>): (names: seq<string>)
    ensures |names| == |saves|
    ensures forall k :: 0 <= k < |saves| ==> names[k] == TileFileName(stem, ext, saves[k])
  {
    seq(|saves|, k requires 0 <= k < |saves| => TileFileName(stem, ext, saves[k]))
  }

  /** `files[k]` is the name of the `k`-th attempted write `saves[k]`, which
      succeeded. */
  predicate WrittenAs(files: seq<string>, saves: seq<nat>, outcomes: seq<TileOutcome>, stem: string, ext: string) {
    |files| <= |saves|
    && forall k :: 0 <= k < |files| ==>
         saves[k] < |outcomes| && outcomes[saves[k]] == Saved && files[k] == TileFileName(stem, ext, saves[k])
  }

  /** The names of the files written are pairwise distinct. */
  lemma ExportedFilesDistinct(outcomes: seq<TileOutcome>, stem: string, format: string,
                              saves: seq<nat>, files: seq<string>, a: nat, b: nat)
    requires forall x, y :: 0 <= x < y < |saves| ==> saves[x] < saves[y]
    requires |files| <= |saves|
    requires forall k :: 0 <= k < |files| ==> files[k] == TileFileName(stem, FileExtension(format), saves[k])
    requires a < b < |files|
    ensures files[a] != files[b]
  {
    TileFileNamesDistinct(stem, FileExtension(format), saves[a], saves[b]);
  }

  /** `export_composite`'s canvas: the pages' extent in whole pixels. */
  function CompositeSize(grid: seq<Page>): (wh: (int, int))
    ensures wh.0 >= 0 && wh.1 >= 0
    ensures forall i :: 0 <= i < |grid| ==>
      Trunc(grid[i].x + grid[i].width) <= wh.0 && Trunc(grid[i].y + grid[i].height) <= wh.1
    ensures grid == [] ==> wh == (0, 0)
    ensures wh.0 == 0 || exists i :: 0 <= i < |grid| && Trunc(grid[i].x + grid[i].width) == wh.0
    ensures wh.1 == 0 || exists i :: 0 <= i < |grid| && Trunc(grid[i].y + grid[i].height) == wh.1
  {
    var e := Extent(grid);
    forall i | 0 <= i < |grid|
      ensures Trunc(grid[i].x + grid[i].width) <= Trunc(e.0) && Trunc(grid[i].y + grid[i].height) <= Trunc(e.1)
    {
      TruncMonotone(grid[i].x + grid[i].width, e.0);
      TruncMonotone(grid[i].y + grid[i].height, e.1);
    }
    (Trunc(e.0), Trunc(e.1))
  }
}
