/** Aggregates over a planned page list that several consumers compute in the
    same way: the average aspect ratio of the pages (print and PDF orientation)
    and the extent of the pages (composite canvases, plan-view bounds). */
module PageStats {
  import opened Arith
  import opened PageGrid

  predicate HasPositiveSize(p: Page) {
    p.width > 0.0 && p.height > 0.0
  }

  /** Sum of width / height over the pages of positive size, and their number. */
  function AspectTotal(grid: seq<Page>): (r: (real, nat))
    ensures r.1 <= |grid|
    ensures r.1 == 0 <==> forall i :: 0 <= i < |grid| ==> !HasPositiveSize(grid[i])
  {
    if grid == [] then (0.0, 0)
    else
      var rest := AspectTotal(grid[1..]);
      var p := grid[0];
      assert forall i :: 1 <= i < |grid| ==> grid[i] == grid[1..][i - 1];
      if HasPositiveSize(p) then (rest.0 + p.width / p.height, rest.1 + 1) else rest
  }

  /** `n` copies of `r` added up. */
  function Repeat(n: nat, r: real): real {
    n as real * r
  }

  /** For pages that all have the same positive size, the aspect total is the
      page count times the common ratio. */
  lemma {:induction false} UniformAspectTotal(grid: seq<Page>, w: real, h: real)
    requires w > 0.0 && h > 0.0
    requires forall i :: 0 <= i < |grid| ==> grid[i].width == w && grid[i].height == h
    ensures AspectTotal(grid) == (Repeat(|grid|, w / h), |grid|)
  {
    if grid == [] {
      assert Repeat(0, w / h) == 0.0;
    } else {
      assert HasPositiveSize(grid[0]);
      assert forall i :: 0 <= i < |grid[1..]| ==> grid[1..][i] == grid[i + 1];
      UniformAspectTotal(grid[1..], w, h);
      RepeatSucc(|grid| - 1, w / h);
    }
  }

  lemma RepeatSucc(n: nat, r: real)
    ensures Repeat(n + 1, r) == Repeat(n, r) + r
  {
  }

  /** The average of `n` equal values is that value. */
  lemma AverageOfUniform(n: nat, r: real)
    requires n > 0
    ensures Repeat(n, r) / n as real == r
  {
  }

  /** The right and bottom edges the composite exporters compute: the largest
      `x + width` and `y + height` over the pages, starting from 0. */
  function Extent(grid: seq<Page>): (e: (real, real))
    ensures e.0 >= 0.0 && e.1 >= 0.0
    ensures forall i :: 0 <= i < |grid| ==> grid[i].x + grid[i].width <= e.0 && grid[i].y + grid[i].height <= e.1
    ensures e.0 == 0.0 || exists i :: 0 <= i < |grid| && grid[i].x + grid[i].width == e.0
    ensures e.1 == 0.0 || exists i :: 0 <= i < |grid| && grid[i].y + grid[i].height == e.1
  {
    if grid == [] then (0.0, 0.0)
    else
      var n := |grid| - 1;
      var rest := Extent(grid[..n]);
      var p := grid[n];
      assert forall i :: 0 <= i < n ==> grid[..n][i] == grid[i];
      (MaxR(rest.0, p.x + p.width), MaxR(rest.1, p.y + p.height))
  }

  /** The extent is the least bound: any non-negative value above every page
      edge is at least the extent. */
  lemma ExtentIsLeast(grid: seq<Page>, limX: real, limY: real)
    requires limX >= 0.0 && limY >= 0.0
    requires forall i :: 0 <= i < |grid| ==> grid[i].x + grid[i].width <= limX && grid[i].y + grid[i].height <= limY
    ensures Extent(grid).0 <= limX && Extent(grid).1 <= limY
  {
    var e := Extent(grid);
    if e.0 != 0.0 {
      var i :| 0 <= i < |grid| && grid[i].x + grid[i].width == e.0;
    }
    if e.1 != 0.0 {
      var i :| 0 <= i < |grid| && grid[i].y + grid[i].height == e.1;
    }
  }
}
