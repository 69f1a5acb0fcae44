/** The gutter page-grid planner of the main window (and its two script twins).

    A page of `pw` x `ph` document pixels is laid over the document so that the
    printable part of each page (the page minus a gutter `g` on every side) tiles
    the document without gaps; neighbouring pages therefore overlap by `2g`.
    The first page starts at (-g, -g) so that its printable area starts at (0, 0). */
module PageGrid {
  import opened Arith

  /** One planned page: its rectangle in document pixels, its grid position and
      the gutter it was planned with. */
  datatype Page = Page(x: real, y: real, width: real, height: real, row: nat, col: nat, gutter: real)

  /** An axis-aligned rectangle; `Contains` treats it as half-open. */
  datatype Rect = Rect(x: real, y: real, w: real, h: real) {
    predicate Contains(px: real, py: real) {
      x <= px < x + w && y <= py < y + h
    }
    predicate Meets(o: Rect) {
      x < o.x + o.w && o.x < x + w && y < o.y + o.h && o.y < y + h
    }
  }

  /** The printable (drawable) part of a page: the page shrunk by its gutter. */
  function Drawable(p: Page): Rect {
    Rect(p.x + p.gutter, p.y + p.gutter, p.width - 2.0 * p.gutter, p.height - 2.0 * p.gutter)
  }

  /** The least `n >= 1` with `n * step >= limit`: the number of steps of
      length `step` a loop takes before it reaches `limit`. */
  function StepCount(limit: real, step: real): (n: nat)
    requires step > 0.0
    ensures n >= 1
    decreases if limit <= step then 0 else Ceil(limit / step)
  {
    if limit <= step then 1
    else
      DivShift(limit, step);
      1 + StepCount(limit - step, step)
  }

  /** `StepCount` reaches the limit, and one step fewer does not. */
  lemma {:induction false} StepCountFacts(limit: real, step: real)
    requires step > 0.0
    ensures StepCount(limit, step) as real * step >= limit
    ensures StepCount(limit, step) == 1 || (StepCount(limit, step) - 1) as real * step < limit
    decreases if limit <= step then 0 else Ceil(limit / step)
  {
    if limit > step {
      DivShift(limit, step);
      StepCountFacts(limit - step, step);
      var m := StepCount(limit - step, step);
      assert (m + 1) as real * step == m as real * step + step;
    }
  }

  /** Below the step count the limit is not yet reached. */
  lemma BelowStepCount(limit: real, step: real, k: nat)
    requires step > 0.0
    requires 1 <= k < StepCount(limit, step)
    ensures k as real * step < limit
  {
    StepCountFacts(limit, step);
    assert StepCount(limit, step) != 1;
    MulLeft(k as real, (StepCount(limit, step) - 1) as real, step);
  }

  /** How many columns (rows) the planner's inner (outer) loop emits along an
      extent, for gutter `g` and step `step` = page size - 2g. The loop starts at
      -g; after placing a page at -g + k*step it stops when (k+1)*step >= extent
      or when the next origin -g + (k+1)*step is no longer below the extent. */
  function Lanes(extent: real, g: real, step: real): nat
    requires step > 0.0
  {
    if extent <= -g then 0 else StepCount(extent + MinR(0.0, g), step)
  }

  /** While the loop guard holds and the stop test has not fired, the loop is
      still inside the lanes. */
  lemma InsideLanes(extent: real, g: real, step: real, k: nat)
    requires step > 0.0
    requires -g + k as real * step < extent
    requires k == 0 || k as real * step < extent
    ensures k < Lanes(extent, g, step)
  {
    if k > 0 {
      var limit := extent + MinR(0.0, g);
      assert k as real * step < limit;
      ReachesLimit(limit, step, k);
    }
  }

  /** From the step count on, the limit is reached. */
  lemma {:induction false} ReachesLimit(limit: real, step: real, k: nat)
    requires step > 0.0
    ensures k >= StepCount(limit, step) ==> k as real * step >= limit
    decreases if limit <= step then 0 else Ceil(limit / step)
  {
    if k >= StepCount(limit, step) {
      if limit <= step {
        MulLeft(1.0, k as real, step);
      } else {
        DivShift(limit, step);
        ReachesLimit(limit - step, step, k - 1);
        NextLane(k - 1, step);
      }
    }
  }

  /** Multiplying by a positive step keeps the order of lane numbers. */
  lemma NatMulMono(a: nat, b: nat, step: real)
    requires step > 0.0
    ensures a <= b ==> a as real * step <= b as real * step
  {
    if a <= b {
      MulLeft(a as real, b as real, step);
    }
  }

  /** When the stop test fires after lane `k`, `k` was the last lane. */
  lemma StopAfterLane(extent: real, g: real, step: real, k: nat)
    requires step > 0.0
    requires k < Lanes(extent, g, step)
    requires (k + 1) as real * step >= extent
    ensures k + 1 == Lanes(extent, g, step)
  {
    if k + 1 < Lanes(extent, g, step) {
      BelowStepCount(extent + MinR(0.0, g), step, k + 1);
    }
  }

  /** When the loop guard fails before lane `k`, all lanes have been emitted. */
  lemma GuardFailsAtLane(extent: real, g: real, step: real, k: nat)
    requires step > 0.0
    requires k <= Lanes(extent, g, step)
    requires k == 0 || k as real * step < extent
    requires -g + k as real * step >= extent
    ensures k == Lanes(extent, g, step)
  {
    if k < Lanes(extent, g, step) && k >= 1 {
      BelowStepCount(extent + MinR(0.0, g), step, k);
    }
  }

  /** Page (r, c) of the grid. */
  function PageAt(r: nat, c: nat, pw: real, ph: real, g: real): Page {
    Page(-g + c as real * (pw - 2.0 * g), -g + r as real * (ph - 2.0 * g), pw, ph, r, c, g)
  }

  /** Row `r` of the grid: its first `n` pages. */
  function RowPrefix(r: nat, n: nat, pw: real, ph: real, g: real): (pages: seq<Page>)
    ensures |pages| == n
  {
    if n == 0 then [] else RowPrefix(r, n - 1, pw, ph, g) + [PageAt(r, n - 1, pw, ph, g)]
  }

  /** The first `k` full rows of a grid with `cols` columns, row after row. */
  function GridRows(k: nat, cols: nat, pw: real, ph: real, g: real): (pages: seq<Page>)
  {
    if k == 0 then [] else GridRows(k - 1, cols, pw, ph, g) + RowPrefix(k - 1, cols, pw, ph, g)
  }

  lemma {:induction false} RowPrefixAt(r: nat, n: nat, pw: real, ph: real, g: real, c: nat)
    requires c < n
    ensures RowPrefix(r, n, pw, ph, g)[c] == PageAt(r, c, pw, ph, g)
  {
    if c < n - 1 {
      RowPrefixAt(r, n - 1, pw, ph, g, c);
    }
  }

  /** `k` rows hold `k * cols` pages and cell (r, c) sits at index r * cols + c. */
  lemma {:induction false} GridRowsAt(k: nat, cols: nat, pw: real, ph: real, g: real, r: nat, c: nat)
    requires r < k && c < cols
    ensures |GridRows(k, cols, pw, ph, g)| == k * cols
    ensures r * cols + c < k * cols
    ensures GridRows(k, cols, pw, ph, g)[r * cols + c] == PageAt(r, c, pw, ph, g)
  {
    GridRowsLength(k - 1, cols, pw, ph, g);
    assert k * cols == (k - 1) * cols + cols;
    if r < k - 1 {
      GridRowsAt(k - 1, cols, pw, ph, g, r, c);
    } else {
      RowPrefixAt(r, cols, pw, ph, g, c);
    }
  }

  lemma {:induction false} GridRowsLength(k: nat, cols: nat, pw: real, ph: real, g: real)
    ensures |GridRows(k, cols, pw, ph, g)| == k * cols
  {
    if k > 0 {
      GridRowsLength(k - 1, cols, pw, ph, g);
      assert k * cols == (k - 1) * cols + cols;
    }
  }

  /** The closed-form reference grid: `Lanes` rows of `Lanes` columns, row-major. */
  function GridSpec(W: real, H: real, pw: real, ph: real, g: real): seq<Page>
    requires pw - 2.0 * g > 0.0 && ph - 2.0 * g > 0.0
  {
    var cols := Lanes(W, g, pw - 2.0 * g);
    var rows := Lanes(H, g, ph - 2.0 * g);
    GridRows(rows, cols, pw, ph, g)
  }

  /** The planner's result as a function: no pages when the printable width or
      height is not positive, else the reference grid. */
  function PageGridWithGutters(W: real, H: real, pw: real, ph: real, g: real): seq<Page> {
    if pw - 2.0 * g <= 0.0 || ph - 2.0 * g <= 0.0 then [] else GridSpec(W, H, pw, ph, g)
  }

  /** The inner loop of the planner: one row of pages at height `y`. */
  method PlanRow(W: real, y: real, pw: real, ph: real, g: real, row: nat) returns (rowPages: seq<Page>)
    requires pw - 2.0 * g > 0.0
    requires y == -g + row as real * (ph - 2.0 * g)
    ensures rowPages == RowPrefix(row, Lanes(W, g, pw - 2.0 * g), pw, ph, g)
  {
    var sx := pw - 2.0 * g;
    ghost var cols := Lanes(W, g, sx);
    rowPages := [];
    var x := -g;
    var col: nat := 0;
    while x < W
      invariant x == -g + col as real * sx
      invariant col <= cols
      invariant col == 0 || col as real * sx < W
      invariant rowPages == RowPrefix(row, col, pw, ph, g)
      decreases cols - col
    {
      LaneStep(W, g, sx, col, x);
      RowPrefixStep(row, col, pw, ph, g, x, y);
      rowPages := rowPages + [Page(x, y, pw, ph, row, col, g)];
      x := x + sx;
      if x + g >= W {
        return;
      }
      col := col + 1;
    }
    GuardFailsAtLane(W, g, sx, col);
  }

  /** One pass of a planner loop at lane `k`, starting at `x`: the lane is
      one of the lanes, the next start is one step on, and the stop test fires
      exactly when `k` was the last lane. */
  lemma LaneStep(extent: real, g: real, step: real, k: nat, x: real)
    requires step > 0.0
    requires x == -g + k as real * step && x < extent
    requires k == 0 || k as real * step < extent
    ensures k < Lanes(extent, g, step)
    ensures x + step == -g + (k + 1) as real * step
    ensures x + step + g >= extent ==> k + 1 == Lanes(extent, g, step)
    ensures x + step + g < extent ==> (k + 1) as real * step < extent
  {
    InsideLanes(extent, g, step, k);
    NextLane(k, step);
    if x + step + g >= extent {
      StopAfterLane(extent, g, step, k);
    }
  }

  /** The page at `(x, y)` is the next page of row `row`. */
  lemma RowPrefixStep(row: nat, col: nat, pw: real, ph: real, g: real, x: real, y: real)
    requires x == -g + col as real * (pw - 2.0 * g) && y == -g + row as real * (ph - 2.0 * g)
    ensures RowPrefix(row, col, pw, ph, g) + [Page(x, y, pw, ph, row, col, g)] == RowPrefix(row, col + 1, pw, ph, g)
  {
    assert Page(x, y, pw, ph, row, col, g) == PageAt(row, col, pw, ph, g);
  }

  /** The start of the next lane is one step past the start of this one. */
  lemma NextLane(k: nat, step: real)
    ensures (k + 1) as real * step == k as real * step + step
  {
    assert (k + 1) as real == k as real + 1.0;
  }

  /** The nested loops of the planner, with the step sizes known to be positive. */
  method PlanPages(W: real, H: real, pw: real, ph: real, g: real) returns (pages: seq<Page>)
    requires pw - 2.0 * g > 0.0 && ph - 2.0 * g > 0.0
    ensures pages == GridSpec(W, H, pw, ph, g)
  {
    var sy := ph - 2.0 * g;
    ghost var cols := Lanes(W, g, pw - 2.0 * g);
    ghost var rows := Lanes(H, g, sy);
    pages := [];
    var y := -g;
    var row: nat := 0;
    while y < H
      invariant y == -g + row as real * sy
      invariant row <= rows
      invariant row == 0 || row as real * sy < H
      invariant pages == GridRows(row, cols, pw, ph, g)
      decreases rows - row
    {
      LaneStep(H, g, sy, row, y);
      var rowPages := PlanRow(W, y, pw, ph, g, row);
      pages := pages + rowPages;
      assert pages == GridRows(row + 1, cols, pw, ph, g);
      y := y + sy;
      if y + g >= H {
        return;
      }
      row := row + 1;
    }
    GuardFailsAtLane(H, g, sy, row);
  }

  /** `_calculate_page_grid_with_gutters`: no pages unless the printable width and
      height are positive, otherwise the nested loops. */
  method CalculatePageGridWithGutters(W: real, H: real, pw: real, ph: real, g: real) returns (pages: seq<Page>)
    ensures pw - 2.0 * g <= 0.0 || ph - 2.0 * g <= 0.0 ==> pages == []
    ensures pw - 2.0 * g > 0.0 && ph - 2.0 * g > 0.0 ==> pages == GridSpec(W, H, pw, ph, g)
  {
    if pw - 2.0 * g <= 0.0 || ph - 2.0 * g <= 0.0 {
      return [];
    }
    pages := PlanPages(W, H, pw, ph, g);
  }

  /** The validation script's copy of the planner asserts a positive printable
      size instead of returning no pages; under that assertion it plans the same
      grid as the main window. */
  method CalcPageGridValidated(W: real, H: real, pw: real, ph: real, g: real) returns (pages: seq<Page>)
    requires pw - 2.0 * g > 0.0 && ph - 2.0 * g > 0.0
    ensures pages == PageGridWithGutters(W, H, pw, ph, g)
    ensures forall i :: 0 <= i < |pages| ==> pages[i].width == pw && pages[i].height == ph && pages[i].gutter == g
  {
    pages := PlanPages(W, H, pw, ph, g);
    GridShape(W, H, pw, ph, g);
  }

  /** A planned page together with its printable rectangle, as the tiling test
      script records it. */
  datatype PlannedPage = PlannedPage(page: Page, drawable: Rect)

  /** The tiling test script's copy of the planner: the same grid, each page
      annotated with (x + g, y + g, pw - 2g, ph - 2g). It has no guard, so the
      positive printable size is what makes its loops terminate. */
  method PlanWithDrawables(W: real, H: real, pw: real, ph: real, g: real) returns (planned: seq<PlannedPage>)
    requires pw - 2.0 * g > 0.0 && ph - 2.0 * g > 0.0
    ensures |planned| == |PageGridWithGutters(W, H, pw, ph, g)|
    ensures forall i :: 0 <= i < |planned| ==>
      var p := PageGridWithGutters(W, H, pw, ph, g)[i];
      planned[i].page == p && planned[i].drawable == Rect(p.x + g, p.y + g, pw - 2.0 * g, ph - 2.0 * g)
  {
    var pages := PlanPages(W, H, pw, ph, g);
    GridShape(W, H, pw, ph, g);
    planned := [];
    var k := 0;
    while k < |pages|
      invariant 0 <= k <= |pages|
      invariant |planned| == k
      invariant forall i :: 0 <= i < k ==>
        planned[i].page == pages[i] && planned[i].drawable == Drawable(pages[i])
    {
      planned := planned + [PlannedPage(pages[k], Drawable(pages[k]))];
      k := k + 1;
    }
  }

  /** Index `i` of `rows` full rows is the page of cell (i / cols, i % cols). */
  lemma GridRowsIndex(rows: nat, cols: nat, pw: real, ph: real, g: real, i: nat)
    requires i < rows * cols
    ensures |GridRows(rows, cols, pw, ph, g)| == rows * cols
    ensures cols > 0 && i / cols < rows && i % cols < cols && i == (i / cols) * cols + i % cols
    ensures GridRows(rows, cols, pw, ph, g)[i] == PageAt(i / cols, i % cols, pw, ph, g)
  {
    CellOfIndex(i, rows, cols);
    GridRowsAt(rows, cols, pw, ph, g, i / cols, i % cols);
  }

  /** Every page of the grid has the full page size and the gutter, sits at the
      origin of its (row, col) cell, and the pages are listed row by row with
      consecutive indices: page `i` is cell (i / cols, i % cols). */
  lemma GridShape(W: real, H: real, pw: real, ph: real, g: real)
    requires pw - 2.0 * g > 0.0 && ph - 2.0 * g > 0.0
    ensures var grid := GridSpec(W, H, pw, ph, g);
      var cols := Lanes(W, g, pw - 2.0 * g);
      var rows := Lanes(H, g, ph - 2.0 * g);
      |grid| == rows * cols &&
      forall i :: 0 <= i < |grid| ==>
        grid[i].width == pw && grid[i].height == ph && grid[i].gutter == g &&
        grid[i].row < rows && grid[i].col < cols &&
        i == grid[i].row * cols + grid[i].col &&
        grid[i].x == -g + grid[i].col as real * (pw - 2.0 * g) &&
        grid[i].y == -g + grid[i].row as real * (ph - 2.0 * g)
  {
    var cols := Lanes(W, g, pw - 2.0 * g);
    var rows := Lanes(H, g, ph - 2.0 * g);
    var grid := GridRows(rows, cols, pw, ph, g);
    assert grid == GridSpec(W, H, pw, ph, g);
    GridRowsLength(rows, cols, pw, ph, g);
    forall i | 0 <= i < |grid|
      ensures grid[i] == PageAt(grid[i].row, grid[i].col, pw, ph, g)
      ensures grid[i].row < rows && grid[i].col < cols && i == grid[i].row * cols + grid[i].col
    {
      GridRowsIndex(rows, cols, pw, ph, g, i);
    }
  }

  /** For a positive extent and a non-negative gutter the loop emits
      ceil(extent / step) lanes. */
  lemma LanesIsCeil(extent: real, g: real, step: real)
    requires step > 0.0 && extent > 0.0 && g >= 0.0
    ensures Lanes(extent, g, step) == Ceil(extent / step)
    ensures Lanes(extent, g, step) as real * step >= extent
  {
    var n := StepCount(extent, step);
    assert Lanes(extent, g, step) == n;
    StepCountFacts(extent, step);
    QuotientBracket(extent, step, n);
  }

  /** If (n - 1) * step < a <= n * step (or n = 1 and 0 < a <= step) then n is
      the ceiling of a / step. */
  lemma QuotientBracket(a: real, step: real, n: nat)
    requires step > 0.0 && a > 0.0 && n >= 1
    requires n as real * step >= a
    requires n == 1 || (n - 1) as real * step < a
    ensures Ceil(a / step) == n
  {
    var q := a / step;
    DivMul(a, step);
    assert q * step == a;
    if n as real < q {
      MulStrict(n as real, q, step);
    }
    assert q <= n as real;
    if n == 1 {
      if q <= 0.0 {
        MulLeft(q, 0.0, step);
      }
    } else if (n - 1) as real >= q {
      MulLeft(q, (n - 1) as real, step);
    }
    assert (n - 1) as real < q;
  }

  /** For W, H > 0 and g >= 0 the planner emits ceil(W / (pw - 2g)) columns by
      ceil(H / (ph - 2g)) rows. */
  lemma GridDimensions(W: real, H: real, pw: real, ph: real, g: real)
    requires pw - 2.0 * g > 0.0 && ph - 2.0 * g > 0.0
    requires W > 0.0 && H > 0.0 && g >= 0.0
    ensures |GridSpec(W, H, pw, ph, g)| == Ceil(H / (ph - 2.0 * g)) * Ceil(W / (pw - 2.0 * g))
  {
    LanesIsCeil(W, g, pw - 2.0 * g);
    LanesIsCeil(H, g, ph - 2.0 * g);
    GridRowsLength(Lanes(H, g, ph - 2.0 * g), Lanes(W, g, pw - 2.0 * g), pw, ph, g);
  }

  /** Cell (r, c) of the grid is at index r * cols + c. */
  lemma GridAt(W: real, H: real, pw: real, ph: real, g: real, r: nat, c: nat)
    requires pw - 2.0 * g > 0.0 && ph - 2.0 * g > 0.0
    requires r < Lanes(H, g, ph - 2.0 * g) && c < Lanes(W, g, pw - 2.0 * g)
    ensures r * Lanes(W, g, pw - 2.0 * g) + c < |GridSpec(W, H, pw, ph, g)|
    ensures GridSpec(W, H, pw, ph, g)[r * Lanes(W, g, pw - 2.0 * g) + c] == PageAt(r, c, pw, ph, g)
  {
    GridRowsAt(Lanes(H, g, ph - 2.0 * g), Lanes(W, g, pw - 2.0 * g), pw, ph, g, r, c);
  }

  /** The lane of a point along one axis: the half-open interval
      [k * step, (k + 1) * step) that holds it. */
  lemma LaneOfPoint(extent: real, g: real, step: real, p: real) returns (k: nat)
    requires step > 0.0 && g >= 0.0 && 0.0 <= p < extent
    ensures k < Lanes(extent, g, step)
    ensures k as real * step <= p < k as real * step + step
  {
    k := FloorLane(p, step);
    LanesIsCeil(extent, g, step);
    LaneBelow(k, Lanes(extent, g, step), step, p, extent);
  }

  lemma LaneBelow(k: nat, n: nat, step: real, p: real, extent: real)
    requires step > 0.0 && k as real * step <= p < extent <= n as real * step
    ensures k < n
  {
    NatMulMono(n, k, step);
  }

  lemma FloorLane(p: real, step: real) returns (k: nat)
    requires step > 0.0 && 0.0 <= p
    ensures k as real * step <= p < k as real * step + step
  {
    var q := p / step;
    DivMul(p, step);
    if q < 0.0 {
      MulStrict(q, 0.0, step);
    }
    k := q.Floor;
    MulLeft(k as real, q, step);
    MulStrict(q, k as real + 1.0, step);
    var a := k as real * step;
    assert (k as real + 1.0) * step == a + step;
    assert q * step < a + step;
    assert p == q * step;
  }

  /** The printable rectangle of cell (r, c) is the cell [c*sx, (c+1)*sx) x
      [r*sy, (r+1)*sy) of the step lattice. */
  lemma DrawableOfCell(r: nat, c: nat, pw: real, ph: real, g: real)
    ensures Drawable(PageAt(r, c, pw, ph, g))
         == Rect(c as real * (pw - 2.0 * g), r as real * (ph - 2.0 * g), pw - 2.0 * g, ph - 2.0 * g)
  {
  }

  /** No gaps: every point of the document [0, W) x [0, H) lies in the printable
      rectangle of some planned page. */
  lemma DrawableCover(W: real, H: real, pw: real, ph: real, g: real, px: real, py: real) returns (i: nat)
    requires pw - 2.0 * g > 0.0 && ph - 2.0 * g > 0.0 && g >= 0.0
    requires 0.0 <= px < W && 0.0 <= py < H
    ensures i < |GridSpec(W, H, pw, ph, g)|
    ensures Drawable(GridSpec(W, H, pw, ph, g)[i]).Contains(px, py)
  {
    var sx := pw - 2.0 * g;
    var sy := ph - 2.0 * g;
    var c := LaneOfPoint(W, g, sx, px);
    var r := LaneOfPoint(H, g, sy, py);
    i := CellIsDrawable(W, H, pw, ph, g, r, c);
  }

  /** The cell of row `r` and column `c` of the step lattice is the printable
      rectangle of page `r * cols + c`. */
  lemma CellIsDrawable(W: real, H: real, pw: real, ph: real, g: real, r: nat, c: nat) returns (i: nat)
    requires pw - 2.0 * g > 0.0 && ph - 2.0 * g > 0.0
    requires r < Lanes(H, g, ph - 2.0 * g) && c < Lanes(W, g, pw - 2.0 * g)
    ensures i < |GridSpec(W, H, pw, ph, g)|
    ensures Drawable(GridSpec(W, H, pw, ph, g)[i]) == Cell(r, c, pw - 2.0 * g, ph - 2.0 * g)
  {
    GridAt(W, H, pw, ph, g, r, c);
    DrawableOfCell(r, c, pw, ph, g);
    i := r * Lanes(W, g, pw - 2.0 * g) + c;
  }

  /** Start of lane `k` along an axis with step `step`. */
  function Offset(k: nat, step: real): real {
    k as real * step
  }

  /** Cell (r, c) of the step lattice: [c*sx, (c+1)*sx) x [r*sy, (r+1)*sy). */
  function Cell(r: nat, c: nat, sx: real, sy: real): Rect {
    Rect(Offset(c, sx), Offset(r, sy), sx, sy)
  }

  /** No overlaps: the printable rectangles of two different pages never meet. */
  lemma DrawablesDisjoint(W: real, H: real, pw: real, ph: real, g: real, i: nat, j: nat)
    requires pw - 2.0 * g > 0.0 && ph - 2.0 * g > 0.0
    requires i < |GridSpec(W, H, pw, ph, g)| && j < |GridSpec(W, H, pw, ph, g)| && i != j
    ensures !Drawable(GridSpec(W, H, pw, ph, g)[i]).Meets(Drawable(GridSpec(W, H, pw, ph, g)[j]))
  {
    var sx := pw - 2.0 * g;
    var sy := ph - 2.0 * g;
    var ri, ci := DrawableIsCell(W, H, pw, ph, g, i);
    var rj, cj := DrawableIsCell(W, H, pw, ph, g, j);
    CellsApart(ri, ci, rj, cj, sx, sy);
  }

  /** The printable rectangle of page `i` is a cell of the step lattice, the
      cell of row `r` and column `c` with `i == r * cols + c`. */
  lemma DrawableIsCell(W: real, H: real, pw: real, ph: real, g: real, i: nat) returns (r: nat, c: nat)
    requires pw - 2.0 * g > 0.0 && ph - 2.0 * g > 0.0
    requires i < |GridSpec(W, H, pw, ph, g)|
    ensures c < Lanes(W, g, pw - 2.0 * g) && i == r * Lanes(W, g, pw - 2.0 * g) + c
    ensures Drawable(GridSpec(W, H, pw, ph, g)[i]) == Cell(r, c, pw - 2.0 * g, ph - 2.0 * g)
  {
    var cols := Lanes(W, g, pw - 2.0 * g);
    var rows := Lanes(H, g, ph - 2.0 * g);
    GridRowsLength(rows, cols, pw, ph, g);
    GridRowsIndex(rows, cols, pw, ph, g, i);
    r, c := i / cols, i % cols;
    DrawableOfCell(r, c, pw, ph, g);
  }

  /** Two different cells of the lattice do not meet. */
  lemma CellsApart(ri: nat, ci: nat, rj: nat, cj: nat, sx: real, sy: real)
    requires sx > 0.0 && sy > 0.0 && (ri, ci) != (rj, cj)
    ensures !Cell(ri, ci, sx, sy).Meets(Cell(rj, cj, sx, sy))
  {
    if ci < cj {
      LanesApart(ci, cj, sx);
    } else if cj < ci {
      LanesApart(cj, ci, sx);
    } else if ri < rj {
      LanesApart(ri, rj, sy);
    } else {
      LanesApart(rj, ri, sy);
    }
  }

  /** Lanes of different index are disjoint half-open intervals. */
  lemma LanesApart(a: nat, b: nat, step: real)
    requires step > 0.0 && a < b
    ensures Offset(a, step) + step <= Offset(b, step)
  {
    MulLeft((a + 1) as real, b as real, step);
  }

  /** Neighbouring pages: the next page in a row starts pw - 2g further right, so
      the two page rectangles overlap by exactly 2g while their printable
      rectangles touch; the page one row down overlaps by 2g vertically. */
  lemma NeighbourOverlap(W: real, H: real, pw: real, ph: real, g: real, i: nat)
    requires pw - 2.0 * g > 0.0 && ph - 2.0 * g > 0.0
    requires i < |GridSpec(W, H, pw, ph, g)|
    ensures var grid := GridSpec(W, H, pw, ph, g);
      var cols := Lanes(W, g, pw - 2.0 * g);
      (grid[i].col + 1 < cols ==>
        i + 1 < |grid| && grid[i + 1].row == grid[i].row && grid[i + 1].col == grid[i].col + 1 &&
        grid[i].x + grid[i].width - grid[i + 1].x == 2.0 * g &&
        Drawable(grid[i]).x + Drawable(grid[i]).w == Drawable(grid[i + 1]).x) &&
      (i + cols < |grid| ==>
        grid[i + cols].col == grid[i].col && grid[i + cols].row == grid[i].row + 1 &&
        grid[i].y + grid[i].height - grid[i + cols].y == 2.0 * g &&
        Drawable(grid[i]).y + Drawable(grid[i]).h == Drawable(grid[i + cols]).y)
  {
    RowNeighbour(W, H, pw, ph, g, i);
    ColumnNeighbour(W, H, pw, ph, g, i);
  }

  /** The next page in a row: the horizontal half of `NeighbourOverlap`. */
  lemma RowNeighbour(W: real, H: real, pw: real, ph: real, g: real, i: nat)
    requires pw - 2.0 * g > 0.0 && ph - 2.0 * g > 0.0
    requires i < |GridSpec(W, H, pw, ph, g)|
    ensures var grid := GridSpec(W, H, pw, ph, g);
      grid[i].col + 1 < Lanes(W, g, pw - 2.0 * g) ==>
        i + 1 < |grid| && grid[i + 1].row == grid[i].row && grid[i + 1].col == grid[i].col + 1 &&
        grid[i].x + grid[i].width - grid[i + 1].x == 2.0 * g &&
        Drawable(grid[i]).x + Drawable(grid[i]).w == Drawable(grid[i + 1]).x
  {
    var cols := Lanes(W, g, pw - 2.0 * g);
    var rows := Lanes(H, g, ph - 2.0 * g);
    GridRowsLength(rows, cols, pw, ph, g);
    GridRowsIndex(rows, cols, pw, ph, g, i);
    var r, c := i / cols, i % cols;
    if c + 1 < cols {
      GridRowsAt(rows, cols, pw, ph, g, r, c + 1);
      assert r * cols + (c + 1) == i + 1;
      NextInRow(r, c, pw, ph, g);
    }
  }

  /** The page one row down: the vertical half of `NeighbourOverlap`. */
  lemma ColumnNeighbour(W: real, H: real, pw: real, ph: real, g: real, i: nat)
    requires pw - 2.0 * g > 0.0 && ph - 2.0 * g > 0.0
    requires i < |GridSpec(W, H, pw, ph, g)|
    ensures var grid := GridSpec(W, H, pw, ph, g);
      var cols := Lanes(W, g, pw - 2.0 * g);
      i + cols < |grid| ==>
        grid[i + cols].col == grid[i].col && grid[i + cols].row == grid[i].row + 1 &&
        grid[i].y + grid[i].height - grid[i + cols].y == 2.0 * g &&
        Drawable(grid[i]).y + Drawable(grid[i]).h == Drawable(grid[i + cols]).y
  {
    var cols := Lanes(W, g, pw - 2.0 * g);
    var rows := Lanes(H, g, ph - 2.0 * g);
    GridRowsLength(rows, cols, pw, ph, g);
    GridRowsIndex(rows, cols, pw, ph, g, i);
    var r, c := i / cols, i % cols;
    if i + cols < rows * cols {
      GridRowsIndex(rows, cols, pw, ph, g, i + cols);
      RowMajorNext(i, cols);
      var grid := GridRows(rows, cols, pw, ph, g);
      assert grid[i] == PageAt(r, c, pw, ph, g);
      assert grid[i + cols] == PageAt(r + 1, c, pw, ph, g);
      NextInColumn(r, c, pw, ph, g);
    }
  }

  /** The page right of cell (r, c): same row, next column, overlapping by
      two gutters, its drawable area starting where this one's ends. */
  lemma NextInRow(r: nat, c: nat, pw: real, ph: real, g: real)
    ensures var a, b := PageAt(r, c, pw, ph, g), PageAt(r, c + 1, pw, ph, g);
      b.row == a.row && b.col == a.col + 1 && a.x + a.width - b.x == 2.0 * g &&
      Drawable(a).x + Drawable(a).w == Drawable(b).x
  {
    var sx := pw - 2.0 * g;
    NextLane(c, sx);
    assert PageAt(r, c, pw, ph, g).x == -g + Offset(c, sx);
    assert PageAt(r, c + 1, pw, ph, g).x == -g + Offset(c, sx) + sx;
  }

  /** The page below cell (r, c): same column, next row, overlapping by two
      gutters, its drawable area starting where this one's ends. */
  lemma NextInColumn(r: nat, c: nat, pw: real, ph: real, g: real)
    ensures var a, b := PageAt(r, c, pw, ph, g), PageAt(r + 1, c, pw, ph, g);
      b.col == a.col && b.row == a.row + 1 && a.y + a.height - b.y == 2.0 * g &&
      Drawable(a).y + Drawable(a).h == Drawable(b).y
  {
    var sy := ph - 2.0 * g;
    NextLane(r, sy);
    assert PageAt(r, c, pw, ph, g).y == -g + Offset(r, sy);
    assert PageAt(r + 1, c, pw, ph, g).y == -g + Offset(r, sy) + sy;
  }

  /** The tiling test's scenario: a 1000 x 800 document, 400 x 300 pages and a
      20 px gutter give 3 columns and 4 rows, 12 pages. */
  lemma TilingFixScenario()
    ensures Lanes(1000.0, 20.0, 360.0) == 3 && Lanes(800.0, 20.0, 260.0) == 4
    ensures |GridSpec(1000.0, 800.0, 400.0, 300.0, 20.0)| == 12
  {
    LanesIsCeil(1000.0, 20.0, 360.0);
    LanesIsCeil(800.0, 20.0, 260.0);
    GridRowsLength(4, 3, 400.0, 300.0, 20.0);
  }
}
