/** The plain overlap tiler `calculate_tile_grid` of the helpers module (and its
    verbatim copy in the simple tiling script): integer tiles of a fixed size
    laid out with a step of tile size minus overlap, clipped at the image edge. */
module TileGrid {
  import opened Arith

  /** One tile rectangle `(x, y, width, height)` in image pixels. */
  datatype Tile = Tile(x: int, y: int, w: int, h: int) {
    /** Half-open containment of a pixel. */
    predicate Contains(px: int, py: int) {
      x <= px < x + w && y <= py < y + h
    }
    /** Two half-open rectangles share a pixel. */
    predicate Meets(o: Tile) {
      x < o.x + o.w && o.x < x + w && y < o.y + o.h && o.y < y + h
    }
  }

  /** The arguments of one tiling request. */
  datatype Job = Job(imageW: int, imageH: int, tileW: int, tileH: int, overlap: int) {
    function StepX(): int { tileW - overlap }
    function StepY(): int { tileH - overlap }
  }

  /** The loops of the source terminate: no rows at all, or a positive vertical
      step and, when there is a column to emit, a positive horizontal step. */
  predicate Terminates(j: Job) {
    j.imageH <= 0 || (j.StepY() > 0 && (j.imageW <= 0 || j.StepX() > 0))
  }

  /** Number of lanes `0, step, 2*step, ...` that start strictly before `extent`. */
  function Lanes(extent: int, step: int): nat
    requires extent <= 0 || step > 0
    decreases if extent <= 0 then 0 else extent
  {
    if extent <= 0 then 0 else 1 + Lanes(extent - step, step)
  }

  /** Lane `k` exists exactly when it starts before the extent. */
  lemma {:induction false} LaneIff(extent: int, step: int, k: nat)
    requires step > 0
    ensures k < Lanes(extent, step) <==> k * step < extent
    decreases if extent <= 0 then 0 else extent
  {
    if extent > 0 && k > 0 {
      LaneIff(extent - step, step, k - 1);
      assert (k - 1) * step == k * step - step;
    }
  }

  /** For a positive extent the lane count is the ceiling of extent / step. */
  lemma LanesCeil(extent: int, step: int)
    requires step > 0 && extent > 0
    ensures Lanes(extent, step) * step >= extent
    ensures (Lanes(extent, step) - 1) * step < extent
    ensures Lanes(extent, step) == (extent + step - 1) / step
  {
    var n := Lanes(extent, step);
    LaneIff(extent, step, n);
    LaneIff(extent, step, n - 1);
    CeilDiv(extent, step, n);
  }

  /** Tile (r, c): its origin on the step lattice, clipped to the image. */
  function TileAt(j: Job, r: nat, c: nat): Tile {
    Tile(c * j.StepX(), r * j.StepY(),
         MinI(j.tileW, j.imageW - c * j.StepX()), MinI(j.tileH, j.imageH - r * j.StepY()))
  }

  /** The first `n` tiles of row `r`. */
  function RowTiles(j: Job, r: nat, n: nat): (tiles: seq<Tile>)
    ensures |tiles| == n
  {
    if n == 0 then [] else RowTiles(j, r, n - 1) + [TileAt(j, r, n - 1)]
  }

  /** The first `k` full rows of `cols` tiles each, row after row. */
  function Rows(j: Job, k: nat, cols: nat): seq<Tile> {
    if k == 0 then [] else Rows(j, k - 1, cols) + RowTiles(j, k - 1, cols)
  }

  lemma {:induction false} RowTilesAt(j: Job, r: nat, n: nat, c: nat)
    requires c < n
    ensures RowTiles(j, r, n)[c] == TileAt(j, r, c)
  {
    if c < n - 1 {
      RowTilesAt(j, r, n - 1, c);
    }
  }

  lemma {:induction false} RowsLength(j: Job, k: nat, cols: nat)
    ensures |Rows(j, k, cols)| == k * cols
  {
    if k > 0 {
      RowsLength(j, k - 1, cols);
      assert k * cols == (k - 1) * cols + cols;
    }
  }

  /** Cell (r, c) of `k` full rows sits at index r * cols + c. */
  lemma {:induction false} RowsAt(j: Job, k: nat, cols: nat, r: nat, c: nat)
    requires r < k && c < cols
    ensures |Rows(j, k, cols)| == k * cols && r * cols + c < k * cols
    ensures Rows(j, k, cols)[r * cols + c] == TileAt(j, r, c)
  {
    RowsLength(j, k - 1, cols);
    assert k * cols == (k - 1) * cols + cols;
    if r < k - 1 {
      RowsAt(j, k - 1, cols, r, c);
    } else {
      RowTilesAt(j, r, cols, c);
    }
  }

  /** Index `i` of the full rows is the tile of cell (i / cols, i % cols). */
  lemma RowsIndex(j: Job, rows: nat, cols: nat, i: nat)
    requires i < rows * cols
    ensures |Rows(j, rows, cols)| == rows * cols
    ensures cols > 0 && i / cols < rows && i % cols < cols
    ensures Rows(j, rows, cols)[i] == TileAt(j, i / cols, i % cols)
  {
    CellOfIndex(i, rows, cols);
    RowsAt(j, rows, cols, i / cols, i % cols);
  }

  /** The reference layout: `Lanes` rows of `Lanes` columns, or no tiles for an
      empty image. */
  function TileGridSpec(j: Job): seq<Tile>
    requires Terminates(j)
  {
    if j.imageW <= 0 || j.imageH <= 0 then []
    else Rows(j, Lanes(j.imageH, j.StepY()), Lanes(j.imageW, j.StepX()))
  }

  /** The inner loop: one row of tiles at height `y`. */
  method TileRow(j: Job, y: int, row: nat) returns (rowTiles: seq<Tile>)
    requires j.imageW <= 0 || j.StepX() > 0
    requires y == row * j.StepY()
    ensures rowTiles == RowTiles(j, row, Lanes(j.imageW, j.StepX()))
  {
    var cols := Lanes(j.imageW, j.StepX());
    rowTiles := [];
    var x := 0;
    var col: nat := 0;
    if j.imageW > 0 {
      LaneIff(j.imageW, j.StepX(), 0);
    }
    while x < j.imageW
      invariant x == col * j.StepX() && rowTiles == RowTiles(j, row, col)
      invariant x < j.imageW ==> col < cols
      invariant col == 0 || x < j.imageW
      decreases j.imageW - x
    {
      var w := MinI(j.tileW, j.imageW - x);
      var h := MinI(j.tileH, j.imageH - y);
      assert Tile(x, y, w, h) == TileAt(j, row, col);
      rowTiles := rowTiles + [Tile(x, y, w, h)];
      x := x + j.StepX();
      if x >= j.imageW {
        LaneIff(j.imageW, j.StepX(), col + 1);
        return;
      }
      col := col + 1;
      LaneIff(j.imageW, j.StepX(), col);
    }
  }

  /** `calculate_tile_grid`: the nested loops as written. The loops terminate
      only under `Terminates`; the result is the reference layout. */
  method CalculateTileGrid(j: Job) returns (tiles: seq<Tile>)
    requires Terminates(j)
    ensures tiles == TileGridSpec(j)
    ensures j.imageW <= 0 || j.imageH <= 0 ==> tiles == []
  {
    ghost var rows := if j.imageH <= 0 then 0 else Lanes(j.imageH, j.StepY());
    ghost var cols := if j.imageW <= 0 || j.StepX() <= 0 then 0 else Lanes(j.imageW, j.StepX());
    tiles := [];
    var y := 0;
    var row: nat := 0;
    if j.imageH > 0 {
      LaneIff(j.imageH, j.StepY(), 0);
    }
    while y < j.imageH
      invariant y == row * j.StepY() && tiles == Rows(j, row, cols)
      invariant y < j.imageH ==> row < rows
      invariant row == 0 || y < j.imageH
      decreases j.imageH - y
    {
      var rowTiles := TileRow(j, y, row);
      assert rowTiles == RowTiles(j, row, cols);
      tiles := tiles + rowTiles;
      y := y + j.StepY();
      if y >= j.imageH {
        LaneIff(j.imageH, j.StepY(), row + 1);
        SpecIsRows(j, cols);
        return;
      }
      row := row + 1;
      LaneIff(j.imageH, j.StepY(), row);
    }
  }

  /** For a non-empty run of rows the reference layout is `Lanes` rows of `cols`
      tiles, `cols` being zero for an image without width. */
  lemma SpecIsRows(j: Job, cols: nat)
    requires Terminates(j) && j.imageH > 0
    requires cols == if j.imageW <= 0 || j.StepX() <= 0 then 0 else Lanes(j.imageW, j.StepX())
    ensures TileGridSpec(j) == Rows(j, Lanes(j.imageH, j.StepY()), cols)
  {
    if j.imageW <= 0 {
      EmptyColumns(j, Lanes(j.imageH, j.StepY()), cols);
    }
  }

  /** Rows without columns hold no tiles. */
  lemma {:induction false} EmptyColumns(j: Job, k: nat, cols: nat)
    ensures cols == 0 ==> Rows(j, k, cols) == []
  {
    if k > 0 {
      EmptyColumns(j, k - 1, cols);
    }
  }

  /** A tile of job `j` starts on the step lattice strictly inside the image and
      is clipped so that it ends inside the image. */
  predicate WellPlaced(j: Job, t: Tile) {
    && 0 <= t.x < j.imageW && 0 <= t.y < j.imageH
    && t.w == MinI(j.tileW, j.imageW - t.x) && t.h == MinI(j.tileH, j.imageH - t.y)
    && t.x + t.w <= j.imageW && t.y + t.h <= j.imageH
    && j.StepX() > 0 && j.StepY() > 0 && t.x % j.StepX() == 0 && t.y % j.StepY() == 0
  }

  /** Every tile is well placed, and for a non-empty image there are `Lanes`
      rows of `Lanes` columns of them. */
  lemma TileGridShape(j: Job)
    requires Terminates(j)
    ensures j.imageW > 0 && j.imageH > 0 ==>
      |TileGridSpec(j)| == Lanes(j.imageH, j.StepY()) * Lanes(j.imageW, j.StepX())
    ensures forall i :: 0 <= i < |TileGridSpec(j)| ==> WellPlaced(j, TileGridSpec(j)[i])
  {
    if j.imageW > 0 && j.imageH > 0 {
      RowsLength(j, Lanes(j.imageH, j.StepY()), Lanes(j.imageW, j.StepX()));
    }
    forall i | 0 <= i < |TileGridSpec(j)|
      ensures WellPlaced(j, TileGridSpec(j)[i])
    {
      TileWellPlaced(j, i);
    }
  }

  lemma TileWellPlaced(j: Job, i: nat)
    requires Terminates(j) && i < |TileGridSpec(j)|
    ensures WellPlaced(j, TileGridSpec(j)[i])
  {
    if j.imageW > 0 && j.imageH > 0 {
      var rows := Lanes(j.imageH, j.StepY());
      var cols := Lanes(j.imageW, j.StepX());
      RowsLength(j, rows, cols);
      RowsIndex(j, rows, cols, i);
      TileInside(j, i / cols, i % cols);
    }
  }

  /** Tile (r, c) of the reference layout starts inside the image on the lattice. */
  lemma TileInside(j: Job, r: nat, c: nat)
    requires j.imageW > 0 && j.imageH > 0 && j.StepX() > 0 && j.StepY() > 0
    requires r < Lanes(j.imageH, j.StepY()) && c < Lanes(j.imageW, j.StepX())
    ensures WellPlaced(j, TileAt(j, r, c))
  {
    LaneIff(j.imageH, j.StepY(), r);
    LaneIff(j.imageW, j.StepX(), c);
    LatticeMod(c, j.StepX());
    LatticeMod(r, j.StepY());
  }

  lemma LatticeMod(k: nat, step: int)
    requires step > 0
    ensures (k * step) % step == 0
  {
    DivModRowMajor(k, 0, step);
  }

  /** For a non-empty image there are ceil(W / stepX) columns and ceil(H / stepY)
      rows of tiles. */
  lemma TileCount(j: Job)
    requires j.imageW > 0 && j.imageH > 0 && j.StepX() > 0 && j.StepY() > 0
    ensures |TileGridSpec(j)|
         == ((j.imageH + j.StepY() - 1) / j.StepY()) * ((j.imageW + j.StepX() - 1) / j.StepX())
  {
    LanesCeil(j.imageW, j.StepX());
    LanesCeil(j.imageH, j.StepY());
    RowsLength(j, Lanes(j.imageH, j.StepY()), Lanes(j.imageW, j.StepX()));
  }

  /** No gaps: with 0 <= overlap < tile size every image pixel lies in a tile. */
  lemma TileCover(j: Job, px: int, py: int) returns (i: nat)
    requires 0 <= j.overlap < j.tileW && j.overlap < j.tileH
    requires 0 <= px < j.imageW && 0 <= py < j.imageH
    ensures Terminates(j) && i < |TileGridSpec(j)| && TileGridSpec(j)[i].Contains(px, py)
  {
    assert Terminates(j);
    var cols := Lanes(j.imageW, j.StepX());
    var c := LaneOf(j.imageW, j.StepX(), px);
    var r := LaneOf(j.imageH, j.StepY(), py);
    SpecAt(j, r, c);
    TileContains(j, r, c, px, py);
    i := r * cols + c;
  }

  /** Cell (r, c) of the reference layout sits at index r * cols + c. */
  lemma SpecAt(j: Job, r: nat, c: nat)
    requires Terminates(j) && j.imageW > 0 && j.imageH > 0
    requires r < Lanes(j.imageH, j.StepY()) && c < Lanes(j.imageW, j.StepX())
    ensures var i := r * Lanes(j.imageW, j.StepX()) + c;
      i < |TileGridSpec(j)| && TileGridSpec(j)[i] == TileAt(j, r, c)
  {
    RowsAt(j, Lanes(j.imageH, j.StepY()), Lanes(j.imageW, j.StepX()), r, c);
  }

  /** The lane holding a coordinate inside the extent. */
  lemma LaneOf(extent: int, step: int, p: int) returns (k: nat)
    requires step > 0 && 0 <= p < extent
    ensures k < Lanes(extent, step) && k * step <= p < k * step + step
  {
    k := p / step;
    LaneIff(extent, step, k);
  }

  /** Tile (r, c) holds the pixels of its lattice cell that lie in the image. */
  lemma TileContains(j: Job, r: nat, c: nat, px: int, py: int)
    requires 0 <= j.overlap
    requires c * j.StepX() <= px < c * j.StepX() + j.StepX() && px < j.imageW
    requires r * j.StepY() <= py < r * j.StepY() + j.StepY() && py < j.imageH
    ensures TileAt(j, r, c).Contains(px, py)
  {
  }

  /** No overlaps: with overlap 0 and positive tile sizes two different tiles
      never share a pixel. */
  lemma TileDisjoint(j: Job, a: nat, b: nat)
    requires j.overlap == 0 && j.tileW > 0 && j.tileH > 0
    requires a < |TileGridSpec(j)| && b < |TileGridSpec(j)| && a != b
    ensures !TileGridSpec(j)[a].Meets(TileGridSpec(j)[b])
  {
    if j.imageW > 0 && j.imageH > 0 {
      var rows, cols := Lanes(j.imageH, j.StepY()), Lanes(j.imageW, j.StepX());
      var grid := Rows(j, rows, cols);
      assert grid == TileGridSpec(j);
      RowsLength(j, rows, cols);
      RowsIndex(j, rows, cols, a);
      RowsIndex(j, rows, cols, b);
      var ra, ca, rb, cb := a / cols, a % cols, b / cols, b % cols;
      CellOfIndex(a, rows, cols);
      CellOfIndex(b, rows, cols);
      assert (ra, ca) != (rb, cb);
      CellsApart(j, ra, ca, rb, cb);
    }
  }

  /** Without overlap, tiles of different cells are apart along one axis. */
  lemma CellsApart(j: Job, ra: nat, ca: nat, rb: nat, cb: nat)
    requires j.overlap == 0 && j.tileW > 0 && j.tileH > 0 && (ra, ca) != (rb, cb)
    ensures !TileAt(j, ra, ca).Meets(TileAt(j, rb, cb))
  {
    var a, b := TileAt(j, ra, ca), TileAt(j, rb, cb);
    assert j.StepX() == j.tileW && j.StepY() == j.tileH;
    if ca < cb {
      LaterLane(ca, cb, j.tileW);
      assert a.x + a.w <= b.x;
    } else if cb < ca {
      LaterLane(cb, ca, j.tileW);
      assert b.x + b.w <= a.x;
    } else if ra < rb {
      LaterLane(ra, rb, j.tileH);
      assert a.y + a.h <= b.y;
    } else {
      LaterLane(rb, ra, j.tileH);
      assert b.y + b.h <= a.y;
    }
  }

  /** A later lane of width `w` starts at or after the end of an earlier one. */
  lemma LaterLane(a: nat, b: nat, w: int)
    requires a < b && w > 0
    ensures a * w + w <= b * w
  {
    MulAtLeast(b - a, w);
    assert b * w == a * w + (b - a) * w;
  }
}

/** The tiling scenario of the simple test script, worked through the model. */
module TileGridExamples {
  import opened TileGrid

  /** The simple tiling script: a 3000 x 2000 image cut into 2100 x 2970 tiles
      without overlap gives one row of two tiles, the second clipped to 900. */
  lemma SimpleTestScenario(j: Job)
    requires j == Job(3000, 2000, 2100, 2970, 0)
    ensures TileGridSpec(j) == [Tile(0, 0, 2100, 2000), Tile(2100, 0, 900, 2000)]
  {
    assert j.imageW == 3000 && j.StepX() == 2100 && j.imageH == 2000 && j.StepY() == 2970;
    SimpleTestLanes();
    OneRowOfTwo(j);
    SimpleTestFirstTile();
    SimpleTestSecondTile();
  }

  lemma SimpleTestFirstTile()
    ensures TileAt(Job(3000, 2000, 2100, 2970, 0), 0, 0) == Tile(0, 0, 2100, 2000)
  {
  }

  lemma SimpleTestSecondTile()
    ensures TileAt(Job(3000, 2000, 2100, 2970, 0), 0, 1) == Tile(2100, 0, 900, 2000)
  {
  }

  lemma SimpleTestLanes()
    ensures Lanes(3000, 2100) == 2 && Lanes(2000, 2970) == 1
  {
    assert Lanes(900, 2100) == 1 by {
      assert Lanes(-1200, 2100) == 0;
    }
    assert Lanes(-970, 2970) == 0;
  }

  /** A layout of one row and two columns lists the two tiles of row 0. */
  lemma OneRowOfTwo(j: Job)
    requires j.imageW > 0 && j.imageH > 0 && j.StepX() > 0 && j.StepY() > 0
    requires Lanes(j.imageH, j.StepY()) == 1 && Lanes(j.imageW, j.StepX()) == 2
    ensures TileGridSpec(j) == [TileAt(j, 0, 0), TileAt(j, 0, 1)]
  {
    assert RowTiles(j, 0, 1) == [TileAt(j, 0, 0)];
    assert Rows(j, 1, 2) == RowTiles(j, 0, 2);
  }
}
