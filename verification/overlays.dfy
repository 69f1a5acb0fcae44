/** The scale bar drawn on tiles: conversion of its sizes to pixels, the
    parsing of its location, the rectangle it occupies and the alternating
    blocks it is drawn with. The whole-pixel rounding of the sizes and the
    painting are not modelled: the bar length, thickness and padding arrive
    in whole pixels. */
module Overlays {
  import opened Arith
  import opened Text
  import opened TileExtract

  /** `_mm_to_px`: mm divided by the mm-per-pixel scale, or twice the mm as a
      fallback when there is no positive scale. */
  function MmToPx(mm: real, scale: real): (px: real)
    ensures scale > 0.0 ==> px * scale == mm
    ensures scale <= 0.0 ==> px == 2.0 * mm
  {
    if scale > 0.0 then mm / scale else mm * 2.0
  }

  /** The zone (lower-cased) and the compass direction (upper-cased) of a
      location such as "Page-S"; a missing or empty location means "Page-S",
      a missing direction "S". */
  function ParseLocation(location: string): (zd: (string, string))
    ensures Lower(zd.0) == zd.0 && Upper(zd.1) == zd.1
  {
    var parts := Split(if location == [] then "Page-S" else location, '-');
    var dir := if |parts| > 1 then parts[1] else "S";
    LowerIdempotent(parts[0]);
    UpperIdempotent(dir);
    assert Upper("S") == "S";
    (Lower(parts[0]), if |parts| > 1 then Upper(parts[1]) else "S")
  }

  /** No location is the bottom of the page. */
  lemma ParseLocationDefault()
    ensures ParseLocation("") == ("page", "S")
  {
    ParseLocationOfParts("Page", "S");
    assert "Page" + "-" + "S" == "Page-S";
    assert Lower("Page") == "page";
    assert Upper("S") == "S";
  }

  /** A location written as zone and direction is read back as the
      lower-cased zone and the upper-cased direction. */
  lemma ParseLocationOfParts(zone: string, dir: string)
    requires NoChar(zone, '-') && NoChar(dir, '-')
    ensures ParseLocation(zone + "-" + dir) == (Lower(zone), Upper(dir))
  {
    SplitJoin([zone, dir], '-');
    assert Join([zone, dir], '-') == zone + "-" + dir;
  }

  /** A location without a dash is read as a zone with the direction "S". */
  lemma ParseLocationZoneOnly(zone: string)
    requires zone != [] && NoChar(zone, '-')
    ensures ParseLocation(zone) == (Lower(zone), "S")
  {
    IndexOfAbsent(zone, '-');
  }

  /** Bars at the top, the bottom and the corners run horizontally; at E and
      W (and any other direction) vertically. */
  predicate Horizontal(dir: string) {
    dir in {"N", "NE", "NW", "S", "SE", "SW"}
  }

  predicate AtTop(dir: string) {
    dir in {"N", "NE", "NW"}
  }

  /** The bar's rectangle on a tile. Zone "page" places it inside the
      printable area, any other zone in the gutter. */
  function BarRect(tileW: int, tileH: int, gutter: int, total: int, thick: int, pad: int,
                   zone: string, dir: string): (r: IRect)
    ensures zone == "page" && Horizontal(dir) ==> r.w <= MaxI(0, total) && r.h <= thick
    ensures zone == "page" && !Horizontal(dir) ==> r.h <= MaxI(0, total) && r.w <= thick
  {
    var px, py := gutter, gutter;
    var pw, ph := MaxI(0, tileW - 2 * gutter), MaxI(0, tileH - 2 * gutter);
    if zone == "page" then
      if Horizontal(dir) then
        var w := MaxI(0, MinI(total, pw - 2 * pad));
        var h := MinI(thick, MaxI(0, ph - 2 * pad));
        IRect(px + pad, if AtTop(dir) then py + pad else py + ph - pad - h, w, h)
      else
        var h := MaxI(0, MinI(total, ph - 2 * pad));
        var w := MinI(thick, MaxI(0, pw - 2 * pad));
        IRect(if dir == "E" then px + pw - pad - w else px + pad, py + pad, w, h)
    else
      if Horizontal(dir) then
        var w := MaxI(0, MinI(total, tileW - 2 * pad));
        var h := MinI(thick, MaxI(0, gutter - pad));
        IRect(pad, if AtTop(dir) then MaxI(0, gutter - h - pad) else tileH - MaxI(0, gutter - pad), w, h)
      else
        var h := MaxI(0, MinI(total, tileH - 2 * pad));
        var w := MinI(thick, MaxI(0, gutter - pad));
        IRect(if dir == "E" then tileW - MaxI(0, gutter - pad) else MaxI(0, gutter - w - pad), pad, w, h)
  }

  /** The bar is drawn only when it has positive width and height, so a drawn
      bar always covers some pixels. */
  function Drawn(r: IRect): (b: bool)
    ensures b ==> r.w * r.h > 0
  {
    r.w > 0 && r.h > 0
  }

  predicate Within(r: IRect, x0: int, y0: int, x1: int, y1: int) {
    x0 <= r.x && r.x + r.w <= x1 && y0 <= r.y && r.y + r.h <= y1
  }

  /** In the page zone a drawn bar lies inside the printable area shrunk by
      the padding on every side. */
  lemma PageBarInside(tileW: int, tileH: int, gutter: int, total: int, thick: int, pad: int, dir: string)
    requires pad >= 0
    ensures var r := BarRect(tileW, tileH, gutter, total, thick, pad, "page", dir);
      var pw, ph := MaxI(0, tileW - 2 * gutter), MaxI(0, tileH - 2 * gutter);
      Drawn(r) ==> Within(r, gutter + pad, gutter + pad, gutter + pw - pad, gutter + ph - pad)
  {
  }

  /** In the gutter zone a drawn bar lies in the gutter strip on its side of
      the tile: the top or bottom strip for a horizontal bar, the left or
      right strip for a vertical one, and between the paddings along it. */
  lemma GutterBarInStrip(tileW: int, tileH: int, gutter: int, total: int, thick: int, pad: int, zone: string, dir: string)
    requires pad >= 0 && zone != "page"
    ensures var r := BarRect(tileW, tileH, gutter, total, thick, pad, zone, dir);
      Drawn(r) ==>
        (Horizontal(dir) && AtTop(dir) ==> Within(r, pad, 0, tileW - pad, gutter)) &&
        (Horizontal(dir) && !AtTop(dir) ==> Within(r, pad, tileH - gutter, tileW - pad, tileH)) &&
        (!Horizontal(dir) && dir == "E" ==> Within(r, tileW - gutter, pad, tileW, tileH - pad)) &&
        (!Horizontal(dir) && dir != "E" ==> Within(r, 0, pad, gutter, tileH - pad))
  {
  }

  /** One drawn block of the bar: where it starts along the bar, its length
      and its colour. */
  datatype Block = Block(offset: int, length: int, dark: bool)

  /** Where block `k` starts: the sum of the sizes before it. */
  function Offset(segs: seq<int>, k: nat): int
    requires k <= |segs|
  {
    if k == 0 then 0 else Offset(segs, k - 1) + segs[k - 1]
  }

  /** Block `k` as the loop draws it: at its offset, its size clipped to what
      is left of the bar, dark for even `k`. */
  function BlockAt(segs: seq<int>, len: int, k: nat): Block
    requires k < |segs|
  {
    Block(Offset(segs, k), MinI(segs[k], len - Offset(segs, k)), k % 2 == 0)
  }

  /** How many blocks the loop draws, continuing from block `k`: it stops at
      the end of the sizes, at a block that would be empty, and right after a
      block that reaches the bar length. */
  function Count(segs: seq<int>, len: int, k: nat): (n: nat)
    requires k <= |segs|
    ensures k <= n <= |segs|
    ensures forall j :: k <= j < n ==> BlockAt(segs, len, j).length > 0
    ensures forall j :: k < j < n ==> Offset(segs, j) < len
    ensures n < |segs| ==> (n > k && Offset(segs, n) >= len) || BlockAt(segs, len, n).length <= 0
    decreases |segs| - k
  {
    if k == |segs| then k
    else if BlockAt(segs, len, k).length <= 0 then k
    else if Offset(segs, k + 1) >= len then k + 1
    else Count(segs, len, k + 1)
  }

  /** The blocks `draw_scale_bar` fills, in drawing order. */
  function DrawBlocks(segs: seq<int>, len: int): (blocks: seq<Block>)
    ensures |blocks| == Count(segs, len, 0)
    ensures forall k :: 0 <= k < |blocks| ==> blocks[k] == BlockAt(segs, len, k)
  {
    seq(Count(segs, len, 0), k requires 0 <= k < Count(segs, len, 0) => BlockAt(segs, len, k))
  }

  /** Every block drawn is non-empty and lies within the bar, the blocks
      follow each other without gaps and alternate dark and light starting
      dark. */
  lemma BlocksWithinBar(segs: seq<int>, len: int)
    ensures var b := DrawBlocks(segs, len);
      (forall k :: 0 <= k < |b| ==> b[k].length > 0 && 0 <= b[k].offset && b[k].offset + b[k].length <= len)
      && (forall k :: 0 <= k < |b| - 1 ==> b[k].offset + b[k].length == b[k + 1].offset)
      && (forall k :: 0 <= k < |b| ==> (b[k].dark <==> k % 2 == 0))
      && (|b| > 0 ==> b[0].offset == 0)
  {
    var b := DrawBlocks(segs, len);
    OffsetsNonNegative(segs, len, |b|);
  }

  /** Offsets of the blocks drawn never go below 0: each size drawn is
      positive. */
  lemma {:induction false} OffsetsNonNegative(segs: seq<int>, len: int, n: nat)
    requires n <= Count(segs, len, 0)
    ensures forall j :: 0 <= j <= n ==> Offset(segs, j) >= 0
  {
    if n > 0 {
      OffsetsNonNegative(segs, len, n - 1);
      assert BlockAt(segs, len, n - 1).length > 0;
    }
  }

  /** With a positive bar length, and sizes that are positive and reach the
      bar length, the blocks cover the whole bar: the last one ends at `len`. */
  lemma BlocksCoverBar(segs: seq<int>, len: int)
    requires len > 0 && forall k :: 0 <= k < |segs| ==> segs[k] > 0
    requires Offset(segs, |segs|) >= len
    ensures var b := DrawBlocks(segs, len);
      b != [] && b[|b| - 1].offset + b[|b| - 1].length == len
  {
    var b := DrawBlocks(segs, len);
    OffsetsNonNegative(segs, len, |b|);
    var n := |b|;
    assert Offset(segs, n) >= len;
    assert n > 0;
    assert Offset(segs, n) == b[n - 1].offset + segs[n - 1];
  }
}
