/** Cutting one planned page out of the document image (the integer rectangle
    arithmetic of the main window's tile-pixmap builder).

    The page's origin is truncated to whole pixels; the part of the page that
    lies left of or above the image is left white by starting the copy at a
    positive destination offset. The painter then drops whatever falls outside
    the tile pixmap and, when the page has a gutter, outside the printable
    rectangle inside the gutter. */
module TileExtract {
  import opened Arith
  import opened Wrappers
  import opened PageGrid

  /** A Qt integer rectangle; `Contains` treats it as half-open. */
  datatype IRect = IRect(x: int, y: int, w: int, h: int) {
    predicate Contains(u: int, v: int) {
      x <= u < x + w && y <= v < y + h
    }
  }

  /** What the builder does for one page: the tile pixmap size, the optional
      clip rectangle, the source rectangle and where it is drawn. */
  datatype TilePlan = TilePlan(tileW: int, tileH: int, clip: Option<IRect>, source: IRect, destX: int, destY: int)

  /** First source pixel along one axis: the truncated page origin, but never
      left of the image. */
  function SourceStart(origin: int): int {
    MaxI(0, origin)
  }

  /** Pixels copied along one axis: what is left of the image after the start,
      at most the tile size. */
  function SourceLen(origin: int, tile: int, image: int): int {
    MinI(image - SourceStart(origin), tile)
  }

  /** Where the copy lands in the tile along one axis. */
  function DestStart(origin: int): int {
    MaxI(0, -origin)
  }

  /** The builder's computation for `page` over an image of `imageW` x `imageH`. */
  function PlanTile(page: Page, imageW: int, imageH: int): (plan: TilePlan)
    ensures plan.tileW == Trunc(page.width) && plan.tileH == Trunc(page.height)
    ensures plan.source.x >= 0 && plan.source.y >= 0
    ensures plan.destX >= 0 && plan.destY >= 0
    ensures plan.destX - plan.source.x == -Trunc(page.x)
    ensures plan.destY - plan.source.y == -Trunc(page.y)
    ensures plan.source.w <= plan.tileW && plan.source.h <= plan.tileH
    ensures plan.source.x + plan.source.w <= imageW && plan.source.y + plan.source.h <= imageH
    ensures plan.clip.Some? <==> Trunc(page.gutter) > 0
  {
    var tw, th := Trunc(page.width), Trunc(page.height);
    var g := Trunc(page.gutter);
    var ox, oy := Trunc(page.x), Trunc(page.y);
    var clip := if g > 0 then Some(IRect(g, g, MaxI(0, tw - 2 * g), MaxI(0, th - 2 * g))) else None;
    TilePlan(tw, th, clip,
             IRect(SourceStart(ox), SourceStart(oy), SourceLen(ox, tw, imageW), SourceLen(oy, th, imageH)),
             DestStart(ox), DestStart(oy))
  }

  /** The source crop is drawn only when it has a positive size. */
  predicate Copies(plan: TilePlan) {
    plan.source.w > 0 && plan.source.h > 0
  }

  /** Document pixel (u, v) ends up visible in the tile: it is copied, its
      destination lies on the tile pixmap, and it is inside the clip rectangle
      when there is one. */
  predicate Visible(plan: TilePlan, u: int, v: int) {
    var tu := u - plan.source.x + plan.destX;
    var tv := v - plan.source.y + plan.destY;
    Copies(plan) && plan.source.Contains(u, v)
    && 0 <= tu < plan.tileW && 0 <= tv < plan.tileH
    && (plan.clip.None? || plan.clip.value.Contains(tu, tv))
  }

  /** The independent description: the pixel lies in the image and in the
      whole-pixel page rectangle shrunk by the (truncated, positive) gutter. */
  predicate InPrintedArea(page: Page, imageW: int, imageH: int, u: int, v: int) {
    var g := if Trunc(page.gutter) > 0 then Trunc(page.gutter) else 0;
    var ox, oy := Trunc(page.x), Trunc(page.y);
    0 <= u < imageW && 0 <= v < imageH
    && ox + g <= u < ox + Trunc(page.width) - g
    && oy + g <= v < oy + Trunc(page.height) - g
  }

  /** Along one axis, a pixel is copied onto the tile exactly when it lies both
      in the image and in the page's span `[origin, origin + tile)`. */
  lemma AxisCopied(origin: int, tile: int, image: int, u: int)
    ensures var s, n := SourceStart(origin), SourceLen(origin, tile, image);
            (n > 0 && s <= u < s + n && 0 <= u - s + DestStart(origin) < tile)
            <==> (0 <= u < image && origin <= u < origin + tile)
  {
  }

  /** The clip rectangle `(g, g, max(0, t - 2g), ...)` holds exactly the tile
      coordinates at least `g` away from both edges. */
  lemma ClipSpan(g: int, tile: int, t: int)
    requires g > 0
    ensures (g <= t < g + MaxI(0, tile - 2 * g)) <==> (g <= t < tile - g)
  {
  }

  /** The builder paints exactly the part of the image inside the page's
      printable rectangle: nothing is shifted, lost or duplicated. */
  lemma VisibleIffPrinted(page: Page, imageW: int, imageH: int, u: int, v: int)
    ensures Visible(PlanTile(page, imageW, imageH), u, v) <==> InPrintedArea(page, imageW, imageH, u, v)
  {
    var plan := PlanTile(page, imageW, imageH);
    var ox, oy := Trunc(page.x), Trunc(page.y);
    var tw, th := Trunc(page.width), Trunc(page.height);
    AxisCopied(ox, tw, imageW, u);
    AxisCopied(oy, th, imageH, v);
    var g := Trunc(page.gutter);
    if g > 0 {
      ClipSpan(g, tw, u - ox);
      ClipSpan(g, th, v - oy);
    }
  }

  /** Nothing is drawn when the page lies entirely right of or below the image. */
  lemma NoCopyOutsideImage(page: Page, imageW: int, imageH: int)
    requires Trunc(page.x) >= imageW
    ensures !Copies(PlanTile(page, imageW, imageH))
  {
  }
}
