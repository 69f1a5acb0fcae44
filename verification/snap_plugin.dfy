/** The built-in snap plugin: the snap points it keeps (a grid over the
    viewport and points of the document's bounding rectangle), the
    nearest-point search behind snapping, its lifecycle and the hooks that
    move a measurement's points. The plan view is outside the model: its
    viewport size and content rectangle are inputs, `None` when the plugin
    holds no plan-view access or the view answers nothing. */
module SnapPlugin {
  import opened Wrappers
  import opened Arith
  import opened Geometry
  import opened HookSystem

  /** The plugin's configuration, with the defaults it starts with. */
  datatype SnapConfig = SnapConfig(
    snapEnabled: bool,
    snapDistance: real,
    showSnapPoints: bool,
    gridSnap: bool,
    gridSpacing: real,
    contentSnap: bool,
    cornerSnap: bool,
    edgeSnap: bool,
    intersectionSnap: bool)

  const DefaultConfig := SnapConfig(true, 10.0, true, true, 50.0, true, true, true, true)

  /** The plugin's state: its configuration, whether it is enabled and its
      three lists of snap points. */
  datatype SnapState = SnapState(
    config: SnapConfig,
    enabled: bool,
    snapPoints: seq<Point>,
    gridPoints: seq<Point>,
    contentPoints: seq<Point>)

  /** A freshly constructed plugin: default configuration, no points. */
  function NewSnapState(): (s: SnapState)
    ensures !s.enabled && s.snapPoints == [] && s.gridPoints == [] && s.contentPoints == []
    ensures s.config.snapEnabled && s.config.snapDistance == 10.0 && s.config.gridSpacing == 50.0
  {
    SnapState(DefaultConfig, false, [], [], [])
  }

  // ---------------------------------------------------------------------
  // The nearest snap point

  /** `q` is within the snap distance `d` of `p`. The source compares the
      Euclidean distance with `d`; for a non-negative squared distance `t`,
      `sqrt(t) < d` holds exactly when `d > 0` and `t < d * d`. */
  predicate Within(p: Point, q: Point, d: real) {
    d > 0.0 && Dist2(p, q) < d * d
  }

  /** `i` is the snap point for `p` among the first `n` points: within the
      snap distance, no farther than any other point within it, and strictly
      nearer than every earlier one (the first of equally near points). */
  predicate IsSnapUpTo(pts: seq<Point>, p: Point, d: real, n: nat, i: nat)
    requires n <= |pts|
  {
    i < n && Within(p, pts[i], d)
    && (forall j :: 0 <= j < n && Within(p, pts[j], d) ==> Dist2(p, pts[i]) <= Dist2(p, pts[j]))
    && (forall j :: 0 <= j < i && Within(p, pts[j], d) ==> Dist2(p, pts[i]) < Dist2(p, pts[j]))
  }

  /** No point among the first `n` is within the snap distance. */
  predicate NoneWithin(pts: seq<Point>, p: Point, d: real, n: nat)
    requires n <= |pts|
  {
    forall j :: 0 <= j < n ==> !Within(p, pts[j], d)
  }

  /** The loop of `find_snap_point` from point `i` on, `best` being the
      nearest point found so far: a point replaces it only when strictly
      nearer, so the first of equally near points is kept. */
  function Scan(pts: seq<Point>, p: Point, d: real, i: nat, best: Option<nat>): (r: Option<nat>)
    requires i <= |pts|
    requires best.None? ==> NoneWithin(pts, p, d, i)
    requires best.Some? ==> IsSnapUpTo(pts, p, d, i, best.value)
    ensures r.None? ==> NoneWithin(pts, p, d, |pts|)
    ensures r.Some? ==> IsSnapUpTo(pts, p, d, |pts|, r.value)
    decreases |pts| - i
  {
    if i == |pts| then best
    else if Within(p, pts[i], d) && (best.None? || Dist2(p, pts[i]) < Dist2(p, pts[best.value])) then
      Scan(pts, p, d, i + 1, Some(i))
    else
      Scan(pts, p, d, i + 1, best)
  }

  /** The index of the snap point for `p`, if any point is within reach. */
  function SnapIndex(pts: seq<Point>, p: Point, d: real): (r: Option<nat>)
    ensures r.None? <==> NoneWithin(pts, p, d, |pts|)
    ensures r.Some? ==> IsSnapUpTo(pts, p, d, |pts|, r.value)
  {
    Scan(pts, p, d, 0, None)
  }

  /** There is at most one snap point: the nearest, the first among ties. */
  lemma SnapUnique(pts: seq<Point>, p: Point, d: real, i: nat, k: nat)
    requires IsSnapUpTo(pts, p, d, |pts|, i) && IsSnapUpTo(pts, p, d, |pts|, k)
    ensures i == k
  {
    if i < k {
      assert false;
    } else if k < i {
      assert false;
    }
  }

  /** `find_snap_point`: nothing while snapping is off; otherwise the snap
      point for `p` among the current snap points. */
  function FindSnapPoint(s: SnapState, p: Point): (r: Option<Point>)
    ensures !s.config.snapEnabled ==> r.None?
    ensures r.None? && s.config.snapEnabled ==> NoneWithin(s.snapPoints, p, s.config.snapDistance, |s.snapPoints|)
    ensures r.Some? ==> exists i: nat :: IsSnapUpTo(s.snapPoints, p, s.config.snapDistance, |s.snapPoints|, i)
                                    && r.value == s.snapPoints[i]
  {
    if !s.config.snapEnabled then None
    else
      var i := SnapIndex(s.snapPoints, p, s.config.snapDistance);
      if i.Some? then Some(s.snapPoints[i.value]) else None
  }

  /** A point lying on a snap point snaps to it, or to an earlier point at
      the same place, when the snap distance is positive. */
  lemma SnapToSelf(s: SnapState, k: nat)
    requires s.config.snapEnabled && s.config.snapDistance > 0.0 && k < |s.snapPoints|
    ensures var r := FindSnapPoint(s, s.snapPoints[k]);
      r.Some? && Dist2(s.snapPoints[k], r.value) == 0.0
  {
    var p, d := s.snapPoints[k], s.config.snapDistance;
    WithinSelf(p, d);
    var i := SnapIndex(s.snapPoints, p, d).value;
    assert Dist2(p, s.snapPoints[i]) <= Dist2(p, s.snapPoints[k]);
    Dist2Symmetric(p, s.snapPoints[i]);
  }

  /** Every point is within any positive snap distance of itself. */
  lemma WithinSelf(p: Point, d: real)
    requires d > 0.0
    ensures Within(p, p, d)
  {
    MulStrict(0.0, d, d);
    calc {
      Dist2(p, p);
    ==
      0.0;
    ==
      0.0 * d;
    <
      d * d;
    }
  }

  // ---------------------------------------------------------------------
  // Grid points

  /** `range(start, stop, step)` for a positive step. */
  function Steps(start: int, stop: int, step: int): (r: seq<int>)
    requires step > 0
    ensures forall k :: 0 <= k < |r| ==> r[k] == start + k * step && r[k] < stop
    ensures start + |r| * step >= stop
    decreases stop - start
  {
    if start >= stop then [] else [start] + Steps(start + step, stop, step)
  }

  /** `range(0, n, step)` has `ceil(n / step)` elements. */
  lemma {:induction false} StepsCount(n: nat, step: int)
    requires step > 0
    ensures |Steps(0, n, step)| == (n + step - 1) / step
  {
    var r := Steps(0, n, step);
    var c := |r|;
    if c == 0 {
      assert n == 0;
    } else {
      assert r[c - 1] == (c - 1) * step < n;
      assert n <= c * step;
      DivModRowMajor(c, n + step - 1 - c * step, step);
      assert c * step + (n + step - 1 - c * step) == n + step - 1;
    }
  }

  /** The points `(x, y)` for `x` in `xs` and, for each, `y` in `ys`. */
  function Grid(xs: seq<int>, ys: seq<int>): (g: seq<Point>)
    ensures |g| == |xs| * |ys|
  {
    if xs == [] then [] else Column(xs[0], ys) + Grid(xs[1..], ys)
  }

  function Column(x: int, ys: seq<int>): (c: seq<Point>)
    ensures |c| == |ys| && forall j :: 0 <= j < |ys| ==> c[j] == Point(x as real, ys[j] as real)
  {
    seq(|ys|, j requires 0 <= j < |ys| => Point(x as real, ys[j] as real))
  }

  /** The grid is in x-major order: point `i * |ys| + j` is `(xs[i], ys[j])`. */
  lemma {:induction false} GridAt(xs: seq<int>, ys: seq<int>, i: nat, j: nat)
    requires i < |xs| && j < |ys|
    ensures i * |ys| + j < |Grid(xs, ys)|
    ensures Grid(xs, ys)[i * |ys| + j] == Point(xs[i] as real, ys[j] as real)
  {
    MulAtLeastLeft(i + 1, |xs|, |ys|);
    if i > 0 {
      GridAt(xs[1..], ys, i - 1, j);
      assert Grid(xs, ys)[i * |ys| + j] == Grid(xs[1..], ys)[(i - 1) * |ys| + j];
    }
  }

  /** `_generate_grid_snap_points`: without a viewport the grid is empty;
      otherwise the points `(x, y)` for `x` in `range(0, width, s)` and `y`
      in `range(0, height, s)`, with `s` the spacing truncated to an integer.
      A zero step makes `range` raise, shown as `None`; a negative one gives
      no points. */
  function GridPoints(viewport: Option<(nat, nat)>, spacing: real): (g: Option<seq<Point>>)
    ensures g.None? <==> viewport.Some? && Trunc(spacing) == 0
    ensures viewport.None? ==> g == Some([])
    ensures viewport.Some? && Trunc(spacing) < 0 ==> g == Some([])
  {
    if viewport.None? then Some([])
    else
      var step := Trunc(spacing);
      if step == 0 then None
      else if step < 0 then Some([])
      else Some(Grid(Steps(0, viewport.value.0, step), Steps(0, viewport.value.1, step)))
  }

  /** With a positive step `s` there are `ceil(w / s) * ceil(h / s)` grid
      points. */
  lemma GridPointsCount(w: nat, h: nat, spacing: real)
    requires Trunc(spacing) > 0
    ensures var s := Trunc(spacing);
      |GridPoints(Some((w, h)), spacing).value| == ((w + s - 1) / s) * ((h + s - 1) / s)
  {
    StepsCount(w, Trunc(spacing));
    StepsCount(h, Trunc(spacing));
  }

  /** Grid point `i * rows + j`, with `rows` the number of grid rows, is
      `(i * s, j * s)`, inside the viewport. */
  lemma GridPointsAt(w: nat, h: nat, spacing: real, i: nat, j: nat)
    requires Trunc(spacing) > 0
    requires i < |Steps(0, w, Trunc(spacing))| && j < |Steps(0, h, Trunc(spacing))|
    ensures var s, rows := Trunc(spacing), |Steps(0, h, Trunc(spacing))|;
      var g := GridPoints(Some((w, h)), spacing).value;
      i * rows + j < |g| && g[i * rows + j] == Point((i * s) as real, (j * s) as real)
      && i * s < w && j * s < h
  {
    GridAt(Steps(0, w, Trunc(spacing)), Steps(0, h, Trunc(spacing)), i, j);
  }

  // ---------------------------------------------------------------------
  // Content points

  /** The document's bounding rectangle in the plan view. */
  datatype ContentRect = ContentRect(left: real, top: real, width: real, height: real) {
    function Right(): real { left + width }
    function Bottom(): real { top + height }
    function Center(): Point { Point(left + width / 2.0, top + height / 2.0) }
    /** A null rectangle (zero width and height) counts as false. */
    predicate IsNull() { width == 0.0 && height == 0.0 }
  }

  /** `_generate_content_snap_points`: without a non-null rectangle there
      are none; otherwise the four corners when corner snapping is on, the
      four edge midpoints when edge snapping is on, and always the centre. */
  function ContentPoints(bounds: Option<ContentRect>, corner: bool, edge: bool): (c: seq<Point>)
    ensures bounds.None? || bounds.value.IsNull() ==> c == []
    ensures bounds.Some? && !bounds.value.IsNull() ==>
      |c| == 1 + (if corner then 4 else 0) + (if edge then 4 else 0) && c[|c| - 1] == bounds.value.Center()
  {
    if bounds.None? || bounds.value.IsNull() then []
    else
      var b := bounds.value;
      var corners := if corner then [Point(b.left, b.top), Point(b.Right(), b.top),
                                     Point(b.left, b.Bottom()), Point(b.Right(), b.Bottom())] else [];
      var edges := if edge then [Point(b.Center().x, b.top), Point(b.Center().x, b.Bottom()),
                                 Point(b.left, b.Center().y), Point(b.Right(), b.Center().y)] else [];
      corners + edges + [b.Center()]
  }

  /** Every content point lies on the rectangle's boundary lines or at its
      centre: its coordinates are among left, centre and right, and among
      top, centre and bottom. */
  lemma ContentPointsOnRect(b: ContentRect, corner: bool, edge: bool)
    requires !b.IsNull()
    ensures forall q :: q in ContentPoints(Some(b), corner, edge) ==>
      q.x in {b.left, b.Center().x, b.Right()} && q.y in {b.top, b.Center().y, b.Bottom()}
  {
    var m := b.Center();
    var corners := if corner then [Point(b.left, b.top), Point(b.Right(), b.top),
                                   Point(b.left, b.Bottom()), Point(b.Right(), b.Bottom())] else [];
    var edges := if edge then [Point(m.x, b.top), Point(m.x, b.Bottom()),
                               Point(b.left, m.y), Point(b.Right(), m.y)] else [];
    assert ContentPoints(Some(b), corner, edge) == corners + edges + [m];
    forall q | q in corners + edges + [m]
      ensures q.x in {b.left, m.x, b.Right()} && q.y in {b.top, m.y, b.Bottom()}
    {
      if q in corners {
        assert q.x == b.left || q.x == b.Right();
        assert q.y == b.top || q.y == b.Bottom();
      } else if q in edges {
        assert q.x == m.x || q.x == b.left || q.x == b.Right();
        assert q.y == b.top || q.y == b.Bottom() || q.y == m.y;
      }
    }
  }

  // ---------------------------------------------------------------------
  // Regeneration and lifecycle

  /** `generate_snap_points`: regenerates the grid when grid snapping is on
      and the content points when content snapping is on, keeping the old
      list of a category that is off, and joins the two. The flag is false
      when the grid raised; the snap points and the grid are then already
      cleared and the content points untouched. */
  function Generate(s: SnapState, viewport: Option<(nat, nat)>, bounds: Option<ContentRect>): (res: (SnapState, bool))
    ensures res.0.config == s.config && res.0.enabled == s.enabled
    ensures res.1 ==> res.0.snapPoints == res.0.gridPoints + res.0.contentPoints
    ensures res.1 <==> !s.config.gridSnap || GridPoints(viewport, s.config.gridSpacing).Some?
    ensures res.1 ==> res.0.gridPoints == if s.config.gridSnap then GridPoints(viewport, s.config.gridSpacing).value else s.gridPoints
    ensures res.1 ==> (res.0.contentPoints ==
      if s.config.contentSnap then ContentPoints(bounds, s.config.cornerSnap, s.config.edgeSnap) else s.contentPoints)
    ensures !res.1 ==> res.0.snapPoints == [] && res.0.gridPoints == [] && res.0.contentPoints == s.contentPoints
  {
    var c := s.config;
    var grid := if c.gridSnap then GridPoints(viewport, c.gridSpacing) else Some(s.gridPoints);
    if grid.None? then (s.(snapPoints := [], gridPoints := []), false)
    else
      var content := if c.contentSnap then ContentPoints(bounds, c.cornerSnap, c.edgeSnap) else s.contentPoints;
      (s.(snapPoints := grid.value + content, gridPoints := grid.value, contentPoints := content), true)
  }

  /** Regenerating twice with the same view gives what regenerating once
      gave. */
  lemma GenerateIdempotent(s: SnapState, viewport: Option<(nat, nat)>, bounds: Option<ContentRect>)
    ensures var (s1, ok1) := Generate(s, viewport, bounds);
      Generate(s1, viewport, bounds) == (s1, ok1)
  {
  }

  /** `enable`: regenerates the points and, when that succeeds, enables the
      plugin; when the grid raised it answers false and stays as it was
      apart from the cleared lists. */
  function Enable(s: SnapState, viewport: Option<(nat, nat)>, bounds: Option<ContentRect>): (res: (SnapState, bool))
    ensures res.1 <==> Generate(s, viewport, bounds).1
    ensures res.1 ==> res.0.enabled
    ensures !res.1 ==> res.0.enabled == s.enabled
    ensures res.0.snapPoints == Generate(s, viewport, bounds).0.snapPoints
  {
    var (g, ok) := Generate(s, viewport, bounds);
    if ok then (g.(enabled := true), true) else (g, false)
  }

  /** `disable`: clears the three lists and disables the plugin. */
  function Disable(s: SnapState): (res: (SnapState, bool))
    ensures res.1 && !res.0.enabled && res.0.config == s.config
    ensures res.0.snapPoints == [] && res.0.gridPoints == [] && res.0.contentPoints == []
  {
    (s.(enabled := false, snapPoints := [], gridPoints := [], contentPoints := []), true)
  }

  /** A disabled plugin snaps nothing. */
  lemma DisabledFindsNothing(s: SnapState, p: Point)
    ensures FindSnapPoint(Disable(s).0, p).None?
  {
  }

  /** With both categories on, disabling and re-enabling with the same view
      gives the snap points and the answer that enabling gives. */
  lemma DisableEnable(s: SnapState, viewport: Option<(nat, nat)>, bounds: Option<ContentRect>)
    requires s.config.gridSnap && s.config.contentSnap
    ensures Enable(Disable(s).0, viewport, bounds).1 == Enable(s, viewport, bounds).1
    ensures Enable(Disable(s).0, viewport, bounds).0.snapPoints == Enable(s, viewport, bounds).0.snapPoints
  {
  }

  /** `set_config` with a whole configuration: replaces the configuration and
      regenerates the points while enabled; false when that raised. */
  function SetConfig(s: SnapState, config: SnapConfig, viewport: Option<(nat, nat)>, bounds: Option<ContentRect>)
    : (res: (SnapState, bool))
    ensures res.0.config == config && res.0.enabled == s.enabled
    ensures !s.enabled ==> res == (s.(config := config), true)
    ensures s.enabled ==> res == Generate(s.(config := config), viewport, bounds)
  {
    var s1 := s.(config := config);
    if s.enabled then Generate(s1, viewport, bounds) else (s1, true)
  }

  // ---------------------------------------------------------------------
  // Hooks

  /** The plugin's hook handler: four hooks at priority 200, registered under
      the plugin key "snap". */
  function SnapHandler(id: nat): (hd: HookHandler)
    ensures hd.priority == 200 && |hd.hooks| == 4
    ensures MeasurementBeforeStart in hd.hooks && MeasurementBeforeUpdate in hd.hooks
    ensures RenderAfterDraw in hd.hooks && DocumentAfterLoad in hd.hooks
  {
    HookHandler(id, [MeasurementBeforeStart, MeasurementBeforeUpdate, RenderAfterDraw, DocumentAfterLoad], 200)
  }

  /** `initialize` and `cleanup` register the handler and take it out again;
      when the manager had no entry of that handler under "snap", cleanup
      leaves every hook's list as it was. */
  lemma InitializeCleanup(m: Manager, id: nat, h: HookType)
    requires Valid(m)
    requires forall g, e :: g in SnapHandler(id).hooks && e in List(m, g) ==> !(e.handler == id && e.plugin == "snap")
    ensures List(Unregister(Register(m, SnapHandler(id), "snap"), SnapHandler(id), "snap"), h) == List(m, h)
  {
    RegisterUnregister(m, SnapHandler(id), "snap", h);
  }

  /** Initialised through the plugin manager, the handler is registered twice:
      by the plugin's own `initialize` under "snap" and by the manager under
      the plugin's name. Both registrations are listed, and `cleanup`, which
      takes out only the "snap" one, leaves the manager's in place. */
  lemma RegisteredTwice(m: Manager, id: nat, name: string, h: HookType)
    requires Valid(m) && name != "snap" && h in SnapHandler(id).hooks
    ensures var m2 := Register(Register(m, SnapHandler(id), "snap"), SnapHandler(id), name);
      "snap" in Handlers(m2, h) && name in Handlers(m2, h)
      && name in Handlers(Unregister(m2, SnapHandler(id), "snap"), h)
  {
    var hd := SnapHandler(id);
    var m1 := Register(m, hd, "snap");
    var m2 := Register(m1, hd, name);
    RegisteredIsListed(m, hd, "snap", h);
    var e1 :| e1 in List(m1, h) && e1.plugin == "snap";
    RegisterKeeps(m1, hd, name, h, e1);
    RegisteredIsListed(m1, hd, name, h);
    var e2 :| e2 in List(m2, h) && e2.plugin == name;
    assert e2 in Remove(List(m2, h), hd.id, "snap");
  }

  /** Python's truth value of a Qt point: the null point (0, 0) is false. */
  predicate Truthy(p: Point) {
    !(p.x == 0.0 && p.y == 0.0)
  }

  /** `_handle_measurement_start` as written: `start` is the context's start
      point (`None` when absent or not a point). With snapping on, a truthy
      start point is replaced by its snap point when that is truthy, so a
      start at the origin and a snap to the origin are both dropped. */
  function MeasurementStartAsWritten(s: SnapState, start: Option<Point>): (r: Option<Point>)
    ensures r != start ==> s.config.snapEnabled && start.Some? && Truthy(start.value) && r.Some? && Truthy(r.value)
                           && FindSnapPoint(s, start.value) == r
    ensures s.config.snapEnabled && start.Some? && Truthy(start.value)
            && FindSnapPoint(s, start.value).Some? && Truthy(FindSnapPoint(s, start.value).value)
            ==> r == FindSnapPoint(s, start.value)
    ensures !(s.config.snapEnabled && start.Some? && Truthy(start.value)
              && FindSnapPoint(s, start.value).Some? && Truthy(FindSnapPoint(s, start.value).value))
            ==> r == start
  {
    if !s.config.snapEnabled || start.None? || !Truthy(start.value) then start
    else
      var snap := FindSnapPoint(s, start.value);
      if snap.Some? && Truthy(snap.value) then snap else start
  }

  /** `_handle_measurement_start` as evidently intended: a start point is
      replaced by its snap point whenever there is one. */
  function MeasurementStart(s: SnapState, start: Option<Point>): (r: Option<Point>)
    ensures r != start ==> s.config.snapEnabled && start.Some? && FindSnapPoint(s, start.value) == r
    ensures start.Some? && FindSnapPoint(s, start.value).Some? ==> r == FindSnapPoint(s, start.value)
    ensures start.None? ==> r.None?
  {
    if start.None? then start
    else
      var snap := FindSnapPoint(s, start.value);
      if snap.Some? then snap else start
  }

  /** As written, a start point whose snap point is the grid's origin keeps
      its place. */
  lemma MeasurementStartDropsOrigin()
    ensures var s := NewSnapState().(snapPoints := [Point(0.0, 0.0)]);
      MeasurementStartAsWritten(s, Some(Point(1.0, 1.0))) == Some(Point(1.0, 1.0))
      && MeasurementStart(s, Some(Point(1.0, 1.0))) == Some(Point(0.0, 0.0))
  {
    var s := NewSnapState().(snapPoints := [Point(0.0, 0.0)]);
    var p := Point(1.0, 1.0);
    assert Dist2(p, Point(0.0, 0.0)) == 2.0;
    assert Within(p, s.snapPoints[0], 10.0);
    assert SnapIndex(s.snapPoints, p, 10.0) == Some(0);
  }

  /** As written, a start point at the origin is never snapped, even to a
      snap point right next to it. */
  lemma MeasurementStartOriginStays()
    ensures var s := NewSnapState().(snapPoints := [Point(1.0, 1.0)]);
      MeasurementStartAsWritten(s, Some(Point(0.0, 0.0))) == Some(Point(0.0, 0.0))
      && MeasurementStart(s, Some(Point(0.0, 0.0))) == Some(Point(1.0, 1.0))
  {
    var s := NewSnapState().(snapPoints := [Point(1.0, 1.0)]);
    var p := Point(0.0, 0.0);
    assert Dist2(p, Point(1.0, 1.0)) == 2.0;
    assert Within(p, s.snapPoints[0], 10.0);
    assert SnapIndex(s.snapPoints, p, 10.0) == Some(0);
  }

  /** `_handle_measurement_update` as written: like the start hook, for the
      current point, with the same truth tests, so neither a current point at
      the origin nor a snap to the origin moves anything. The result is the
      new current point and whether the context was marked as snapped. */
  function MeasurementUpdateAsWritten(s: SnapState, current: Option<Point>): (res: (Option<Point>, bool))
    ensures res.1 <==> s.config.snapEnabled && current.Some? && Truthy(current.value)
                       && FindSnapPoint(s, current.value).Some? && Truthy(FindSnapPoint(s, current.value).value)
    ensures res.1 ==> res.0 == FindSnapPoint(s, current.value)
    ensures !res.1 ==> res.0 == current
  {
    if !s.config.snapEnabled || current.None? || !Truthy(current.value) then (current, false)
    else
      var snap := FindSnapPoint(s, current.value);
      if snap.Some? && Truthy(snap.value) then (snap, true) else (current, false)
  }

  /** `_handle_measurement_update` as evidently intended: the current point
      is replaced by its snap point whenever there is one, and the context
      is then marked as snapped. */
  function MeasurementUpdate(s: SnapState, current: Option<Point>): (res: (Option<Point>, bool))
    ensures res.1 <==> current.Some? && FindSnapPoint(s, current.value).Some?
    ensures res.1 ==> res.0 == FindSnapPoint(s, current.value)
    ensures !res.1 ==> res.0 == current
  {
    if current.None? then (current, false)
    else
      var snap := FindSnapPoint(s, current.value);
      if snap.Some? then (snap, true) else (current, false)
  }

  /** The two readings of the update hook differ only on the origin: away
      from it, as written and as intended agree. */
  lemma MeasurementUpdateAgreesOffOrigin(s: SnapState, current: Option<Point>)
    requires s.config.snapEnabled && current.Some? && Truthy(current.value)
    requires FindSnapPoint(s, current.value).None? || Truthy(FindSnapPoint(s, current.value).value)
    ensures MeasurementUpdateAsWritten(s, current) == MeasurementUpdate(s, current)
  {
  }

  /** As written, a current point at (1, 1) whose only snap point is the
      origin is left unsnapped, where the intended hook snaps it. */
  lemma MeasurementUpdateDropsOrigin()
    ensures var s := NewSnapState().(snapPoints := [Point(0.0, 0.0)]);
      MeasurementUpdateAsWritten(s, Some(Point(1.0, 1.0))) == (Some(Point(1.0, 1.0)), false)
      && MeasurementUpdate(s, Some(Point(1.0, 1.0))) == (Some(Point(0.0, 0.0)), true)
  {
    var s := NewSnapState().(snapPoints := [Point(0.0, 0.0)]);
    var p := Point(1.0, 1.0);
    assert Dist2(p, Point(0.0, 0.0)) == 2.0;
    assert Within(p, s.snapPoints[0], 10.0);
    assert SnapIndex(s.snapPoints, p, 10.0) == Some(0);
  }

  /** `_handle_render_snap_points`: the points drawn, one circle each, when
      showing snap points is on and a painter is given. */
  function RenderedPoints(s: SnapState, hasPainter: bool): (drawn: seq<Point>)
    ensures drawn == [] || drawn == s.snapPoints
    ensures drawn == s.snapPoints <== s.config.showSnapPoints && hasPainter
    ensures !s.config.showSnapPoints || !hasPainter ==> drawn == []
  {
    if s.config.showSnapPoints && hasPainter then s.snapPoints else []
  }

  /** `_handle_document_loaded`: regenerates the points; the handler answers
      false when that raised. */
  function DocumentLoaded(s: SnapState, viewport: Option<(nat, nat)>, bounds: Option<ContentRect>): (res: (SnapState, bool))
    ensures res == Generate(s, viewport, bounds)
    ensures res.1 ==> res.0.snapPoints == res.0.gridPoints + res.0.contentPoints
  {
    Generate(s, viewport, bounds)
  }
}
