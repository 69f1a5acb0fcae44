/** Plugin access to document content: the three access levels, the gating
    of every operation of the plan-view, tile-preview and measurement access
    objects by level, and the manager that hands the access objects out. The
    main window's views are outside the model; whether a view is present and
    what it answers are inputs. */
module ContentAccess {
  import opened Wrappers
  import opened BasePlugin

  datatype AccessLevel = ReadOnly | ReadWrite | FullControl

  /** The levels in increasing order of power. */
  function Rank(l: AccessLevel): nat {
    match l
    case ReadOnly => 0
    case ReadWrite => 1
    case FullControl => 2
  }

  /** The levels that may change content: read-write and full control. */
  predicate CanWrite(l: AccessLevel) {
    l in {ReadWrite, FullControl}
  }

  // ---------------------------------------------------------------------
  // Plan view

  /** `get_content_image` as written: the plan view renders only for a
      read-only access object; `view` is what the plan view renders, `None`
      when the window has no plan view. */
  function ContentImageAsWritten<I>(level: AccessLevel, view: Option<I>): (img: Option<I>)
    ensures img.Some? <==> level == ReadOnly && view.Some?
    ensures img.Some? ==> img == view
  {
    if level == ReadOnly then view else None
  }

  /** `get_content_image` as evidently intended: every level may read. */
  function ContentImage<I>(level: AccessLevel, view: Option<I>): (img: Option<I>)
    ensures img == view
  {
    view
  }

  /** As written, more access means less reading: a full-control plugin gets
      no image where a read-only one gets it. */
  lemma ContentImageNotMonotone<I>(img: I)
    ensures ContentImageAsWritten(ReadOnly, Some(img)).Some?
    ensures ContentImageAsWritten(FullControl, Some(img)).None?
  {
  }

  /** Corrected, whatever a level may read, a higher level may read too. */
  lemma ContentImageMonotone<I>(a: AccessLevel, b: AccessLevel, view: Option<I>)
    requires Rank(a) <= Rank(b) && ContentImage(a, view).Some?
    ensures ContentImage(b, view).Some?
  {
  }

  /** The plan view's zoom, pan offset and rotation. */
  datatype ViewState = ViewState(zoom: real, pan: (real, real), rotation: real)

  /** `set_view_transform`: at read-write or full control, with a plan view
      present, sets each given parameter and reports success even when none
      is given; otherwise changes nothing and reports failure. */
  function SetViewTransform(level: AccessLevel, view: Option<ViewState>, zoom: Option<real>,
                            pan: Option<(real, real)>, rotation: Option<real>): (res: (bool, Option<ViewState>))
    ensures res.0 <==> CanWrite(level) && view.Some?
    ensures !res.0 ==> res.1 == view
    ensures res.0 ==> (res.1.Some?
      && res.1.value.zoom == (if zoom.Some? then zoom.value else view.value.zoom)
      && res.1.value.pan == (if pan.Some? then pan.value else view.value.pan)
      && res.1.value.rotation == (if rotation.Some? then rotation.value else view.value.rotation))
  {
    if CanWrite(level) && view.Some? then
      var v := view.value;
      var v1 := if zoom.Some? then v.(zoom := zoom.value) else v;
      var v2 := if pan.Some? then v1.(pan := pan.value) else v1;
      var v3 := if rotation.Some? then v2.(rotation := rotation.value) else v2;
      (true, Some(v3))
    else (false, view)
  }

  /** Setting no parameter leaves the view as it is. */
  lemma SetNothingKeepsView(level: AccessLevel, view: ViewState)
    requires CanWrite(level)
    ensures SetViewTransform(level, Some(view), None, None, None) == (true, Some(view))
  {
  }

  /** `add_overlay` and `remove_overlay`: only at full control and with a
      plan view, the plan view's own answer; `answer` is that answer, `None`
      without a plan view. */
  function OverlayChange(level: AccessLevel, answer: Option<bool>): (ok: bool)
    ensures ok <==> level == FullControl && answer == Some(true)
  {
    if level == FullControl && answer.Some? then answer.value else false
  }

  // ---------------------------------------------------------------------
  // Tile preview

  /** `get_tile_image` as written: read-only objects only, like
      `get_content_image`. */
  function TileImageAsWritten<I>(level: AccessLevel, render: Option<I>): (img: Option<I>)
    ensures img.Some? <==> level == ReadOnly && render.Some?
    ensures img.Some? ==> img == render
  {
    if level == ReadOnly then render else None
  }

  /** `get_tile_image` as evidently intended: every level may read. */
  function TileImage<I>(level: AccessLevel, render: Option<I>): (img: Option<I>)
    ensures img == render
  {
    render
  }

  /** The two readers agree with their corrections exactly for read-only
      objects; for a writer the as-written readers return nothing. */
  lemma ReadersAgreeOnlyForReadOnly<I>(level: AccessLevel, view: Option<I>)
    ensures level == ReadOnly ==>
      ContentImageAsWritten(level, view) == ContentImage(level, view)
      && TileImageAsWritten(level, view) == TileImage(level, view)
    ensures view.Some? && level != ReadOnly ==>
      ContentImageAsWritten(level, view) != ContentImage(level, view)
      && TileImageAsWritten(level, view) != TileImage(level, view)
  {
  }

  /** `set_tile_configuration` and `regenerate_tiles`: at read-write or full
      control with a tile preview, the preview's own answer. */
  function TileChange(level: AccessLevel, answer: Option<bool>): (ok: bool)
    ensures ok <==> CanWrite(level) && answer == Some(true)
  {
    if CanWrite(level) && answer.Some? then answer.value else false
  }

  /** The loop of `get_all_tiles_info` over the first `n` tiles: the tiles
      the preview has data for, in index order. `data` is the preview's tile
      data by index. */
  function TilesBelow<T>(data: map<nat, T>, n: nat): (tiles: seq<(nat, T)>)
    ensures forall k :: 0 <= k < |tiles| ==> tiles[k].0 < n && tiles[k].0 in data && data[tiles[k].0] == tiles[k].1
    ensures forall k, j :: 0 <= k < j < |tiles| ==> tiles[k].0 < tiles[j].0
    ensures forall t :: t < n && t in data ==> (t, data[t]) in tiles
  {
    if n == 0 then []
    else
      var front := TilesBelow(data, n - 1);
      if n - 1 in data then front + [(n - 1, data[n - 1])] else front
  }

  /** `get_all_tiles_info`: the tiles below the preview's tile count that it
      has data for; without a tile preview there are none. */
  function AllTilesInfo<T>(preview: Option<(nat, map<nat, T>)>): (tiles: seq<(nat, T)>)
    ensures preview.None? ==> tiles == []
    ensures preview.Some? ==> forall k :: 0 <= k < |tiles| ==>
      tiles[k].0 < preview.value.0 && tiles[k].0 in preview.value.1
  {
    if preview.None? then [] else TilesBelow(preview.value.1, preview.value.0)
  }

  /** With data for every tile, every tile is listed, tile `k` at place `k`. */
  lemma {:induction false} AllTilesListed<T>(data: map<nat, T>, n: nat)
    requires forall t :: t < n ==> t in data
    ensures |TilesBelow(data, n)| == n
    ensures forall k :: 0 <= k < n ==> TilesBelow(data, n)[k] == (k, data[k])
  {
    if n > 0 {
      AllTilesListed(data, n - 1);
      AllTilesStep(data, n, TilesBelow(data, n - 1));
    }
  }

  /** One step of `AllTilesListed`: appending tile `n - 1` to a full list of
      the tiles below it. */
  lemma AllTilesStep<T>(data: map<nat, T>, n: nat, front: seq<(nat, T)>)
    requires 0 < n && (forall t :: t < n ==> t in data) && front == TilesBelow(data, n - 1)
    requires |front| == n - 1 && forall k :: 0 <= k < n - 1 ==> front[k] == (k, data[k])
    ensures |TilesBelow(data, n)| == n
    ensures forall k :: 0 <= k < n ==> TilesBelow(data, n)[k] == (k, data[k])
  {
    var tiles := front + [(n - 1, data[n - 1])];
    assert TilesBelow(data, n) == tiles;
    forall k | 0 <= k < n
      ensures tiles[k] == (k, data[k])
    {
      if k < n - 1 {
        assert tiles[k] == front[k];
      }
    }
  }

  // ---------------------------------------------------------------------
  // Measurements

  /** `add_measurement`: at read-write or full control with a measurement
      system, the id the system returns (`id`), announced only when it is a
      non-empty text; otherwise nothing. The result pairs the id returned
      with whether the "measurement added" signal fired. */
  function AddMeasurement(level: AccessLevel, hasSystem: bool, id: Option<string>): (res: (Option<string>, bool))
    ensures res.0.Some? ==> CanWrite(level) && hasSystem && res.0 == id
    ensures CanWrite(level) && hasSystem ==> res.0 == id
    ensures res.1 <==> CanWrite(level) && hasSystem && id.Some? && id.value != ""
  {
    if CanWrite(level) && hasSystem then (id, id.Some? && id.value != "") else (None, false)
  }

  /** `enable_snap`: at read-write or full control with a measurement
      system, the system's answer. */
  function EnableSnap(level: AccessLevel, answer: Option<bool>): (ok: bool)
    ensures ok <==> CanWrite(level) && answer == Some(true)
  {
    if CanWrite(level) && answer.Some? then answer.value else false
  }

  /** Every change a level may make, a higher level may make too. */
  lemma WritesMonotone(a: AccessLevel, b: AccessLevel, answer: Option<bool>, hasSystem: bool, id: Option<string>)
    requires Rank(a) <= Rank(b)
    ensures TileChange(a, answer) ==> TileChange(b, answer)
    ensures EnableSnap(a, answer) ==> EnableSnap(b, answer)
    ensures OverlayChange(a, answer) ==> OverlayChange(b, answer)
    ensures AddMeasurement(a, hasSystem, id).1 ==> AddMeasurement(b, hasSystem, id).1
  {
  }

  // ---------------------------------------------------------------------
  // The access manager

  /** The access objects a plugin may hold. */
  datatype Area = PlanView | TilePreview | Measurements

  /** The requirement key of each area. */
  function AreaKey(a: Area): string {
    match a
    case PlanView => "plan_view"
    case TilePreview => "tile_preview"
    case Measurements => "measurements"
  }

  /** A grant: the access objects by key, each at the granted level, the
      level and the requirements it answered. */
  datatype Grant = Grant(objects: map<string, (Area, AccessLevel)>, level: AccessLevel, requirements: map<string, bool>)

  type AccessTable = map<string, Grant>

  /** The access objects for a set of requirements: one per required area,
      under its key, at the given level. */
  function AccessObjects(req: map<string, bool>, level: AccessLevel): (objs: map<string, (Area, AccessLevel)>)
    ensures forall a: Area :: AreaKey(a) in objs <==> Required(req, AreaKey(a))
    ensures forall k :: k in objs ==> objs[k].1 == level && AreaKey(objs[k].0) == k
    ensures objs.Keys <= {"plan_view", "tile_preview", "measurements"}
  {
    var o1 := if Required(req, "plan_view") then map["plan_view" := (PlanView, level)] else map[];
    var o2 := if Required(req, "tile_preview") then o1["tile_preview" := (TilePreview, level)] else o1;
    if Required(req, "measurements") then o2["measurements" := (Measurements, level)] else o2
  }

  /** `grant_access`: records (or replaces) the plugin's grant and returns
      its access objects. */
  function GrantAccess(t: AccessTable, plugin: string, req: map<string, bool>, level: AccessLevel)
    : (res: (AccessTable, map<string, (Area, AccessLevel)>))
    ensures res.0 == t[plugin := Grant(res.1, level, req)]
    ensures res.1 == AccessObjects(req, level)
  {
    var objs := AccessObjects(req, level);
    (t[plugin := Grant(objs, level, req)], objs)
  }

  /** `revoke_access`. */
  function RevokeAccess(t: AccessTable, plugin: string): (t': AccessTable)
    ensures plugin !in t' && forall p :: p != plugin && p in t ==> p in t' && t'[p] == t[p]
    ensures t'.Keys == t.Keys - {plugin}
  {
    t - {plugin}
  }

  /** `get_plugin_access`: the access objects of a plugin's grant, `None`
      for a plugin without one. */
  function PluginAccess(t: AccessTable, plugin: string): (a: Option<map<string, (Area, AccessLevel)>>)
    ensures a.None? <==> plugin !in t
    ensures a.Some? ==> plugin in t && a.value == t[plugin].objects
  {
    if plugin in t then Some(t[plugin].objects) else None
  }

  /** After a grant, the plugin's access is what the grant returned; after a
      revocation it has none; other plugins are unaffected either way. */
  lemma GrantRevokeAccess(t: AccessTable, plugin: string, other: string, req: map<string, bool>, level: AccessLevel)
    requires other != plugin
    ensures var (t1, objs) := GrantAccess(t, plugin, req, level);
      PluginAccess(t1, plugin) == Some(objs) && PluginAccess(t1, other) == PluginAccess(t, other)
    ensures PluginAccess(RevokeAccess(t, plugin), plugin).None?
    ensures PluginAccess(RevokeAccess(t, plugin), other) == PluginAccess(t, other)
  {
  }

  /** A plugin asking for nothing still gets a grant recorded, with no access
      objects. */
  lemma GrantNothing(t: AccessTable, plugin: string, level: AccessLevel)
    ensures GrantAccess(t, plugin, DefaultRequirements(), level).1 == map[]
  {
    var objs := AccessObjects(DefaultRequirements(), level);
    assert forall k :: k in objs ==> AreaKey(objs[k].0) == k && !Required(DefaultRequirements(), k);
  }
}
