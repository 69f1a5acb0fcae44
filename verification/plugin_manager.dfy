/** The plugin manager: which directory entries are taken for plugins, and
    the lifecycle it drives: loading, initialising (hook handlers and
    document access), enabling, disabling, listing and shutting down. What
    the file system holds, whether a plugin's code can be loaded, and what
    the plugin's own `initialize`, `enable` and `disable` answer are inputs. */
module PluginManager {
  import opened Wrappers
  import opened Text
  import opened Paths
  import opened BasePlugin
  import HS = HookSystem
  import Reg = PluginRegistry
  import CA = ContentAccess
  import SP = SnapPlugin

  // ---------------------------------------------------------------------
  // Discovery

  /** An entry of a plugin directory: a file with its text (`None` when it
      cannot be read), a directory with the text of its `__init__.py`
      (`None` when there is none or it cannot be read), or anything else. */
  datatype DirItem =
    | File(name: string, text: Option<string>)
    | Package(name: string, initText: Option<string>)
    | OtherItem(name: string)

  /** `_is_valid_plugin`: readable text mentioning both `BasePlugin` and
      `class`, so an unreadable file is never a plugin and no text shorter
      than "BasePlugin" is one. */
  function IsValidPlugin(text: Option<string>): (b: bool)
    ensures b ==> text.Some? && |text.value| >= |"BasePlugin"|
  {
    text.Some? && Contains(text.value, "BasePlugin") && Contains(text.value, "class")
  }

  /** A class deriving from `BasePlugin` qualifies; an import of it without a
      class does not, and neither does an unreadable file. */
  lemma ValidPluginText()
    ensures IsValidPlugin(Some("class Snap(BasePlugin): pass"))
    ensures !IsValidPlugin(Some("import BasePlugin"))
    ensures !IsValidPlugin(None)
  {
    var s := "class Snap(BasePlugin): pass";
    assert IsWindow(s, "BasePlugin", 11);
    assert IsWindow(s, "class", 0);
    var t := "import BasePlugin";
    forall i | 0 <= i <= |t| - 5
      ensures !IsWindow(t, "class", i)
    {
      assert t[i..i + 5][0] == t[i];
    }
  }

  /** The plugin name an entry is discovered under, if any: a valid `.py`
      file by its stem, a valid package by its name, neither when the name
      starts with an underscore. */
  function Accept(item: DirItem): (name: Option<string>)
    ensures name.Some? ==> !StartsWith(name.value, "_") && !StartsWith(item.name, "_")
    ensures name.Some? && item.File? ==> name.value + ".py" == item.name && IsValidPlugin(item.text)
    ensures name.Some? && item.Package? ==> name.value == item.name && IsValidPlugin(item.initText)
    ensures name.Some? ==> !item.OtherItem?
  {
    if StartsWith(item.name, "_") then None
    else match item
      case File(n, text) =>
        if Suffix(n) == ".py" && IsValidPlugin(text) then
          assert Stem(n) + ".py" == n;
          StemKeepsFirst(n);
          Some(Stem(n))
        else None
      case Package(n, init) => if IsValidPlugin(init) then Some(n) else None
      case OtherItem(_) => None
  }

  /** A stem with a suffix starts with the name's first character. */
  lemma StemKeepsFirst(n: string)
    requires Suffix(n) != []
    ensures |Stem(n)| > 0 && Stem(n)[0] == n[0]
  {
    assert Stem(n) + Suffix(n) == n;
  }

  /** A `.py` file or a package is accepted exactly when its name does not
      start with an underscore and its text is valid; nothing else is. */
  lemma AcceptExactly(item: DirItem)
    ensures item.File? ==>
      (Accept(item).Some? <==> !StartsWith(item.name, "_") && Suffix(item.name) == ".py" && IsValidPlugin(item.text))
    ensures item.Package? ==>
      (Accept(item).Some? <==> !StartsWith(item.name, "_") && IsValidPlugin(item.initText))
    ensures item.OtherItem? ==> Accept(item).None?
  {
  }

  /** The names discovered in one directory, in listing order. */
  function DiscoverDir(items: seq<DirItem>): (names: seq<string>)
    ensures forall n :: n in names <==> exists j :: 0 <= j < |items| && Accept(items[j]) == Some(n)
    ensures |names| <= |items|
  {
    if items == [] then []
    else
      var rest := DiscoverDir(items[1..]);
      assert forall j :: 0 < j < |items| ==> items[j] == items[1..][j - 1];
      match Accept(items[0])
      case Some(n) => [n] + rest
      case None => rest
  }

  /** `discover_plugins`: the names discovered in each existing plugin
      directory, directory by directory. */
  function Discover(dirs: seq<seq<DirItem>>): (names: seq<string>)
    ensures forall n :: n in names <==>
      exists i, j :: 0 <= i < |dirs| && 0 <= j < |dirs[i]| && Accept(dirs[i][j]) == Some(n)
  {
    if dirs == [] then []
    else
      var rest := Discover(dirs[1..]);
      assert forall i :: 0 < i < |dirs| ==> dirs[i] == dirs[1..][i - 1];
      DiscoverDir(dirs[0]) + rest
  }

  /** No discovered name starts with an underscore. */
  lemma DiscoveredNoUnderscore(dirs: seq<seq<DirItem>>, n: string)
    requires n in Discover(dirs)
    ensures !StartsWith(n, "_")
  {
  }

  // ---------------------------------------------------------------------
  // The manager

  /** The manager's state: the loaded plugins by name (`names` keeps the
      order they were loaded in), the registry of their metadata, the hook
      manager and the table of document-access grants. */
  datatype Manager = Manager(
    names: seq<string>,
    plugins: map<string, Plugin>,
    registry: Reg.Registry,
    hooks: HS.Manager,
    access: CA.AccessTable)

  /** `names` lists each loaded plugin once; the registry and the hook
      manager are consistent. */
  predicate Valid(m: Manager) {
    Reg.Distinct(m.names) && Reg.Elems(m.names) == m.plugins.Keys
    && Reg.Valid(m.registry) && HS.Valid(m.hooks)
  }

  /** A new manager: nothing loaded. */
  function NewManager(): (m: Manager)
    ensures Valid(m) && m.names == [] && m.plugins == map[] && m.access == map[]
  {
    Manager([], map[], Reg.Empty(), HS.NewManager(), map[])
  }

  /** `load_plugin`. `found` is the plugin created from the plugin's code,
      `None` when no file is found, the code has no plugin class or the
      instance is no plugin. A plugin already loaded is left as it is. */
  function LoadPlugin(m: Manager, name: string, found: Option<Plugin>): (res: (Manager, bool))
    requires Valid(m)
    ensures Valid(res.0)
    ensures name in m.plugins ==> res == (m, true)
    ensures name !in m.plugins && found.None? ==> res == (m, false)
    ensures name !in m.plugins && found.Some? ==>
      res.1 && res.0.plugins == m.plugins[name := found.value] && res.0.names == m.names + [name]
      && res.0.registry == Reg.Register(m.registry, found.value.info)
      && res.0.hooks == m.hooks && res.0.access == m.access
  {
    if name in m.plugins then (m, true)
    else if found.None? then (m, false)
    else
      var m' := m.(names := m.names + [name], plugins := m.plugins[name := found.value],
                   registry := Reg.Register(m.registry, found.value.info));
      assert Reg.Elems(m'.names) == Reg.Elems(m.names) + {name};
      (m', true)
  }

  /** Loading twice is loading once. */
  lemma LoadIdempotent(m: Manager, name: string, found: Option<Plugin>, again: Option<Plugin>)
    requires Valid(m)
    ensures var (m1, ok1) := LoadPlugin(m, name, found);
      ok1 ==> LoadPlugin(m1, name, again) == (m1, true)
  {
  }

  /** The access level for a plugin's requirements: full control for
      transformations, read-write for measurements or the tile preview,
      read-only otherwise. */
  function ChooseLevel(req: map<string, bool>): (level: CA.AccessLevel)
    ensures level == CA.FullControl <==> Required(req, "transformations")
    ensures level == CA.ReadWrite <==>
      !Required(req, "transformations") && (Required(req, "measurements") || Required(req, "tile_preview"))
    ensures CA.CanWrite(level) <==>
      Required(req, "transformations") || Required(req, "measurements") || Required(req, "tile_preview")
  {
    if Required(req, "transformations") then CA.FullControl
    else if Required(req, "measurements") || Required(req, "tile_preview") then CA.ReadWrite
    else CA.ReadOnly
  }

  /** The hook manager after registering each handler under the plugin's
      name, in order. */
  function RegisterAll(h: HS.Manager, handlers: seq<HS.HookHandler>, plugin: string): (r: HS.Manager)
    requires HS.Valid(h)
    ensures HS.Valid(r)
    ensures handlers == [] ==> r == h
    decreases |handlers|
  {
    if handlers == [] then h
    else RegisterAll(HS.Register(h, handlers[0], plugin), handlers[1..], plugin)
  }

  /** Registering more handlers keeps every registration already made. */
  lemma {:induction false} RegisterAllKeeps(h: HS.Manager, handlers: seq<HS.HookHandler>, plugin: string,
                                            t: HS.HookType, e: HS.Entry)
    requires HS.Valid(h) && e in HS.List(h, t)
    ensures e in HS.List(RegisterAll(h, handlers, plugin), t)
    decreases |handlers|
  {
    if handlers != [] {
      HS.RegisterKeeps(h, handlers[0], plugin, t, e);
      RegisterAllKeeps(HS.Register(h, handlers[0], plugin), handlers[1..], plugin, t, e);
    }
  }

  /** After registering a plugin's handlers, the plugin is listed for every
      hook one of them supports. */
  lemma {:induction false} RegisterAllListed(h: HS.Manager, handlers: seq<HS.HookHandler>, plugin: string,
                                             i: nat, t: HS.HookType)
    requires HS.Valid(h) && i < |handlers| && t in handlers[i].hooks
    ensures plugin in HS.Handlers(RegisterAll(h, handlers, plugin), t)
    decreases |handlers|
  {
    var h1 := HS.Register(h, handlers[0], plugin);
    if i == 0 {
      HS.RegisteredIsListed(h, handlers[0], plugin, t);
      var e :| e in HS.List(h1, t) && e.plugin == plugin;
      RegisterAllKeeps(h1, handlers[1..], plugin, t, e);
    } else {
      RegisterAllListed(h1, handlers[1..], plugin, i - 1, t);
    }
  }

  /** `initialize_plugin`. `initOk` is the plugin's own answer (false also
      when it raised). On success the plugin is marked initialised, its hook
      handlers are registered under its name and, when it requires any
      access, it is granted access at the level its requirements call for. */
  function InitializePlugin(m: Manager, name: string, initOk: bool): (res: (Manager, bool))
    requires Valid(m)
    ensures Valid(res.0)
    ensures res.1 <==> name in m.plugins && initOk
    ensures !res.1 ==> res.0 == m
    ensures res.1 ==> (res.0.names == m.names && res.0.registry == m.registry
      && res.0.plugins == m.plugins[name := m.plugins[name].(initialized := true)]
      && res.0.hooks == RegisterAll(m.hooks, m.plugins[name].handlers, name))
    ensures res.1 && AnyRequired(m.plugins[name].requirements) ==>
      name in res.0.access && res.0.access[name].level == ChooseLevel(m.plugins[name].requirements)
      && res.0.access[name].requirements == m.plugins[name].requirements
    ensures res.1 && !AnyRequired(m.plugins[name].requirements) ==> res.0.access == m.access
  {
    if name !in m.plugins || !initOk then (m, false)
    else
      var p := m.plugins[name];
      var hooks := RegisterAll(m.hooks, p.handlers, name);
      var access := if AnyRequired(p.requirements)
        then CA.GrantAccess(m.access, name, p.requirements, ChooseLevel(p.requirements)).0
        else m.access;
      var m' := m.(plugins := m.plugins[name := p.(initialized := true)], hooks := hooks, access := access);
      assert Reg.Elems(m'.names) == m'.plugins.Keys;
      (m', true)
  }

  /** Once initialised, a plugin is listed for every hook its handlers
      support. */
  lemma InitializedHandlersListed(m: Manager, name: string, i: nat, t: HS.HookType)
    requires Valid(m) && name in m.plugins
    requires i < |m.plugins[name].handlers| && t in m.plugins[name].handlers[i].hooks
    ensures name in HS.Handlers(InitializePlugin(m, name, true).0.hooks, t)
  {
    RegisterAllListed(m.hooks, m.plugins[name].handlers, name, i, t);
  }

  /** `enable_plugin`: an uninitialised plugin is initialised first, and an
      initialisation that fails fails the enabling; then the plugin's own
      answer `enableOk` decides. */
  function EnablePlugin(m: Manager, name: string, initOk: bool, enableOk: bool): (res: (Manager, bool))
    requires Valid(m)
    ensures Valid(res.0)
    ensures name !in m.plugins ==> res == (m, false)
    ensures res.1 <==> name in m.plugins && (m.plugins[name].initialized || initOk) && enableOk
    ensures res.1 ==> name in res.0.plugins && res.0.plugins[name].initialized && res.0.plugins[name].enabled
    ensures res.0.names == m.names && res.0.registry == m.registry
  {
    if name !in m.plugins then (m, false)
    else
      var (m1, ok) := if m.plugins[name].initialized then (m, true) else InitializePlugin(m, name, initOk);
      if !ok then (m1, false)
      else if enableOk then
        var m2 := m1.(plugins := m1.plugins[name := m1.plugins[name].(enabled := true)]);
        assert Reg.Elems(m2.names) == m2.plugins.Keys;
        (m2, true)
      else (m1, false)
  }

  /** `disable_plugin`: the plugin's own answer `disableOk` decides. */
  function DisablePlugin(m: Manager, name: string, disableOk: bool): (res: (Manager, bool))
    requires Valid(m)
    ensures Valid(res.0)
    ensures res.1 <==> name in m.plugins && disableOk
    ensures !res.1 ==> res.0 == m
    ensures res.1 ==> res.0.plugins == m.plugins[name := m.plugins[name].(enabled := false)]
    ensures res.0.names == m.names && res.0.hooks == m.hooks && res.0.access == m.access
  {
    if name !in m.plugins || !disableOk then (m, false)
    else
      var m' := m.(plugins := m.plugins[name := m.plugins[name].(enabled := false)]);
      assert Reg.Elems(m'.names) == m'.plugins.Keys;
      (m', true)
  }

  /** The names among `names` whose plugin is enabled, in order. */
  function EnabledAmong(names: seq<string>, plugins: map<string, Plugin>): (r: seq<string>)
    ensures forall n :: n in r <==> n in names && n in plugins && plugins[n].enabled
    ensures |r| <= |names|
  {
    if names == [] then []
    else
      var rest := EnabledAmong(names[1..], plugins);
      if names[0] in plugins && plugins[names[0]].enabled then [names[0]] + rest else rest
  }

  /** `get_enabled_plugins`: the loaded plugins that are enabled, in load
      order. */
  function GetEnabledPlugins(m: Manager): (r: seq<string>)
    requires Valid(m)
    ensures forall n :: n in r <==> n in m.plugins && m.plugins[n].enabled
  {
    EnabledAmong(m.names, m.plugins)
  }

  /** After a successful enabling the plugin is listed; after a successful
      disabling it is not, and nothing else changes in the list. */
  lemma EnableDisableListed(m: Manager, name: string, initOk: bool, enableOk: bool, disableOk: bool)
    requires Valid(m)
    ensures EnablePlugin(m, name, initOk, enableOk).1 ==>
      name in GetEnabledPlugins(EnablePlugin(m, name, initOk, enableOk).0)
    ensures DisablePlugin(m, name, disableOk).1 ==>
      name !in GetEnabledPlugins(DisablePlugin(m, name, disableOk).0)
    ensures forall n :: n != name ==>
      (n in GetEnabledPlugins(DisablePlugin(m, name, disableOk).0) <==> n in GetEnabledPlugins(m))
  {
  }

  /** `get_plugin_info`: the metadata of a loaded plugin. */
  function GetPluginInfo(m: Manager, name: string): (info: Option<PluginInfo>)
    ensures info.Some? <==> name in m.plugins
    ensures info.Some? ==> info.value == m.plugins[name].info
  {
    if name in m.plugins then Some(m.plugins[name].info) else None
  }

  /** Whether a cleanup `c` — a handler and the plugin name it was registered
      under — takes entry `e` out of hook `h`'s list. */
  predicate Removes(c: (HS.HookHandler, string), h: HS.HookType, e: HS.Entry) {
    h in c.0.hooks && e.handler == c.0.id && e.plugin == c.1
  }

  /** The plugins' `cleanup` code, run in turn: each cleanup unregisters its
      handler under the name it gives. An entry survives exactly when no
      cleanup takes it out. */
  function CleanUp(hooks: HS.Manager, cleanups: seq<(HS.HookHandler, string)>): (r: HS.Manager)
    requires HS.Valid(hooks)
    ensures HS.Valid(r) && r.stats == hooks.stats
    ensures forall h, e :: e in HS.List(r, h) <==>
      e in HS.List(hooks, h) && forall k :: 0 <= k < |cleanups| ==> !Removes(cleanups[k], h, e)
    decreases |cleanups|
  {
    if cleanups == [] then hooks
    else
      var u := HS.Unregister(hooks, cleanups[0].0, cleanups[0].1);
      var r := CleanUp(u, cleanups[1..]);
      assert forall h, e :: e in HS.List(u, h) <==> e in HS.List(hooks, h) && !Removes(cleanups[0], h, e);
      assert forall k :: 1 <= k < |cleanups| ==> cleanups[k] == cleanups[1..][k - 1];
      r
  }

  /** `shutdown`: every plugin is disabled and its own `cleanup` runs, then
      the manager forgets all plugins. Plugin code is not part of the model:
      `cleanups` are the handler registrations that the plugins' cleanup code
      takes out (the snap plugin's takes out its handler under "snap"). The
      registry and the access grants are not touched. */
  function Shutdown(m: Manager, cleanups: seq<(HS.HookHandler, string)>): (m': Manager)
    requires Valid(m)
    ensures Valid(m') && m'.plugins == map[] && m'.names == []
    ensures m'.registry == m.registry && m'.access == m.access && m'.hooks.stats == m.hooks.stats
    ensures forall h, e :: e in HS.List(m'.hooks, h) <==>
      e in HS.List(m.hooks, h) && forall k :: 0 <= k < |cleanups| ==> !Removes(cleanups[k], h, e)
  {
    m.(names := [], plugins := map[], hooks := CleanUp(m.hooks, cleanups))
  }

  /** When the snap plugin's cleanup is among them, shutdown leaves no entry
      of its handler under "snap" on any hook, and the entry the manager
      registered under the plugin's own name stays. */
  lemma ShutdownUnregistersSnap(m: Manager, id: nat, name: string, before: seq<(HS.HookHandler, string)>,
                                after: seq<(HS.HookHandler, string)>, h: HS.HookType, e: HS.Entry)
    requires Valid(m) && h in SP.SnapHandler(id).hooks && e.handler == id
    requires forall k :: 0 <= k < |before| ==> before[k].1 != name
    requires forall k :: 0 <= k < |after| ==> after[k].1 != name
    requires name != "snap"
    ensures var m' := Shutdown(m, before + [(SP.SnapHandler(id), "snap")] + after);
      (e.plugin == "snap" ==> e !in HS.List(m'.hooks, h))
      && (e.plugin == name ==> (e in HS.List(m'.hooks, h) <==> e in HS.List(m.hooks, h)))
  {
    var cs := before + [(SP.SnapHandler(id), "snap")] + after;
    assert cs[|before|] == (SP.SnapHandler(id), "snap");
    if e.plugin == name {
      forall k | 0 <= k < |cs|
        ensures !Removes(cs[k], h, e)
      {
        if k < |before| {
          assert cs[k] == before[k];
        } else if k > |before| {
          assert cs[k] == after[k - |before| - 1];
        }
      }
    }
  }

  /** After shutdown no plugin is enabled and no plugin can be enabled or
      initialised until it is loaded again. */
  lemma ShutdownForgets(m: Manager, cleanups: seq<(HS.HookHandler, string)>, name: string, initOk: bool, enableOk: bool)
    requires Valid(m)
    ensures GetEnabledPlugins(Shutdown(m, cleanups)) == []
    ensures !EnablePlugin(Shutdown(m, cleanups), name, initOk, enableOk).1
    ensures !InitializePlugin(Shutdown(m, cleanups), name, initOk).1
  {
  }

  // ---------------------------------------------------------------------
  // Access levels and plan-view reading

  /** The built-in snap plugin's requirements: plan view, document data and
      measurements. */
  function SnapRequirements(): (req: map<string, bool>)
    ensures req.Keys == AccessKeys
    ensures Required(req, "plan_view") && Required(req, "measurements") && !Required(req, "transformations")
  {
    map["plan_view" := true, "tile_preview" := false, "document_data" := true,
        "metadata" := false, "measurements" := true, "transformations" := false]
  }

  /** Every plugin that asks for the plan view together with measurements,
      the tile preview or transformations is granted a level above read-only,
      at which the plan view's image is withheld as written; the snap plugin
      is one. */
  lemma WriterCannotReadAsWritten<I>(req: map<string, bool>, img: I)
    requires Required(req, "plan_view")
    requires Required(req, "measurements") || Required(req, "tile_preview") || Required(req, "transformations")
    ensures CA.ContentImageAsWritten(ChooseLevel(req), Some(img)).None?
    ensures CA.ContentImage(ChooseLevel(req), Some(img)) == Some(img)
  {
  }

  /** The snap plugin is granted read-write access and so, as written, never
      gets the plan view's image. */
  lemma SnapCannotReadAsWritten<I>(img: I)
    ensures ChooseLevel(SnapRequirements()) == CA.ReadWrite
    ensures CA.ContentImageAsWritten(ChooseLevel(SnapRequirements()), Some(img)).None?
  {
    WriterCannotReadAsWritten(SnapRequirements(), img);
  }
}
