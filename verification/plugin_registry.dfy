/** The plugin registry: the metadata of every registered plugin, what each
    plugin depends on and what depends on it, the check for missing
    dependencies, the load order that puts dependencies first, the search by
    category and the counts it reports. Exporting to and importing from JSON
    are left out. */
module PluginRegistry {
  import opened Text
  import opened Wrappers
  import opened BasePlugin

  /** The registry's three tables. `names` is the order in which plugins were
      first registered, the order in which the source's dictionary lists
      them. */
  datatype Registry = Registry(
    names: seq<string>,
    plugins: map<string, PluginInfo>,
    dependencies: map<string, set<string>>,
    dependents: map<string, set<string>>)

  predicate Distinct<T(==)>(s: seq<T>) {
    forall i, j :: 0 <= i < j < |s| ==> s[i] != s[j]
  }

  function Elems<T>(s: seq<T>): set<T> {
    set x | x in s
  }

  /** `names` lists each registered plugin once. */
  predicate Valid(r: Registry) {
    Distinct(r.names) && (forall n :: n in r.names ==> n in r.plugins) && (forall n :: n in r.plugins ==> n in r.names)
  }

  /** A new registry. */
  function Empty(): (r: Registry)
    ensures Valid(r) && r.plugins == map[] && r.dependencies == map[] && r.dependents == map[]
  {
    Registry([], map[], map[], map[])
  }

  /** `get_dependencies`: the recorded dependencies, none if there is no
      record. In a linked registry the plugin is among the dependents of
      each. */
  function Dependencies(r: Registry, name: string): (deps: set<string>)
    ensures name !in r.dependencies ==> deps == {}
    ensures name in r.dependencies ==> deps == r.dependencies[name]
    ensures Linked(r) ==> forall d :: d in deps ==> name in Dependents(r, d)
  {
    if name in r.dependencies then r.dependencies[name] else {}
  }

  /** `get_dependents`: the recorded dependents, none if there is no
      record. */
  function Dependents(r: Registry, name: string): (ds: set<string>)
    ensures name !in r.dependents ==> ds == {}
    ensures name in r.dependents ==> ds == r.dependents[name]
  {
    if name in r.dependents then r.dependents[name] else {}
  }

  /** The dependencies a plugin's metadata declares; `None` and the empty
      list declare none. */
  function Declared(info: PluginInfo): set<string> {
    if info.dependencies.Some? then Elems(info.dependencies.value) else {}
  }

  /** Every recorded dependency is linked back: the dependency has the plugin
      among its dependents. */
  predicate Linked(r: Registry) {
    forall p, d :: p in r.dependencies && d in r.dependencies[p] ==> p in Dependents(r, d)
  }

  // ---------------------------------------------------------------------
  // Registering and unregistering

  /** `register_plugin`: the metadata is stored under the plugin's name. A
      non-empty dependency list replaces the recorded dependencies and adds
      the plugin to each dependency's dependents; with no dependencies the
      earlier records, if any, stay as they were. */
  function Register(r: Registry, info: PluginInfo): (r': Registry)
    requires Valid(r)
    ensures Valid(r')
    ensures r'.plugins == r.plugins[info.name := info]
    ensures info.name in r.plugins ==> r'.names == r.names
    ensures info.name !in r.plugins ==> r'.names == r.names + [info.name]
    ensures Declared(info) == {} ==> r'.dependencies == r.dependencies && r'.dependents == r.dependents
    ensures Declared(info) != {} ==> r'.dependencies == r.dependencies[info.name := Declared(info)]
    ensures forall d :: Dependents(r', d) == Dependents(r, d) + (if d in Declared(info) then {info.name} else {})
  {
    var n := info.name;
    var names := if n in r.plugins then r.names else r.names + [n];
    var ds := Declared(info);
    var r' := if ds == {} then r.(names := names, plugins := r.plugins[n := info])
      else
        Registry(names, r.plugins[n := info], r.dependencies[n := ds],
                 map d | d in r.dependents.Keys + ds :: Dependents(r, d) + (if d in ds then {n} else {}));
    assert forall d :: Dependents(r', d) == Dependents(r, d) + (if d in ds then {n} else {});
    r'
  }

  /** Registering keeps every recorded dependency linked back. */
  lemma RegisterLinked(r: Registry, info: PluginInfo)
    requires Valid(r) && Linked(r)
    ensures Linked(Register(r, info))
  {
    var r' := Register(r, info);
    forall p, d | p in r'.dependencies && d in r'.dependencies[p]
      ensures p in Dependents(r', d)
    {
      if p != info.name || Declared(info) == {} {
        assert p in r.dependencies && d in r.dependencies[p];
      }
    }
  }

  /** `names` without `n`. */
  function Without(names: seq<string>, n: string): (r: seq<string>)
    ensures forall x :: x in r <==> x in names && x != n
    ensures Distinct(names) ==> Distinct(r)
  {
    if names == [] then []
    else if names[0] == n then Without(names[1..], n)
    else
      var rest := Without(names[1..], n);
      assert Distinct(names) ==> names[0] !in names[1..];
      [names[0]] + rest
  }

  /** `unregister_plugin`: the plugin's metadata, its dependency record and
      its dependents record are dropped, and it is taken out of the
      dependents of each plugin it depended on. */
  function Unregister(r: Registry, name: string): (r': Registry)
    requires Valid(r)
    ensures Valid(r')
    ensures name !in r'.plugins && name !in r'.dependencies && name !in r'.dependents
    ensures r'.plugins == r.plugins - {name} && r'.names == Without(r.names, name)
    ensures forall p :: p in r.dependencies && p != name ==> p in r'.dependencies && r'.dependencies[p] == r.dependencies[p]
    ensures forall d :: d != name && d in Dependencies(r, name) ==> Dependents(r', d) == Dependents(r, d) - {name}
    ensures forall d :: d != name && d !in Dependencies(r, name) ==> Dependents(r', d) == Dependents(r, d)
  {
    var deps := Dependencies(r, name);
    var dependents := map d | d in r.dependents :: if d in deps then r.dependents[d] - {name} else r.dependents[d];
    Registry(Without(r.names, name), r.plugins - {name}, r.dependencies - {name}, dependents - {name})
  }

  /** Unregistering a plugin no other plugin depends on keeps every
      recorded dependency linked back. */
  lemma UnregisterLinked(r: Registry, name: string)
    requires Valid(r) && Linked(r)
    requires forall p :: p in r.dependencies && p != name ==> name !in r.dependencies[p]
    ensures Linked(Unregister(r, name))
  {
    var r' := Unregister(r, name);
    forall p, d | p in r'.dependencies && d in r'.dependencies[p]
      ensures p in Dependents(r', d)
    {
      assert p in r.dependencies && d in r.dependencies[p];
    }
  }

  /** Registering a plugin without dependencies that was not registered and
      unregistering it again gives the registry back, when nothing depended
      on it and no record for it was left behind. */
  lemma RegisterUnregister(r: Registry, info: PluginInfo)
    requires Valid(r) && info.name !in r.plugins && Declared(info) == {}
    requires info.name !in r.dependencies && info.name !in r.dependents
    ensures Unregister(Register(r, info), info.name) == r
  {
    var n := info.name;
    RegisterNoDeps(r, info);
    var r1 := r.(names := r.names + [n], plugins := r.plugins[n := info]);
    UnregisterNoRecords(r1, n);
    WithoutAbsent(r.names, n);
    WithoutLast(r.names, n);
    var u := Unregister(r1, n);
    assert u.names == r.names;
    assert u.plugins == r.plugins by {
      assert r1.plugins - {n} == r.plugins;
    }
    assert u.dependencies == r.dependencies && u.dependents == r.dependents;
  }

  /** Registering a new plugin without dependencies only adds its name and
      metadata. */
  lemma RegisterNoDeps(r: Registry, info: PluginInfo)
    requires Valid(r) && info.name !in r.plugins && Declared(info) == {}
    ensures Register(r, info) == r.(names := r.names + [info.name], plugins := r.plugins[info.name := info])
  {
  }

  /** Unregistering a plugin with no dependency or dependents record only
      drops its name and metadata. */
  lemma UnregisterNoRecords(r: Registry, n: string)
    requires Valid(r) && n !in r.dependencies && n !in r.dependents
    ensures Unregister(r, n) == r.(names := Without(r.names, n), plugins := r.plugins - {n})
  {
    var r' := Unregister(r, n);
    assert r'.dependencies == r.dependencies;
    assert r'.dependents == r.dependents;
  }

  lemma {:induction false} WithoutAbsent(names: seq<string>, n: string)
    requires n !in names
    ensures Without(names, n) == names
  {
    if names != [] {
      WithoutAbsent(names[1..], n);
      assert [names[0]] + names[1..] == names;
    }
  }

  lemma {:induction false} WithoutLast(names: seq<string>, n: string)
    ensures Without(names + [n], n) == Without(names, n)
  {
    if names == [] {
      assert [n][1..] == [];
    } else {
      assert (names + [n])[1..] == names[1..] + [n];
      WithoutLast(names[1..], n);
    }
  }

  // ---------------------------------------------------------------------
  // Missing dependencies

  /** `check_dependencies`: the declared dependencies that are not available,
      each once, in no particular order. */
  method CheckDependencies(r: Registry, name: string, available: set<string>) returns (missing: seq<string>)
    ensures Distinct(missing)
    ensures forall d :: d in missing <==> d in Dependencies(r, name) && d !in available
  {
    var todo := Dependencies(r, name);
    missing := [];
    while todo != {}
      invariant todo <= Dependencies(r, name)
      invariant Distinct(missing)
      invariant forall d :: d in missing <==> d in Dependencies(r, name) - todo && d !in available
      decreases |todo|
    {
      var d :| d in todo;
      if d !in available {
        missing := missing + [d];
      }
      todo := todo - {d};
    }
  }

  // ---------------------------------------------------------------------
  // Load order

  /** A dependency edge inside the set of plugins being ordered: plugin `p`
      records `d` as a dependency and `d` is among them. */
  predicate Edge(r: Registry, s: set<string>, p: string, d: string) {
    d in Dependencies(r, p) && d in s
  }

  /** A walk along dependency edges. */
  predicate IsPath(r: Registry, s: set<string>, c: seq<string>) {
    forall i :: 0 <= i < |c| - 1 ==> Edge(r, s, c[i], c[i + 1])
  }

  /** A circular dependency among the plugins of `s`. */
  ghost predicate HasCycle(r: Registry, s: set<string>) {
    exists c :: IsPath(r, s, c) && |c| > 0 && Elems(c) <= s && Edge(r, s, c[|c| - 1], c[0])
  }

  /** Every dependency inside `s` comes before its dependent. */
  predicate DependenciesFirst(r: Registry, s: set<string>, order: seq<string>) {
    forall i, j :: 0 <= i < |order| && 0 <= j < |order| && Edge(r, s, order[j], order[i]) ==> i < j
  }

  /** The depth-first search's result so far: distinct plugins of `s`, each
      after all of its dependencies inside `s`. */
  ghost predicate Finished(r: Registry, s: set<string>, res: seq<string>) {
    && Distinct(res) && Elems(res) <= s
    && forall i, d :: 0 <= i < |res| && Edge(r, s, res[i], d) ==> d in res[..i]
  }

  /** The inner `visit` of `get_load_order`. `stack` is the chain of plugins
      being visited (the source's `temp_visited`, in visiting order); the
      plugins already in `res` are the source's `visited`. A plugin met again
      while on the chain raises the circular-dependency error, returned here
      as `cyc`. */
  method Visit(r: Registry, s: set<string>, stack: seq<string>, p: string, res: seq<string>)
    returns (cyc: bool, res': seq<string>)
    requires p in s && Chain(r, s, stack)
    requires stack != [] ==> Edge(r, s, stack[|stack| - 1], p)
    requires Finished(r, s, res) && Elems(stack) !! Elems(res)
    ensures cyc ==> HasCycle(r, s)
    ensures !cyc ==> Finished(r, s, res') && p in res' && res <= res' && Elems(stack) !! Elems(res')
    decreases |s - Elems(stack)|, 1
  {
    if p in stack {
      var j :| 0 <= j < |stack| && stack[j] == p;
      CycleOnStack(r, s, stack, j);
      return true, res;
    }
    if p in res {
      return false, res;
    }
    cyc, res' := VisitDependencies(r, s, stack, p, res);
    if !cyc {
      FinishedAppend(r, s, res', p);
      res' := res' + [p];
    }
  }

  /** The loop of `visit` over the dependencies of `p`, with `p` pushed on the
      chain: every dependency inside `s` ends up finished, unless a cycle is
      met on the way. */
  method VisitDependencies(r: Registry, s: set<string>, stack: seq<string>, p: string, res: seq<string>)
    returns (cyc: bool, res': seq<string>)
    requires p in s && p !in stack && p !in res && Chain(r, s, stack)
    requires stack != [] ==> Edge(r, s, stack[|stack| - 1], p)
    requires Finished(r, s, res) && Elems(stack) !! Elems(res)
    ensures cyc ==> HasCycle(r, s)
    ensures !cyc ==> Finished(r, s, res') && res <= res' && p !in res' && Elems(stack) !! Elems(res')
    ensures !cyc ==> forall d :: Edge(r, s, p, d) ==> d in res'
    decreases |s - Elems(stack)|, 0
  {
    var stack' := stack + [p];
    Push(r, s, stack, p);
    var todo := Dependencies(r, p);
    res' := res;
    while todo != {}
      invariant todo <= Dependencies(r, p)
      invariant Finished(r, s, res') && res <= res' && Elems(stack') !! Elems(res')
      invariant forall d :: d in Dependencies(r, p) - todo && d in s ==> d in res'
      decreases |todo|
    {
      var d :| d in todo;
      todo := todo - {d};
      if d in s {
        var c;
        c, res' := Visit(r, s, stack', d, res');
        if c {
          return true, res';
        }
      }
    }
    assert p in Elems(stack');
    cyc := false;
  }

  /** A chain of visits: distinct plugins of `s`, each a dependency of the
      one before. */
  ghost predicate Chain(r: Registry, s: set<string>, stack: seq<string>) {
    Elems(stack) <= s && IsPath(r, s, stack) && Distinct(stack)
  }

  /** Visiting a dependency of the last plugin of a chain, not yet on it,
      extends the chain and leaves fewer plugins off it. */
  lemma Push(r: Registry, s: set<string>, stack: seq<string>, p: string)
    requires p in s && Chain(r, s, stack) && p !in stack
    requires stack != [] ==> Edge(r, s, stack[|stack| - 1], p)
    ensures Chain(r, s, stack + [p]) && (stack + [p])[|stack|] == p
    ensures Elems(stack + [p]) == Elems(stack) + {p}
    ensures |s - Elems(stack + [p])| < |s - Elems(stack)|
  {
    var t := stack + [p];
    assert Elems(t) == Elems(stack) + {p};
    assert s - Elems(t) < s - Elems(stack) by {
      assert p in s - Elems(stack) && p !in s - Elems(t);
    }
    PushPath(r, s, stack, p);
    assert Distinct(t) by {
      forall i, j | 0 <= i < j < |t|
        ensures t[i] != t[j]
      {
        if j < |stack| {
          assert t[i] == stack[i] && t[j] == stack[j];
        } else {
          assert t[i] == stack[i] && t[j] == p;
        }
      }
    }
  }

  /** Appending a dependency of the last plugin of a walk extends the walk. */
  lemma PushPath(r: Registry, s: set<string>, stack: seq<string>, p: string)
    requires IsPath(r, s, stack)
    requires stack != [] ==> Edge(r, s, stack[|stack| - 1], p)
    ensures IsPath(r, s, stack + [p])
  {
    var t := stack + [p];
    forall i | 0 <= i < |t| - 1
      ensures Edge(r, s, t[i], t[i + 1])
    {
      if i < |stack| - 1 {
        assert t[i] == stack[i] && t[i + 1] == stack[i + 1];
      }
    }
  }

  /** Meeting `stack[j]` again closes the cycle `stack[j..]`. */
  lemma CycleOnStack(r: Registry, s: set<string>, stack: seq<string>, j: nat)
    requires j < |stack| && Chain(r, s, stack)
    requires Edge(r, s, stack[|stack| - 1], stack[j])
    ensures HasCycle(r, s)
  {
    var c := stack[j..];
    assert IsPath(r, s, c) by {
      forall i | 0 <= i < |c| - 1
        ensures Edge(r, s, c[i], c[i + 1])
      {
        assert c[i] == stack[j + i] && c[i + 1] == stack[j + i + 1];
      }
    }
    assert c[|c| - 1] == stack[|stack| - 1];
    assert Elems(c) <= s;
  }

  /** A plugin whose dependencies inside `s` are all finished can follow
      them. */
  lemma FinishedAppend(r: Registry, s: set<string>, res: seq<string>, p: string)
    requires Finished(r, s, res) && p in s && p !in res
    requires forall d :: Edge(r, s, p, d) ==> d in res
    ensures Finished(r, s, res + [p])
  {
    var res' := res + [p];
    forall i, d | 0 <= i < |res'| && Edge(r, s, res'[i], d)
      ensures d in res'[..i]
    {
      if i < |res| {
        assert res'[..i] == res[..i];
      } else {
        assert res'[..i] == res;
      }
    }
  }

  /** `get_load_order`: the plugins named, each once, dependencies first,
      looking only at dependencies among the plugins named; the names as
      given when the dependencies among them are circular. */
  method GetLoadOrder(r: Registry, names: seq<string>) returns (order: seq<string>)
    ensures HasCycle(r, Elems(names)) ==> order == names
    ensures !HasCycle(r, Elems(names)) ==>
      Distinct(order) && Elems(order) == Elems(names) && DependenciesFirst(r, Elems(names), order)
  {
    var s := Elems(names);
    var res: seq<string> := [];
    var i := 0;
    while i < |names|
      invariant i <= |names|
      invariant Finished(r, s, res)
      invariant forall k :: 0 <= k < i ==> names[k] in res
    {
      if names[i] !in res {
        var cyc;
        cyc, res := Visit(r, s, [], names[i], res);
        if cyc {
          return names;
        }
      }
      i := i + 1;
    }
    assert Elems(res) == s;
    FinishedOrdersAll(r, s, res);
    FinishedHasNoCycle(r, s, res);
    return res;
  }

  /** Where `x` is in `res`. */
  function Pos(res: seq<string>, x: string): (k: nat)
    requires x in res
    ensures k < |res| && res[k] == x
  {
    if res[0] == x then 0 else 1 + Pos(res[1..], x)
  }

  /** In a list without repeats, an element found before `i` sits before
      `i`. */
  lemma PosBefore(res: seq<string>, x: string, i: nat)
    requires Distinct(res) && i <= |res| && x in res[..i]
    ensures Pos(res, x) < i
  {
    var j :| 0 <= j < i && res[..i][j] == x;
    assert res[j] == x;
  }

  /** The finished list puts every dependency first. */
  lemma FinishedOrdersAll(r: Registry, s: set<string>, res: seq<string>)
    requires Finished(r, s, res)
    ensures DependenciesFirst(r, s, res)
  {
    forall i, j | 0 <= i < |res| && 0 <= j < |res| && Edge(r, s, res[j], res[i])
      ensures i < j
    {
      PosBefore(res, res[i], j);
      assert res[Pos(res, res[i])] == res[i];
    }
  }

  /** Plugins that can all be finished have no circular dependency: along a
      cycle each plugin would have to come before the previous one. */
  lemma FinishedHasNoCycle(r: Registry, s: set<string>, res: seq<string>)
    requires Finished(r, s, res) && s <= Elems(res)
    ensures !HasCycle(r, s)
  {
    if HasCycle(r, s) {
      var c :| IsPath(r, s, c) && |c| > 0 && Elems(c) <= s && Edge(r, s, c[|c| - 1], c[0]);
      FinishedOrdersAll(r, s, res);
      PathDescends(r, s, res, c, |c| - 1);
      assert false;
    }
  }

  /** Along a path the positions in a finished list go down. */
  lemma {:induction false} PathDescends(r: Registry, s: set<string>, res: seq<string>, c: seq<string>, k: nat)
    requires DependenciesFirst(r, s, res) && Distinct(res)
    requires IsPath(r, s, c) && k < |c| && Elems(c) <= Elems(res)
    ensures c[0] in res && c[k] in res && Pos(res, c[k]) <= Pos(res, c[0])
  {
    assert c[0] in Elems(c) && c[k] in Elems(c);
    if k > 0 {
      PathDescends(r, s, res, c, k - 1);
      assert Edge(r, s, c[k - 1], c[k]);
      var a, b := Pos(res, c[k]), Pos(res, c[k - 1]);
      assert res[a] == c[k] && res[b] == c[k - 1];
    }
  }

  // ---------------------------------------------------------------------
  // Search and statistics

  /** A plugin matches a category when the category, without case, occurs in
      its description or its name. */
  predicate CategoryMatch(category: string, name: string, info: PluginInfo) {
    Contains(Lower(info.description), Lower(category)) || Contains(Lower(name), Lower(category))
  }

  /** The names of `names` whose plugins match, in order. */
  function Matching(names: seq<string>, plugins: map<string, PluginInfo>, category: string): (found: seq<string>)
    requires forall n :: n in names ==> n in plugins
    ensures forall n :: n in found <==> n in names && CategoryMatch(category, n, plugins[n])
    ensures Distinct(names) ==> Distinct(found)
  {
    if names == [] then []
    else
      var rest := Matching(names[1..], plugins, category);
      if CategoryMatch(category, names[0], plugins[names[0]]) then [names[0]] + rest else rest
  }

  /** `find_plugins_by_category`: the registered plugins matching the
      category, in registration order. */
  function FindByCategory(r: Registry, category: string): (found: seq<string>)
    requires Valid(r)
    ensures Distinct(found)
    ensures forall n :: n in found <==> n in r.plugins && CategoryMatch(category, n, r.plugins[n])
  {
    Matching(r.names, r.plugins, category)
  }

  /** The empty category matches every plugin. */
  lemma EmptyCategoryFindsAll(r: Registry)
    requires Valid(r)
    ensures FindByCategory(r, "") == r.names
  {
    MatchAll(r.names, r.plugins);
  }

  lemma {:induction false} MatchAll(names: seq<string>, plugins: map<string, PluginInfo>)
    requires forall n :: n in names ==> n in plugins
    ensures Matching(names, plugins, "") == names
  {
    if names != [] {
      var info := plugins[names[0]];
      assert IsWindow(Lower(info.description), Lower(""), 0);
      MatchAll(names[1..], plugins);
      assert [names[0]] + names[1..] == names;
    }
  }

  /** The pairs (plugin, other plugin) a table records. */
  function Pairs(m: map<string, set<string>>, keys: set<string>): set<(string, string)> {
    set p, d | p in keys && p in m && d in m[p] :: (p, d)
  }

  /** `get_statistics`. */
  datatype Statistics = Statistics(
    totalPlugins: nat,
    pluginsWithDependencies: nat,
    totalDependencies: nat,
    pluginsWithDependents: nat,
    totalDependents: nat)

  /** The sum of the sizes of a table's sets, which is the number of pairs it
      records. */
  method SumSizes(m: map<string, set<string>>) returns (total: nat)
    ensures total == |Pairs(m, m.Keys)|
  {
    var keys := m.Keys;
    total := 0;
    while keys != {}
      invariant keys <= m.Keys
      invariant total + |Pairs(m, keys)| == |Pairs(m, m.Keys)|
      decreases |keys|
    {
      var k :| k in keys;
      PairsSplit(m, keys, k);
      total := total + |m[k]|;
      keys := keys - {k};
    }
  }

  /** Taking one key out of the keys looked at removes its pairs. */
  lemma PairsSplit(m: map<string, set<string>>, keys: set<string>, k: string)
    requires k in keys && k in m
    ensures |Pairs(m, keys)| == |Pairs(m, keys - {k})| + |m[k]|
  {
    var own := set d | d in m[k] :: (k, d);
    assert Pairs(m, keys) == Pairs(m, keys - {k}) + own;
    assert Pairs(m, keys - {k}) * own == {};
    PairsOfOne(k, m[k]);
  }

  lemma {:induction false} PairsOfOne(k: string, ds: set<string>)
    ensures |set d | d in ds :: (k, d)| == |ds|
    decreases |ds|
  {
    if ds != {} {
      var x :| x in ds;
      var rest := ds - {x};
      PairsOfOne(k, rest);
      assert (set d | d in ds :: (k, d)) == (set d | d in rest :: (k, d)) + {(k, x)};
    }
  }

  method GetStatistics(r: Registry) returns (st: Statistics)
    ensures st.totalPlugins == |r.plugins|
    ensures st.pluginsWithDependencies == |r.dependencies| && st.pluginsWithDependents == |r.dependents|
    ensures st.totalDependencies == |Pairs(r.dependencies, r.dependencies.Keys)|
    ensures st.totalDependents == |Pairs(r.dependents, r.dependents.Keys)|
  {
    var deps := SumSizes(r.dependencies);
    var dependents := SumSizes(r.dependents);
    st := Statistics(|r.plugins|, |r.dependencies|, deps, |r.dependents|, dependents);
  }

  /** In a registry whose dependencies are all linked back there are at
      least as many dependents recorded as dependencies. */
  lemma LinkedCounts(r: Registry)
    requires Linked(r)
    ensures |Pairs(r.dependencies, r.dependencies.Keys)| <= |Pairs(r.dependents, r.dependents.Keys)|
  {
    var e := Pairs(r.dependencies, r.dependencies.Keys);
    var back := Pairs(r.dependents, r.dependents.Keys);
    var flipped := set x | x in e :: (x.1, x.0);
    forall x | x in e
      ensures (x.1, x.0) in back
    {
      assert x.0 in Dependents(r, x.1);
    }
    FlipCard(e);
    SubsetCard(flipped, back);
  }

  lemma {:induction false} FlipCard(e: set<(string, string)>)
    ensures |set x | x in e :: (x.1, x.0)| == |e|
    decreases |e|
  {
    if e != {} {
      var y :| y in e;
      var rest := e - {y};
      FlipCard(rest);
      assert (set x | x in e :: (x.1, x.0)) == (set x | x in rest :: (x.1, x.0)) + {(y.1, y.0)};
    }
  }

  lemma SubsetCard<T>(a: set<T>, b: set<T>)
    requires a <= b
    ensures |a| <= |b|
  {
    assert b == a + (b - a);
  }
}
