/** The hook system: the kinds of hook, the context handed to handlers, and
    the manager that keeps, for every kind of hook, the registered handlers
    ordered by priority, runs them in that order and counts the successful
    calls per plugin. What a handler does when called is outside the model:
    its outcome is an input. The time stamp of a context is left out. */
module HookSystem {
  import opened Wrappers

  /** `HookType`: every point at which plugins can hook in. */
  datatype HookType =
    | DocumentBeforeLoad | DocumentAfterLoad | DocumentBeforeClose | DocumentAfterClose
    | RenderBeforeDraw | RenderAfterDraw | RenderBeforeTransform | RenderAfterTransform
    | TileBeforeGenerate | TileAfterGenerate | TileBeforeExport | TileAfterExport
    | MeasurementBeforeStart | MeasurementAfterStart | MeasurementBeforeUpdate
    | MeasurementAfterUpdate | MeasurementBeforeFinish | MeasurementAfterFinish
    | ScaleBeforeSet | ScaleAfterSet | ScaleBeforeCalculate | ScaleAfterCalculate
    | ViewBeforeZoom | ViewAfterZoom | ViewBeforePan | ViewAfterPan | ViewBeforeRotate | ViewAfterRotate
    | ExportBeforeStart | ExportAfterStart | ExportBeforeProcess | ExportAfterProcess
    | ExportBeforeSave | ExportAfterSave
    | UiBeforeUpdate | UiAfterUpdate | UiContextMenu | UiToolbarUpdate
    | SettingsBeforeLoad | SettingsAfterLoad | SettingsBeforeSave | SettingsAfterSave

  // ---------------------------------------------------------------------
  // Contexts

  /** The context handed to handlers; `D` is the caller's data. */
  datatype HookContext<D> = HookContext(
    hookType: HookType, data: D, source: Option<string>, canCancel: bool, cancelled: bool)

  /** `HookContext.cancel`: has an effect only on a context that may be
      cancelled. */
  function Cancel<D>(c: HookContext<D>): (r: HookContext<D>)
    ensures r.cancelled <==> c.cancelled || c.canCancel
    ensures r.(cancelled := c.cancelled) == c
  {
    if c.canCancel then c.(cancelled := true) else c
  }

  /** Cancelling twice is cancelling once. */
  lemma CancelIdempotent<D>(c: HookContext<D>)
    ensures Cancel(Cancel(c)) == Cancel(c)
  {
  }

  // ---------------------------------------------------------------------
  // Handlers and their registration

  /** A handler object: an identity, the hooks it supports (in its own order,
      possibly with repeats) and its priority, 0 unless the handler says
      otherwise. */
  datatype HookHandler = HookHandler(id: nat, hooks: seq<HookType>, priority: int)

  /** One registration: the handler, the plugin that registered it, and the
      handler's priority at registration. */
  datatype Entry = Entry(handler: nat, plugin: string, priority: int)

  /** Higher priorities first. */
  predicate Sorted(l: seq<Entry>) {
    forall i, j :: 0 <= i < j < |l| ==> l[i].priority >= l[j].priority
  }

  /** The manager's two tables. The source fills both with an empty list
      and an empty counter table for every kind of hook when the manager is
      made; here a kind of hook without an entry stands for those. */
  datatype Manager = Manager(handlers: map<HookType, seq<Entry>>, stats: map<HookType, map<string, int>>)

  /** The handler list of a kind of hook. */
  function List(m: Manager, h: HookType): seq<Entry> {
    if h in m.handlers then m.handlers[h] else []
  }

  /** The counters of a kind of hook. */
  function Counts(m: Manager, h: HookType): map<string, int> {
    if h in m.stats then m.stats[h] else map[]
  }

  /** What the manager keeps true: each list is sorted by priority and every
      plugin with a handler in a list has a counter for that hook. */
  predicate Valid(m: Manager) {
    && (forall h :: Sorted(List(m, h)))
    && (forall h, e :: e in List(m, h) ==> e.plugin in Counts(m, h))
  }

  /** Replacing the tables of one kind of hook keeps the manager valid when
      the new list is sorted and each of its plugins has a counter. */
  lemma ValidAfterSet(m: Manager, h: HookType, l: seq<Entry>, c: map<string, int>)
    requires Valid(m)
    requires Sorted(l) && forall e :: e in l ==> e.plugin in c
    ensures var r := Manager(m.handlers[h := l], m.stats[h := c]);
      Valid(r) && (forall g :: List(r, g) == (if g == h then l else List(m, g)))
      && (forall g :: Counts(r, g) == (if g == h then c else Counts(m, g)))
  {
    var r := Manager(m.handlers[h := l], m.stats[h := c]);
    forall g
      ensures List(r, g) == (if g == h then l else List(m, g))
      ensures Counts(r, g) == (if g == h then c else Counts(m, g))
    {
    }
    forall g
      ensures Sorted(List(r, g))
      ensures forall e :: e in List(r, g) ==> e.plugin in Counts(r, g)
    {
      if g != h {
        assert List(r, g) == List(m, g) && Counts(r, g) == Counts(m, g);
      }
    }
  }

  /** Replacing a list by a sorted selection of its entries keeps the
      manager valid. */
  lemma ValidAfterList(m: Manager, h: HookType, l: seq<Entry>)
    requires Valid(m)
    requires Sorted(l) && forall e :: e in l ==> e in List(m, h)
    ensures var r := m.(handlers := m.handlers[h := l]);
      Valid(r) && forall g :: List(r, g) == (if g == h then l else List(m, g))
  {
    var r := m.(handlers := m.handlers[h := l]);
    forall g
      ensures List(r, g) == (if g == h then l else List(m, g))
      ensures Counts(r, g) == Counts(m, g)
    {
    }
  }

  /** Replacing the counters of one kind of hook by ones covering its list
      keeps the manager valid. */
  lemma ValidAfterCounts(m: Manager, h: HookType, c: map<string, int>)
    requires Valid(m)
    requires forall e :: e in List(m, h) ==> e.plugin in c
    ensures var r := m.(stats := m.stats[h := c]);
      Valid(r) && forall g :: Counts(r, g) == (if g == h then c else Counts(m, g))
  {
    var r := m.(stats := m.stats[h := c]);
    forall g
      ensures List(r, g) == List(m, g)
      ensures Counts(r, g) == (if g == h then c else Counts(m, g))
    {
    }
  }

  /** A new manager: no handlers and no counters for any kind of hook. */
  function NewManager(): (m: Manager)
    ensures Valid(m)
    ensures forall h :: List(m, h) == [] && Counts(m, h) == map[]
  {
    Manager(map[], map[])
  }

  /** Where `sort(key=priority, reverse=True)` puts an entry appended to a
      sorted list: after every entry of at least its priority. */
  function InsertPos(l: seq<Entry>, p: int): (k: nat)
    requires Sorted(l)
    ensures k <= |l|
    ensures forall i :: 0 <= i < k ==> l[i].priority >= p
    ensures forall i :: k <= i < |l| ==> l[i].priority < p
  {
    if l == [] || l[0].priority < p then 0 else 1 + InsertPos(l[1..], p)
  }

  /** Appending an entry to a sorted list and sorting stably by priority,
      highest first: the entry goes in after all entries of at least its
      priority, everything else keeps its place. */
  function Insert(l: seq<Entry>, e: Entry): (r: seq<Entry>)
    requires Sorted(l)
    ensures Sorted(r) && |r| == |l| + 1
    ensures var k := InsertPos(l, e.priority);
      r[k] == e && r[..k] == l[..k] && r[k + 1..] == l[k..]
  {
    var k := InsertPos(l, e.priority);
    InsertAt(l, e, k);
    l[..k] + [e] + l[k..]
  }

  /** Putting `e` at its insertion point keeps the list sorted and adds just
      `e` to it. */
  lemma InsertAt(l: seq<Entry>, e: Entry, k: nat)
    requires Sorted(l) && k == InsertPos(l, e.priority)
    ensures var r := l[..k] + [e] + l[k..];
      Sorted(r) && |r| == |l| + 1
      && r[k] == e && r[..k] == l[..k] && r[k + 1..] == l[k..]
  {
    var a, b := l[..k], l[k..];
    assert l == a + b;
    assert forall i :: 0 <= i < |a| ==> a[i].priority >= e.priority by {
      forall i | 0 <= i < |a|
        ensures a[i].priority >= e.priority
      {
        assert a[i] == l[i];
      }
    }
    assert forall j :: 0 <= j < |b| ==> b[j].priority < e.priority by {
      forall j | 0 <= j < |b|
        ensures b[j].priority < e.priority
      {
        assert b[j] == l[k + j];
      }
    }
    InsertSorted(a, e, b);
    var r := a + [e] + b;
    assert r[..k] == a;
    assert r[k + 1..] == b;
  }

  /** A sorted list of entries of at least `e`'s priority, then `e`, then a
      sorted list of entries of lower priority is sorted. */
  lemma InsertSorted(a: seq<Entry>, e: Entry, b: seq<Entry>)
    requires Sorted(a + b)
    requires forall i :: 0 <= i < |a| ==> a[i].priority >= e.priority
    requires forall j :: 0 <= j < |b| ==> b[j].priority < e.priority
    ensures Sorted(a + [e] + b)
  {
    var l, r := a + b, a + [e] + b;
    forall i, j | 0 <= i < j < |r|
      ensures r[i].priority >= r[j].priority
    {
      var k := |a|;
      if j < k {
        assert r[i] == l[i] && r[j] == l[j];
      } else if j == k {
        assert r[i] == a[i];
      } else if i == k {
        assert r[j] == b[j - k - 1];
      } else if i < k {
        assert r[i] == a[i] && r[j] == b[j - k - 1];
      } else {
        assert r[i] == l[i - 1] && r[j] == l[j - 1];
      }
    }
  }

  /** Inserting is a permutation of the list with the entry added: nothing
      is lost or duplicated. */
  lemma InsertPermutation(l: seq<Entry>, e: Entry)
    requires Sorted(l)
    ensures multiset(Insert(l, e)) == multiset(l) + multiset{e}
  {
    var k := InsertPos(l, e.priority);
    var a, b := l[..k], l[k..];
    assert Insert(l, e) == a + [e] + b;
    assert l == a + b;
  }

  /** An inserted list holds the old entries and the new one. */
  lemma InsertMembers(l: seq<Entry>, e: Entry)
    requires Sorted(l)
    ensures forall x :: x in Insert(l, e) <==> x in l || x == e
  {
    var r := Insert(l, e);
    InsertPermutation(l, e);
    forall x
      ensures x in r <==> x in l || x == e
    {
      assert x in r <==> x in multiset(r);
      assert x in l <==> x in multiset(l);
    }
  }

  /** `register_handler` for one hook: the entry is inserted by priority and
      the plugin's counter is created at 0 if it has none. */
  function RegisterOne(m: Manager, h: HookType, e: Entry): (r: Manager)
    requires Valid(m)
    ensures Valid(r)
    ensures List(r, h) == Insert(List(m, h), e)
    ensures forall g :: g != h ==> List(r, g) == List(m, g) && Counts(r, g) == Counts(m, g)
    ensures e.plugin in Counts(r, h)
    ensures forall p :: p in Counts(m, h) ==> p in Counts(r, h) && Counts(r, h)[p] == Counts(m, h)[p]
    ensures forall p :: p in Counts(r, h) ==> p in Counts(m, h) || p == e.plugin
  {
    var counts := Counts(m, h);
    var counts' := if e.plugin in counts then counts else counts[e.plugin := 0];
    var l := Insert(List(m, h), e);
    InsertMembers(List(m, h), e);
    ValidAfterSet(m, h, l, counts');
    Manager(m.handlers[h := l], m.stats[h := counts'])
  }

  /** `register_handler`: one registration for every hook the handler lists,
      in the order it lists them. */
  function Register(m: Manager, hd: HookHandler, plugin: string): (r: Manager)
    requires Valid(m)
    ensures Valid(r)
    decreases |hd.hooks|
  {
    if hd.hooks == [] then m
    else Register(RegisterOne(m, hd.hooks[0], Entry(hd.id, plugin, hd.priority)),
                  hd.(hooks := hd.hooks[1..]), plugin)
  }

  /** The entries not belonging to the handler `id` of plugin `plugin`, in
      their order. */
  function Remove(l: seq<Entry>, id: nat, plugin: string): (r: seq<Entry>)
    ensures forall e :: e in r ==> e in l && !(e.handler == id && e.plugin == plugin)
    ensures forall e :: e in l && !(e.handler == id && e.plugin == plugin) ==> e in r
    ensures Sorted(l) ==> Sorted(r)
    ensures |r| <= |l|
  {
    if l == [] then []
    else
      var rest := Remove(l[1..], id, plugin);
      if l[0].handler == id && l[0].plugin == plugin then rest else [l[0]] + rest
  }

  /** `unregister_handler` for one hook: the handler's entries of this
      plugin are dropped from the list. */
  function UnregisterOne(m: Manager, h: HookType, id: nat, plugin: string): (r: Manager)
    requires Valid(m)
    ensures Valid(r) && r.stats == m.stats
    ensures forall g :: List(r, g) == (if g == h then Remove(List(m, h), id, plugin) else List(m, g))
  {
    var l := Remove(List(m, h), id, plugin);
    ValidAfterList(m, h, l);
    m.(handlers := m.handlers[h := l])
  }

  /** `unregister_handler`: the handler's entries of this plugin are dropped
      from the lists of the hooks it lists, and only from those. */
  function Unregister(m: Manager, hd: HookHandler, plugin: string): (r: Manager)
    requires Valid(m)
    ensures Valid(r) && r.stats == m.stats
    ensures forall h :: h !in hd.hooks ==> List(r, h) == List(m, h)
    ensures forall h :: h in hd.hooks ==> List(r, h) == Remove(List(m, h), hd.id, plugin)
    decreases |hd.hooks|
  {
    if hd.hooks == [] then m
    else
      var h0 := hd.hooks[0];
      var rest := hd.(hooks := hd.hooks[1..]);
      var m1 := UnregisterOne(m, h0, hd.id, plugin);
      var r := Unregister(m1, rest, plugin);
      assert forall h :: h in hd.hooks <==> h == h0 || h in rest.hooks;
      assert List(m1, h0) == Remove(List(m, h0), hd.id, plugin);
      RemoveIdempotent(List(m, h0), hd.id, plugin);
      r
  }

  /** Removing an entry's own registrations from a list it was inserted into
      gives what removing them from the list before gives. */
  lemma {:induction false} RemoveInsert(l: seq<Entry>, e: Entry)
    requires Sorted(l)
    ensures Remove(Insert(l, e), e.handler, e.plugin) == Remove(l, e.handler, e.plugin)
  {
    var k := InsertPos(l, e.priority);
    var a, b := l[..k], l[k..];
    assert Insert(l, e) == a + [e] + b && l == a + b;
    RemoveSplice(a, e, b);
  }

  /** Dropping an entry's registrations from a list with the entry spliced
      in is dropping them from the list without it. */
  lemma RemoveSplice(a: seq<Entry>, e: Entry, b: seq<Entry>)
    ensures Remove(a + [e] + b, e.handler, e.plugin) == Remove(a + b, e.handler, e.plugin)
  {
    assert a + [e] + b == a + ([e] + b);
    RemoveConcat(a, [e] + b, e.handler, e.plugin);
    RemoveHead(e, b);
    RemoveConcat(a, b, e.handler, e.plugin);
  }

  /** An entry's own registrations drop the entry itself. */
  lemma RemoveHead(e: Entry, b: seq<Entry>)
    ensures Remove([e] + b, e.handler, e.plugin) == Remove(b, e.handler, e.plugin)
  {
    assert ([e] + b)[1..] == b;
  }

  lemma {:induction false} RemoveConcat(a: seq<Entry>, b: seq<Entry>, id: nat, plugin: string)
    ensures Remove(a + b, id, plugin) == Remove(a, id, plugin) + Remove(b, id, plugin)
  {
    if a != [] {
      var ab := a + b;
      assert ab[0] == a[0] && ab[1..] == a[1..] + b;
      RemoveConcat(a[1..], b, id, plugin);
    } else {
      assert a + b == b;
    }
  }

  /** Removing twice is removing once. */
  lemma {:induction false} RemoveIdempotent(l: seq<Entry>, id: nat, plugin: string)
    ensures Remove(Remove(l, id, plugin), id, plugin) == Remove(l, id, plugin)
  {
    if l != [] {
      RemoveIdempotent(l[1..], id, plugin);
      var rest := Remove(l[1..], id, plugin);
      if !(l[0].handler == id && l[0].plugin == plugin) {
        assert ([l[0]] + rest)[1..] == rest;
      }
    }
  }

  /** A list without the entry's registrations is left as it is. */
  lemma {:induction false} RemoveAbsent(l: seq<Entry>, id: nat, plugin: string)
    requires forall e :: e in l ==> !(e.handler == id && e.plugin == plugin)
    ensures Remove(l, id, plugin) == l
  {
    if l != [] {
      assert forall e :: e in l[1..] ==> e in l;
      RemoveAbsent(l[1..], id, plugin);
      assert [l[0]] + l[1..] == l;
    }
  }

  /** After registering, dropping the handler's registrations from any list
      gives what dropping them before gives; lists of hooks the handler does
      not list are untouched. */
  lemma {:induction false} RegisterThenRemove(m: Manager, hd: HookHandler, plugin: string, h: HookType)
    requires Valid(m)
    ensures h !in hd.hooks ==> List(Register(m, hd, plugin), h) == List(m, h)
    ensures Remove(List(Register(m, hd, plugin), h), hd.id, plugin) == Remove(List(m, h), hd.id, plugin)
    decreases |hd.hooks|
  {
    if hd.hooks != [] {
      var e := Entry(hd.id, plugin, hd.priority);
      var m1 := RegisterOne(m, hd.hooks[0], e);
      var rest := hd.(hooks := hd.hooks[1..]);
      RegisterThenRemove(m1, rest, plugin, h);
      assert forall g :: g in rest.hooks ==> g in hd.hooks;
      if h == hd.hooks[0] {
        RemoveInsert(List(m, h), e);
      }
    }
  }

  /** Registering a handler and unregistering it again, for a plugin that
      had not registered it before, restores every handler list. */
  lemma RegisterUnregister(m: Manager, hd: HookHandler, plugin: string, h: HookType)
    requires Valid(m)
    requires forall g, e :: g in hd.hooks && e in List(m, g) ==> !(e.handler == hd.id && e.plugin == plugin)
    ensures List(Unregister(Register(m, hd, plugin), hd, plugin), h) == List(m, h)
  {
    var r := Register(m, hd, plugin);
    var u := Unregister(r, hd, plugin);
    RegisterThenRemove(m, hd, plugin, h);
    if h in hd.hooks {
      assert List(u, h) == Remove(List(r, h), hd.id, plugin);
      assert forall e :: e in List(m, h) ==> !(e.handler == hd.id && e.plugin == plugin);
      RemoveAbsent(List(m, h), hd.id, plugin);
    } else {
      assert List(u, h) == List(r, h);
    }
  }

  /** Registering never drops an entry. */
  lemma {:induction false} RegisterKeeps(m: Manager, hd: HookHandler, plugin: string, h: HookType, e: Entry)
    requires Valid(m) && e in List(m, h)
    ensures e in List(Register(m, hd, plugin), h)
    decreases |hd.hooks|
  {
    if hd.hooks != [] {
      var n := Entry(hd.id, plugin, hd.priority);
      var m1 := RegisterOne(m, hd.hooks[0], n);
      if h == hd.hooks[0] {
        InsertMembers(List(m, h), n);
      }
      RegisterKeeps(m1, hd.(hooks := hd.hooks[1..]), plugin, h, e);
    }
  }

  /** `get_handlers`: the plugin of each registration, in execution order,
      which in a valid manager is highest priority first. */
  function Handlers(m: Manager, h: HookType): (names: seq<string>)
    ensures |names| == |List(m, h)|
    ensures forall i :: 0 <= i < |names| ==> names[i] == List(m, h)[i].plugin
    ensures forall p :: p in names <==> exists e :: e in List(m, h) && e.plugin == p
    ensures Valid(m) ==> forall i, j :: 0 <= i < j < |names| ==> List(m, h)[i].priority >= List(m, h)[j].priority
  {
    var l := List(m, h);
    var names := seq(|l|, i requires 0 <= i < |l| => l[i].plugin);
    assert forall e :: e in l ==> e.plugin in names by {
      forall e | e in l
        ensures e.plugin in names
      {
        var i :| 0 <= i < |l| && l[i] == e;
        assert names[i] == e.plugin;
      }
    }
    names
  }

  /** After registering, the plugin is listed among the handlers of every
      hook the handler serves. */
  lemma {:induction false} RegisteredIsListed(m: Manager, hd: HookHandler, plugin: string, h: HookType)
    requires Valid(m) && h in hd.hooks
    ensures plugin in Handlers(Register(m, hd, plugin), h)
    decreases |hd.hooks|
  {
    var e := Entry(hd.id, plugin, hd.priority);
    var m1 := RegisterOne(m, hd.hooks[0], e);
    var rest := hd.(hooks := hd.hooks[1..]);
    if h in rest.hooks {
      RegisteredIsListed(m1, rest, plugin, h);
    } else {
      assert h == hd.hooks[0];
      var k := InsertPos(List(m, h), e.priority);
      assert List(m1, h)[k] == e;
      RegisterKeeps(m1, rest, plugin, h, e);
      assert e in List(Register(m, hd, plugin), h);
    }
  }

  // ---------------------------------------------------------------------
  // Running the handlers of a hook

  /** What happened when a handler was called: whether it called `cancel`
      on the context, and what it returned (`None` when it raised). */
  datatype Outcome = Outcome(cancels: bool, result: Option<bool>)

  /** Some handler among the first `k` called `cancel`. */
  predicate CancelCalled(o: seq<Outcome>, k: nat)
    requires k <= |o|
  {
    k > 0 && (o[k - 1].cancels || CancelCalled(o, k - 1))
  }

  /** The handler at `i` ends the run: it returned normally, the context may
      be cancelled and someone up to it has cancelled it. */
  predicate StopsAt(o: seq<Outcome>, canCancel: bool, i: nat)
    requires i < |o|
  {
    o[i].result.Some? && canCancel && CancelCalled(o, i + 1)
  }

  /** The successful calls among the first `k` handlers that belong to
      `plugin`. */
  function Successes(l: seq<Entry>, o: seq<Outcome>, plugin: string, k: nat): nat
    requires k <= |l| == |o|
  {
    if k == 0 then 0
    else Successes(l, o, plugin, k - 1) + if l[k - 1].plugin == plugin && o[k - 1].result == Some(true) then 1 else 0
  }

  /** The handler loop of `execute_hook` without the counting: calls the
      handlers in order and stops after the first that returns normally
      with the context cancelled; `ran` is how many were called. */
  method RunHandlers(o: seq<Outcome>, canCancel: bool) returns (ran: nat, cancelled: bool)
    ensures ran <= |o|
    ensures forall i :: 0 <= i < ran - 1 ==> !StopsAt(o, canCancel, i)
    ensures ran < |o| ==> 0 < ran && StopsAt(o, canCancel, ran - 1)
    ensures cancelled <==> canCancel && CancelCalled(o, ran)
  {
    ran := 0;
    cancelled := false;
    while ran < |o|
      invariant ran <= |o|
      invariant forall i :: 0 <= i < ran - 1 ==> !StopsAt(o, canCancel, i)
      invariant ran > 0 && StopsAt(o, canCancel, ran - 1) ==> false
      invariant cancelled <==> canCancel && CancelCalled(o, ran)
    {
      if o[ran].cancels && canCancel {
        cancelled := true;
      }
      ran := ran + 1;
      if o[ran - 1].result.Some? && cancelled {
        break;
      }
    }
  }

  /** The counters after the first `k` calls: one more for a plugin at each
      of its handlers that returned true. */
  function Tallied(counts: map<string, int>, l: seq<Entry>, o: seq<Outcome>, k: nat): (c: map<string, int>)
    requires k <= |l| == |o|
    requires forall i :: 0 <= i < k ==> l[i].plugin in counts
    ensures c.Keys == counts.Keys
    ensures forall p :: p in counts ==> c[p] == counts[p] + Successes(l, o, p, k)
  {
    if k == 0 then counts
    else
      var c := Tallied(counts, l, o, k - 1);
      var p := l[k - 1].plugin;
      if o[k - 1].result == Some(true) then c[p := c[p] + 1] else c
  }

  /** `execute_hook`: calls the handlers of hook `h` in list order, counts
      each successful call for its plugin, and stops after the first handler
      that returns normally with the context cancelled; handlers that raise
      are passed over, without that check. `ran` is how many handlers were
      called; the context returned carries the caller's data. */
  method Execute<D>(m: Manager, h: HookType, data: D, source: Option<string>, canCancel: bool, o: seq<Outcome>)
    returns (ctx: HookContext<D>, r: Manager, ran: nat)
    requires Valid(m) && |o| == |List(m, h)|
    ensures Valid(r) && r.handlers == m.handlers
    ensures forall g :: g != h ==> Counts(r, g) == Counts(m, g)
    ensures ctx.hookType == h && ctx.data == data && ctx.source == source && ctx.canCancel == canCancel
    ensures ran <= |o|
    ensures forall i :: 0 <= i < ran - 1 ==> !StopsAt(o, canCancel, i)
    ensures ran < |o| ==> 0 < ran && StopsAt(o, canCancel, ran - 1)
    ensures ctx.cancelled <==> canCancel && CancelCalled(o, ran)
    ensures Counts(r, h).Keys == Counts(m, h).Keys
    ensures forall p :: p in Counts(m, h) ==> Counts(r, h)[p] == Counts(m, h)[p] + Successes(List(m, h), o, p, ran)
  {
    var l := List(m, h);
    var cancelled;
    ran, cancelled := RunHandlers(o, canCancel);
    ctx := HookContext(h, data, source, canCancel, cancelled);
    assert forall i :: 0 <= i < ran ==> l[i] in l;
    var counts := Tallied(Counts(m, h), l, o, ran);
    ValidAfterCounts(m, h, counts);
    r := m.(stats := m.stats[h := counts]);
  }

  /** A run whose context may not be cancelled calls every handler. */
  lemma NoCancelRunsAll(o: seq<Outcome>, ran: nat)
    requires ran <= |o|
    requires ran < |o| ==> 0 < ran && StopsAt(o, false, ran - 1)
    ensures ran == |o|
  {
  }
}
