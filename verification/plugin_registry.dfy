/** The plugin registry: a catalog of plugins in registration order (a
    JavaScript `Map` keyed by `metadata.id`) and the ids of the active
    plugins in the order in which they last became active (a JavaScript
    `Set`; activating an active plugin again does not move it).
    Registration is strict, removal is idempotent, and activation and
    deactivation change the active set only after the plugin's lifecycle
    hook, when it has one, has resolved. The aggregation queries read the
    active plugins only.

    A hook is an asynchronous function the registry awaits; its effect is
    outside the model, and what matters here is only whether it resolves or
    rejects. That is the `HookOutcome` argument of `Activate` and
    `Deactivate`, consulted only when the plugin has the hook. Each step
    reports the hooks it invoked, so that "no hook ran" can be stated. */
module PluginRegistry {
  import opened Wrappers
  import opened Sequences
  import opened StableSort
  import opened PluginTypes

  datatype Registry = Registry(catalog: seq<Plugin>, active: seq<string>)

  /** What a lifecycle hook did when it was awaited. */
  datatype HookOutcome = Resolves | Rejects(reason: string)

  datatype HookKind = OnActivate | OnDeactivate

  datatype RegistryError =
    | AlreadyRegistered(id: string)
    | NotFound(id: string)
    | HookRejected(reason: string)   // the hook's own rejection, propagated unchanged

  /** The state after a call, whether it completed, and the hooks it awaited. */
  datatype Step = Step(after: Registry, outcome: Outcome<RegistryError>, ran: seq<HookKind>)

  /** A freshly constructed registry. */
  const Empty := Registry([], [])

  /** The catalog's keys, in registration order. */
  function Ids(catalog: seq<Plugin>): (r: seq<string>)
    ensures |r| == |catalog|
    ensures forall i :: 0 <= i < |catalog| ==> r[i] == catalog[i].metadata.id
  {
    if catalog == [] then [] else [catalog[0].metadata.id] + Ids(catalog[1..])
  }

  /** Every id is a key at most once, and only registered plugins are active. */
  predicate Valid(r: Registry) {
    && Distinct(Ids(r.catalog))
    && Distinct(r.active)
    && forall id :: id in r.active ==> id in Ids(r.catalog)
  }

  lemma EmptyIsValid()
    ensures Valid(Empty)
  {
  }

  /** `Map.prototype.get` on the catalog. */
  function Lookup(catalog: seq<Plugin>, id: string): (r: Option<Plugin>)
    ensures r.Some? <==> id in Ids(catalog)
    ensures r.Some? ==> r.value in catalog && r.value.metadata.id == id
  {
    if catalog == [] then None
    else if catalog[0].metadata.id == id then Some(catalog[0])
    else Lookup(catalog[1..], id)
  }

  lemma {:induction false} LookupAppend(catalog: seq<Plugin>, p: Plugin, id: string)
    ensures Lookup(catalog + [p], id)
         == if id in Ids(catalog) then Lookup(catalog, id)
            else if p.metadata.id == id then Some(p) else None
  {
    if catalog != [] {
      assert (catalog + [p])[1..] == catalog[1..] + [p];
      LookupAppend(catalog[1..], p, id);
    }
  }

  lemma {:induction false} IdsAppend(catalog: seq<Plugin>, p: Plugin)
    ensures Ids(catalog + [p]) == Ids(catalog) + [p.metadata.id]
  {
  }

  /** In a catalog with distinct keys, every entry is what a lookup of its key returns. */
  lemma {:induction false} LookupFindsEntry(catalog: seq<Plugin>, i: int)
    requires Distinct(Ids(catalog))
    requires 0 <= i < |catalog|
    ensures Lookup(catalog, catalog[i].metadata.id) == Some(catalog[i])
  {
    if i > 0 {
      assert Ids(catalog)[0] != Ids(catalog)[i];
      assert Ids(catalog[1..]) == Ids(catalog)[1..];
      LookupFindsEntry(catalog[1..], i - 1);
    }
  }

  // ---------------------------------------------------------------------
  // Queries

  /** `getPlugin`: the plugin registered under `id`, if any. */
  function GetPlugin(r: Registry, id: string): (p: Option<Plugin>)
    ensures p.Some? <==> id in Ids(r.catalog)
    ensures p.Some? ==> p.value in r.catalog && p.value.metadata.id == id
  {
    Lookup(r.catalog, id)
  }

  /** `getAllPlugins`: every registered plugin, active or not, in registration
      order; in a valid registry each is exactly what `GetPlugin` returns for its id. */
  function AllPlugins(r: Registry): (ps: seq<Plugin>)
    ensures Ids(ps) == Ids(r.catalog)
    ensures Valid(r) ==> forall i :: 0 <= i < |ps| ==> GetPlugin(r, ps[i].metadata.id) == Some(ps[i])
  {
    LookupFindsEveryEntry(r.catalog);
    r.catalog
  }

  lemma LookupFindsEveryEntry(catalog: seq<Plugin>)
    ensures Distinct(Ids(catalog)) ==>
              forall i :: 0 <= i < |catalog| ==> Lookup(catalog, catalog[i].metadata.id) == Some(catalog[i])
  {
    if Distinct(Ids(catalog)) {
      forall i | 0 <= i < |catalog|
        ensures Lookup(catalog, catalog[i].metadata.id) == Some(catalog[i])
      {
        LookupFindsEntry(catalog, i);
      }
    }
  }

  /** The catalog entries for `ids`, in the order of `ids`, skipping ids that
      are not registered (the `filter(p => p !== undefined)` of the source). */
  function Resolve(catalog: seq<Plugin>, ids: seq<string>): (ps: seq<Plugin>)
    ensures |ps| <= |ids|
    ensures forall p :: p in ps ==> p in catalog && p.metadata.id in ids
  {
    if ids == [] then []
    else
      var rest := Resolve(catalog, ids[1..]);
      assert forall id :: id in ids[1..] ==> id in ids;
      match Lookup(catalog, ids[0])
      case Some(p) => [p] + rest
      case None => rest
  }

  /** When every id is registered, none is dropped: position `i` holds the
      entry for `ids[i]`. */
  lemma {:induction false} ResolveAllRegistered(catalog: seq<Plugin>, ids: seq<string>)
    requires forall id :: id in ids ==> id in Ids(catalog)
    ensures |Resolve(catalog, ids)| == |ids|
    ensures forall i :: 0 <= i < |ids| ==> Lookup(catalog, ids[i]) == Some(Resolve(catalog, ids)[i])
  {
    if ids != [] {
      assert forall id :: id in ids[1..] ==> id in ids;
      ResolveAllRegistered(catalog, ids[1..]);
      var rest := Resolve(catalog, ids[1..]);
      assert ids[0] in ids;
      var p := Lookup(catalog, ids[0]).value;
      var ps := Resolve(catalog, ids);
      assert ps == [p] + rest;
      forall i | 1 <= i < |ids|
        ensures Lookup(catalog, ids[i]) == Some(ps[i])
      {
        assert ps[i] == rest[i - 1];
        assert ids[i] == ids[1..][i - 1];
      }
    }
  }

  /** `getActivePlugins`: the active plugins in active-set insertion order.
      Because only registered ids are ever active, no active id is dropped:
      the result has one catalog entry per active id, in the same positions. */
  function ActivePlugins(r: Registry): (ps: seq<Plugin>)
    ensures forall p :: p in ps ==> p in r.catalog && p.metadata.id in r.active
    ensures Valid(r) ==> |ps| == |r.active|
    ensures Valid(r) ==> forall i :: 0 <= i < |ps| ==>
              ps[i].metadata.id == r.active[i] && GetPlugin(r, r.active[i]) == Some(ps[i])
  {
    if Valid(r) then
      ResolveAllRegistered(r.catalog, r.active);
      Resolve(r.catalog, r.active)
    else Resolve(r.catalog, r.active)
  }

  /** `getAllRoutes`: every active plugin's routes, concatenated in active order. */
  function AllRoutes(r: Registry): (routes: seq<PluginRoute>)
    ensures forall x :: x in routes <==> exists p :: p in ActivePlugins(r) && x in RoutesOf(p)
  {
    FlatMap(RoutesOf, ActivePlugins(r))
  }

  /** `getAllDataModels`: every active plugin's data models, concatenated in active order. */
  function AllDataModels(r: Registry): (models: seq<PluginDataModel>)
    ensures forall m :: m in models <==> exists p :: p in ActivePlugins(r) && m in DataModelsOf(p)
  {
    FlatMap(DataModelsOf, ActivePlugins(r))
  }

  /** The navigation items before sorting: concatenated in active order. */
  function NavigationInActiveOrder(r: Registry): seq<PluginNavItem> {
    FlatMap(NavigationOf, ActivePlugins(r))
  }

  /** `getAllNavigation`: the concatenated navigation items sorted by
      `order || 0`, ascending; items with equal order keep their concatenation
      order, and nothing is added or lost. */
  function AllNavigation(r: Registry): (items: seq<PluginNavItem>)
    ensures multiset(items) == multiset(NavigationInActiveOrder(r))
    ensures SortedBy(NavOrder, items)
    ensures forall k :: WithKey(NavOrder, k, items) == WithKey(NavOrder, k, NavigationInActiveOrder(r))
  {
    SortBy(NavOrder, NavigationInActiveOrder(r))
  }

  // ---------------------------------------------------------------------
  // Operations

  /** `register`: adds the plugin under its `metadata.id`; an id already in the
      catalog is an error and nothing changes. A new plugin is not active. */
  function Register(r: Registry, plugin: Plugin): (res: Result<Registry, RegistryError>)
    ensures res.Failure? <==> plugin.metadata.id in Ids(r.catalog)
    ensures res.Failure? ==> res.error == AlreadyRegistered(plugin.metadata.id)
    ensures res.Success? ==> GetPlugin(res.value, plugin.metadata.id) == Some(plugin)
    ensures res.Success? ==> forall id :: id != plugin.metadata.id ==> GetPlugin(res.value, id) == GetPlugin(r, id)
    ensures res.Success? ==> AllPlugins(res.value) == AllPlugins(r) + [plugin]
    ensures res.Success? ==> res.value.active == r.active
    ensures res.Success? && Valid(r) ==> Valid(res.value)
  {
    var id := plugin.metadata.id;
    if id in Ids(r.catalog) then Failure(AlreadyRegistered(id))
    else
      var next := Registry(r.catalog + [plugin], r.active);
      IdsAppend(r.catalog, plugin);
      LookupAppendAll(r.catalog, plugin);
      assert Distinct(Ids(r.catalog)) ==> Distinct(Ids(next.catalog));
      Success(next)
  }

  lemma LookupAppendAll(catalog: seq<Plugin>, p: Plugin)
    ensures forall id ::
      Lookup(catalog + [p], id) == (if id in Ids(catalog) then Lookup(catalog, id)
                                    else if p.metadata.id == id then Some(p) else None)
  {
    forall id {
      LookupAppend(catalog, p, id);
    }
  }

  /** Drops every entry keyed `id`, keeping the others in order. */
  function RemoveId(catalog: seq<Plugin>, id: string): (c: seq<Plugin>)
    ensures Ids(c) == Filter(x => x != id, Ids(catalog))
    ensures forall p :: p in c <==> p in catalog && p.metadata.id != id
  {
    if catalog == [] then []
    else if catalog[0].metadata.id == id then RemoveId(catalog[1..], id)
    else [catalog[0]] + RemoveId(catalog[1..], id)
  }

  lemma {:induction false} LookupRemoveId(catalog: seq<Plugin>, id: string, x: string)
    ensures Lookup(RemoveId(catalog, id), x) == if x == id then None else Lookup(catalog, x)
  {
    if catalog != [] {
      LookupRemoveId(catalog[1..], id, x);
      if catalog[0].metadata.id != id {
        assert ([catalog[0]] + RemoveId(catalog[1..], id))[1..] == RemoveId(catalog[1..], id);
      }
    }
  }

  /** A new plugin goes at the end of `getAllPlugins` (`Map` insertion order),
      after every plugin registered before it. */
  lemma RegisterAppendsLast(r: Registry, plugin: Plugin)
    requires plugin.metadata.id !in Ids(r.catalog)
    ensures var ps := AllPlugins(Register(r, plugin).value);
            && |ps| == |AllPlugins(r)| + 1
            && ps[|ps| - 1] == plugin
            && ps[..|ps| - 1] == AllPlugins(r)
  {
  }

  /** `unregister`: forgets the plugin and its active status; an unknown id is
      not an error, and the other plugins keep their entries and order. */
  function Unregister(r: Registry, id: string): (next: Registry)
    ensures GetPlugin(next, id) == None && id !in next.active
    ensures forall x :: x != id ==> GetPlugin(next, x) == GetPlugin(r, x)
    ensures forall x :: x in next.active <==> x in r.active && x != id
    ensures AllPlugins(next) == RemoveId(AllPlugins(r), id)
    ensures id !in Ids(r.catalog) && id !in r.active ==> next == r
    ensures Valid(r) ==> Valid(next)
  {
    UnregisterFacts(r.catalog, id);
    Registry(RemoveId(r.catalog, id), SetRemove(r.active, id))
  }

  lemma UnregisterFacts(catalog: seq<Plugin>, id: string)
    ensures forall x :: Lookup(RemoveId(catalog, id), x) == if x == id then None else Lookup(catalog, x)
    ensures Distinct(Ids(catalog)) ==> Distinct(Ids(RemoveId(catalog, id)))
    ensures id !in Ids(catalog) ==> RemoveId(catalog, id) == catalog
  {
    forall x {
      LookupRemoveId(catalog, id, x);
    }
    if Distinct(Ids(catalog)) {
      FilterDistinct(x => x != id, Ids(catalog));
    }
    if id !in Ids(catalog) {
      RemoveIdKeepsAll(catalog, id);
    }
  }

  lemma {:induction false} RemoveIdKeepsAll(catalog: seq<Plugin>, id: string)
    requires id !in Ids(catalog)
    ensures RemoveId(catalog, id) == catalog
  {
    if catalog != [] {
      assert Ids(catalog)[0] == catalog[0].metadata.id;
      assert Ids(catalog[1..]) == Ids(catalog)[1..];
      RemoveIdKeepsAll(catalog[1..], id);
      assert catalog == [catalog[0]] + catalog[1..];
    }
  }

  /** `activate`: an unknown id fails before any hook runs. Otherwise the
      `onActivate` hook, if the plugin has one, is awaited; if it rejects, the
      error propagates and the active set is untouched. Only then is the id
      added to the active set, where an id already present keeps its place. */
  function Activate(r: Registry, id: string, hook: HookOutcome): (s: Step)
    ensures id !in Ids(r.catalog) ==> s == Step(r, Fail(NotFound(id)), [])
    ensures id in Ids(r.catalog) ==>
              s.ran == (if GetPlugin(r, id).value.onActivate.Some? then [OnActivate] else [])
    ensures s.outcome.Pass? <==> id in Ids(r.catalog) && (s.ran == [] || hook.Resolves?)
    ensures s.outcome.Fail? ==> s.after == r
    ensures s.ran != [] && hook.Rejects? ==> s.outcome == Fail(HookRejected(hook.reason))
    ensures s.outcome.Pass? ==> s.after.catalog == r.catalog && id in s.after.active
    ensures s.outcome.Pass? ==> forall x :: x in s.after.active <==> x in r.active || x == id
    ensures s.outcome.Pass? && id in r.active ==> s.after == r
    ensures s.outcome.Pass? && id !in r.active ==> s.after.active == r.active + [id]
    ensures Valid(r) ==> Valid(s.after)
  {
    match GetPlugin(r, id)
    case None => Step(r, Fail(NotFound(id)), [])
    case Some(p) =>
      var activated := r.(active := SetAdd(r.active, id));
      if p.onActivate.None? then Step(activated, Pass, [])
      else match hook
        case Resolves => Step(activated, Pass, [OnActivate])
        case Rejects(reason) => Step(r, Fail(HookRejected(reason)), [OnActivate])
  }

  /** `deactivate`: an unknown id fails before any hook runs. Otherwise the
      `onDeactivate` hook, if present, is awaited even when the plugin is not
      active; if it rejects, the plugin stays active. Only then is the id
      removed from the active set. */
  function Deactivate(r: Registry, id: string, hook: HookOutcome): (s: Step)
    ensures id !in Ids(r.catalog) ==> s == Step(r, Fail(NotFound(id)), [])
    ensures id in Ids(r.catalog) ==>
              s.ran == (if GetPlugin(r, id).value.onDeactivate.Some? then [OnDeactivate] else [])
    ensures s.outcome.Pass? <==> id in Ids(r.catalog) && (s.ran == [] || hook.Resolves?)
    ensures s.outcome.Fail? ==> s.after == r
    ensures s.ran != [] && hook.Rejects? ==> s.outcome == Fail(HookRejected(hook.reason))
    ensures s.outcome.Pass? ==> s.after.catalog == r.catalog && id !in s.after.active
    ensures s.outcome.Pass? ==> forall x :: x in s.after.active <==> x in r.active && x != id
    ensures s.outcome.Pass? && id !in r.active ==> s.after == r
    ensures Valid(r) ==> Valid(s.after)
  {
    match GetPlugin(r, id)
    case None => Step(r, Fail(NotFound(id)), [])
    case Some(p) =>
      var deactivated := r.(active := SetRemove(r.active, id));
      if p.onDeactivate.None? then Step(deactivated, Pass, [])
      else match hook
        case Resolves => Step(deactivated, Pass, [OnDeactivate])
        case Rejects(reason) => Step(r, Fail(HookRejected(reason)), [OnDeactivate])
  }

  // ---------------------------------------------------------------------
  // Runs of calls

  datatype Call =
    | CallRegister(plugin: Plugin)
    | CallUnregister(id: string)
    | CallActivate(id: string, hook: HookOutcome)
    | CallDeactivate(id: string, hook: HookOutcome)

  /** One call on the registry, as the host makes it. `register` and
      `unregister` never await a hook. */
  function Apply(r: Registry, c: Call): (s: Step)
    ensures (c.CallRegister? || c.CallUnregister?) ==> s.ran == []
    ensures c.CallUnregister? ==> s.outcome == Pass
    ensures s.outcome.Fail? ==> s.after == r
    ensures Valid(r) ==> Valid(s.after)
  {
    match c
    case CallRegister(p) =>
      (match Register(r, p)
       case Success(next) => Step(next, Pass, [])
       case Failure(e) => Step(r, Fail(e), []))
    case CallUnregister(id) => Step(Unregister(r, id), Pass, [])
    case CallActivate(id, hook) => Activate(r, id, hook)
    case CallDeactivate(id, hook) => Deactivate(r, id, hook)
  }

  /** The registry after a sequence of calls; a call that fails leaves it as it was. */
  function Run(r: Registry, calls: seq<Call>): Registry
    decreases calls
  {
    if calls == [] then r else Run(Apply(r, calls[0]).after, calls[1..])
  }

  /** Whatever the calls and the hooks do, only registered plugins are active
      and no id is registered or active twice. */
  lemma {:induction false} RunPreservesValid(r: Registry, calls: seq<Call>)
    requires Valid(r)
    ensures Valid(Run(r, calls))
    decreases calls
  {
    if calls != [] {
      RunPreservesValid(Apply(r, calls[0]).after, calls[1..]);
    }
  }

  /** From a fresh registry, every reachable state is valid. */
  lemma ReachableIsValid(calls: seq<Call>)
    ensures Valid(Run(Empty, calls))
  {
    EmptyIsValid();
    RunPreservesValid(Empty, calls);
  }

  // ---------------------------------------------------------------------
  // How activation and deactivation change the aggregates

  lemma {:induction false} ResolveAppend(catalog: seq<Plugin>, ids: seq<string>, id: string)
    ensures Resolve(catalog, ids + [id])
         == Resolve(catalog, ids) + (match Lookup(catalog, id) case Some(p) => [p] case None => [])
  {
    if ids == [] {
      assert ids + [id] == [id];
    } else {
      assert (ids + [id])[1..] == ids[1..] + [id];
      ResolveAppend(catalog, ids[1..], id);
    }
  }

  lemma FlatMapSingle<A(!new), B(!new)>(f: A -> seq<B>, x: A)
    ensures FlatMap(f, [x]) == f(x)
  {
    assert [x][1..] == [];
  }

  /** Activating a registered plugin that was not active puts it last among
      the active plugins, so its routes, data models and navigation items are
      appended after everything already contributed. */
  lemma ActivateAppendsContributions(r: Registry, id: string, hook: HookOutcome)
    requires Valid(r)
    requires id !in r.active
    requires Activate(r, id, hook).outcome.Pass?
    ensures var p := GetPlugin(r, id).value;
            var after := Activate(r, id, hook).after;
            && ActivePlugins(after) == ActivePlugins(r) + [p]
            && AllRoutes(after) == AllRoutes(r) + RoutesOf(p)
            && AllDataModels(after) == AllDataModels(r) + DataModelsOf(p)
            && NavigationInActiveOrder(after) == NavigationInActiveOrder(r) + NavigationOf(p)
  {
    var p := GetPlugin(r, id).value;
    var after := Activate(r, id, hook).after;
    assert after.active == r.active + [id];
    ResolveAppend(r.catalog, r.active, id);
    assert ActivePlugins(after) == ActivePlugins(r) + [p];
    FlatMapAppend(RoutesOf, ActivePlugins(r), [p]);
    FlatMapSingle(RoutesOf, p);
    FlatMapAppend(DataModelsOf, ActivePlugins(r), [p]);
    FlatMapSingle(DataModelsOf, p);
    FlatMapAppend(NavigationOf, ActivePlugins(r), [p]);
    FlatMapSingle(NavigationOf, p);
  }

  lemma {:induction false} ResolveRemove(catalog: seq<Plugin>, ids: seq<string>, id: string)
    requires forall x :: x in ids ==> x in Ids(catalog)
    ensures Resolve(catalog, SetRemove(ids, id)) == RemoveId(Resolve(catalog, ids), id)
  {
    if ids != [] {
      assert forall x :: x in ids[1..] ==> x in ids;
      ResolveRemove(catalog, ids[1..], id);
      var p := Lookup(catalog, ids[0]).value;
      assert Resolve(catalog, ids) == [p] + Resolve(catalog, ids[1..]);
      assert ([p] + Resolve(catalog, ids[1..]))[1..] == Resolve(catalog, ids[1..]);
      if ids[0] != id {
        var kept := SetRemove(ids, id);
        assert kept == [ids[0]] + SetRemove(ids[1..], id);
        assert kept[1..] == SetRemove(ids[1..], id);
        assert forall x :: x in kept ==> x in Ids(catalog);
      } else {
        assert SetRemove(ids, id) == SetRemove(ids[1..], id);
      }
    }
  }

  /** A successful deactivation removes exactly that plugin from the active
      plugins, keeping the others in order; the aggregates then draw on the
      remaining plugins only. */
  lemma DeactivateRemovesContributions(r: Registry, id: string, hook: HookOutcome)
    requires Valid(r)
    requires Deactivate(r, id, hook).outcome.Pass?
    ensures var after := Deactivate(r, id, hook).after;
            var remaining := RemoveId(ActivePlugins(r), id);
            && ActivePlugins(after) == remaining
            && AllRoutes(after) == FlatMap(RoutesOf, remaining)
            && AllDataModels(after) == FlatMap(DataModelsOf, remaining)
            && NavigationInActiveOrder(after) == FlatMap(NavigationOf, remaining)
  {
    ResolveRemove(r.catalog, r.active, id);
  }

  /** Unregistering removes that plugin from the active plugins, keeping the
      others in order; the aggregates then draw on the remaining plugins only. */
  lemma UnregisterRemovesContributions(r: Registry, id: string)
    requires Valid(r)
    ensures var after := Unregister(r, id);
            var remaining := RemoveId(ActivePlugins(r), id);
            && ActivePlugins(after) == remaining
            && AllRoutes(after) == FlatMap(RoutesOf, remaining)
            && AllDataModels(after) == FlatMap(DataModelsOf, remaining)
            && NavigationInActiveOrder(after) == FlatMap(NavigationOf, remaining)
  {
    var after := Unregister(r, id);
    ResolveRemove(r.catalog, r.active, id);
    ResolveWithoutUnusedId(r.catalog, SetRemove(r.active, id), id);
  }

  /** Dropping a catalog entry that no id asks for changes no resolution. */
  lemma {:induction false} ResolveWithoutUnusedId(catalog: seq<Plugin>, ids: seq<string>, id: string)
    requires id !in ids
    ensures Resolve(RemoveId(catalog, id), ids) == Resolve(catalog, ids)
  {
    if ids != [] {
      ResolveWithoutUnusedId(catalog, ids[1..], id);
      LookupRemoveId(catalog, id, ids[0]);
    }
  }

  /** Navigation is the one stable sort of the concatenated items: any sorted
      arrangement that keeps equal-order items in concatenation order is it. */
  lemma AllNavigationIsTheStableSort(r: Registry, items: seq<PluginNavItem>)
    requires SortedBy(NavOrder, items)
    requires StableWrt(NavOrder, NavigationInActiveOrder(r), items)
    ensures items == AllNavigation(r)
  {
    SortByIsTheStableSort(NavOrder, NavigationInActiveOrder(r), items);
  }
}
