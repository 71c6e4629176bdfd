/**
 * `PluginManager`: the lifecycle state, the registry of loaded plugins, start-up loading,
 * dynamic batch loading, and unloading.
 *
 * The plugin callbacks are recorded in the ghost `trace`; reflective instantiation is the
 * oracle `inst`; discovery is the input sequence of `Found` descriptors.
 */
module Manager {
  import opened Wrappers
  import Names
  import opened Loaders
  import Combined
  import opened Resolver
  import opened Registry
  import opened Lifecycle

  /**
   * A discovered plugin as `loadPlugins` receives it: verified, with its files, and `own` the
   * classes and resources those files define.
   */
  datatype Found = Found(name: string, entrypoint: string, dependencies: seq<string>, files: seq<Url>, own: Archive)

  /** The descriptors of `batch` in the order `order` names them. */
  function InOrder(batch: seq<Desc>, order: seq<nat>): (ds: seq<Desc>)
    requires forall p :: 0 <= p < |order| ==> order[p] < |batch|
  {
    seq(|order|, p requires 0 <= p < |order| => batch[order[p]])
  }

  /** Taking one more position of the order appends its descriptor. */
  lemma InOrderSnoc(batch: seq<Desc>, order: seq<nat>, p: nat)
    requires forall q :: 0 <= q < |order| ==> order[q] < |batch|
    requires p < |order|
    ensures InOrder(batch, order[..p + 1]) == InOrder(batch, order[..p]) + [batch[order[p]]]
  {
    assert forall q :: 0 <= q < p ==> order[..p + 1][q] == order[..p][q];
  }

  /** One more `loadPlugin` in the loading loop: the registry one step on, and its new keys. */
  lemma LoadStep(r0: Plugins, ds: seq<Desc>, d: Desc, inst: Desc -> Instantiated, added: seq<string>, before: Plugins)
    requires before == RegisterAll(r0, ds, inst) && before.keys == r0.keys + added
    ensures Register(before, d, inst(d)) == RegisterAll(r0, ds + [d], inst)
    ensures Register(before, d, inst(d)).keys ==
              r0.keys + (if Names.Lower(d.name) !in before.entries && inst(d).Created?
                         then added + [Names.Lower(d.name)] else added)
  {
    RegisterAllSnoc(r0, ds, d, inst);
    StepKeys(r0.keys, added, before, d, inst(d));
  }

  lemma StepKeys(k0: seq<string>, added: seq<string>, before: Plugins, d: Desc, made: Instantiated)
    requires before.keys == k0 + added
    ensures Register(before, d, made).keys ==
              k0 + (if Names.Lower(d.name) !in before.entries && made.Created? then added + [Names.Lower(d.name)] else added)
  {
    KeysSnoc(k0, added, Names.Lower(d.name));
  }

  /**
   * The class-loader loop of `loadPlugins` took the table from `t0` to `t` and `LOADERS` from
   * `g0` to `g`: one loader `"Pl_" + name` per discovered plugin, in order, over its files and
   * parented to `host`, appended to both and recorded in that plugin's descriptor.
   */
  ghost predicate NewLoaders(found: seq<Found>, host: Archive, t0: seq<LoaderRec>, g0: seq<nat>,
                             t: seq<LoaderRec>, g: seq<nat>, batch: seq<Desc>)
  {
    && |batch| == |found| && |t| == |t0| + |found| && t[..|t0|] == t0
    && (forall k :: 0 <= k < |found| ==>
          && batch[k] == Desc(found[k].name, found[k].entrypoint, found[k].dependencies, |t0| + k)
          && t[|t0| + k] == LoaderRec("Pl_" + found[k].name, found[k].files, host, found[k].own, [], None, None))
    && |g| == |g0| + |found| && g[..|g0|] == g0
    && (forall j :: |g0| <= j < |g| ==> g[j] == j - |g0| + |t0|)
  }

  /**
   * `order` is a load order for `batch` given the keys `registered`, and `cyclic` what
   * `generateLoadOrder` reports as cyclic: each descriptor at most once, every in-batch
   * dependency whose name is not registered before its dependent, and every descriptor whose
   * names all resolve either emitted or left over; a leftover cannot be loaded, its list being
   * its original list with the emitted entries stripped once.
   */
  ghost predicate LoadOrder(batch: seq<Desc>, registered: set<string>, order: seq<nat>, cyclic: map<nat, seq<Edge>>)
  {
    && Distinct(order)
    && (forall p :: 0 <= p < |order| ==> order[p] < |batch| && EdgesOf(batch, registered, order[p]).Some?)
    && (forall p, j :: (0 <= p < |order| && order[p] < |batch| && EdgesOf(batch, registered, order[p]).Some? &&
                        InBatch(j) in EdgesOf(batch, registered, order[p]).value &&
                        !Satisfied(batch, registered, InBatch(j))) ==> j in order[..p])
    && (forall i: nat :: i in order || i in cyclic <==> i < |batch| && EdgesOf(batch, registered, i).Some?)
    && (forall i :: i in order ==> i !in cyclic)
    && (forall i :: i in cyclic ==> !IsLoaded(batch, registered, cyclic[i]))
    && (forall i :: i in cyclic && i < |batch| && EdgesOf(batch, registered, i).Some? ==>
          multiset(cyclic[i]) == multiset(EdgesOf(batch, registered, i).value) - Emitted(order))
  }

  /** A batch of one plugin without dependencies is emitted, never reported as cyclic. */
  lemma SinglePluginEmitted(batch: seq<Desc>, registered: set<string>, order: seq<nat>, cyclic: map<nat, seq<Edge>>)
    requires |batch| == 1 && batch[0].dependencies == []
    requires LoadOrder(batch, registered, order, cyclic)
    ensures 0 in order && 0 !in cyclic
  {
    assert EdgesOf(batch, registered, 0) == Some([]);
    // a leftover entry for it would be its empty list, which is loadable
    assert 0 in cyclic ==> multiset(cyclic[0]) == multiset{};
    assert IsLoaded(batch, registered, []);
  }

  /** The event node, if one was created, of the loader of the plugin registered under `k`. */
  ghost function Node(t: seq<LoaderRec>, e: map<string, Entry>, k: string): set<Handle>
  {
    if k in e && e[k].origin.loader < |t| && t[e[k].origin.loader].eventNode.Some?
    then {t[e[k].origin.loader].eventNode.value} else {}
  }

  /** The event nodes of the loaders of the plugins registered under the keys `ks`. */
  ghost function Nodes(t: seq<LoaderRec>, e: map<string, Entry>, ks: seq<string>): set<Handle>
    decreases |ks|
  {
    if ks == [] then {} else Nodes(t, e, ks[..|ks| - 1]) + Node(t, e, ks[|ks| - 1])
  }

  lemma NodesSnoc(t: seq<LoaderRec>, e: map<string, Entry>, ks: seq<string>, k: string)
    ensures Nodes(t, e, ks + [k]) == Nodes(t, e, ks) + Node(t, e, k)
  {
    assert (ks + [k])[..|ks|] == ks;
  }

  lemma {:induction false} NodesAppend(t: seq<LoaderRec>, e: map<string, Entry>, ks: seq<string>, ls: seq<string>)
    ensures Nodes(t, e, ks + ls) == Nodes(t, e, ks) + Nodes(t, e, ls)
    decreases |ls|
  {
    if ls == [] {
      assert ks + ls == ks;
    } else {
      var front := ls[..|ls| - 1];
      NodesAppend(t, e, ks, front);
      assert ks + ls == (ks + front) + [ls[|ls| - 1]];
      NodesSnoc(t, e, ks + front, ls[|ls| - 1]);
      NodesSnoc(t, e, front, ls[|ls| - 1]);
    }
  }

  /**
   * Detaching the event node of one more plugin, still registered in `now` (which is `start`
   * with the keys `gone` removed), detaches the nodes of `ks + [k]`.
   */
  lemma DetachStep(g0: set<Handle>, g: set<Handle>, g': set<Handle>, t: seq<LoaderRec>, start: Plugins,
                   gone: set<string>, now: Plugins, ks: seq<string>, k: string)
    requires g == g0 - Nodes(t, start.entries, ks)
    requires now == Drop(start, gone) && k in now.entries
    requires g' == g - Node(t, now.entries, k)
    ensures g' == g0 - Nodes(t, start.entries, ks + [k])
  {
    assert now.entries[k] == start.entries[k];
    NodesSnoc(t, start.entries, ks, k);
  }

  /** Two registries that agree on the plugins named by `ks` name the same event nodes. */
  lemma {:induction false} NodesAgree(t: seq<LoaderRec>, e: map<string, Entry>, e': map<string, Entry>, ks: seq<string>)
    requires forall k :: k in ks ==> k in e && k in e' && e[k] == e'[k]
    ensures Nodes(t, e, ks) == Nodes(t, e', ks)
    decreases |ks|
  {
    if ks != [] {
      var front := ks[..|ks| - 1];
      assert forall k :: k in front ==> k in ks;
      NodesAgree(t, e, e', front);
    }
  }

  /**
   * The state of `unloadPlugin`'s loop over the dependents of `ext` (registered under `key` in
   * `start`): `gone` are the dependents torn down so far, in the order `cascade`, and every
   * dependent no longer in `todo` is gone unless it was never registered.
   */
  ghost predicate Cascading(start: Plugins, t0: seq<Event>, key: string, ext: Entry, todo: set<string>,
                            gone: set<string>, cascade: seq<string>, now: Plugins, trace: seq<Event>)
  {
    && todo <= ext.dependents
    && (forall n :: n in ext.dependents ==> Names.Lower(n) != key)
    && key in now.entries && now.entries[key] == ext
    && DistinctKeys(cascade) && key !in gone
    && (forall k :: k in gone <==> k in cascade)
    && (forall k :: k in gone ==> k in start.entries && k in DependentKeys(ext))
    && (forall n :: n in ext.dependents && n !in todo && Names.Lower(n) in start.entries ==>
          Names.Lower(n) in gone)
    && now == Drop(start, gone)
    && trace == t0 + Teardowns(cascade)
  }

  lemma CascadeStart(start: Plugins, t0: seq<Event>, key: string)
    requires WellFormed(start) && key in start.entries
    ensures Cascading(start, t0, key, start.entries[key], start.entries[key].dependents, {}, [], start, t0)
  {
    DropNothing(start);
  }

  /** Skipping a dependent that is no longer registered keeps the loop state. */
  lemma CascadeSkip(start: Plugins, t0: seq<Event>, key: string, ext: Entry, todo: set<string>,
                    gone: set<string>, cascade: seq<string>, now: Plugins, trace: seq<Event>, n: string)
    requires Cascading(start, t0, key, ext, todo, gone, cascade, now, trace)
    requires n in todo && Names.Lower(n) !in now.entries
    ensures Cascading(start, t0, key, ext, todo - {n}, gone, cascade, now, trace)
  {
  }

  /** Tearing down a registered dependent moves it into `gone` and appends it to `cascade`. */
  lemma CascadeUnload(start: Plugins, t0: seq<Event>, key: string, ext: Entry, todo: set<string>,
                      gone: set<string>, cascade: seq<string>, now: Plugins, trace: seq<Event>, n: string,
                      now': Plugins, trace': seq<Event>)
    requires Cascading(start, t0, key, ext, todo, gone, cascade, now, trace)
    requires n in todo && Names.Lower(n) in now.entries
    requires now' == Drop(now, {Names.Lower(n)}) && trace' == trace + Teardown(Names.Lower(n))
    ensures Cascading(start, t0, key, ext, todo - {n}, gone + {Names.Lower(n)}, cascade + [Names.Lower(n)], now', trace')
  {
    var dk := Names.Lower(n);
    assert dk in start.entries && dk in DependentKeys(ext) && dk != key;
    DropDrop(start, gone, {dk});
    TeardownsSnoc(t0, cascade, dk);
    DistinctConcat(cascade, [dk]);
    assert forall k :: k in gone + {dk} <==> k in cascade + [dk];
  }

  /** When `todo` is empty, tearing down `key` itself completes `unloadPlugin`. */
  lemma CascadeDone(start: Plugins, t0: seq<Event>, key: string, ext: Entry,
                    gone: set<string>, cascade: seq<string>, now: Plugins, trace: seq<Event>,
                    now': Plugins, trace': seq<Event>)
    requires Cascading(start, t0, key, ext, {}, gone, cascade, now, trace)
    requires ext == start.entries[key]
    requires now' == Drop(now, {key}) && trace' == trace + Teardown(key)
    ensures DistinctKeys(cascade) && key !in cascade
    ensures forall k :: k in cascade <==> k in start.entries && k in DependentKeys(ext)
    ensures now' == Drop(start, (set k | k in cascade) + {key})
    ensures trace' == t0 + Teardowns(cascade + [key])
  {
    DropDrop(start, gone, {key});
    TeardownsSnoc(t0, cascade, key);
    assert gone == set k | k in cascade;
    forall k | k in start.entries && k in DependentKeys(ext) ensures k in gone {
      var n :| n in ext.dependents && Names.Lower(n) == k;
    }
  }

  /**
   * The state of `shutdown`'s loop over the snapshot `names` of the keys: `torn` are the
   * plugins torn down so far, in order, and exactly the snapshot's keys no longer registered.
   */
  ghost predicate ShuttingDown(names: set<string>, t0: seq<Event>, todo: set<string>, torn: seq<string>,
                               now: Plugins, trace: seq<Event>)
  {
    && todo <= names && now.entries.Keys <= todo
    && DistinctKeys(torn)
    && (forall k :: k in torn <==> k in names && k !in now.entries)
    && trace == t0 + Teardowns(torn)
  }

  lemma ShutdownStart(now: Plugins, t0: seq<Event>)
    ensures ShuttingDown(now.entries.Keys, t0, now.entries.Keys, [], now, t0)
  {
  }

  /**
   * One `unloadPlugin` of `shutdown`, on a plugin of the snapshot `e0` and its cascade, detaches
   * their event nodes on top of those of the plugins torn down before.
   */
  lemma ShutdownDetach(g0: set<Handle>, g: set<Handle>, g': set<Handle>, t: seq<LoaderRec>, e0: map<string, Entry>,
                       now: map<string, Entry>, torn: seq<string>, cascade: seq<string>, ext: string)
    requires g == g0 - Nodes(t, e0, torn)
    requires forall k :: k in now ==> k in e0 && now[k] == e0[k]
    requires ext in now && forall k :: k in cascade ==> k in now
    requires g' == g - Nodes(t, now, cascade + [ext])
    ensures g' == g0 - Nodes(t, e0, torn + (cascade + [ext]))
  {
    NodesAgree(t, now, e0, cascade + [ext]);
    NodesAppend(t, e0, torn, cascade + [ext]);
  }

  /** A name of the snapshot that a cascade already removed is skipped. */
  lemma ShutdownSkip(names: set<string>, t0: seq<Event>, todo: set<string>, torn: seq<string>,
                     now: Plugins, trace: seq<Event>, x: string)
    requires ShuttingDown(names, t0, todo, torn, now, trace)
    requires x in todo && x !in now.entries
    ensures ShuttingDown(names, t0, todo - {x}, torn, now, trace)
  {
  }

  /** A successful `unloadPlugin` of `x` and its cascade extends `torn` by both. */
  lemma ShutdownUnload(names: set<string>, t0: seq<Event>, todo: set<string>, torn: seq<string>,
                       now: Plugins, trace: seq<Event>, x: string, cascade: seq<string>,
                       now': Plugins, trace': seq<Event>)
    requires ShuttingDown(names, t0, todo, torn, now, trace)
    requires x in todo && x in now.entries
    requires DistinctKeys(cascade) && x !in cascade
    requires forall k :: k in cascade ==> k in now.entries
    requires now' == Drop(now, (set k | k in cascade) + {x})
    requires trace' == trace + Teardowns(cascade + [x])
    ensures ShuttingDown(names, t0, todo - {x}, torn + (cascade + [x]), now', trace')
  {
    TeardownsExtend(t0, torn, cascade + [x]);
    TornDistinct(torn, now, x, cascade);
    TornMembers(names, torn, now, x, cascade, now');
  }

  lemma TornDistinct(torn: seq<string>, now: Plugins, x: string, cascade: seq<string>)
    requires DistinctKeys(torn) && forall k :: k in torn ==> k !in now.entries
    requires DistinctKeys(cascade) && x !in cascade
    requires x in now.entries && forall k :: k in cascade ==> k in now.entries
    ensures DistinctKeys(torn + (cascade + [x]))
  {
    DistinctConcat(cascade, [x]);
    DistinctConcat(torn, cascade + [x]);
  }

  lemma TornMembers(names: set<string>, torn: seq<string>, now: Plugins, x: string, cascade: seq<string>,
                    now': Plugins)
    requires forall k :: k in torn <==> k in names && k !in now.entries
    requires now.entries.Keys <= names
    requires x in now.entries && forall k :: k in cascade ==> k in now.entries
    requires now'.entries.Keys == now.entries.Keys - ((set k | k in cascade) + {x})
    ensures forall k :: k in torn + (cascade + [x]) <==> k in names && k !in now'.entries
  {
  }

  /** At the end of `shutdown` nothing is registered. */
  lemma ShutdownDone(names: set<string>, t0: seq<Event>, torn: seq<string>, now: Plugins, trace: seq<Event>)
    requires ShuttingDown(names, t0, {}, torn, now, trace) && WellFormed(now)
    ensures now.keys == [] && now.entries == map[]
    ensures forall k :: k in torn <==> k in names
  {
    KeysRegistered(now);
  }

  /**
   * The dependents loop of `loadPlugin`: each declared dependency registered under its
   * lowercase name records `n` as a dependent.
   */
  method RecordDependent(entries: map<string, Entry>, deps: seq<string>, n: string)
    returns (entries': map<string, Entry>)
    ensures entries' == AddDependent(entries, deps, n)
  {
    entries' := entries;
    for q := 0 to |deps|
      invariant entries' == AddDependent(entries, deps[..q], n)
    {
      ghost var prev := entries';
      var dependency := Names.Lower(deps[q]);
      if dependency in entries' {
        var e := entries'[dependency];
        entries' := entries'[dependency := e.(dependents := e.dependents + {n})];
      }
      AddDependentStep(entries, deps, q, n, prev, entries');
    }
    assert deps[..|deps|] == deps;
  }

  class PluginManager {
    var state: State
    var plugins: Plugins
    /** The process's plugin loaders (`PluginClassLoader` instances and the static `LOADERS` list). */
    const loaders: LoaderTable
    /** The thread's context class loader, once `loadPlugins` has set it. */
    var contextLoader: Option<Combined.CombinedClassLoader>
    /** Every plugin callback so far, in order. */
    ghost var trace: seq<Event>

    ghost predicate Valid()
      reads this, loaders
    {
      && WellFormed(plugins)
      && loaders.Valid()
      && (forall k :: k in plugins.entries ==> plugins.entries[k].origin.loader < |loaders.table|)
      && (contextLoader.Some? ==> Combined.Members(loaders.table, contextLoader.value.loaders))
    }

    /** A new manager: `NOT_STARTED`, no plugins, no loaders yet. */
    constructor (host: Archive)
      ensures Valid()
      ensures state == NotStarted && plugins == NoPlugins() && contextLoader.None? && trace == []
      ensures fresh(loaders) && loaders.table == [] && loaders.registry == [] && loaders.host == host
    {
      state := NotStarted;
      plugins := NoPlugins();
      loaders := new LoaderTable(host);
      contextLoader := None;
      trace := [];
    }

    /** `shouldLoadOnStartup`: false exactly when `start` would return without doing anything. */
    function ShouldLoadOnStartup(): (r: bool)
      reads this
      ensures r <==> Apply(state, Boot) != (Pass, state)
    {
      state != DoNotStart
    }

    /** `setLoadOnStartup`. */
    method SetLoadOnStartup(loadOnStartup: bool) returns (r: Outcome)
      requires Valid()
      modifies this
      ensures Valid()
      ensures (r, state) == Apply(old(state), SetLoad(loadOnStartup))
      ensures plugins == old(plugins) && contextLoader == old(contextLoader) && trace == old(trace)
    {
      if Ordinal(state) > Ordinal(NotStarted) {
        return Fail(IllegalState);
      }
      state := if loadOnStartup then NotStarted else DoNotStart;
      r := Pass;
    }

    /** `getPlugin`: looks the name up in lowercase. */
    function GetPlugin(name: string): (r: Option<Entry>)
      reads this
    {
      if Names.Lower(name) in plugins.entries then Some(plugins.entries[Names.Lower(name)]) else None
    }

    /**
     * Every registered plugin is found under its own name, spelt in any case, and under no
     * other key.
     */
    lemma GetPluginFindsOrigin(k: string, name: string)
      requires Valid() && k in plugins.entries
      requires Names.Lower(name) == Names.Lower(plugins.entries[k].origin.name)
      ensures GetPlugin(name) == Some(plugins.entries[k])
    {
    }

    /** `hasPlugin`: looks the name up as given. */
    predicate HasPlugin(name: string)
      reads this
    {
      name in plugins.entries
    }

    /**
     * `hasPlugin` answers yes only for a name already in lowercase that `getPlugin` finds: a
     * name with an upper-case letter is never "had", even when `getPlugin` returns its plugin.
     */
    lemma HasPluginIff(name: string)
      requires Valid()
      ensures HasPlugin(name) <==> name == Names.Lower(name) && GetPlugin(name).Some?
    {
      if name in plugins.entries {
        Names.LowerIdempotent(plugins.entries[name].origin.name);
      }
    }

    /** `forEach(callback)` over the plugins with keys `ks`, in that order. */
    method Fire(h: Hook, ks: seq<string>)
      modifies this
      ensures trace == old(trace) + Fired(h, ks)
      ensures state == old(state) && plugins == old(plugins) && contextLoader == old(contextLoader)
    {
      for i := 0 to |ks|
        invariant trace == old(trace) + Fired(h, ks[..i])
      {
        assert ks[..i + 1][..i] == ks[..i];
        trace := trace + [Event(h, ks[i])];
      }
      assert ks[..|ks|] == ks;
    }

    /** `gotoPreInit`: `onLoad` for every registered plugin, then `PRE_INIT`. */
    method GotoPreInit() returns (r: Outcome)
      requires Valid()
      modifies this
      ensures Valid()
      ensures (r, state) == Apply(old(state), EnterPreInit)
      ensures trace == old(trace) + (if old(state) == Started then Fired(OnLoad, plugins.keys) else [])
      ensures plugins == old(plugins) && contextLoader == old(contextLoader)
    {
      if state == DoNotStart {
        return Pass;
      }
      if state != Started {
        return Fail(IllegalState);
      }
      Fire(OnLoad, plugins.keys);
      state := PreInit;
      r := Pass;
    }

    /** `gotoInit`: `onEnable` for every registered plugin, then `INIT`. */
    method GotoInit() returns (r: Outcome)
      requires Valid()
      modifies this
      ensures Valid()
      ensures (r, state) == Apply(old(state), EnterInit)
      ensures trace == old(trace) + (if old(state) == PreInit then Fired(OnEnable, plugins.keys) else [])
      ensures plugins == old(plugins) && contextLoader == old(contextLoader)
    {
      if state == DoNotStart {
        return Pass;
      }
      if state != PreInit {
        return Fail(IllegalState);
      }
      Fire(OnEnable, plugins.keys);
      state := Init;
      r := Pass;
    }

    /** `gotoPostInit`: `onPostEnable` for every registered plugin, then `POST_INIT`. */
    method GotoPostInit() returns (r: Outcome)
      requires Valid()
      modifies this
      ensures Valid()
      ensures (r, state) == Apply(old(state), EnterPostInit)
      ensures trace == old(trace) + (if old(state) == Init then Fired(OnPostEnable, plugins.keys) else [])
      ensures plugins == old(plugins) && contextLoader == old(contextLoader)
    {
      if state == DoNotStart {
        return Pass;
      }
      if state != Init {
        return Fail(IllegalState);
      }
      Fire(OnPostEnable, plugins.keys);
      state := PostInit;
      r := Pass;
    }

    /**
     * `loadPlugin`: rejects a name already registered (case-insensitively) or a main class that
     * does not instantiate; otherwise records the plugin as a dependent of each registered
     * dependency and registers it last. `made` is how reflection on its main class turns out.
     */
    method LoadPlugin(d: Desc, made: Instantiated) returns (loaded: bool)
      requires Valid() && d.loader < |loaders.table|
      modifies this
      ensures Valid()
      ensures plugins == Register(old(plugins), d, made)
      ensures loaded <==> Names.Lower(d.name) !in old(plugins.entries) && made.Created?
      ensures state == old(state) && contextLoader == old(contextLoader) && trace == old(trace)
    {
      var key := Names.Lower(d.name);
      if key in plugins.entries {
        return false;
      }
      if made.Failed? {
        return false;
      }
      ghost var before := plugins;
      var entries := RecordDependent(plugins.entries, d.dependencies, d.name);
      ghost var after := Register(before, d, made);
      RegisterWellFormed(before, d, made);
      RegisterOrigins(before, d, made);
      plugins := Plugins(plugins.keys + [key], entries[key := Entry(d, {})]);
      assert plugins == after;
      loaded := true;
    }

    /** The loading loop of `loadPlugins` and `loadPluginList`: `loadPlugin` on each, in order. */
    method LoadInOrder(batch: seq<Desc>, order: seq<nat>, inst: Desc -> Instantiated) returns (added: seq<string>)
      requires Valid()
      requires forall k :: 0 <= k < |batch| ==> batch[k].loader < |loaders.table|
      requires forall p :: 0 <= p < |order| ==> order[p] < |batch|
      modifies this
      ensures Valid()
      ensures plugins == RegisterAll(old(plugins), InOrder(batch, order), inst)
      ensures plugins.keys == old(plugins.keys) + added
      ensures state == old(state) && contextLoader == old(contextLoader) && trace == old(trace)
    {
      added := [];
      ghost var r0 := plugins;
      ghost var ds: seq<Desc> := [];
      for p := 0 to |order|
        invariant Valid()
        invariant ds == InOrder(batch, order[..p])
        invariant plugins == RegisterAll(r0, ds, inst)
        invariant plugins.keys == r0.keys + added
        invariant state == old(state) && contextLoader == old(contextLoader) && trace == old(trace)
      {
        var d := batch[order[p]];
        LoadStep(r0, ds, d, inst, added, plugins);
        var ok := LoadPlugin(d, inst(d));
        if ok {
          added := added + [Names.Lower(d.name)];
        }
        InOrderSnoc(batch, order, p);
        ds := ds + [d];
      }
      assert order[..|order|] == order;
    }

    /** The class-loader loop of `loadPlugins`: one new loader per discovered plugin, in order. */
    method CreateLoaders(found: seq<Found>) returns (batch: seq<Desc>)
      requires Valid()
      modifies loaders
      ensures Valid()
      ensures |batch| == |found| && |loaders.table| == |old(loaders.table)| + |found|
      ensures forall k :: 0 <= k < |found| ==>
                batch[k] == Desc(found[k].name, found[k].entrypoint, found[k].dependencies, |old(loaders.table)| + k)
      ensures loaders.table[..|old(loaders.table)|] == old(loaders.table)
      ensures forall k :: 0 <= k < |found| ==>
                loaders.table[|old(loaders.table)| + k] ==
                LoaderRec("Pl_" + found[k].name, found[k].files, old(loaders.host), found[k].own, [], None, None)
      ensures |loaders.registry| == |old(loaders.registry)| + |found|
      ensures loaders.registry[..|old(loaders.registry)|] == old(loaders.registry)
      ensures forall j :: |old(loaders.registry)| <= j < |loaders.registry| ==>
                loaders.registry[j] == j - |old(loaders.registry)| + |old(loaders.table)|
      ensures loaders.host == old(loaders.host) && loaders.globalChildren == old(loaders.globalChildren)
      ensures loaders.nextHandle == old(loaders.nextHandle)
    {
      batch := [];
      ghost var t0, g0 := loaders.table, loaders.registry;
      for k := 0 to |found|
        invariant loaders.Valid()
        invariant |batch| == k && |loaders.table| == |t0| + k && |loaders.registry| == |g0| + k
        invariant forall j :: 0 <= j < k ==>
                    batch[j] == Desc(found[j].name, found[j].entrypoint, found[j].dependencies, |t0| + j)
        invariant loaders.table[..|t0|] == t0 && loaders.registry[..|g0|] == g0
        invariant forall j :: 0 <= j < k ==>
                    loaders.table[|t0| + j] ==
                    LoaderRec("Pl_" + found[j].name, found[j].files, old(loaders.host), found[j].own, [], None, None)
        invariant forall j :: |g0| <= j < |loaders.registry| ==> loaders.registry[j] == j - |g0| + |t0|
        invariant loaders.host == old(loaders.host) && loaders.globalChildren == old(loaders.globalChildren)
        invariant loaders.nextHandle == old(loaders.nextHandle)
      {
        var id := loaders.NewLoader(found[k].name, found[k].files, found[k].own);
        batch := batch + [Desc(found[k].name, found[k].entrypoint, found[k].dependencies, id)];
      }
      assert forall k :: k in plugins.entries ==> plugins.entries[k].origin.loader < |t0|;
      if contextLoader.Some? {
        assert forall j :: 0 <= j < |t0| ==> loaders.table[j] == t0[j];
      }
    }

    /** The last step of `loadPlugins`: the aggregate of every registered plugin's loader, in registry order. */
    method SetContextLoader()
      requires Valid()
      modifies this
      ensures Valid()
      ensures contextLoader.Some? && |contextLoader.value.loaders| == |plugins.keys|
      ensures forall j :: 0 <= j < |plugins.keys| ==>
                contextLoader.value.loaders[j] == plugins.entries[plugins.keys[j]].origin.loader
      ensures state == old(state) && plugins == old(plugins) && trace == old(trace)
    {
      var ls := [];
      for i := 0 to |plugins.keys|
        invariant |ls| == i
        invariant forall j :: 0 <= j < i ==> ls[j] == plugins.entries[plugins.keys[j]].origin.loader
      {
        ls := ls + [plugins.entries[plugins.keys[i]].origin.loader];
      }
      contextLoader := Some(Combined.CombinedClassLoader(ls));
    }

    /**
     * `loadPlugins` after discovery: nothing for an empty discovery; otherwise a loader per
     * plugin, the load order, `loadPlugin` along it, and the aggregate loader.
     */
    method LoadPlugins(found: seq<Found>, inst: Desc -> Instantiated) returns (batch: seq<Desc>, order: seq<nat>, ghost cyclic: map<nat, seq<Edge>>)
      requires Valid()
      modifies this, loaders
      ensures Valid()
      ensures state == old(state) && trace == old(trace)
      ensures found == [] ==> plugins == old(plugins) && contextLoader == old(contextLoader) && unchanged(loaders)
      ensures found != [] ==>
                && NewLoaders(found, old(loaders.host), old(loaders.table), old(loaders.registry),
                              loaders.table, loaders.registry, batch)
                && LoadOrder(batch, old(plugins.entries.Keys), order, cyclic)
                && plugins == RegisterAll(old(plugins), InOrder(batch, order), inst)
                && contextLoader.Some? && |contextLoader.value.loaders| == |plugins.keys|
                && (forall j :: 0 <= j < |plugins.keys| ==>
                      contextLoader.value.loaders[j] == plugins.entries[plugins.keys[j]].origin.loader)
      ensures loaders.host == old(loaders.host) && loaders.globalChildren == old(loaders.globalChildren)
      ensures loaders.nextHandle == old(loaders.nextHandle)
    {
      batch, order, cyclic := [], [], map[];
      if found == [] {
        return;
      }
      batch := CreateLoaders(found);
      var missing, leftover;
      order, missing, leftover := GenerateLoadOrder(batch, plugins.entries.Keys);
      cyclic := leftover;
      var added := LoadInOrder(batch, order, inst);
      SetContextLoader();
    }

    /** `start`: runs `loadPlugins` once, from `NOT_STARTED`, then assigns `STARTED`. */
    method Start(found: seq<Found>, inst: Desc -> Instantiated) returns (r: Outcome, batch: seq<Desc>, order: seq<nat>, ghost cyclic: map<nat, seq<Edge>>)
      requires Valid()
      modifies this, loaders
      ensures Valid()
      ensures (r, state) == Apply(old(state), Boot)
      ensures trace == old(trace)
      ensures old(state) != NotStarted ==> plugins == old(plugins) && contextLoader == old(contextLoader) && unchanged(loaders)
      ensures old(state) == NotStarted && found == [] ==>
                plugins == old(plugins) && contextLoader == old(contextLoader) && unchanged(loaders)
      ensures old(state) == NotStarted && found != [] ==>
                && NewLoaders(found, old(loaders.host), old(loaders.table), old(loaders.registry),
                              loaders.table, loaders.registry, batch)
                && LoadOrder(batch, old(plugins.entries.Keys), order, cyclic)
                && plugins == RegisterAll(old(plugins), InOrder(batch, order), inst)
                && contextLoader.Some? && |contextLoader.value.loaders| == |plugins.keys|
                && (forall j :: 0 <= j < |plugins.keys| ==>
                      contextLoader.value.loaders[j] == plugins.entries[plugins.keys[j]].origin.loader)
      ensures loaders.host == old(loaders.host) && loaders.globalChildren == old(loaders.globalChildren)
      ensures loaders.nextHandle == old(loaders.nextHandle)
    {
      batch, order, cyclic := [], [], map[];
      if state == DoNotStart {
        return Pass, batch, order, cyclic;
      }
      if state != NotStarted {
        return Fail(IllegalState), batch, order, cyclic;
      }
      batch, order, cyclic := LoadPlugins(found, inst);
      state := Started;
      r := Pass;
    }

    /**
     * `loadPluginList`: orders the batch, loads it, and fires `onLoad`, then `onEnable`, then
     * `onPostEnable` on the newly loaded plugins only; false, with no callbacks, if none loaded.
     */
    method LoadPluginList(batch: seq<Desc>, inst: Desc -> Instantiated) returns (ok: bool, order: seq<nat>, ghost cyclic: map<nat, seq<Edge>>)
      requires Valid()
      requires forall k :: 0 <= k < |batch| ==> batch[k].loader < |loaders.table|
      modifies this
      ensures Valid()
      ensures LoadOrder(batch, old(plugins.entries.Keys), order, cyclic)
      ensures plugins == RegisterAll(old(plugins), InOrder(batch, order), inst)
      ensures |plugins.keys| >= |old(plugins.keys)| && plugins.keys[..|old(plugins.keys)|] == old(plugins.keys)
      ensures ok <==> |plugins.keys| > |old(plugins.keys)|
      ensures var added := plugins.keys[|old(plugins.keys)|..];
              trace == old(trace) + (if ok then Fired(OnLoad, added) + Fired(OnEnable, added) + Fired(OnPostEnable, added)
                                     else [])
      ensures state == old(state) && contextLoader == old(contextLoader)
    {
      var missing, leftover;
      order, missing, leftover := GenerateLoadOrder(batch, plugins.entries.Keys);
      cyclic := leftover;
      var added := LoadInOrder(batch, order, inst);
      assert plugins.keys[|old(plugins.keys)|..] == added;
      if added == [] {
        return false, order, cyclic;
      }
      ghost var t0 := trace;
      Fire(OnLoad, added);
      Fire(OnEnable, added);
      Fire(OnPostEnable, added);
      FiredRounds(t0, Fired(OnLoad, added), Fired(OnEnable, added), Fired(OnPostEnable, added));
      ok := true;
    }

    /** `unload`: the callbacks and loader termination of one plugin, then its removal. */
    method Unload(key: string)
      requires Valid() && key in plugins.entries
      modifies this, loaders
      ensures Valid()
      ensures plugins == Drop(old(plugins), {key})
      ensures trace == old(trace) + Teardown(key)
      ensures var i := old(plugins.entries[key].origin.loader);
              && (old(loaders.table[i].eventNode).Some? ==>
                    loaders.globalChildren == old(loaders.globalChildren) - {old(loaders.table[i].eventNode.value)})
              && (old(loaders.table[i].eventNode).None? ==> loaders.globalChildren == old(loaders.globalChildren))
      ensures loaders.globalChildren == old(loaders.globalChildren) - Node(old(loaders.table), old(plugins.entries), key)
      ensures loaders.table == old(loaders.table) && loaders.registry == old(loaders.registry)
      ensures loaders.host == old(loaders.host) && loaders.nextHandle == old(loaders.nextHandle)
      ensures state == old(state) && contextLoader == old(contextLoader)
    {
      var ext := plugins.entries[key];
      trace := trace + [Event(OnPreDisable, key), Event(OnDisable, key)];
      loaders.Terminate(ext.origin.loader);
      trace := trace + [Event(Terminated, key), Event(OnPostDisable, key)];
      TeardownSteps(old(trace), key);
      var id := Names.Lower(ext.origin.name);
      DropWellFormed(plugins, {id});
      plugins := Drop(plugins, {id});
    }

    /**
     * The loop of `unloadPlugin` over the dependents of the plugin registered under `key`: each
     * one still loaded is torn down, in an unspecified order, and its event node detached.
     */
    method UnloadDependents(key: string) returns (ghost gone: set<string>, ghost cascade: seq<string>)
      requires Valid() && key in plugins.entries
      modifies this, loaders
      ensures Valid()
      ensures Cascading(old(plugins), old(trace), key, old(plugins.entries[key]), {}, gone, cascade, plugins, trace)
      ensures loaders.globalChildren == old(loaders.globalChildren) - Nodes(old(loaders.table), old(plugins.entries), cascade)
      ensures loaders.table == old(loaders.table) && loaders.registry == old(loaders.registry)
      ensures loaders.host == old(loaders.host) && loaders.nextHandle == old(loaders.nextHandle)
      ensures state == old(state) && contextLoader == old(contextLoader)
    {
      var ext := plugins.entries[key];
      var todo := ext.dependents;
      ghost var start, t0 := plugins, trace;
      gone, cascade := {}, [];
      CascadeStart(start, t0, key);
      while todo != {}
        invariant Valid()
        invariant Cascading(start, t0, key, ext, todo, gone, cascade, plugins, trace)
        invariant loaders.table == old(loaders.table) && loaders.registry == old(loaders.registry)
        invariant loaders.host == old(loaders.host) && loaders.nextHandle == old(loaders.nextHandle)
        invariant loaders.globalChildren == old(loaders.globalChildren) - Nodes(old(loaders.table), start.entries, cascade)
        invariant state == old(state) && contextLoader == old(contextLoader)
        decreases todo
      {
        var dependentId :| dependentId in todo;
        var dk := Names.Lower(dependentId);
        if dk in plugins.entries {
          ghost var now, tr, g := plugins, trace, loaders.globalChildren;
          Unload(dk);
          DetachStep(old(loaders.globalChildren), g, loaders.globalChildren, loaders.table, start, gone, now, cascade, dk);
          CascadeUnload(start, t0, key, ext, todo, gone, cascade, now, tr, dependentId, plugins, trace);
          cascade := cascade + [dk];
          gone := gone + {dk};
        } else {
          CascadeSkip(start, t0, key, ext, todo, gone, cascade, plugins, trace, dependentId);
        }
        todo := todo - {dependentId};
      }
    }

    /**
     * `unloadPlugin`: throws for a name not loaded; otherwise tears down, in an unspecified
     * order, each dependent still loaded (one level only), then the plugin itself.
     */
    method UnloadPlugin(name: string) returns (r: Outcome, ghost cascade: seq<string>)
      requires Valid()
      modifies this, loaders
      ensures Valid()
      ensures r == Pass <==> Names.Lower(name) in old(plugins.entries)
      ensures r.Fail? ==> r == Fail(NotLoaded) && plugins == old(plugins) && trace == old(trace) && unchanged(loaders)
      ensures r == Pass ==>
                var key := Names.Lower(name);
                && DistinctKeys(cascade) && key !in cascade
                && (forall k :: k in cascade <==> k in old(plugins.entries) && k in DependentKeys(old(plugins.entries[key])))
                && plugins == Drop(old(plugins), (set k | k in cascade) + {key})
                && trace == old(trace) + Teardowns(cascade + [key])
                && loaders.globalChildren == old(loaders.globalChildren) - Nodes(old(loaders.table), old(plugins.entries), cascade + [key])
      ensures loaders.table == old(loaders.table) && loaders.registry == old(loaders.registry)
      ensures loaders.host == old(loaders.host) && loaders.nextHandle == old(loaders.nextHandle)
      ensures state == old(state) && contextLoader == old(contextLoader)
    {
      var key := Names.Lower(name);
      if key !in plugins.entries {
        return Fail(NotLoaded), [];
      }
      ghost var start, t0 := plugins, trace;
      ghost var gone;
      gone, cascade := UnloadDependents(key);
      ghost var now, tr, g := plugins, trace, loaders.globalChildren;
      Unload(key);
      DetachStep(old(loaders.globalChildren), g, loaders.globalChildren, loaders.table, start, gone, now, cascade, key);
      CascadeDone(start, t0, key, start.entries[key], gone, cascade, now, tr, plugins, trace);
      r := Pass;
    }

    /**
     * `shutdown`: `unloadPlugin` on each name of a snapshot of the keys that is still loaded;
     * the registry ends empty and every plugin was torn down exactly once.
     */
    method Shutdown() returns (ghost torn: seq<string>)
      requires Valid()
      modifies this, loaders
      ensures Valid()
      ensures plugins.keys == [] && plugins.entries == map[]
      ensures DistinctKeys(torn) && forall k :: k in torn <==> k in old(plugins.entries)
      ensures trace == old(trace) + Teardowns(torn)
      ensures loaders.globalChildren == old(loaders.globalChildren) - Nodes(old(loaders.table), old(plugins.entries), torn)
      ensures loaders.table == old(loaders.table) && loaders.registry == old(loaders.registry)
      ensures loaders.host == old(loaders.host) && loaders.nextHandle == old(loaders.nextHandle)
      ensures state == old(state) && contextLoader == old(contextLoader)
    {
      var pluginNames := plugins.entries.Keys;
      var todo := pluginNames;
      ghost var t0 := trace;
      torn := [];
      ShutdownStart(plugins, t0);
      while todo != {}
        invariant Valid()
        invariant ShuttingDown(pluginNames, t0, todo, torn, plugins, trace)
        invariant loaders.table == old(loaders.table) && loaders.registry == old(loaders.registry)
        invariant loaders.host == old(loaders.host) && loaders.nextHandle == old(loaders.nextHandle)
        invariant forall k :: k in plugins.entries ==> k in old(plugins.entries) && plugins.entries[k] == old(plugins.entries[k])
        invariant loaders.globalChildren == old(loaders.globalChildren) - Nodes(old(loaders.table), old(plugins.entries), torn)
        invariant state == old(state) && contextLoader == old(contextLoader)
        decreases todo
      {
        var ext :| ext in todo;
        if ext in plugins.entries {
          Names.LowerIdempotent(plugins.entries[ext].origin.name);
          ghost var now, tr, g := plugins, trace, loaders.globalChildren;
          var unloaded;
          ghost var cascade;
          unloaded, cascade := UnloadPlugin(ext);
          ShutdownUnload(pluginNames, t0, todo, torn, now, tr, ext, cascade, plugins, trace);
          ShutdownDetach(old(loaders.globalChildren), g, loaders.globalChildren, loaders.table, old(plugins.entries),
                         now.entries, torn, cascade, ext);
          torn := torn + (cascade + [ext]);
        } else {
          ShutdownSkip(pluginNames, t0, todo, torn, plugins, trace, ext);
        }
        todo := todo - {ext};
      }
      ShutdownDone(pluginNames, t0, torn, plugins, trace);
    }
  }
}
