/**
 * The plugin registry of `PluginManager`: an insertion-ordered map from lowercase name to
 * loaded plugin (`LinkedHashMap<String, Plugin>`), each plugin with its `dependents` set and
 * the descriptor it came from; and the callback trace the lifecycle leaves behind.
 */
module Registry {
  import opened Names
  import opened Resolver

  /** A loaded plugin: its origin descriptor and the names of the plugins that declared it. */
  datatype Entry = Entry(origin: Desc, dependents: set<string>)

  /** `plugins`: `keys` is the insertion order of the `LinkedHashMap`, `entries` its contents. */
  datatype Plugins = Plugins(keys: seq<string>, entries: map<string, Entry>)

  /** No key twice in the insertion order. */
  ghost predicate DistinctKeys(ks: seq<string>)
  {
    forall p, q :: 0 <= p < q < |ks| ==> ks[p] != ks[q]
  }

  /** One more key appended to a list that extends `a` by `b`. */
  lemma KeysSnoc(a: seq<string>, b: seq<string>, x: string)
    ensures a + b + [x] == a + (b + [x])
  {
  }

  /** Two key lists without duplicates and without common keys concatenate to one without duplicates. */
  lemma DistinctConcat(a: seq<string>, b: seq<string>)
    requires DistinctKeys(a) && DistinctKeys(b)
    requires forall x :: x in a ==> x !in b
    ensures DistinctKeys(a + b)
  {
    forall p, q | 0 <= p < q < |a + b| ensures (a + b)[p] != (a + b)[q] {
      if q < |a| {
        assert (a + b)[p] == a[p] && (a + b)[q] == a[q];
      } else if p < |a| {
        assert (a + b)[p] == a[p] && a[p] in a && (a + b)[q] == b[q - |a|];
      } else {
        assert (a + b)[p] == b[p - |a|] && (a + b)[q] == b[q - |a|];
      }
    }
  }

  /**
   * What registration keeps: the order lists each key once, every key is the lowercase name of
   * its plugin's origin, and no plugin lists a dependent that lowers to its own key.
   */
  ghost predicate WellFormed(r: Plugins)
  {
    && DistinctKeys(r.keys)
    && (forall p :: 0 <= p < |r.keys| ==> r.keys[p] in r.entries)
    && (forall k :: k in r.entries ==> k in r.keys)
    && (forall k :: k in r.entries ==> Lower(r.entries[k].origin.name) == k)
    && (forall k, n :: k in r.entries && n in r.entries[k].dependents ==> Lower(n) != k)
  }

  /** A registry with an insertion order holds at least one plugin. */
  lemma KeysRegistered(r: Plugins)
    requires WellFormed(r)
    ensures r.keys != [] ==> r.entries != map[]
  {
    if r.keys != [] {
      assert r.keys[0] in r.entries;
    }
  }

  /** An empty registry. */
  function NoPlugins(): (r: Plugins)
    ensures WellFormed(r) && r.keys == [] && r.entries == map[]
  {
    Plugins([], map[])
  }

  /** Some name of `deps` lowers to `k`. */
  predicate Declares(deps: seq<string>, k: string)
  {
    exists q :: 0 <= q < |deps| && Lower(deps[q]) == k
  }

  /**
   * The dependents loop of `loadPlugin`: for each declared dependency, the plugin registered
   * under its lowercase name (if any) records `n` as a dependent.
   */
  function AddDependent(entries: map<string, Entry>, deps: seq<string>, n: string): (r: map<string, Entry>)
    ensures r.Keys == entries.Keys
    ensures forall k :: k in r ==> r[k].origin == entries[k].origin
    ensures forall k :: k in r ==>
              r[k].dependents == entries[k].dependents + (if Declares(deps, k) then {n} else {})
    decreases |deps|
  {
    if deps == [] then entries
    else
      var front := deps[..|deps| - 1];
      var e := AddDependent(entries, front, n);
      var k := Lower(deps[|deps| - 1]);
      assert forall k' :: Declares(deps, k') <==> Declares(front, k') || k == k' by {
        forall k' ensures Declares(deps, k') <==> Declares(front, k') || k == k' {
          if Declares(front, k') {
            var q :| 0 <= q < |front| && Lower(front[q]) == k';
            assert deps[q] == front[q];
          }
          if Declares(deps, k') && k != k' {
            var q :| 0 <= q < |deps| && Lower(deps[q]) == k';
            assert q < |front| && deps[q] == front[q];
          }
        }
      }
      if k in e then e[k := e[k].(dependents := e[k].dependents + {n})] else e
  }

  /** One more step of the dependents loop. */
  lemma AddDependentStep(entries: map<string, Entry>, deps: seq<string>, q: nat, n: string,
                         prev: map<string, Entry>, next: map<string, Entry>)
    requires q < |deps| && prev == AddDependent(entries, deps[..q], n)
    requires Lower(deps[q]) in prev ==>
               next == prev[Lower(deps[q]) := prev[Lower(deps[q])].(dependents := prev[Lower(deps[q])].dependents + {n})]
    requires Lower(deps[q]) !in prev ==> next == prev
    ensures next == AddDependent(entries, deps[..q + 1], n)
  {
    assert deps[..q + 1][..q] == deps[..q];
  }

  /** Why the reflective instantiation of a main class fails; each makes `loadPlugin` return null. */
  datatype InstantiationFailure =
    | ClassNotFound
    | NotAPluginSubclass
    | NoDefaultConstructor
    | AbstractClass
    | ConstructorThrew

  /** The outcome of `Class.forName`, `asSubclass`, `getDeclaredConstructor` and `newInstance`. */
  datatype Instantiated = Created | Failed(why: InstantiationFailure)

  /**
   * `loadPlugin` on the registry: a plugin whose lowercase name is already a key, or whose
   * main class cannot be instantiated, leaves it unchanged; otherwise the registered
   * dependencies record it and its key is appended last.
   */
  function Register(r: Plugins, d: Desc, made: Instantiated): (r': Plugins)
    // a duplicate name, or a failed instantiation, changes nothing
    ensures Lower(d.name) in r.entries || made.Failed? ==> r' == r
    // otherwise the key is new and appended last, and its plugin has no dependents yet
    ensures Lower(d.name) !in r.entries && made.Created? ==>
              && r'.keys == r.keys + [Lower(d.name)]
              && r'.entries.Keys == r.entries.Keys + {Lower(d.name)}
              && r'.entries[Lower(d.name)] == Entry(d, {})
    // every plugin registered before keeps its origin
    ensures forall k :: k in r.entries ==> k in r'.entries && r'.entries[k].origin == r.entries[k].origin
  {
    var key := Lower(d.name);
    if key in r.entries || made.Failed? then r
    else Plugins(r.keys + [key], AddDependent(r.entries, d.dependencies, d.name)[key := Entry(d, {})])
  }

  /**
   * A successful registration appends the key last, adds the new plugin with no dependents,
   * records it with exactly the registered plugins it names, and keeps every origin.
   */
  lemma RegisterAppends(r: Plugins, d: Desc)
    requires Lower(d.name) !in r.entries
    ensures Register(r, d, Created).keys == r.keys + [Lower(d.name)]
    ensures Register(r, d, Created).entries.Keys == r.entries.Keys + {Lower(d.name)}
    ensures Register(r, d, Created).entries[Lower(d.name)] == Entry(d, {})
    ensures forall k :: k in r.entries ==>
              && Register(r, d, Created).entries[k].origin == r.entries[k].origin
              && (d.name in Register(r, d, Created).entries[k].dependents <==>
                    d.name in r.entries[k].dependents || Declares(d.dependencies, k))
  {
  }

  /** Registration keeps every origin and gives the new key the descriptor itself. */
  lemma RegisterOrigins(r: Plugins, d: Desc, made: Instantiated)
    ensures forall k :: k in Register(r, d, made).entries ==>
              Register(r, d, made).entries[k].origin == if k in r.entries then r.entries[k].origin else d
  {
  }

  /** Registration keeps the registry well formed. */
  lemma RegisterWellFormed(r: Plugins, d: Desc, made: Instantiated)
    requires WellFormed(r)
    ensures WellFormed(Register(r, d, made))
  {
    var key := Lower(d.name);
    if key !in r.entries && made.Created? {
      var r' := Register(r, d, made);
      assert r'.keys == r.keys + [key];
      forall p, q | 0 <= p < q < |r'.keys| ensures r'.keys[p] != r'.keys[q] {
        if q == |r.keys| {
          assert r'.keys[p] == r.keys[p] && r.keys[p] in r.entries;
        } else {
          assert r'.keys[p] == r.keys[p] && r'.keys[q] == r.keys[q];
        }
      }
      forall k, n | k in r'.entries && n in r'.entries[k].dependents ensures Lower(n) != k {
        if k != key {
          assert n in r.entries[k].dependents || n == d.name;
        }
      }
      LowerIdempotent(d.name);
    }
  }

  /** `loadPlugin` for each descriptor in turn; `inst` says how each main class instantiates. */
  function RegisterAll(r: Plugins, ds: seq<Desc>, inst: Desc -> Instantiated): (r': Plugins)
    // keys are only appended, at most one per descriptor
    ensures |r.keys| <= |r'.keys| <= |r.keys| + |ds| && r'.keys[..|r.keys|] == r.keys
    // every plugin registered before stays, with its origin
    ensures forall k :: k in r.entries ==> k in r'.entries && r'.entries[k].origin == r.entries[k].origin
    // every plugin registered now comes from one of the descriptors
    ensures forall k :: k in r'.entries && k !in r.entries ==> r'.entries[k].origin in ds
    decreases |ds|
  {
    if ds == [] then r
    else
      var front := RegisterAll(r, ds[..|ds| - 1], inst);
      var last := Register(front, ds[|ds| - 1], inst(ds[|ds| - 1]));
      assert last.keys[..|r.keys|] == front.keys[..|r.keys|];
      last
  }

  /** One more descriptor loaded after a run of them. */
  lemma RegisterAllSnoc(r: Plugins, ds: seq<Desc>, d: Desc, inst: Desc -> Instantiated)
    ensures RegisterAll(r, ds + [d], inst) == Register(RegisterAll(r, ds, inst), d, inst(d))
  {
    assert (ds + [d])[..|ds|] == ds;
  }

  /** Loading a batch keeps the registry well formed and only ever appends to its order. */
  lemma {:induction false} RegisterAllWellFormed(r: Plugins, ds: seq<Desc>, inst: Desc -> Instantiated)
    requires WellFormed(r)
    ensures WellFormed(RegisterAll(r, ds, inst))
    ensures |RegisterAll(r, ds, inst).keys| >= |r.keys|
    ensures RegisterAll(r, ds, inst).keys[..|r.keys|] == r.keys
    ensures r.entries.Keys <= RegisterAll(r, ds, inst).entries.Keys
    decreases |ds|
  {
    if ds != [] {
      var front := RegisterAll(r, ds[..|ds| - 1], inst);
      RegisterAllWellFormed(r, ds[..|ds| - 1], inst);
      RegisterWellFormed(front, ds[|ds| - 1], inst(ds[|ds| - 1]));
      var last := RegisterAll(r, ds, inst);
      if last != front {
        assert last.keys == front.keys + [Lower(ds[|ds| - 1].name)];
        assert last.keys[..|r.keys|] == front.keys[..|r.keys|];
      }
    }
  }

  /** `s` without the elements of `gone`, order kept: what `LinkedHashMap.remove` leaves of the order. */
  function Without(s: seq<string>, gone: set<string>): (r: seq<string>)
    ensures forall x :: x in r <==> x in s && x !in gone
    ensures |r| <= |s|
    decreases |s|
  {
    if s == [] then []
    else if s[|s| - 1] in gone then Without(s[..|s| - 1], gone)
    else Without(s[..|s| - 1], gone) + [s[|s| - 1]]
  }

  /** Removal works element by element: a kept element stays, a removed one goes. */
  lemma WithoutSingle(x: string, gone: set<string>)
    ensures Without([x], gone) == if x in gone then [] else [x]
  {
    assert [x][..0] == [];
  }

  /** Removal distributes over concatenation, so it filters the sequence in place. */
  lemma {:induction false} WithoutAppend(a: seq<string>, b: seq<string>, gone: set<string>)
    ensures Without(a + b, gone) == Without(a, gone) + Without(b, gone)
    decreases |b|
  {
    if b == [] {
      assert a + b == a;
    } else {
      var front, x := b[..|b| - 1], b[|b| - 1];
      WithoutAppend(a, front, gone);
      assert (a + b)[..|a + b| - 1] == a + front;
      assert (a + b)[|a + b| - 1] == x;
      if x in gone {
        assert Without(a + b, gone) == Without(a + front, gone);
      } else {
        assert Without(a + b, gone) == Without(a + front, gone) + [x];
      }
    }
  }

  /**
   * Two kept elements keep their relative order: the survivors are those before `s[p]`, then
   * `s[p]`, those between, `s[q]`, and those after.
   */
  lemma WithoutKeepsOrder(s: seq<string>, gone: set<string>, p: nat, q: nat)
    requires p < q < |s| && s[p] !in gone && s[q] !in gone
    ensures Without(s, gone) ==
              Without(s[..p], gone) + [s[p]] + Without(s[p + 1..q], gone) + [s[q]] + Without(s[q + 1..], gone)
  {
    assert s == s[..p] + [s[p]] + s[p + 1..q] + [s[q]] + s[q + 1..];
    WithoutAppend(s[..p] + [s[p]] + s[p + 1..q] + [s[q]], s[q + 1..], gone);
    WithoutAppend(s[..p] + [s[p]] + s[p + 1..q], [s[q]], gone);
    WithoutAppend(s[..p] + [s[p]], s[p + 1..q], gone);
    WithoutAppend(s[..p], [s[p]], gone);
    WithoutSingle(s[p], gone);
    WithoutSingle(s[q], gone);
  }

  /** Removing in two rounds is removing once. */
  lemma {:induction false} WithoutWithout(s: seq<string>, a: set<string>, b: set<string>)
    ensures Without(Without(s, a), b) == Without(s, a + b)
    decreases |s|
  {
    if s != [] {
      WithoutWithout(s[..|s| - 1], a, b);
      var x := s[|s| - 1];
      if x !in a {
        var w := Without(s[..|s| - 1], a);
        assert Without(s, a) == w + [x];
        assert (w + [x])[..|w + [x]| - 1] == w;
      }
    }
  }

  /** Removing nothing leaves the order as it was. */
  lemma {:induction false} WithoutNothing(s: seq<string>)
    ensures Without(s, {}) == s
    decreases |s|
  {
    if s != [] {
      WithoutNothing(s[..|s| - 1]);
    }
  }

  /** Removal keeps a key order free of duplicates. */
  lemma {:induction false} WithoutDistinct(s: seq<string>, gone: set<string>)
    requires DistinctKeys(s)
    ensures DistinctKeys(Without(s, gone))
    decreases |s|
  {
    if s != [] {
      var front := s[..|s| - 1];
      assert DistinctKeys(front) by {
        forall p, q | 0 <= p < q < |front| ensures front[p] != front[q] {
          assert front[p] == s[p] && front[q] == s[q];
        }
      }
      WithoutDistinct(front, gone);
      var x := s[|s| - 1];
      if x !in gone {
        var w := Without(front, gone);
        assert x !in front by {
          forall p | 0 <= p < |front| ensures front[p] != x {
            assert front[p] == s[p];
          }
        }
        forall p, q | 0 <= p < q < |w + [x]| ensures (w + [x])[p] != (w + [x])[q] {
          if q == |w| {
            assert (w + [x])[p] == w[p] && w[p] in w;
          } else {
            assert (w + [x])[p] == w[p] && (w + [x])[q] == w[q];
          }
        }
      }
    }
  }

  /** `plugins.remove(id)` for every id of `gone`. */
  function Drop(r: Plugins, gone: set<string>): (r': Plugins)
    ensures r'.entries.Keys == r.entries.Keys - gone
    ensures forall k :: k in r'.entries ==> r'.entries[k] == r.entries[k]
    ensures forall x :: x in r'.keys <==> x in r.keys && x !in gone
  {
    Plugins(Without(r.keys, gone), r.entries - gone)
  }

  /** `remove` keeps the insertion order of the plugins that stay registered. */
  lemma DropKeepsOrder(r: Plugins, gone: set<string>, p: nat, q: nat)
    requires p < q < |r.keys| && r.keys[p] !in gone && r.keys[q] !in gone
    ensures Drop(r, gone).keys ==
              Without(r.keys[..p], gone) + [r.keys[p]] + Without(r.keys[p + 1..q], gone) + [r.keys[q]] +
              Without(r.keys[q + 1..], gone)
  {
    WithoutKeepsOrder(r.keys, gone, p, q);
  }

  /** Removal keeps the registry well formed. */
  lemma DropWellFormed(r: Plugins, gone: set<string>)
    requires WellFormed(r)
    ensures WellFormed(Drop(r, gone))
  {
    WithoutDistinct(r.keys, gone);
    var r' := Drop(r, gone);
    forall p | 0 <= p < |r'.keys| ensures r'.keys[p] in r'.entries {
      assert r'.keys[p] in r'.keys;
    }
  }

  /** Removing nothing changes nothing. */
  lemma DropNothing(r: Plugins)
    ensures Drop(r, {}) == r
  {
    WithoutNothing(r.keys);
    assert r.entries - {} == r.entries;
  }

  /** Removing in two rounds is removing once. */
  lemma DropDrop(r: Plugins, a: set<string>, b: set<string>)
    ensures Drop(Drop(r, a), b) == Drop(r, a + b)
  {
    WithoutWithout(r.keys, a, b);
    assert (r.entries - a) - b == r.entries - (a + b);
  }

  /** The keys the dependents of `e` name: `dependentID.toLowerCase()` for each. */
  function DependentKeys(e: Entry): (ks: set<string>)
  {
    set n | n in e.dependents :: Lower(n)
  }

  /** The callbacks of a plugin, and the loader termination between `onDisable` and `onPostDisable`. */
  datatype Hook = OnLoad | OnEnable | OnPostEnable | OnPreDisable | OnDisable | Terminated | OnPostDisable

  /** One callback on the plugin registered under `key`. */
  datatype Event = Event(hook: Hook, key: string)

  /** `forEach(hook)` over plugins with the given keys, in that order. */
  function Fired(h: Hook, ks: seq<string>): seq<Event>
    decreases |ks|
  {
    if ks == [] then [] else Fired(h, ks[..|ks| - 1]) + [Event(h, ks[|ks| - 1])]
  }

  /** One callback per plugin, in the given order. */
  lemma {:induction false} FiredOnePerKey(h: Hook, ks: seq<string>)
    ensures |Fired(h, ks)| == |ks|
    ensures forall p :: 0 <= p < |ks| ==> Fired(h, ks)[p] == Event(h, ks[p])
    decreases |ks|
  {
    if ks != [] {
      FiredOnePerKey(h, ks[..|ks| - 1]);
    }
  }

  /** Three rounds of callbacks appended one after the other. */
  lemma FiredRounds(t: seq<Event>, a: seq<Event>, b: seq<Event>, c: seq<Event>)
    ensures t + a + b + c == t + (a + b + c)
  {
  }

  /** `unload`: the teardown of one plugin. */
  function Teardown(k: string): (t: seq<Event>)
  {
    [Event(OnPreDisable, k), Event(OnDisable, k), Event(Terminated, k), Event(OnPostDisable, k)]
  }

  /** A teardown appended in two halves, the callbacks before and after the loader's termination. */
  lemma TeardownSteps(t: seq<Event>, k: string)
    ensures t + [Event(OnPreDisable, k), Event(OnDisable, k)] + [Event(Terminated, k), Event(OnPostDisable, k)]
            == t + Teardown(k)
  {
  }

  /** The teardowns of several plugins, one after the other. */
  function Teardowns(ks: seq<string>): seq<Event>
    decreases |ks|
  {
    if ks == [] then [] else Teardowns(ks[..|ks| - 1]) + Teardown(ks[|ks| - 1])
  }

  /** Tearing down one more plugin appends its teardown to the trace. */
  lemma TeardownsSnoc(t: seq<Event>, ks: seq<string>, k: string)
    ensures t + Teardowns(ks + [k]) == t + Teardowns(ks) + Teardown(k)
  {
    assert (ks + [k])[..|ks|] == ks;
  }

  /** Tearing down one list then another is tearing down their concatenation. */
  lemma {:induction false} TeardownsAppend(a: seq<string>, b: seq<string>)
    ensures Teardowns(a + b) == Teardowns(a) + Teardowns(b)
    decreases |b|
  {
    if b == [] {
      assert a + b == a;
    } else {
      var b' := b[..|b| - 1];
      assert (a + b)[..|a + b| - 1] == a + b';
      TeardownsAppend(a, b');
    }
  }

  /** A trace extended by the teardowns of `b` after those of `a`. */
  lemma TeardownsExtend(t: seq<Event>, a: seq<string>, b: seq<string>)
    ensures t + Teardowns(a) + Teardowns(b) == t + Teardowns(a + b)
  {
    TeardownsAppend(a, b);
  }

  /** Four trace events per plugin torn down, and each plugin's events begin with `onPreDisable`. */
  lemma {:induction false} TeardownsShape(ks: seq<string>)
    ensures |Teardowns(ks)| == 4 * |ks|
    ensures forall p :: 0 <= p < |ks| ==> Teardowns(ks)[4 * p] == Event(OnPreDisable, ks[p])
    decreases |ks|
  {
    if ks != [] {
      TeardownsShape(ks[..|ks| - 1]);
    }
  }
}
