/**
 * The dependency resolver (`PluginManager.generateLoadOrder` and `isLoaded`): a Kahn-style
 * peeling of a map from each descriptor to the descriptors it depends on.
 *
 * A descriptor is named by its index in the batch, standing for Java's object identity (the
 * map is keyed by the descriptor objects). The registry is given by its key set: the lowercase
 * names of the plugins already loaded.
 */
module Resolver {
  import opened Wrappers
  import opened Names

  /** What the resolver and the loading steps read of a discovered plugin. */
  datatype Desc = Desc(name: string, entrypoint: string, dependencies: seq<string>, loader: nat)

  /**
   * An entry of a dependency list: another descriptor of the batch, or the origin of a plugin
   * already registered under `key`.
   */
  datatype Edge = InBatch(index: nat) | Registered(key: string)

  /** `pluginMap.get(key)`: the last descriptor of the batch whose lowercase name is `key`. */
  function LastIndexNamed(batch: seq<Desc>, key: string): (r: Option<nat>)
    ensures r.Some? ==> r.value < |batch| && Lower(batch[r.value].name) == key
    ensures r.Some? ==> forall j :: r.value < j < |batch| ==> Lower(batch[j].name) != key
    ensures r.None? <==> forall j :: 0 <= j < |batch| ==> Lower(batch[j].name) != key
    decreases |batch|
  {
    if batch == [] then None
    else if Lower(batch[|batch| - 1].name) == key then Some(|batch| - 1)
    else LastIndexNamed(batch[..|batch| - 1], key)
  }

  /** How one dependency name resolves: in the batch first, then in the registry, else not at all. */
  function ResolveName(batch: seq<Desc>, registered: set<string>, d: string): (r: Option<Edge>)
    ensures r.None? <==> LastIndexNamed(batch, Lower(d)).None? && Lower(d) !in registered
  {
    match LastIndexNamed(batch, Lower(d))
    case Some(j) => Some(InBatch(j))
    case None => if Lower(d) in registered then Some(Registered(Lower(d))) else None
  }

  /** The dependency list of a descriptor, or `None` when one of its names resolves nowhere. */
  function ResolveAll(batch: seq<Desc>, registered: set<string>, deps: seq<string>): (r: Option<seq<Edge>>)
    ensures r.None? <==> exists k :: 0 <= k < |deps| && ResolveName(batch, registered, deps[k]).None?
    ensures r.Some? ==> |r.value| == |deps| &&
                        forall k :: 0 <= k < |deps| ==> ResolveName(batch, registered, deps[k]) == Some(r.value[k])
    decreases |deps|
  {
    if deps == [] then Some([])
    else
      var front := deps[..|deps| - 1];
      assert forall k :: 0 <= k < |front| ==> front[k] == deps[k];
      match ResolveAll(batch, registered, front)
      case None => None
      case Some(es) =>
        match ResolveName(batch, registered, deps[|deps| - 1])
        case None => None
        case Some(e) => Some(es + [e])
  }

  /** The list a descriptor gets in the dependency map, or `None` when it is missing a dependency. */
  function EdgesOf(batch: seq<Desc>, registered: set<string>, i: nat): Option<seq<Edge>>
    requires i < |batch|
  {
    ResolveAll(batch, registered, batch[i].dependencies)
  }

  /**
   * `isLoaded` on one entry: the registry has the target's lowercase name. For an in-batch
   * target this asks about the name, not about the descriptor itself.
   */
  predicate Satisfied(batch: seq<Desc>, registered: set<string>, e: Edge)
  {
    match e
    case InBatch(j) => j < |batch| && Lower(batch[j].name) in registered
    case Registered(key) => key in registered
  }

  /**
   * An in-batch entry counts as loaded as soon as some plugin is registered under its target's
   * lowercase name, exactly as an entry for that registered plugin would.
   */
  lemma SatisfiedByName(batch: seq<Desc>, registered: set<string>, j: nat)
    requires j < |batch|
    ensures Satisfied(batch, registered, InBatch(j)) <==> Satisfied(batch, registered, Registered(Lower(batch[j].name)))
  {
  }

  /** `isLoaded`: the empty-list shortcut, else every entry's name is registered. */
  function IsLoaded(batch: seq<Desc>, registered: set<string>, edges: seq<Edge>): (r: bool)
    // the shortcut agrees with the element test
    ensures r <==> forall e :: e in edges ==> Satisfied(batch, registered, e)
  {
    |edges| == 0 || forall k :: 0 <= k < |edges| ==> Satisfied(batch, registered, edges[k])
  }

  /** `List.remove(Object)`: drops the first occurrence only. */
  function RemoveFirst(s: seq<Edge>, a: Edge): (r: seq<Edge>)
    ensures multiset(r) == multiset(s) - multiset{a}
    ensures forall e :: e in r ==> e in s
    ensures a !in s ==> r == s
  {
    if s == [] then []
    else if s[0] == a then
      assert s == [s[0]] + s[1..];
      s[1..]
    else
      assert s == [s[0]] + s[1..];
      [s[0]] + RemoveFirst(s[1..], a)
  }

  /** The in-batch entries that name the descriptors of `order`, one each. */
  function Emitted(order: seq<nat>): multiset<Edge>
  {
    multiset(seq(|order|, k requires 0 <= k < |order| => InBatch(order[k])))
  }

  lemma EmittedAppend(order: seq<nat>, x: nat)
    ensures Emitted(order + [x]) == Emitted(order) + multiset{InBatch(x)}
  {
    var s := seq(|order|, k requires 0 <= k < |order| => InBatch(order[k]));
    var s' := seq(|order + [x]|, k requires 0 <= k < |order + [x]| => InBatch((order + [x])[k]));
    assert s' == s + [InBatch(x)];
  }

  lemma EmittedHas(order: seq<nat>, j: nat)
    ensures InBatch(j) in Emitted(order) <==> j in order
  {
    var s := seq(|order|, k requires 0 <= k < |order| => InBatch(order[k]));
    if j in order {
      var k :| 0 <= k < |order| && order[k] == j;
      assert s[k] == InBatch(j);
    }
  }

  /** No descriptor occurs twice in `order`. */
  ghost predicate Distinct(order: seq<nat>)
  {
    forall p, q :: 0 <= p < q < |order| ==> order[p] != order[q]
  }

  /**
   * Every in-batch dependency of an emitted descriptor whose name is not registered was
   * emitted before it.
   */
  ghost predicate DependenciesFirst(batch: seq<Desc>, registered: set<string>,
                                    orig: map<nat, seq<Edge>>, order: seq<nat>)
  {
    forall p, j :: (0 <= p < |order| && order[p] in orig && InBatch(j) in orig[order[p]] &&
                    !Satisfied(batch, registered, InBatch(j))) ==> j in order[..p]
  }

  /** A resolved entry names a batch descriptor or a registered key; the latter is always satisfied. */
  lemma ResolvedEdges(batch: seq<Desc>, registered: set<string>, i: nat, e: Edge)
    requires i < |batch| && EdgesOf(batch, registered, i).Some? && e in EdgesOf(batch, registered, i).value
    ensures e.InBatch? ==> e.index < |batch|
    ensures e.Registered? ==> Satisfied(batch, registered, e)
  {
    var es := EdgesOf(batch, registered, i).value;
    var k :| 0 <= k < |es| && es[k] == e;
    assert ResolveName(batch, registered, batch[i].dependencies[k]) == Some(e);
  }

  /**
   * Why a leftover of `generateLoadOrder` is left over: one of its in-batch dependencies is not
   * registered and is missing, is itself left over, or was emitted but is listed more than once,
   * so that `List.remove` stripped only one of its occurrences.
   */
  lemma LeftoverBlocked(batch: seq<Desc>, registered: set<string>, order: seq<nat>, missing: set<nat>,
                        cyclic: map<nat, seq<Edge>>, i: nat)
    requires forall x: nat :: x in missing <==> x < |batch| && EdgesOf(batch, registered, x).None?
    requires forall x: nat :: x in order || x in cyclic <==> x < |batch| && EdgesOf(batch, registered, x).Some?
    requires i in cyclic && !IsLoaded(batch, registered, cyclic[i])
    requires i < |batch| && EdgesOf(batch, registered, i).Some?
    requires multiset(cyclic[i]) == multiset(EdgesOf(batch, registered, i).value) - Emitted(order)
    ensures exists j :: && InBatch(j) in EdgesOf(batch, registered, i).value
                        && !Satisfied(batch, registered, InBatch(j))
                        && (|| j in missing || j in cyclic
                            || (j in order && multiset(EdgesOf(batch, registered, i).value)[InBatch(j)] >= 2))
  {
    var es := EdgesOf(batch, registered, i).value;
    var e :| e in cyclic[i] && !Satisfied(batch, registered, e);
    assert multiset(cyclic[i])[e] >= 1;
    assert e in es;
    ResolvedEdges(batch, registered, i, e);
    var j := e.index;
    if j in order {
      EmittedHas(order, j);
      assert multiset(es)[e] >= 2;
    }
  }

  /** `pluginMap`: each lowercase name to the last descriptor of the batch that has it. */
  method BuildPluginMap(batch: seq<Desc>) returns (pluginMap: map<string, nat>)
    ensures forall key :: LastIndexNamed(batch, key) == (if key in pluginMap then Some(pluginMap[key]) else None)
  {
    pluginMap := map[];
    for i := 0 to |batch|
      invariant forall key :: LastIndexNamed(batch[..i], key) == (if key in pluginMap then Some(pluginMap[key]) else None)
    {
      pluginMap := pluginMap[Lower(batch[i].name) := i];
      assert batch[..i + 1][..i] == batch[..i];
    }
    assert batch[..|batch|] == batch;
  }

  /**
   * The loop over one descriptor's dependency names: each resolves in the batch, else in the
   * registry; the first name that resolves nowhere abandons the descriptor (`continue allPlugins`).
   */
  method ResolveDependencies(batch: seq<Desc>, registered: set<string>, pluginMap: map<string, nat>, deps: seq<string>)
    returns (r: Option<seq<Edge>>)
    requires forall key :: LastIndexNamed(batch, key) == (if key in pluginMap then Some(pluginMap[key]) else None)
    ensures r == ResolveAll(batch, registered, deps)
  {
    var dependencies: seq<Edge> := [];
    for k := 0 to |deps|
      invariant ResolveAll(batch, registered, deps[..k]) == Some(dependencies)
    {
      var key := Lower(deps[k]);
      assert deps[..k + 1][..k] == deps[..k];
      assert LastIndexNamed(batch, key) == (if key in pluginMap then Some(pluginMap[key]) else None);
      if key !in pluginMap {
        if key in registered {
          dependencies := dependencies + [Registered(key)];
          continue;
        } else {
          assert ResolveName(batch, registered, deps[k]).None?;
          return None;
        }
      }
      dependencies := dependencies + [InBatch(pluginMap[key])];
    }
    assert deps[..|deps|] == deps;
    r := Some(dependencies);
  }

  /**
   * The first block of `generateLoadOrder`: one list per descriptor, or the
   * `MissingDependencies` status for a descriptor with an unresolvable name.
   */
  method BuildDependencyMap(batch: seq<Desc>, registered: set<string>)
    returns (dm: map<nat, seq<Edge>>, missing: set<nat>)
    ensures forall i :: i in dm ==> i < |batch|
    ensures forall i :: i in missing ==> i < |batch|
    ensures forall i: nat :: i < |batch| ==> (i in dm <==> EdgesOf(batch, registered, i).Some?)
    ensures forall i: nat :: i < |batch| ==> (i in missing <==> EdgesOf(batch, registered, i).None?)
    ensures forall i :: i in dm ==> dm[i] == EdgesOf(batch, registered, i).value
  {
    var pluginMap := BuildPluginMap(batch);
    dm, missing := map[], {};
    for i := 0 to |batch|
      invariant forall j :: j in dm ==> j < i && EdgesOf(batch, registered, j) == Some(dm[j])
      invariant forall j :: j in missing ==> j < i && EdgesOf(batch, registered, j).None?
      invariant forall j: nat :: j < i ==> j in dm || j in missing
    {
      var dependencies := ResolveDependencies(batch, registered, pluginMap, batch[i].dependencies);
      if dependencies.None? {
        missing := missing + {i};
      } else {
        dm := dm[i := dependencies.value];
      }
    }
  }

  /**
   * `generateLoadOrder`. `order` is the returned list, `missing` the descriptors given the
   * `MissingDependencies` status and `cyclic` what is left in the map (the cycle report).
   * Within a pass the entries are taken in an unspecified order, as from a `HashMap`.
   */
  method GenerateLoadOrder(batch: seq<Desc>, registered: set<string>)
    returns (order: seq<nat>, missing: set<nat>, cyclic: map<nat, seq<Edge>>)
    // a descriptor is missing exactly when one of its dependency names resolves nowhere
    ensures forall i: nat :: i in missing <==> i < |batch| && EdgesOf(batch, registered, i).None?
    // output and leftovers are exactly the map entries: output once each, never missing
    ensures Distinct(order)
    ensures forall p :: 0 <= p < |order| ==> order[p] < |batch|
    ensures forall i :: i in cyclic ==> i < |batch|
    ensures forall i: nat :: i in order || i in cyclic <==> i < |batch| && EdgesOf(batch, registered, i).Some?
    ensures forall i :: i in order ==> i !in cyclic
    // dependency order
    ensures forall p, j :: (0 <= p < |order| && InBatch(j) in EdgesOf(batch, registered, order[p]).value &&
                            !Satisfied(batch, registered, InBatch(j))) ==> j in order[..p]
    // a descriptor that depends on a missing one, by a name not registered, is never emitted
    ensures forall p, j :: (0 <= p < |order| && j in missing && !Satisfied(batch, registered, InBatch(j))) ==>
              InBatch(j) !in EdgesOf(batch, registered, order[p]).value
    // a leftover cannot be loaded, and its list is its original list with emitted entries stripped once
    ensures forall i :: i in cyclic ==> !IsLoaded(batch, registered, cyclic[i])
    ensures forall i :: i in cyclic ==>
              multiset(cyclic[i]) == multiset(EdgesOf(batch, registered, i).value) - Emitted(order)
  {
    var dependencyMap;
    dependencyMap, missing := BuildDependencyMap(batch, registered);
    ghost var orig := dependencyMap;
    order := [];
    assert PeelInv(batch, registered, orig, dependencyMap, order);
    while true
      invariant PeelInv(batch, registered, orig, dependencyMap, order)
      decreases dependencyMap.Keys
    {
      var loadable := set i | i in dependencyMap && IsLoaded(batch, registered, dependencyMap[i]);
      if loadable == {} {
        forall i | i in dependencyMap ensures !IsLoaded(batch, registered, dependencyMap[i]) {
          assert i !in loadable;
        }
        break;
      }
      dependencyMap, order := EmitPass(batch, registered, orig, dependencyMap, order, loadable);
    }
    cyclic := dependencyMap;
    PeelDone(batch, registered, orig, cyclic, order);
    forall p, j | 0 <= p < |order| && j in missing && !Satisfied(batch, registered, InBatch(j))
      ensures InBatch(j) !in EdgesOf(batch, registered, order[p]).value
    {
      assert j !in order;
      assert j !in order[..p];
    }
  }

  /** What the invariant gives once the loop stalls with `dm` left over. */
  lemma PeelDone(batch: seq<Desc>, registered: set<string>, orig: map<nat, seq<Edge>>,
                 dm: map<nat, seq<Edge>>, order: seq<nat>)
    requires PeelInv(batch, registered, orig, dm, order)
    requires forall i: nat :: i < |batch| ==> (i in orig <==> EdgesOf(batch, registered, i).Some?)
    requires forall i :: i in orig ==> orig[i] == EdgesOf(batch, registered, i).value
    ensures forall p :: 0 <= p < |order| ==> order[p] < |batch|
    ensures forall i :: i in dm ==> i < |batch|
    ensures forall i: nat :: i in order || i in dm <==> i < |batch| && EdgesOf(batch, registered, i).Some?
    ensures forall p, j :: (0 <= p < |order| && InBatch(j) in EdgesOf(batch, registered, order[p]).value &&
                            !Satisfied(batch, registered, InBatch(j))) ==> j in order[..p]
    ensures forall i :: i in dm ==>
              multiset(dm[i]) == multiset(EdgesOf(batch, registered, i).value) - Emitted(order)
  {
    forall p, j | 0 <= p < |order| && InBatch(j) in EdgesOf(batch, registered, order[p]).value &&
                  !Satisfied(batch, registered, InBatch(j))
      ensures j in order[..p]
    {
      assert order[p] in orig;
    }
  }

  /**
   * One pass of the peeling loop: every entry found loadable at the start of the pass is
   * emitted, in an unspecified order, and stripped from the remaining lists.
   */
  method EmitPass(batch: seq<Desc>, registered: set<string>, ghost orig: map<nat, seq<Edge>>,
                  dm: map<nat, seq<Edge>>, order: seq<nat>, loadable: set<nat>)
    returns (dm': map<nat, seq<Edge>>, order': seq<nat>)
    requires PeelInv(batch, registered, orig, dm, order)
    requires loadable != {} && loadable <= dm.Keys
    requires forall i :: i in loadable ==> IsLoaded(batch, registered, dm[i])
    ensures PeelInv(batch, registered, orig, dm', order')
    ensures dm'.Keys == dm.Keys - loadable
  {
    dm', order' := dm, order;
    var todo := loadable;
    while todo != {}
      invariant PeelInv(batch, registered, orig, dm', order')
      invariant InPass(batch, registered, dm, loadable, todo, dm')
      decreases todo
    {
      var x :| x in todo;
      EmitStep(batch, registered, orig, dm', order', x);
      PassStep(batch, registered, dm, loadable, todo, dm', x);
      order' := order' + [x];
      dm' := Strip(dm', x);
      todo := todo - {x};
    }
  }

  /**
   * Within a pass started on `dm` with `loadable`: the entries still to emit are in the map and
   * loadable, and the ones already emitted are gone from it.
   */
  ghost predicate InPass(batch: seq<Desc>, registered: set<string>, dm: map<nat, seq<Edge>>, loadable: set<nat>,
                         todo: set<nat>, cur: map<nat, seq<Edge>>)
  {
    && todo <= cur.Keys && todo <= loadable
    && cur.Keys == dm.Keys - (loadable - todo)
    && forall i :: i in todo ==> IsLoaded(batch, registered, cur[i])
  }

  lemma PassStep(batch: seq<Desc>, registered: set<string>, dm: map<nat, seq<Edge>>, loadable: set<nat>,
                 todo: set<nat>, cur: map<nat, seq<Edge>>, x: nat)
    requires InPass(batch, registered, dm, loadable, todo, cur) && x in todo && loadable <= dm.Keys
    requires forall i :: i in cur && i != x && IsLoaded(batch, registered, cur[i]) ==>
               IsLoaded(batch, registered, Strip(cur, x)[i])
    ensures InPass(batch, registered, dm, loadable, todo - {x}, Strip(cur, x))
  {
  }

  /** One pass's removal of an emitted `x`: dropped from the map and stripped once from every list. */
  function Strip(dm: map<nat, seq<Edge>>, x: nat): (r: map<nat, seq<Edge>>)
    ensures r.Keys == dm.Keys - {x}
    ensures forall i :: i in r ==> r[i] == RemoveFirst(dm[i], InBatch(x))
  {
    map i | i in dm && i != x :: RemoveFirst(dm[i], InBatch(x))
  }

  /**
   * The invariant of the peeling loop: output and map partition the original entries, output
   * has no duplicates and respects dependency order, and each list is its original list with
   * one occurrence of each emitted descriptor stripped.
   */
  ghost predicate PeelInv(batch: seq<Desc>, registered: set<string>, orig: map<nat, seq<Edge>>,
                          dm: map<nat, seq<Edge>>, order: seq<nat>)
  {
    && Partitioned(batch, orig, dm, order)
    && Stripped(orig, dm, order)
    && DependenciesFirst(batch, registered, orig, order)
  }

  /** Output and map partition the original entries, and output has no duplicates. */
  ghost predicate Partitioned(batch: seq<Desc>, orig: map<nat, seq<Edge>>, dm: map<nat, seq<Edge>>, order: seq<nat>)
  {
    && (forall i :: i in orig ==> i < |batch|)
    && (forall p :: 0 <= p < |order| ==> order[p] in orig)
    && (forall i :: i in dm ==> i in orig)
    && (forall i :: i in orig ==> i in dm || i in order)
    && (forall i :: i in order ==> i !in dm)
    && Distinct(order)
  }

  /** Each remaining list is its original list with one occurrence of each emitted descriptor stripped. */
  ghost predicate Stripped(orig: map<nat, seq<Edge>>, dm: map<nat, seq<Edge>>, order: seq<nat>)
  {
    forall i :: i in dm ==> i in orig && multiset(dm[i]) == multiset(orig[i]) - Emitted(order)
  }

  /** Emitting a loadable entry keeps the loop invariant and the other loadable entries loadable. */
  lemma EmitStep(batch: seq<Desc>, registered: set<string>, orig: map<nat, seq<Edge>>,
                 dm: map<nat, seq<Edge>>, order: seq<nat>, x: nat)
    requires PeelInv(batch, registered, orig, dm, order)
    requires x in dm && IsLoaded(batch, registered, dm[x])
    ensures PeelInv(batch, registered, orig, Strip(dm, x), order + [x])
    ensures forall i :: i in dm && i != x && IsLoaded(batch, registered, dm[i]) ==>
              IsLoaded(batch, registered, Strip(dm, x)[i])
  {
    EmitPartitioned(batch, orig, dm, order, x);
    EmitStripped(orig, dm, order, x);
    EmitKeepsOrder(batch, registered, orig, dm, order, x);
    EmitKeepsLoadable(batch, registered, dm, x);
  }

  /** Emitting `x` moves it from the map to the output. */
  lemma EmitPartitioned(batch: seq<Desc>, orig: map<nat, seq<Edge>>, dm: map<nat, seq<Edge>>, order: seq<nat>, x: nat)
    requires Partitioned(batch, orig, dm, order) && x in dm
    ensures Partitioned(batch, orig, Strip(dm, x), order + [x])
  {
    var dm', order' := Strip(dm, x), order + [x];
    assert forall p :: 0 <= p < |order| ==> order'[p] == order[p];
    assert forall p :: 0 <= p < |order'| ==> order'[p] in orig;
    assert forall i :: i in orig ==> i in dm' || i in order';
    assert forall i :: i in order' ==> i !in dm';
    DistinctAppend(order, x);
  }

  /** Stripping `x` from every remaining list keeps each equal to its original minus the output. */
  lemma EmitStripped(orig: map<nat, seq<Edge>>, dm: map<nat, seq<Edge>>, order: seq<nat>, x: nat)
    requires Stripped(orig, dm, order)
    ensures Stripped(orig, Strip(dm, x), order + [x])
  {
    var dm' := Strip(dm, x);
    forall i | i in dm'
      ensures i in orig && multiset(dm'[i]) == multiset(orig[i]) - Emitted(order + [x])
    {
      StripKeepsCounts(orig[i], dm[i], order, x);
    }
  }

  /** Stripping an entry from a loadable list leaves it loadable. */
  lemma EmitKeepsLoadable(batch: seq<Desc>, registered: set<string>, dm: map<nat, seq<Edge>>, x: nat)
    ensures forall i :: i in dm && i != x && IsLoaded(batch, registered, dm[i]) ==>
              IsLoaded(batch, registered, Strip(dm, x)[i])
  {
  }

  lemma DistinctAppend(order: seq<nat>, x: nat)
    requires Distinct(order) && x !in order
    ensures Distinct(order + [x])
  {
    var order' := order + [x];
    forall p, q | 0 <= p < q < |order'| ensures order'[p] != order'[q] {
      if q == |order| {
        assert order'[p] == order[p];
      } else {
        assert order'[p] == order[p] && order'[q] == order[q];
      }
    }
  }

  /** Emitting `x` is safe: each of its unregistered in-batch dependencies was already emitted. */
  lemma LoadableHasItsDependencies(batch: seq<Desc>, registered: set<string>, origX: seq<Edge>,
                                   current: seq<Edge>, order: seq<nat>, j: nat)
    requires IsLoaded(batch, registered, current)
    requires multiset(current) == multiset(origX) - Emitted(order)
    requires InBatch(j) in origX && !Satisfied(batch, registered, InBatch(j))
    ensures j in order
  {
    assert InBatch(j) !in current;
    assert multiset(current)[InBatch(j)] == 0;
    assert multiset(origX)[InBatch(j)] >= 1;
    assert Emitted(order)[InBatch(j)] >= 1;
    EmittedHas(order, j);
  }

  /** The step of the inner loop keeps the dependency order. */
  lemma EmitKeepsOrder(batch: seq<Desc>, registered: set<string>, orig: map<nat, seq<Edge>>,
                       dm: map<nat, seq<Edge>>, order: seq<nat>, x: nat)
    requires x in dm && x in orig && IsLoaded(batch, registered, dm[x])
    requires multiset(dm[x]) == multiset(orig[x]) - Emitted(order)
    requires DependenciesFirst(batch, registered, orig, order)
    ensures DependenciesFirst(batch, registered, orig, order + [x])
  {
    var order' := order + [x];
    forall p, j | 0 <= p < |order'| && order'[p] in orig && InBatch(j) in orig[order'[p]] &&
                  !Satisfied(batch, registered, InBatch(j))
      ensures j in order'[..p]
    {
      if p < |order| {
        assert order'[p] == order[p] && order'[..p] == order[..p];
      } else {
        assert order'[p] == x && order'[..p] == order;
        LoadableHasItsDependencies(batch, registered, orig[x], dm[x], order, j);
      }
    }
  }

  /** Stripping `x` from a list keeps it equal to its original list minus the emitted entries. */
  lemma StripKeepsCounts(origI: seq<Edge>, current: seq<Edge>, order: seq<nat>, x: nat)
    requires multiset(current) == multiset(origI) - Emitted(order)
    ensures multiset(RemoveFirst(current, InBatch(x))) == multiset(origI) - Emitted(order + [x])
  {
    EmittedAppend(order, x);
  }
}
