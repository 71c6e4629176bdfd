/**
 * The per-plugin class loader (PluginClassLoader): local-first class and resource lookup that
 * falls back to the loader's children, the process-wide list of constructed loaders, and the
 * lazily created logger and event node.
 *
 * Loaders live in an arena: `LoaderTable.table` holds one record per constructed loader and a
 * loader is named by its index there. A child list holds indices, so a child shared by several
 * parents is one record and `AddChild` is seen by every loader that reaches the parent.
 */
module Loaders {
  import opened Wrappers

  /** The location of a loadable unit: a jar or a class folder. */
  datatype Url = Url(spec: string)

  /** A loaded class: the loader that defined it and its binary name. */
  datatype ClassRef = ClassRef(definer: string, binaryName: string)

  /** What a set of code locations provides: classes by binary name and resource URLs by path, in URL order. */
  datatype Archive = Archive(classes: map<string, ClassRef>, resources: map<string, seq<Url>>)

  /** An opaque handle for a foreign object (a logger or an event node). */
  type Handle = nat

  /**
   * One PluginClassLoader. `parent` stands for the loader handed to the URLClassLoader
   * constructor (the host's classes), `own` for what the loader's own URLs define.
   */
  datatype LoaderRec = LoaderRec(
    name: string,
    urls: seq<Url>,
    parent: Archive,
    own: Archive,
    children: seq<nat>,
    logger: Option<Handle>,
    eventNode: Option<Handle>)

  /** `findClass`: the loader's own URLs only. */
  function FindClass(l: LoaderRec, n: string): (r: Option<ClassRef>)
  {
    if n in l.own.classes then Some(l.own.classes[n]) else None
  }

  /** `findResources`: every URL of the loader's own that holds the resource, in URL order. */
  function FindResources(l: LoaderRec, n: string): (r: seq<Url>)
  {
    if n in l.own.resources then l.own.resources[n] else []
  }

  /** `findResource`: the first of the loader's own URLs that holds the resource. */
  function FindResource(l: LoaderRec, n: string): (r: Option<Url>)
  {
    var all := FindResources(l, n);
    if all == [] then None else Some(all[0])
  }

  /** `super.loadClass`: the parent's classes first, then the loader's own (`findClass`). */
  function BaseLoadClass(l: LoaderRec, n: string): (r: Option<ClassRef>)
  {
    if n in l.parent.classes then Some(l.parent.classes[n]) else FindClass(l, n)
  }

  /** `getResourceAsStream`: the parent's resource first, then the loader's own (`findResource`). */
  function BaseResource(l: LoaderRec, n: string): (r: Option<Url>)
  {
    if n in l.parent.resources && l.parent.resources[n] != [] then Some(l.parent.resources[n][0])
    else FindResource(l, n)
  }

  /** Two loaders with the same own URLs answer `findClass`, `findResource` and `findResources` alike. */
  lemma OwnLookupsFrame(l: LoaderRec, l': LoaderRec, n: string)
    requires l.own == l'.own
    ensures FindClass(l', n) == FindClass(l, n)
    ensures FindResources(l', n) == FindResources(l, n) && FindResource(l', n) == FindResource(l, n)
  {
  }

  /** Two loaders with the same parent and own URLs answer the base lookups alike, whatever their children. */
  lemma BaseLookupsFrame(l: LoaderRec, l': LoaderRec, n: string)
    requires l.parent == l'.parent && l.own == l'.own
    ensures BaseLoadClass(l', n) == BaseLoadClass(l, n) && BaseResource(l', n) == BaseResource(l, n)
  {
    OwnLookupsFrame(l, l', n);
  }

  /** `rank` ranks every loader strictly above each of its children, which are all in the table. */
  ghost predicate Ranked(t: seq<LoaderRec>, rank: seq<nat>)
  {
    && |rank| == |t|
    && forall i, k :: 0 <= i < |t| && 0 <= k < |t[i].children| ==>
         t[i].children[k] < |t| && rank[t[i].children[k]] < rank[i]
  }

  /** The child graph has no cycle: some ranking of the loaders exists. */
  ghost predicate Acyclic(t: seq<LoaderRec>)
  {
    exists rank :: Ranked(t, rank)
  }

  /** One fixed ranking of an acyclic table, the measure of the recursive lookups. */
  ghost function Ranks(t: seq<LoaderRec>): (rank: seq<nat>)
    requires Acyclic(t)
    ensures Ranked(t, rank)
  {
    var rank :| Ranked(t, rank); rank
  }

  /** Every index in `cs` names a loader ranked below `bound`. */
  ghost predicate Below(t: seq<LoaderRec>, cs: seq<nat>, bound: nat)
    requires Acyclic(t)
  {
    forall k :: 0 <= k < |cs| ==> cs[k] < |t| && Ranks(t)[cs[k]] < bound
  }

  /** `loadClass`: the base lookup wins; only when it fails are the children asked, in order. */
  function LoadClass(t: seq<LoaderRec>, i: nat, n: string): (r: Option<ClassRef>)
    requires Acyclic(t) && i < |t|
    // the parent first, then the loader's own URLs, and only then the children
    ensures n in t[i].parent.classes ==> r == Some(t[i].parent.classes[n])
    ensures n !in t[i].parent.classes && n in t[i].own.classes ==> r == Some(t[i].own.classes[n])
    decreases Ranks(t)[i], 1
  {
    match BaseLoadClass(t[i], n)
    case Some(c) => Some(c)
    case None => ChildrenLoadClass(t, t[i].children, Ranks(t)[i], n)
  }

  /** The loop over `children` in `loadClass`: the first child that resolves the name, recursively. */
  function ChildrenLoadClass(t: seq<LoaderRec>, cs: seq<nat>, ghost bound: nat, n: string): (r: Option<ClassRef>)
    requires Acyclic(t) && Below(t, cs, bound)
    ensures r.None? <==> forall k :: 0 <= k < |cs| ==> LoadClass(t, cs[k], n).None?
    ensures r.Some? ==> exists k :: 0 <= k < |cs| && LoadClass(t, cs[k], n) == r &&
                                    forall k' :: 0 <= k' < k ==> LoadClass(t, cs[k'], n).None?
    decreases bound, 0, |cs|
  {
    if cs == [] then None
    else
      match LoadClass(t, cs[0], n)
      case Some(c) => Some(c)
      case None =>
        var rest := ChildrenLoadClass(t, cs[1..], bound, n);
        assert forall k :: 1 <= k < |cs| ==> cs[k] == cs[1..][k - 1];
        rest
  }

  /** `getResourceAsStreamWithChildren`: the loader's own stream, else the first child's, recursively. */
  function ResourceWithChildren(t: seq<LoaderRec>, i: nat, n: string): (r: Option<Url>)
    requires Acyclic(t) && i < |t|
    // the loader's own stream (parent first, then own URLs) wins over every child
    ensures BaseResource(t[i], n).Some? ==> r == BaseResource(t[i], n)
    decreases Ranks(t)[i], 1
  {
    match BaseResource(t[i], n)
    case Some(u) => Some(u)
    case None => ChildrenResource(t, t[i].children, Ranks(t)[i], n)
  }

  /** The loop over `children` in `getResourceAsStreamWithChildren`: the first non-null child result. */
  function ChildrenResource(t: seq<LoaderRec>, cs: seq<nat>, ghost bound: nat, n: string): (r: Option<Url>)
    requires Acyclic(t) && Below(t, cs, bound)
    ensures r.None? <==> forall k :: 0 <= k < |cs| ==> ResourceWithChildren(t, cs[k], n).None?
    ensures r.Some? ==> exists k :: 0 <= k < |cs| && ResourceWithChildren(t, cs[k], n) == r &&
                                    forall k' :: 0 <= k' < k ==> ResourceWithChildren(t, cs[k'], n).None?
    decreases bound, 0, |cs|
  {
    if cs == [] then None
    else
      match ResourceWithChildren(t, cs[0], n)
      case Some(u) => Some(u)
      case None =>
        var rest := ChildrenResource(t, cs[1..], bound, n);
        assert forall k :: 1 <= k < |cs| ==> cs[k] == cs[1..][k - 1];
        rest
  }

  /** Loader `j` is loader `i` or reachable from it through child edges. */
  ghost predicate Reachable(t: seq<LoaderRec>, i: nat, j: nat)
    requires Acyclic(t) && i < |t|
    decreases Ranks(t)[i]
  {
    i == j || exists k :: 0 <= k < |t[i].children| && Reachable(t, t[i].children[k], j)
  }

  /**
   * Whatever `loadClass` returns some loader reachable from `i` defines through its base lookup,
   * and `loadClass` fails only if no reachable loader's base lookup knows the name.
   */
  lemma {:induction false} LoadClassReachable(t: seq<LoaderRec>, i: nat, n: string)
    requires Acyclic(t) && i < |t|
    ensures LoadClass(t, i, n).Some? ==>
              exists j :: 0 <= j < |t| && Reachable(t, i, j) && BaseLoadClass(t[j], n) == LoadClass(t, i, n)
    ensures LoadClass(t, i, n).None? ==>
              forall j :: 0 <= j < |t| && Reachable(t, i, j) ==> BaseLoadClass(t[j], n).None?
    decreases Ranks(t)[i]
  {
    var cs := t[i].children;
    forall k | 0 <= k < |cs| ensures cs[k] < |t| && Ranks(t)[cs[k]] < Ranks(t)[i] { }
    forall k | 0 <= k < |cs| {
      LoadClassReachable(t, cs[k], n);
    }
    var r := LoadClass(t, i, n);
    if BaseLoadClass(t[i], n).None? {
      if r.Some? {
        var k :| 0 <= k < |cs| && LoadClass(t, cs[k], n) == r;
        var j :| 0 <= j < |t| && Reachable(t, cs[k], j) && BaseLoadClass(t[j], n) == r;
        assert Reachable(t, i, j);
      } else {
        forall j | 0 <= j < |t| && Reachable(t, i, j) ensures BaseLoadClass(t[j], n).None? {
          if j != i {
            var k :| 0 <= k < |cs| && Reachable(t, cs[k], j);
          }
        }
      }
    } else {
      assert Reachable(t, i, i);
    }
  }

  /** The same two facts for `getResourceAsStreamWithChildren`. */
  lemma {:induction false} ResourceReachable(t: seq<LoaderRec>, i: nat, n: string)
    requires Acyclic(t) && i < |t|
    ensures ResourceWithChildren(t, i, n).Some? ==>
              exists j :: 0 <= j < |t| && Reachable(t, i, j) && BaseResource(t[j], n) == ResourceWithChildren(t, i, n)
    ensures ResourceWithChildren(t, i, n).None? ==>
              forall j :: 0 <= j < |t| && Reachable(t, i, j) ==> BaseResource(t[j], n).None?
    decreases Ranks(t)[i]
  {
    var cs := t[i].children;
    forall k | 0 <= k < |cs| ensures cs[k] < |t| && Ranks(t)[cs[k]] < Ranks(t)[i] { }
    forall k | 0 <= k < |cs| {
      ResourceReachable(t, cs[k], n);
    }
    var r := ResourceWithChildren(t, i, n);
    if BaseResource(t[i], n).None? {
      if r.Some? {
        var k :| 0 <= k < |cs| && ResourceWithChildren(t, cs[k], n) == r;
        var j :| 0 <= j < |t| && Reachable(t, cs[k], j) && BaseResource(t[j], n) == r;
        assert Reachable(t, i, j);
      } else {
        forall j | 0 <= j < |t| && Reachable(t, i, j) ensures BaseResource(t[j], n).None? {
          if j != i {
            var k :| 0 <= k < |cs| && Reachable(t, cs[k], j);
          }
        }
      }
    } else {
      assert Reachable(t, i, i);
    }
  }

  /**
   * The children's turn: a class neither the parent nor the loader's own URLs define comes from
   * the first child, in `children` order, that resolves it, and from no loader when none does.
   */
  lemma LoadClassFromChildren(t: seq<LoaderRec>, i: nat, n: string)
    requires Acyclic(t) && i < |t|
    requires n !in t[i].parent.classes && n !in t[i].own.classes
    ensures LoadClass(t, i, n).None? <==> forall k :: 0 <= k < |t[i].children| ==> LoadClass(t, t[i].children[k], n).None?
    ensures LoadClass(t, i, n).Some? ==>
              exists k :: 0 <= k < |t[i].children| && LoadClass(t, t[i].children[k], n) == LoadClass(t, i, n) &&
                          forall k' :: 0 <= k' < k ==> LoadClass(t, t[i].children[k'], n).None?
  {
    assert BaseLoadClass(t[i], n).None?;
    assert LoadClass(t, i, n) == ChildrenLoadClass(t, t[i].children, Ranks(t)[i], n);
  }

  /**
   * The children's turn for resources: when the loader's own stream (parent first, then its own
   * URLs) is null, the result is the first child's non-null stream, in `children` order, and null
   * when every child's is.
   */
  lemma ResourceFromChildren(t: seq<LoaderRec>, i: nat, n: string)
    requires Acyclic(t) && i < |t|
    requires BaseResource(t[i], n).None?
    ensures ResourceWithChildren(t, i, n).None? <==>
              forall k :: 0 <= k < |t[i].children| ==> ResourceWithChildren(t, t[i].children[k], n).None?
    ensures ResourceWithChildren(t, i, n).Some? ==>
              exists k :: 0 <= k < |t[i].children| && ResourceWithChildren(t, t[i].children[k], n) == ResourceWithChildren(t, i, n) &&
                          forall k' :: 0 <= k' < k ==> ResourceWithChildren(t, t[i].children[k'], n).None?
  {
    assert ResourceWithChildren(t, i, n) == ChildrenResource(t, t[i].children, Ranks(t)[i], n);
  }

  /** Relinking nothing: a table whose loaders keep their children stays acyclic. */
  lemma SameChildrenAcyclic(t: seq<LoaderRec>, t': seq<LoaderRec>)
    requires Acyclic(t) && |t'| == |t|
    requires forall i :: 0 <= i < |t| ==> t'[i].children == t[i].children
    ensures Acyclic(t')
  {
    assert Ranked(t', Ranks(t));
  }

  /** Loader `i` reaches whatever one of its children reaches. */
  lemma ReachableThroughChild(t: seq<LoaderRec>, i: nat, k: nat, j: nat)
    requires Acyclic(t) && i < |t| && k < |t[i].children|
    requires Reachable(t, t[i].children[k], j)
    ensures Reachable(t, i, j)
  {
  }

  /**
   * `addChild` keeps the graph acyclic exactly when the new child does not already reach the
   * parent: every loader that reaches the parent moves above the child's whole subtree.
   */
  lemma AddChildAcyclic(t: seq<LoaderRec>, parent: nat, child: nat)
    requires Acyclic(t) && parent < |t| && child < |t| && !Reachable(t, child, parent)
    ensures Acyclic(t[parent := t[parent].(children := t[parent].children + [child])])
  {
    var rank := Ranks(t);
    var t' := t[parent := t[parent].(children := t[parent].children + [child])];
    var r' := seq(|t|, x requires 0 <= x < |t| => rank[x] + (if Reachable(t, x, parent) then rank[child] + 1 else 0));
    forall i, k | 0 <= i < |t'| && 0 <= k < |t'[i].children|
      ensures t'[i].children[k] < |t'| && r'[t'[i].children[k]] < r'[i]
    {
      if i == parent && k == |t[parent].children| {
        assert Reachable(t, parent, parent);
      } else {
        var c := t[i].children[k];
        assert t'[i].children[k] == c;
        if Reachable(t, c, parent) {
          ReachableThroughChild(t, i, k, parent);
        }
      }
    }
    assert Ranked(t', r');
  }

  /** Two tables that agree on every loader's parent, own URLs and children. */
  ghost predicate SameLinks(t: seq<LoaderRec>, t': seq<LoaderRec>)
  {
    && |t'| == |t|
    && forall i :: 0 <= i < |t| ==>
         t'[i].parent == t[i].parent && t'[i].own == t[i].own && t'[i].children == t[i].children
  }

  /**
   * Lookups do not depend on names, URL lists, loggers or event nodes: two tables with the same
   * links resolve every class and resource alike, whichever ranking each one is measured by.
   */
  lemma {:induction false} LookupsIgnoreHandles(t: seq<LoaderRec>, t': seq<LoaderRec>, i: nat, n: string)
    requires Acyclic(t) && SameLinks(t, t') && i < |t|
    ensures Acyclic(t')
    ensures LoadClass(t', i, n) == LoadClass(t, i, n)
    ensures ResourceWithChildren(t', i, n) == ResourceWithChildren(t, i, n)
    decreases Ranks(t)[i], 1
  {
    SameChildrenAcyclic(t, t');
    BaseLookupsFrame(t[i], t'[i], n);
    ChildrenIgnoreHandles(t, t', t[i].children, Ranks(t)[i], Ranks(t')[i], n);
  }

  /** The loop over the children, for `LookupsIgnoreHandles`. */
  lemma {:induction false} ChildrenIgnoreHandles(t: seq<LoaderRec>, t': seq<LoaderRec>, cs: seq<nat>,
                                                 b: nat, b': nat, n: string)
    requires Acyclic(t) && Acyclic(t') && SameLinks(t, t') && Below(t, cs, b) && Below(t', cs, b')
    ensures ChildrenLoadClass(t', cs, b', n) == ChildrenLoadClass(t, cs, b, n)
    ensures ChildrenResource(t', cs, b', n) == ChildrenResource(t, cs, b, n)
    decreases b, 0, |cs|
  {
    if cs != [] {
      LookupsIgnoreHandles(t, t', cs[0], n);
      ChildrenIgnoreHandles(t, t', cs[1..], b, b', n);
    }
  }

  /**
   * The loaders of one process: every constructed loader (`table`), the static `LOADERS`
   * list (`registry`), and the global event handler's children (`globalChildren`).
   */
  class LoaderTable {
    var table: seq<LoaderRec>
    var registry: seq<nat>
    /** The host's class loader, the default parent of a new loader. */
    var host: Archive
    var globalChildren: set<Handle>
    /** The next foreign object handle; every handle in use is below it. */
    var nextHandle: Handle

    ghost predicate Valid()
      reads this
    {
      && Acyclic(table)
      && (forall k :: 0 <= k < |registry| ==> registry[k] < |table|)
      && (forall i :: 0 <= i < |table| && table[i].logger.Some? ==> table[i].logger.value < nextHandle)
      && (forall i :: 0 <= i < |table| && table[i].eventNode.Some? ==> table[i].eventNode.value < nextHandle)
    }

    constructor (host: Archive)
      ensures Valid()
      ensures table == [] && registry == [] && this.host == host && globalChildren == {}
    {
      table := [];
      registry := [];
      this.host := host;
      globalChildren := {};
      nextHandle := 0;
      assert Ranked([], []);
    }

    /** `PluginClassLoader(name, urls, discoveredPlugin, server)`: parented to the host, added to `LOADERS`. */
    method NewLoader(name: string, urls: seq<Url>, own: Archive) returns (id: nat)
      requires Valid()
      modifies this
      ensures Valid()
      ensures id == |old(table)|
      ensures table == old(table) + [LoaderRec("Pl_" + name, urls, old(host), own, [], None, None)]
      ensures registry == old(registry) + [id]
      ensures host == old(host) && globalChildren == old(globalChildren) && nextHandle == old(nextHandle)
    {
      id := NewLoaderWithParent(name, urls, host, own);
    }

    /** `PluginClassLoader(name, urls, parent, discoveredPlugin, server)`: an explicit parent. */
    method NewLoaderWithParent(name: string, urls: seq<Url>, parent: Archive, own: Archive) returns (id: nat)
      requires Valid()
      modifies this
      ensures Valid()
      ensures id == |old(table)|
      ensures table == old(table) + [LoaderRec("Pl_" + name, urls, parent, own, [], None, None)]
      ensures registry == old(registry) + [id]
      ensures host == old(host) && globalChildren == old(globalChildren) && nextHandle == old(nextHandle)
    {
      id := |table|;
      assert Ranked(table + [LoaderRec("Pl_" + name, urls, parent, own, [], None, None)], Ranks(table) + [0]);
      table := table + [LoaderRec("Pl_" + name, urls, parent, own, [], None, None)];
      registry := registry + [id];
    }

    /** `addChild`: appends `child` to the children of `parent`, keeping the earlier children. */
    method AddChild(parent: nat, child: nat)
      requires Valid() && parent < |table| && child < |table| && !Reachable(table, child, parent)
      modifies this
      ensures Valid()
      ensures |table| == |old(table)|
      ensures table[parent].children == old(table[parent].children) + [child]
      ensures table == old(table)[parent := old(table[parent]).(children := old(table[parent].children) + [child])]
      ensures registry == old(registry) && host == old(host)
      ensures globalChildren == old(globalChildren) && nextHandle == old(nextHandle)
    {
      AddChildAcyclic(table, parent, child);
      var rec := table[parent];
      table := table[parent := rec.(children := rec.children + [child])];
    }

    /** `clearRegistry`: empties `LOADERS`; the loaders themselves remain. */
    method ClearRegistry()
      requires Valid()
      modifies this
      ensures Valid()
      ensures registry == []
      ensures table == old(table) && host == old(host)
      ensures globalChildren == old(globalChildren) && nextHandle == old(nextHandle)
    {
      registry := [];
    }

    /** `getLogger`: creates the logger on the first call and returns that same logger afterwards. */
    method GetLogger(i: nat) returns (h: Handle)
      requires Valid() && i < |table|
      modifies this
      ensures Valid()
      ensures old(table[i].logger).Some? ==>
                h == old(table[i].logger.value) && table == old(table) && nextHandle == old(nextHandle)
      ensures old(table[i].logger).None? ==>
                h == old(nextHandle) && table == old(table)[i := old(table[i]).(logger := Some(h))]
      ensures table[i].logger == Some(h)
      ensures registry == old(registry) && host == old(host) && globalChildren == old(globalChildren)
    {
      if table[i].logger.None? {
        h := nextHandle;
        nextHandle := nextHandle + 1;
        SameChildrenAcyclic(table, table[i := table[i].(logger := Some(h))]);
        table := table[i := table[i].(logger := Some(h))];
      } else {
        h := table[i].logger.value;
      }
    }

    /**
     * `getEventNode`: on the first call creates the node and attaches it to the global event
     * handler; afterwards returns that same node.
     */
    method GetEventNode(i: nat) returns (h: Handle)
      requires Valid() && i < |table|
      modifies this
      ensures Valid()
      ensures old(table[i].eventNode).Some? ==>
                && h == old(table[i].eventNode.value) && table == old(table)
                && globalChildren == old(globalChildren) && nextHandle == old(nextHandle)
      ensures old(table[i].eventNode).None? ==>
                && h == old(nextHandle)
                && table == old(table)[i := old(table[i]).(eventNode := Some(h))]
                && globalChildren == old(globalChildren) + {h}
      ensures table[i].eventNode == Some(h)
      ensures registry == old(registry) && host == old(host)
    {
      if table[i].eventNode.None? {
        h := nextHandle;
        nextHandle := nextHandle + 1;
        SameChildrenAcyclic(table, table[i := table[i].(eventNode := Some(h))]);
        table := table[i := table[i].(eventNode := Some(h))];
        globalChildren := globalChildren + {h};
      } else {
        h := table[i].eventNode.value;
      }
    }

    /** `terminate`: detaches the event node if one was created; never creates one. */
    method Terminate(i: nat)
      requires Valid() && i < |table|
      modifies this
      ensures Valid()
      ensures table == old(table) && registry == old(registry) && host == old(host)
      ensures nextHandle == old(nextHandle)
      ensures old(table[i].eventNode).Some? ==> globalChildren == old(globalChildren) - {old(table[i].eventNode.value)}
      ensures old(table[i].eventNode).None? ==> globalChildren == old(globalChildren)
    {
      if table[i].eventNode.Some? {
        globalChildren := globalChildren - {table[i].eventNode.value};
      }
    }
  }
}
