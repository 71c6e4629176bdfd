/**
 * The aggregate loader (CombinedClassLoader): a fixed sequence of plugin loaders, consulted
 * in order through each member's own URLs only.
 */
module Combined {
  import opened Wrappers
  import opened Loaders

  /**
   * The member list is a value: the constructor's `new ArrayList<>(loaders)` copy means later
   * changes to the caller's list cannot reach lookups made here.
   */
  datatype CombinedClassLoader = CombinedClassLoader(loaders: seq<nat>)

  /** Every member names a constructed loader. */
  ghost predicate Members(t: seq<LoaderRec>, ls: seq<nat>)
  {
    forall k :: 0 <= k < |ls| ==> ls[k] < |t|
  }

  /** `findClass`: the first member whose own `findClass` succeeds; fails only if every member fails. */
  function CombinedFindClass(t: seq<LoaderRec>, ls: seq<nat>, n: string): (r: Option<ClassRef>)
    requires Members(t, ls)
    ensures r.None? <==> forall k :: 0 <= k < |ls| ==> n !in t[ls[k]].own.classes
    ensures r.Some? ==> exists k :: 0 <= k < |ls| && r == FindClass(t[ls[k]], n) &&
                                    forall k' :: 0 <= k' < k ==> FindClass(t[ls[k']], n).None?
  {
    if ls == [] then None
    else
      match FindClass(t[ls[0]], n)
      case Some(c) => Some(c)
      case None =>
        assert forall k :: 1 <= k < |ls| ==> ls[k] == ls[1..][k - 1];
        CombinedFindClass(t, ls[1..], n)
  }

  /** `findResource`: the first non-null member result; null only if every member returns null. */
  function CombinedFindResource(t: seq<LoaderRec>, ls: seq<nat>, n: string): (r: Option<Url>)
    requires Members(t, ls)
    ensures r.None? <==> forall k :: 0 <= k < |ls| ==> FindResource(t[ls[k]], n).None?
    ensures r.Some? ==> exists k :: 0 <= k < |ls| && r == FindResource(t[ls[k]], n) &&
                                    forall k' :: 0 <= k' < k ==> FindResource(t[ls[k']], n).None?
  {
    if ls == [] then None
    else
      match FindResource(t[ls[0]], n)
      case Some(u) => Some(u)
      case None =>
        assert forall k :: 1 <= k < |ls| ==> ls[k] == ls[1..][k - 1];
        CombinedFindResource(t, ls[1..], n)
  }

  /** `findResources`: every member's own results, member after member. */
  function CombinedFindResources(t: seq<LoaderRec>, ls: seq<nat>, n: string): (r: seq<Url>)
    requires Members(t, ls)
    // the first member's URLs come first, in its own order
    ensures ls != [] ==> |FindResources(t[ls[0]], n)| <= |r| && r[..|FindResources(t[ls[0]], n)|] == FindResources(t[ls[0]], n)
  {
    if ls == [] then []
    else
      var head := FindResources(t[ls[0]], n);
      var rest := CombinedFindResources(t, ls[1..], n);
      assert (head + rest)[|head|..] == rest;
      head + rest
  }

  /** The number of URLs each member reports, added up. */
  function CountResources(t: seq<LoaderRec>, ls: seq<nat>, n: string): nat
    requires Members(t, ls)
  {
    if ls == [] then 0 else |FindResources(t[ls[0]], n)| + CountResources(t, ls[1..], n)
  }

  /** The aggregate enumeration is as long as the members' enumerations together. */
  lemma {:induction false} FindResourcesLength(t: seq<LoaderRec>, ls: seq<nat>, n: string)
    requires Members(t, ls)
    ensures |CombinedFindResources(t, ls, n)| == CountResources(t, ls, n)
  {
    if ls != [] { FindResourcesLength(t, ls[1..], n); }
  }

  /** Splitting the member list splits the enumeration: the concatenation keeps member order. */
  lemma {:induction false} FindResourcesAppend(t: seq<LoaderRec>, a: seq<nat>, b: seq<nat>, n: string)
    requires Members(t, a) && Members(t, b)
    ensures Members(t, a + b)
    ensures CombinedFindResources(t, a + b, n) == CombinedFindResources(t, a, n) + CombinedFindResources(t, b, n)
  {
    if a != [] {
      assert (a + b)[1..] == a[1..] + b;
      FindResourcesAppend(t, a[1..], b, n);
    } else {
      assert a + b == b;
    }
  }

  /** Every URL the aggregate enumerates some member reports, and every member's URL is enumerated. */
  lemma {:induction false} FindResourcesContents(t: seq<LoaderRec>, ls: seq<nat>, n: string, u: Url)
    requires Members(t, ls)
    ensures u in CombinedFindResources(t, ls, n) <==> exists k :: 0 <= k < |ls| && u in FindResources(t[ls[k]], n)
  {
    if ls != [] {
      FindResourcesContents(t, ls[1..], n, u);
      assert forall k :: 1 <= k < |ls| ==> ls[k] == ls[1..][k - 1];
      if u in FindResources(t[ls[0]], n) {
      } else if exists k :: 0 <= k < |ls| && u in FindResources(t[ls[k]], n) {
        var k :| 0 <= k < |ls| && u in FindResources(t[ls[k]], n);
        assert k != 0;
        assert u in FindResources(t[ls[1..][k - 1]], n);
      }
    }
  }

  /** Two tables whose loaders have the same own URLs; children, parents and handles may differ. */
  ghost predicate SameOwn(t: seq<LoaderRec>, t': seq<LoaderRec>)
  {
    |t| == |t'| && forall i :: 0 <= i < |t| ==> t[i].own == t'[i].own
  }

  /** The aggregate never consults children (or parents): only the members' own URLs decide. */
  lemma {:induction false} AggregateIgnoresChildren(t: seq<LoaderRec>, t': seq<LoaderRec>, ls: seq<nat>, n: string)
    requires Members(t, ls) && SameOwn(t, t')
    ensures Members(t', ls)
    ensures CombinedFindClass(t', ls, n) == CombinedFindClass(t, ls, n)
    ensures CombinedFindResource(t', ls, n) == CombinedFindResource(t, ls, n)
    ensures CombinedFindResources(t', ls, n) == CombinedFindResources(t, ls, n)
  {
    if ls != [] {
      assert Members(t, ls[1..]) by {
        assert forall k :: 1 <= k < |ls| ==> ls[k] == ls[1..][k - 1];
      }
      OwnLookupsFrame(t[ls[0]], t'[ls[0]], n);
      AggregateIgnoresChildren(t, t', ls[1..], n);
    }
  }

  /**
   * Two sibling loaders with a colliding class, neither hidden by its parent: each still
   * resolves its own class, and the aggregate returns the earlier member's.
   */
  lemma SiblingCollision(t: seq<LoaderRec>, a: nat, b: nat, n: string)
    requires Acyclic(t) && a < |t| && b < |t|
    requires n in t[a].own.classes && n in t[b].own.classes
    requires n !in t[a].parent.classes && n !in t[b].parent.classes
    ensures Members(t, [a, b])
    ensures LoadClass(t, a, n) == Some(t[a].own.classes[n])
    ensures LoadClass(t, b, n) == Some(t[b].own.classes[n])
    ensures CombinedFindClass(t, [a, b], n) == Some(t[a].own.classes[n])
  {
  }
}
