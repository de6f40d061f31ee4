/** The resource centre (pages/Resources.jsx): local and online resources shown as
    one list, narrowed by a title search and a type filter. */
module Resources {
  import opened Common
  import opened Text

  datatype Resource = Resource(title: string, kind: string, url: string)

  /** The type filter's value that shows every type. */
  const AllKinds := "all"

  /** The predicate of `filtered`: the lower-cased title contains the lower-cased
      search, and the filter is `all` or names the resource's type. */
  predicate Matches(search: string, filter: string, r: Resource)
  {
    Contains(Lower(r.title), Lower(search)) && (filter == AllKinds || r.kind == filter)
  }

  function Keep(search: string, filter: string): Resource -> bool
  {
    r => Matches(search, filter, r)
  }

  /** `[...resources, ...onlineResources].filter(...)`. */
  function Filtered(local: seq<Resource>, online: seq<Resource>, search: string, filter: string): (r: seq<Resource>)
    ensures |r| <= |local| + |online|
    ensures forall i :: 0 <= i < |r| ==> (r[i] in local || r[i] in online) && Matches(search, filter, r[i])
  {
    Filter(local + online, Keep(search, filter))
  }

  // ---------------------------------------------------------------- properties

  /** The result is an order-preserving selection from the local resources followed
      by the online ones, and a resource is shown exactly when it is in one of the
      two lists and matches. */
  lemma FilteredSelects(local: seq<Resource>, online: seq<Resource>, search: string, filter: string, r: Resource)
    ensures IsSubsequence(Filtered(local, online, search, filter), local + online)
    ensures r in Filtered(local, online, search, filter) <==>
      (r in local || r in online) && Matches(search, filter, r)
  {
    var all := local + online;
    var res := Filtered(local, online, search, filter);
    if r in res {
      var i :| 0 <= i < |res| && res[i] == r;
      assert res[i] in all;
    }
    if (r in local || r in online) && Matches(search, filter, r) {
      assert r in all;
      var i :| 0 <= i < |all| && all[i] == r;
      assert Keep(search, filter)(all[i]);
    }
  }

  /** An empty search with the filter on `all` shows every resource, in order. */
  lemma EmptySearchShowsAll(local: seq<Resource>, online: seq<Resource>)
    ensures Filtered(local, online, [], AllKinds) == local + online
  {
    var all := local + online;
    forall i | 0 <= i < |all|
      ensures Keep([], AllKinds)(all[i])
    {
      assert StartsWith(Lower(all[i].title), Lower([]));
    }
    FilterKeepsAll(all, Keep([], AllKinds));
  }

  /** Filtering the shown list again with the same search and filter changes
      nothing. */
  lemma FilteredIdempotent(local: seq<Resource>, online: seq<Resource>, search: string, filter: string)
    ensures Filtered(Filtered(local, online, search, filter), [], search, filter) ==
      Filtered(local, online, search, filter)
  {
    var once := Filtered(local, online, search, filter);
    assert once + [] == once;
    FilterIdempotent(local + online, Keep(search, filter));
  }

  /** The search ignores the case of ASCII letters. */
  lemma SearchIgnoresCase(local: seq<Resource>, online: seq<Resource>, search: string, filter: string)
    ensures Filtered(local, online, Lower(search), filter) == Filtered(local, online, search, filter)
  {
    assert Lower(Lower(search)) == Lower(search);
    FilterCongruent(local + online, Keep(Lower(search), filter), Keep(search, filter));
  }
}
