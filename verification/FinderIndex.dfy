/** The finder over several searchers: what it aggregates, and its cache (src/issuefinder/finder.go,
    src/issuefinder/serialize.go, src/issuefinder/deserialize.go).  Go iterates over a map in any order. */
module FinderIndex {
  import opened FinderCache
  import opened Sequences

  /** Everything the searchers found, and which searcher each issue came from. */
  datatype Found = Found(batches: seq<Batch>, titles: seq<Title>, issues: seq<Issue>, errors: seq<string>,
      namespaces: map<Issue, nat>)

  const NOTHING := Found([], [], [], [], map[])

  function With(a: Found, s: Searcher): Found
    reads s
  {
    Found(a.batches + s.batches, a.titles + s.titles, a.issues + s.issues, a.errors + s.errors,
          a.namespaces + AllIn(s.issues, s.namespace))
  }

  function AllIn(issues: seq<Issue>, namespace: nat): map<Issue, nat> {
    map i <- issues :: namespace
  }

  lemma OneMoreIn(base: map<Issue, nat>, issues: seq<Issue>, k: nat, namespace: nat)
    requires k < |issues|
    ensures base + AllIn(issues[..k + 1], namespace) == (base + AllIn(issues[..k], namespace))[issues[k] := namespace]
  {
    assert issues[..k + 1] == issues[..k] + [issues[k]];
  }

  function Aggregated(ss: seq<Searcher>): Found
    reads ss
  {
    if ss == [] then NOTHING else With(Aggregated(ss[..|ss| - 1]), ss[|ss| - 1])
  }

  /** The stored searchers, each once. */
  predicate OrderOf(searchers: map<nat, Searcher>, ss: seq<Searcher>)
    reads ss
  {
    && Unique(ss)
    && (forall n <- searchers :: searchers[n] in ss)
    && (forall s <- ss :: s.namespace in searchers && searchers[s.namespace] == s)
  }

  /** Each searcher is stored under its own namespace. */
  predicate Stores(searchers: map<nat, Searcher>)
    reads searchers.Values
  {
    forall n <- searchers :: searchers[n].namespace == n
  }

  /** No issue was found by two searchers. */
  predicate Apart(ss: seq<Searcher>)
    reads ss
  {
    forall j, k :: 0 <= j < k < |ss| ==> forall i <- ss[j].issues :: i !in ss[k].issues
  }

  lemma AggregatedAppend(ss: seq<Searcher>, s: Searcher)
    ensures Aggregated(ss + [s]) == With(Aggregated(ss), s)
  {
    assert (ss + [s])[..|ss|] == ss;
  }

  /** The finder knows exactly the searchers' issues, and the namespace of each. */
  lemma {:induction false} NamespacesAreRight(ss: seq<Searcher>)
    requires Apart(ss)
    ensures forall k :: 0 <= k < |ss| ==>
          forall i <- ss[k].issues :: i in Aggregated(ss).namespaces && Aggregated(ss).namespaces[i] == ss[k].namespace
    ensures forall i :: i in Aggregated(ss).namespaces <==> i in Aggregated(ss).issues
    ensures forall i <- Aggregated(ss).issues :: exists k :: 0 <= k < |ss| && i in ss[k].issues
  {
    if ss != [] {
      var n := |ss| - 1;
      NamespacesAreRight(ss[..n]);
      forall k, i | 0 <= k < |ss| && i in ss[k].issues
        ensures i in Aggregated(ss).namespaces && Aggregated(ss).namespaces[i] == ss[k].namespace
      {
        if k < n {
          assert ss[..n][k] == ss[k];
        }
      }
      forall i <- Aggregated(ss).issues ensures exists k :: 0 <= k < |ss| && i in ss[k].issues {
        if i in ss[n].issues {
        } else {
          var k :| 0 <= k < n && i in ss[..n][k].issues;
        }
      }
    }
  }

  function Without(ss: seq<Searcher>, k: nat): seq<Searcher>
    requires k < |ss|
  {
    ss[..k] + ss[k + 1..]
  }

  /** `a` has what `b` has and what s found. */
  ghost predicate HasMore(a: Found, b: Found, s: Searcher)
    reads s
  {
    && multiset(a.issues) == multiset(b.issues) + multiset(s.issues)
    && multiset(a.titles) == multiset(b.titles) + multiset(s.titles)
    && multiset(a.batches) == multiset(b.batches) + multiset(s.batches)
    && multiset(a.errors) == multiset(b.errors) + multiset(s.errors)
  }

  lemma HasMoreWith(a: Found, b: Found, s: Searcher, t: Searcher)
    requires HasMore(a, b, s)
    ensures HasMore(With(a, t), With(b, t), s)
  {
    assert multiset(With(a, t).issues) == multiset(a.issues) + multiset(t.issues);
    assert multiset(With(a, t).titles) == multiset(a.titles) + multiset(t.titles);
    assert multiset(With(a, t).batches) == multiset(a.batches) + multiset(t.batches);
    assert multiset(With(a, t).errors) == multiset(a.errors) + multiset(t.errors);
  }

  lemma HasMoreNow(a: Found, s: Searcher)
    ensures HasMore(With(a, s), a, s)
  {
  }

  lemma WithoutFront(ss: seq<Searcher>, k: nat)
    requires k < |ss| - 1
    ensures var n := |ss| - 1; Aggregated(Without(ss, k)) == With(Aggregated(Without(ss[..n], k)), ss[n])
  {
    var n := |ss| - 1;
    AggregatedAppend(Without(ss[..n], k), ss[n]);
    assert Without(ss, k) == Without(ss[..n], k) + [ss[n]];
  }

  /** Taking one searcher out of the list takes what it found out of the aggregate. */
  lemma {:induction false} TakeOut(ss: seq<Searcher>, k: nat)
    requires k < |ss|
    ensures HasMore(Aggregated(ss), Aggregated(Without(ss, k)), ss[k])
    decreases |ss|
  {
    var n := |ss| - 1;
    if k == n {
      assert Without(ss, k) == ss[..n];
      HasMoreNow(Aggregated(ss[..n]), ss[n]);
    } else {
      TakeOut(ss[..n], k);
      WithoutFront(ss, k);
      HasMoreWith(Aggregated(ss[..n]), Aggregated(Without(ss[..n], k)), ss[k], ss[n]);
    }
  }

  ghost predicate SameLists(a: Found, b: Found) {
    && multiset(a.issues) == multiset(b.issues) && multiset(a.titles) == multiset(b.titles)
    && multiset(a.batches) == multiset(b.batches) && multiset(a.errors) == multiset(b.errors)
  }

  lemma WithoutIsLess(ss: seq<Searcher>, tt: seq<Searcher>, k: nat)
    requires ss != [] && k < |tt| && multiset(ss) == multiset(tt) && tt[k] == ss[|ss| - 1]
    ensures multiset(ss[..|ss| - 1]) == multiset(Without(tt, k))
  {
    var n := |ss| - 1;
    assert ss == ss[..n] + [ss[n]];
    assert tt == tt[..k] + [tt[k]] + tt[k + 1..];
    assert multiset(ss[..n]) == multiset(ss) - multiset{ss[n]};
    assert multiset(Without(tt, k)) == multiset(tt) - multiset{tt[k]};
  }

  /** In whatever order the searchers are visited, the same things are found. */
  lemma {:induction false} OrderDoesNotMatter(ss: seq<Searcher>, tt: seq<Searcher>)
    requires multiset(ss) == multiset(tt)
    ensures SameLists(Aggregated(ss), Aggregated(tt))
    decreases |ss|
  {
    if ss == [] {
      assert |multiset(tt)| == 0;
    } else {
      var n := |ss| - 1;
      assert ss[n] in multiset(ss);
      var k :| 0 <= k < |tt| && tt[k] == ss[n];
      WithoutIsLess(ss, tt, k);
      OrderDoesNotMatter(ss[..n], Without(tt, k));
      TakeOut(ss, n);
      assert Without(ss, n) == ss[..n];
      TakeOut(tt, k);
    }
  }

  // ---------------------------------------------------------------- stored searchers in some order

  lemma UniqueCounts<T>(list: seq<T>)
    requires Unique(list)
    ensures forall x: T {:trigger multiset(list)[x]} :: multiset(list)[x] == if x in list then 1 else 0
  {
    if list != [] {
      var n := |list| - 1;
      UniqueCounts(list[..n]);
      assert list == list[..n] + [list[n]];
    }
  }

  /** Any two orders of the same stored searchers give the same lists. */
  lemma AnyOrder(searchers: map<nat, Searcher>, ss: seq<Searcher>, tt: seq<Searcher>)
    requires OrderOf(searchers, ss) && OrderOf(searchers, tt)
    ensures SameLists(Aggregated(ss), Aggregated(tt))
  {
    UniqueCounts(ss);
    UniqueCounts(tt);
    assert multiset(ss) == multiset(tt);
    OrderDoesNotMatter(ss, tt);
  }

  /** A search of a new namespace adds its searcher at the end of the order. */
  lemma NewInOrder(searchers: map<nat, Searcher>, ss: seq<Searcher>, s: Searcher)
    requires OrderOf(searchers, ss) && s.namespace !in searchers
    ensures OrderOf(searchers[s.namespace := s], ss + [s])
  {
    var after, longer := searchers[s.namespace := s], ss + [s];
    assert s !in ss;
    assert Unique(longer);
    forall n <- after ensures after[n] in longer {
      if n == s.namespace {
        assert longer[|ss|] == s;
      } else {
        assert searchers[n] in ss;
      }
    }
    forall x <- longer ensures x.namespace in after && after[x.namespace] == x {
      if x != s {
        assert x in ss;
      }
    }
  }

  predicate FoundNothing(s: Searcher)
    reads s
  {
    s.batches == [] && s.titles == [] && s.issues == [] && s.errors == []
  }

  /** A search of a namespace that was searched before leaves the aggregate right exactly when the earlier search had
      found nothing: what it found stays in the lists until Aggregate is called. */
  lemma SearchedAgain(ss: seq<Searcher>, k: nat, s: Searcher)
    requires k < |ss|
    ensures SameLists(With(Aggregated(ss), s), Aggregated(Without(ss, k) + [s])) <==> FoundNothing(ss[k])
  {
    TakeOut(ss, k);
    AggregatedAppend(Without(ss, k), s);
    HasMoreWith(Aggregated(ss), Aggregated(Without(ss, k)), ss[k], s);
    MoreIsSame(With(Aggregated(ss), s), With(Aggregated(Without(ss, k)), s), ss[k]);
  }

  lemma MoreIsSame(a: Found, b: Found, s: Searcher)
    requires HasMore(a, b, s)
    ensures SameLists(a, b) <==> FoundNothing(s)
  {
    assert |multiset(a.issues)| == |multiset(b.issues)| + |s.issues|;
    assert |multiset(a.titles)| == |multiset(b.titles)| + |s.titles|;
    assert |multiset(a.batches)| == |multiset(b.batches)| + |s.batches|;
    assert |multiset(a.errors)| == |multiset(b.errors)| + |s.errors|;
  }

  // ---------------------------------------------------------------- the finder in place

  class Finder {
    var searchers: map<nat, Searcher>
    var batches: seq<Batch>
    var titles: seq<Title>
    var issues: seq<Issue>
    var errors: seq<string>
    var issueNamespace: map<Issue, nat>

    function View(): Found
      reads this
    {
      Found(batches, titles, issues, errors, issueNamespace)
    }

    constructor ()
      ensures searchers == map[] && View() == NOTHING
    {
      searchers, batches, titles, issues, errors, issueNamespace := map[], [], [], [], [], map[];
    }

    method StoreSearcher(s: Searcher)
      modifies `searchers
      ensures searchers == old(searchers)[s.namespace := s]
    {
      searchers := searchers[s.namespace := s];
    }

    /** The issues found, and where. */
    method AddIssues(s: Searcher)
      modifies `issues, `issueNamespace
      ensures issues == old(issues) + s.issues && issueNamespace == old(issueNamespace) + AllIn(s.issues, s.namespace)
    {
      for k := 0 to |s.issues|
        invariant issues == old(issues) + s.issues[..k]
        invariant issueNamespace == old(issueNamespace) + AllIn(s.issues[..k], s.namespace)
      {
        OneMoreIn(old(issueNamespace), s.issues, k, s.namespace);
        issues := issues + [s.issues[k]];
        issueNamespace := issueNamespace[s.issues[k] := s.namespace];
      }
      assert s.issues[..|s.issues|] == s.issues;
    }

    /** aggregate: everything the searcher found is added. */
    method AddFound(s: Searcher)
      modifies `batches, `titles, `issues, `errors, `issueNamespace
      ensures View() == With(old(View()), s)
      ensures batches == old(batches) + s.batches && titles == old(titles) + s.titles
      ensures issues == old(issues) + s.issues && errors == old(errors) + s.errors
      ensures forall i :: i in issueNamespace <==> i in old(issueNamespace) || i in s.issues
      ensures forall i <- issueNamespace ::
        issueNamespace[i] == if i in s.issues then s.namespace else old(issueNamespace)[i]
    {
      for k := 0 to |s.batches|
        modifies `batches
        invariant batches == old(batches) + s.batches[..k]
      {
        batches := batches + [s.batches[k]];
      }
      for k := 0 to |s.titles|
        modifies `titles
        invariant titles == old(titles) + s.titles[..k]
      {
        titles := titles + [s.titles[k]];
      }
      AddIssues(s);
      for k := 0 to |s.errors|
        modifies `errors
        invariant errors == old(errors) + s.errors[..k]
      {
        errors := errors + [s.errors[k]];
      }
    }

    /** createAndProcessSearcher, with what the search found. */
    method Find(s: Searcher)
      modifies this
      ensures searchers == old(searchers)[s.namespace := s]
      ensures View() == With(old(View()), s)
    {
      StoreSearcher(s);
      AddFound(s);
    }

    /** The stored searchers, in the order the map happens to give. */
    method Stored() returns (order: seq<Searcher>)
      requires Stores(searchers)
      ensures OrderOf(searchers, order)
    {
      order := [];
      var done: map<nat, Searcher> := map[];
      var left := searchers.Keys;
      while left != {}
        invariant left <= searchers.Keys && done.Keys == searchers.Keys - left
        invariant forall n <- done :: done[n] == searchers[n]
        invariant OrderOf(done, order)
        decreases |left|
      {
        var n :| n in left;
        left := left - {n};
        NewInOrder(done, order, searchers[n]);
        order := order + [searchers[n]];
        done := done[n := searchers[n]];
      }
      assert done == searchers;
    }

    method AddAll(ss: seq<Searcher>)
      requires View() == NOTHING
      modifies `batches, `titles, `issues, `errors, `issueNamespace
      ensures View() == Aggregated(ss)
    {
      for k := 0 to |ss|
        modifies `batches, `titles, `issues, `errors, `issueNamespace
        invariant View() == Aggregated(ss[..k])
      {
        assert ss[..k + 1] == ss[..k] + [ss[k]];
        AggregatedAppend(ss[..k], ss[k]);
        AddFound(ss[k]);
      }
      assert ss[..|ss|] == ss;
    }

    /** Aggregate: start over, and add every stored searcher. */
    method Aggregate() returns (ghost order: seq<Searcher>)
      requires Stores(searchers)
      modifies `batches, `titles, `issues, `errors, `issueNamespace
      ensures OrderOf(searchers, order) && View() == Aggregated(order)
    {
      batches, titles, issues, errors, issueNamespace := [], [], [], [], map[];
      var ss := Stored();
      AddAll(ss);
      order := ss;
    }
  }

  // ---------------------------------------------------------------- the finder's cache

  /** The objects of the searchers' graphs. */
  ghost function Graphs(ss: seq<Searcher>): (r: set<object>)
    reads ss
    ensures forall k :: 0 <= k < |ss| ==> ss[k] in r && GraphOf(ss[k]) <= r
  {
    if ss == [] then {} else Graphs(ss[..|ss| - 1]) + GraphOf(ss[|ss| - 1])
  }

  /** The searchers, whose graphs consist of the given objects, are well-formed, and `cached` holds the cached forms of
      the first n. */
  ghost predicate CachedUpTo(objects: set<object>, ss: seq<Searcher>, cached: seq<CachedSearcher>, n: nat)
    reads objects
  {
    && n == |cached| <= |ss|
    && (forall k :: 0 <= k < |ss| ==> ss[k] in objects && GraphOf(ss[k]) <= objects && WellFormed(ss[k]))
    && (forall k :: 0 <= k < n ==> CachedAt(ss[k], cached[k]))
  }

  ghost predicate CachedAs(objects: set<object>, ss: seq<Searcher>, cached: seq<CachedSearcher>)
    reads objects
  {
    CachedUpTo(objects, ss, cached, |ss|)
  }

  /** cachedFinder: every stored searcher's cached form. */
  method CacheFinder(f: Finder)
    returns (cached: seq<CachedSearcher>, ghost order: seq<Searcher>, ghost objects: set<object>)
    requires Stores(f.searchers) && forall n <- f.searchers :: WellFormed(f.searchers[n])
    ensures OrderOf(f.searchers, order) && CachedAs(objects, order, cached)
  {
    var ss := f.Stored();
    forall k | 0 <= k < |ss| ensures WellFormed(ss[k]) {
      assert ss[k] in ss;
    }
    objects := Graphs(ss);
    cached := CacheAll(ss, objects);
    order := ss;
  }

  method CacheNext(ss: seq<Searcher>, cached: seq<CachedSearcher>, ghost objects: set<object>)
    returns (longer: seq<CachedSearcher>)
    requires |cached| < |ss| && CachedUpTo(objects, ss, cached, |cached|)
    ensures CachedUpTo(objects, ss, longer, |cached| + 1)
  {
    var c := CacheSearcher(ss[|cached|]);
    longer := cached + [c];
  }

  method CacheAll(ss: seq<Searcher>, ghost objects: set<object>) returns (cached: seq<CachedSearcher>)
    requires CachedUpTo(objects, ss, [], 0)
    ensures CachedAs(objects, ss, cached)
  {
    cached := [];
    for k := 0 to |ss|
      invariant CachedUpTo(objects, ss, cached, k)
    {
      cached := CacheNext(ss, cached, objects);
    }
  }

  /** The cached searchers have proper ids and a namespace of their own each. */
  ghost predicate CachedOK(cached: seq<CachedSearcher>) {
    && (forall k :: 0 <= k < |cached| ==> IDsOK(cached[k]))
    && (forall j, k :: 0 <= j < k < |cached| ==> cached[j].namespace != cached[k].namespace)
  }

  lemma CachedFormIsOK(searchers: map<nat, Searcher>, objects: set<object>, ss: seq<Searcher>,
          cached: seq<CachedSearcher>)
    requires OrderOf(searchers, ss) && CachedAs(objects, ss, cached)
    ensures CachedOK(cached)
  {
    forall k | 0 <= k < |cached| ensures IDsOK(cached[k]) && cached[k].namespace == ss[k].namespace {
      assert CachedAt(ss[k], cached[k]);
      StoredIDsOK(ss[k], cached[k]);
    }
    forall j, k | 0 <= j < k < |ss| ensures ss[j].namespace != ss[k].namespace {
      assert ss[j] in ss && ss[k] in ss;
    }
  }

  method ReadSearchers(cached: seq<CachedSearcher>) returns (ss: seq<Searcher>, ghost objects: set<object>)
    requires CachedOK(cached)
    ensures CachedAs(objects, ss, cached)
  {
    ss := [];
    for k := 0 to |cached|
      invariant |ss| == k && forall j :: 0 <= j < k ==> CachedAt(ss[j], cached[j])
    {
      var s := AddSearcher(cached[k]);
      ss := ss + [s];
    }
    objects := Graphs(ss);
  }

  method FinderOf(ss: seq<Searcher>) returns (f: Finder, ghost order: seq<Searcher>)
    requires forall j, k :: 0 <= j < k < |ss| ==> ss[j].namespace != ss[k].namespace
    ensures fresh(f) && Stores(f.searchers) && OrderOf(f.searchers, order) && f.View() == Aggregated(order)
    ensures ByNamespace(f.searchers, ss)
  {
    f := new Finder();
    for k := 0 to |ss|
      modifies f`searchers
      invariant f.searchers.Keys == set j | 0 <= j < k :: ss[j].namespace
      invariant forall j :: 0 <= j < k ==> ss[j].namespace in f.searchers && f.searchers[ss[j].namespace] == ss[j]
      invariant Stores(f.searchers)
    {
      f.StoreSearcher(ss[k]);
    }
    order := f.Aggregate();
  }

  /** Exactly the searchers of the list are stored, each under its namespace. */
  ghost predicate ByNamespace(searchers: map<nat, Searcher>, ss: seq<Searcher>)
    reads ss
  {
    && searchers.Keys == (set k | 0 <= k < |ss| :: ss[k].namespace)
    && forall k :: 0 <= k < |ss| ==> ss[k].namespace in searchers && searchers[ss[k].namespace] == ss[k]
  }

  lemma NamespacesDiffer(objects: set<object>, ss: seq<Searcher>, cached: seq<CachedSearcher>)
    requires CachedOK(cached) && CachedAs(objects, ss, cached)
    ensures forall j, k :: 0 <= j < k < |ss| ==> ss[j].namespace != ss[k].namespace
  {
    forall j, k | 0 <= j < k < |ss| ensures ss[j].namespace != ss[k].namespace {
      assert CachedAt(ss[j], cached[j]) && CachedAt(ss[k], cached[k]);
    }
  }

  /** finder: the searchers are rebuilt and stored, then aggregated. */
  method ReadFinder(cached: seq<CachedSearcher>)
    returns (f: Finder, ss: seq<Searcher>, ghost objects: set<object>, ghost order: seq<Searcher>)
    requires CachedOK(cached)
    ensures fresh(f) && Stores(f.searchers) && OrderOf(f.searchers, order) && f.View() == Aggregated(order)
    ensures CachedAs(objects, ss, cached) && ByNamespace(f.searchers, ss)
  {
    ss, objects := ReadSearchers(cached);
    NamespacesDiffer(objects, ss, cached);
    f, order := FinderOf(ss);
  }

  lemma CameBack(xs: set<object>, ss: seq<Searcher>, ys: set<object>, tt: seq<Searcher>, cached: seq<CachedSearcher>,
          k: nat)
    requires CachedAs(xs, ss, cached) && CachedAs(ys, tt, cached) && k < |ss|
    ensures Isomorphic(ss[k], tt[k]) && SameReports(ss[k], tt[k]) && ss[k].namespace == tt[k].namespace
  {
    assert CachedAt(ss[k], cached[k]) && CachedAt(tt[k], cached[k]);
    ReadBackIsSame(ss[k], tt[k], cached[k]);
  }

  lemma SearcherCameBack(from: map<nat, Searcher>, to: map<nat, Searcher>, xs: set<object>, ss: seq<Searcher>,
                         ys: set<object>, tt: seq<Searcher>, cached: seq<CachedSearcher>, n: nat)
    requires Stores(from) && OrderOf(from, ss) && ByNamespace(to, tt) && n in from
    requires CachedAs(xs, ss, cached) && CachedAs(ys, tt, cached)
    ensures n in to && Isomorphic(from[n], to[n]) && SameReports(from[n], to[n])
  {
    var k :| 0 <= k < |ss| && ss[k] == from[n];
    CameBack(xs, ss, ys, tt, cached, k);
  }

  lemma NoneIsNew(from: map<nat, Searcher>, to: map<nat, Searcher>, xs: set<object>, ss: seq<Searcher>,
                  ys: set<object>, tt: seq<Searcher>, cached: seq<CachedSearcher>, n: nat)
    requires OrderOf(from, ss) && ByNamespace(to, tt) && n in to
    requires CachedAs(xs, ss, cached) && CachedAs(ys, tt, cached)
    ensures n in from
  {
    var k :| 0 <= k < |tt| && n == tt[k].namespace;
    CameBack(xs, ss, ys, tt, cached, k);
    assert ss[k] in ss;
  }

  /** Writing a finder to its cache and reading it back keeps its namespaces; each searcher comes back isomorphic, with
      the same reports, and everything is aggregated again, in whatever order. */
  method Reload(f: Finder) returns (g: Finder, ghost order: seq<Searcher>)
    requires Stores(f.searchers) && forall n <- f.searchers :: WellFormed(f.searchers[n])
    ensures fresh(g) && g.searchers.Keys == f.searchers.Keys && Stores(g.searchers)
    ensures forall n <- f.searchers ::
          Isomorphic(f.searchers[n], g.searchers[n]) && SameReports(f.searchers[n], g.searchers[n])
    ensures OrderOf(g.searchers, order) && g.View() == Aggregated(order)
    ensures forall other :: OrderOf(g.searchers, other) ==> SameLists(g.View(), Aggregated(other))
  {
    ghost var ss, xs, ys;
    var cached, tt;
    cached, ss, xs := CacheFinder(f);
    CachedFormIsOK(f.searchers, xs, ss, cached);
    g, tt, ys, order := ReadFinder(cached);
    forall n <- g.searchers ensures n in f.searchers {
      NoneIsNew(f.searchers, g.searchers, xs, ss, ys, tt, cached, n);
    }
    forall n <- f.searchers
      ensures n in g.searchers && Isomorphic(f.searchers[n], g.searchers[n])
            && SameReports(f.searchers[n], g.searchers[n])
    {
      SearcherCameBack(f.searchers, g.searchers, xs, ss, ys, tt, cached, n);
    }
    forall other | OrderOf(g.searchers, other) ensures SameLists(g.View(), Aggregated(other)) {
      AnyOrder(g.searchers, order, other);
    }
  }
}
