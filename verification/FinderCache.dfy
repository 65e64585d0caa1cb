/** Turning a searcher's graph of batches, titles and issues into ids and back
    (src/issuefinder/serialize.go, src/issuefinder/deserialize.go, src/schema/schema.go). */
module FinderCache {
  import opened JobModel
  import opened IssueKeys
  import opened Decimal
  import opened Sequences

  import BatchFullnames

  /** A file of an issue.  Its link back to the issue is not represented. */
  datatype File = File(name: string, location: string, errors: seq<string>)

  class Batch {
    var marcOrgCode: string
    var keyword: string
    var version: nat
    var location: string
    var errors: seq<string>
    var issues: seq<Issue>

    constructor (marcOrgCode: string, keyword: string, version: nat, location: string, errors: seq<string>)
      ensures this.marcOrgCode == marcOrgCode && this.keyword == keyword && this.version == version
      ensures this.location == location && this.errors == errors && issues == []
    {
      this.marcOrgCode, this.keyword, this.version, this.location, this.errors, issues := marcOrgCode, keyword,
          version, location, errors, [];
    }

    /** The issue joins the batch, and learns that it is in it. */
    method AddIssue(i: Issue)
      modifies this`issues, i`batch
      ensures issues == old(issues) + [i] && i.batch == this
    {
      issues := issues + [i];
      i.batch := this;
    }
  }

  class Title {
    var lccn: string
    var name: string
    var place: string
    var location: string
    var errors: seq<string>
    var hasChildErrors: bool
    var issues: seq<Issue>

    constructor (lccn: string, name: string, place: string, location: string, errors: seq<string>)
      ensures this.lccn == lccn && this.name == name && this.place == place && this.location == location
      ensures this.errors == errors && issues == [] && !hasChildErrors
    {
      this.lccn, this.name, this.place, this.location, this.errors, hasChildErrors, issues := lccn, name, place,
          location, errors, false, [];
    }

    method AddIssue(i: Issue)
      modifies this`issues, i`title
      ensures issues == old(issues) + [i] && i.title == this
    {
      issues := issues + [i];
      i.title := this;
    }
  }

  class Issue {
    var databaseID: nat
    var marcOrgCode: string
    var title: Title?
    var rawDate: string
    var edition: nat
    var batch: Batch?
    var files: seq<File>
    var errors: seq<string>
    var hasChildErrors: bool
    var location: string
    var step: WorkflowStep

    constructor (rawDate: string, edition: nat, location: string, step: WorkflowStep, files: seq<File>,
            errors: seq<string>)
      ensures this.rawDate == rawDate && this.edition == edition && this.location == location && this.step == step
      ensures this.files == files && this.errors == errors && title == null && batch == null
      ensures databaseID == 0 && marcOrgCode == "" && !hasChildErrors
    {
      databaseID, marcOrgCode, title, batch, hasChildErrors := 0, "", null, null, false;
      this.rawDate, this.edition, this.location, this.step, this.files, this.errors := rawDate, edition, location,
          step, files, errors;
    }
  }

  class Searcher {
    var namespace: nat
    var location: string
    var batches: seq<Batch>
    var titles: seq<Title>
    var issues: seq<Issue>
    var errors: seq<string>

    constructor (namespace: nat, location: string, batches: seq<Batch>, titles: seq<Title>, issues: seq<Issue>,
            errors: seq<string>)
      ensures this.namespace == namespace && this.location == location && this.errors == errors
      ensures this.batches == batches && this.titles == titles && this.issues == issues
    {
      this.namespace, this.location, this.batches, this.titles, this.issues, this.errors := namespace, location,
          batches, titles, issues, errors;
    }
  }

  // ---------------------------------------------------------------- what is written to the cache

  datatype CachedBatch = CachedBatch(id: nat, marcOrgCode: string, keyword: string, version: nat, location: string,
      errors: seq<string>)
  datatype CachedTitle = CachedTitle(id: nat, lccn: string, name: string, place: string, location: string,
      errors: seq<string>)
  datatype CachedIssue = CachedIssue(id: nat, titleID: nat, rawDate: string, edition: nat, batchID: nat,
      location: string,
                                     step: WorkflowStep, files: seq<File>, errors: seq<string>)
  datatype CachedSearcher = CachedSearcher(namespace: nat, location: string, batches: seq<CachedBatch>,
      titles: seq<CachedTitle>,
                                           issues: seq<CachedIssue>, errors: seq<string>)

  /** The place of an object in a list without duplicates. */
  function Place<T(==)>(list: seq<T>, x: T): (k: nat)
    requires x in list
    ensures k < |list| && list[k] == x
  {
    if list[0] == x then 0 else Place(list[1..], x) + 1
  }

  function BatchRecord(b: Batch, id: nat): CachedBatch
    reads b
  {
    CachedBatch(id, b.marcOrgCode, b.keyword, b.version, b.location, b.errors)
  }

  function TitleRecord(t: Title, id: nat): CachedTitle
    reads t
  {
    CachedTitle(id, t.lccn, t.name, t.place, t.location, t.errors)
  }

  /** Every issue refers to a title of the searcher, and to no batch or one of the searcher's. */
  predicate Refers(s: Searcher, i: Issue)
    reads s, i
  {
    i.title != null && i.title in s.titles && (i.batch != null ==> i.batch in s.batches)
  }

  function IssueRecord(s: Searcher, i: Issue, id: nat): CachedIssue
    requires Refers(s, i)
    reads s, i
  {
    CachedIssue(id, Place(s.titles, i.title) + 1, i.rawDate, i.edition, if i.batch == null then 0
        else Place(s.batches, i.batch) + 1,
                i.location, i.step, i.files, i.errors)
  }

  /** The issues of a list that refer to title t, in order. */
  function OfTitle(issues: seq<Issue>, t: Title): seq<Issue>
    reads issues
  {
    if issues == [] then []
    else OfTitle(issues[..|issues| - 1], t) + if issues[|issues| - 1].title == t then [issues[|issues| - 1]] else []
  }

  function OfBatch(issues: seq<Issue>, b: Batch): seq<Issue>
    reads issues
  {
    if issues == [] then []
    else OfBatch(issues[..|issues| - 1], b) + if issues[|issues| - 1].batch == b then [issues[|issues| - 1]] else []
  }

  /** A closed graph: lists without duplicates, references into them, and back references that follow the searcher's
      order of issues. */
  ghost predicate WellFormed(s: Searcher)
    reads s, s.batches, s.titles, s.issues
  {
    && Unique(s.batches) && Unique(s.titles) && Unique(s.issues)
    && (forall i <- s.issues :: Refers(s, i))
    && (forall t <- s.titles :: t.issues == OfTitle(s.issues, t))
    && (forall b <- s.batches :: b.issues == OfBatch(s.issues, b))
  }

  /** c is what the cache stores of the searcher. */
  ghost predicate Stored(s: Searcher, c: CachedSearcher)
    reads s, s.batches, s.titles, s.issues
  {
    && c.namespace == s.namespace && c.location == s.location && c.errors == s.errors
    && |c.batches| == |s.batches| && |c.titles| == |s.titles| && |c.issues| == |s.issues|
    && (forall k :: 0 <= k < |s.batches| ==> c.batches[k] == BatchRecord(s.batches[k], k + 1))
    && (forall k :: 0 <= k < |s.titles| ==> c.titles[k] == TitleRecord(s.titles[k], k + 1))
    && (forall k :: 0 <= k < |s.issues| ==> Refers(s, s.issues[k]) && c.issues[k] == IssueRecord(s, s.issues[k], k + 1))
  }

  /** The objects of a searcher's graph. */
  ghost function GraphOf(s: Searcher): (r: set<object>)
    reads s
    ensures s in r && (forall b <- s.batches :: b in r) && (forall t <- s.titles :: t in r)
          && (forall i <- s.issues :: i in r)
  {
    {s} + (set b: Batch | b in s.batches) + (set t: Title | t in s.titles) + (set i: Issue | i in s.issues)
  }

  /** A well-formed searcher and its cached form. */
  ghost predicate CachedAt(s: Searcher, c: CachedSearcher)
    reads GraphOf(s)
  {
    WellFormed(s) && Stored(s, c)
  }

  /** Ids count from 1, and issues refer to ids there are; batch 0 is no batch. */
  ghost predicate IDsOK(c: CachedSearcher) {
    && (forall k :: 0 <= k < |c.batches| ==> c.batches[k].id == k + 1)
    && (forall k :: 0 <= k < |c.titles| ==> c.titles[k].id == k + 1)
    && (forall k :: 0 <= k < |c.issues| ==>
         c.issues[k].id == k + 1 && 1 <= c.issues[k].titleID <= |c.titles| && c.issues[k].batchID <= |c.batches|)
  }

  lemma StoredIDsOK(s: Searcher, c: CachedSearcher)
    requires Stored(s, c)
    ensures IDsOK(c)
  {
  }

  lemma PlaceOf<T>(list: seq<T>, k: nat)
    requires Unique(list) && k < |list|
    ensures Place(list, list[k]) == k
  {
  }

  // ---------------------------------------------------------------- writing

  /** The ids given to the first n objects of a list. */
  ghost predicate Numbered<T>(ids: map<T, nat>, list: seq<T>, n: nat)
    requires n <= |list|
  {
    forall k :: 0 <= k < n ==> list[k] in ids && ids[list[k]] == k + 1
  }

  lemma NumberedPlace<T>(ids: map<T, nat>, list: seq<T>, x: T)
    requires Numbered(ids, list, |list|) && x in list
    ensures x in ids && ids[x] == Place(list, x) + 1
  {
  }

  method CacheSearcher(s: Searcher) returns (c: CachedSearcher)
    requires WellFormed(s)
    ensures CachedAt(s, c)
  {
    var batchIDs: map<Batch, nat> := map[];
    var titleIDs: map<Title, nat> := map[];
    var batches, titles, issues := [], [], [];
    for k := 0 to |s.batches|
      invariant |batches| == k && forall j :: 0 <= j < k ==> batches[j] == BatchRecord(s.batches[j], j + 1)
      invariant Numbered(batchIDs, s.batches, k)
    {
      batchIDs := batchIDs[s.batches[k] := k + 1];
      batches := batches + [BatchRecord(s.batches[k], k + 1)];
    }
    for k := 0 to |s.titles|
      invariant |titles| == k && forall j :: 0 <= j < k ==> titles[j] == TitleRecord(s.titles[j], j + 1)
      invariant Numbered(titleIDs, s.titles, k)
    {
      titleIDs := titleIDs[s.titles[k] := k + 1];
      titles := titles + [TitleRecord(s.titles[k], k + 1)];
    }
    for k := 0 to |s.issues|
      invariant |issues| == k && forall j :: 0 <= j < k ==>
            Refers(s, s.issues[j]) && issues[j] == IssueRecord(s, s.issues[j], j + 1)
    {
      var i := s.issues[k];
      assert Refers(s, i);
      NumberedPlace(titleIDs, s.titles, i.title);
      var batchID := 0;
      if i.batch != null {
        NumberedPlace(batchIDs, s.batches, i.batch);
        batchID := batchIDs[i.batch];
      }
      issues := issues + [CachedIssue(k + 1, titleIDs[i.title], i.rawDate, i.edition, batchID, i.location, i.step,
          i.files, i.errors)];
    }
    c := CachedSearcher(s.namespace, s.location, batches, titles, issues, s.errors);
  }

  // ---------------------------------------------------------------- reading

  predicate FindsAt<T(==)>(lookup: map<nat, T>, list: seq<T>, id: nat)
    requires 1 <= id <= |list|
  {
    id in lookup && lookup[id] == list[id - 1]
  }

  /** Ids lead back to the objects of the list. */
  ghost predicate Finds<T>(lookup: map<nat, T>, list: seq<T>) {
    forall id {:trigger FindsAt(lookup, list, id)} | 1 <= id <= |list| :: FindsAt(lookup, list, id)
  }

  lemma FindsMore<T>(lookup: map<nat, T>, list: seq<T>, x: T)
    requires Finds(lookup, list)
    ensures Finds(lookup[|list| + 1 := x], list + [x])
  {
    var lookup', list' := lookup[|list| + 1 := x], list + [x];
    forall id | 1 <= id <= |list'| ensures FindsAt(lookup', list', id) {
      if id <= |list| {
        assert FindsAt(lookup, list, id);
      }
    }
  }

  method ReadBatches(cached: seq<CachedBatch>) returns (batches: seq<Batch>, lookup: map<nat, Batch>)
    requires forall k :: 0 <= k < |cached| ==> cached[k].id == k + 1
    ensures |batches| == |cached| && fresh(batches) && Unique(batches)
    ensures forall k :: 0 <= k < |cached| ==> BatchRecord(batches[k], k + 1) == cached[k] && batches[k].issues == []
    ensures Finds(lookup, batches)
  {
    batches, lookup := [], map[];
    for n := 0 to |cached|
      invariant |batches| == n && fresh(batches) && Unique(batches)
      invariant forall k :: 0 <= k < n ==> BatchRecord(batches[k], k + 1) == cached[k] && batches[k].issues == []
      invariant Finds(lookup, batches)
    {
      var cb := cached[n];
      var b := new Batch(cb.marcOrgCode, cb.keyword, cb.version, cb.location, cb.errors);
      FindsMore(lookup, batches, b);
      lookup := lookup[cb.id := b];
      batches := batches + [b];
    }
  }

  method ReadTitles(cached: seq<CachedTitle>) returns (titles: seq<Title>, lookup: map<nat, Title>)
    requires forall k :: 0 <= k < |cached| ==> cached[k].id == k + 1
    ensures |titles| == |cached| && fresh(titles) && Unique(titles)
    ensures forall k :: 0 <= k < |cached| ==>
          TitleRecord(titles[k], k + 1) == cached[k] && titles[k].issues == [] && !titles[k].hasChildErrors
    ensures Finds(lookup, titles)
  {
    titles, lookup := [], map[];
    for n := 0 to |cached|
      invariant |titles| == n && fresh(titles) && Unique(titles)
      invariant forall k :: 0 <= k < n ==>
            TitleRecord(titles[k], k + 1) == cached[k] && titles[k].issues == [] && !titles[k].hasChildErrors
      invariant Finds(lookup, titles)
    {
      var ct := cached[n];
      var t := new Title(ct.lccn, ct.name, ct.place, ct.location, ct.errors);
      FindsMore(lookup, titles, t);
      lookup := lookup[ct.id := t];
      titles := titles + [t];
    }
  }

  /** A rebuilt issue; the cache has neither its MARC org code, nor its database id, nor its child-error flag. */
  predicate Rebuilt(ci: CachedIssue, i: Issue, titles: seq<Title>, batches: seq<Batch>)
    requires 1 <= ci.titleID <= |titles| && ci.batchID <= |batches|
    reads i
  {
    && i.title == titles[ci.titleID - 1]
    && i.batch == (if ci.batchID == 0 then null else batches[ci.batchID - 1])
    && i.rawDate == ci.rawDate && i.edition == ci.edition && i.location == ci.location && i.step == ci.step
    && i.files == ci.files && i.errors == ci.errors
    && i.databaseID == 0 && i.marcOrgCode == "" && !i.hasChildErrors
  }

  method ReadIssue(ci: CachedIssue, ghost titles: seq<Title>, ghost batches: seq<Batch>, titleLookup: map<nat, Title>,
          batchLookup: map<nat, Batch>)
    returns (i: Issue)
    requires 1 <= ci.titleID <= |titles| && ci.batchID <= |batches|
    requires Finds(titleLookup, titles) && Finds(batchLookup, batches)
    modifies titles, batches
    ensures fresh(i) && Rebuilt(ci, i, titles, batches)
    ensures forall t <- titles ::
          t.issues == old(t.issues) + (if i.title == t then [i] else []) && TitleRecord(t, 0) == old(TitleRecord(t, 0))
    ensures forall t <- titles :: t.hasChildErrors == old(t.hasChildErrors)
    ensures forall b <- batches ::
          b.issues == old(b.issues) + (if i.batch == b then [i] else []) && BatchRecord(b, 0) == old(BatchRecord(b, 0))
  {
    i := new Issue(ci.rawDate, ci.edition, ci.location, ci.step, ci.files, ci.errors);
    if ci.batchID != 0 {
      assert FindsAt(batchLookup, batches, ci.batchID);
      batchLookup[ci.batchID].AddIssue(i);
    }
    assert FindsAt(titleLookup, titles, ci.titleID);
    titleLookup[ci.titleID].AddIssue(i);
  }

  method ReadIssues(cached: seq<CachedIssue>, ghost titles: seq<Title>, ghost batches: seq<Batch>,
          titleLookup: map<nat, Title>, batchLookup: map<nat, Batch>)
    returns (issues: seq<Issue>)
    requires forall k :: 0 <= k < |cached| ==> 1 <= cached[k].titleID <= |titles| && cached[k].batchID <= |batches|
    requires Finds(titleLookup, titles) && Finds(batchLookup, batches)
    requires (forall t <- titles :: t.issues == []) && (forall b <- batches :: b.issues == [])
    modifies titles, batches
    ensures |issues| == |cached| && fresh(issues) && Unique(issues)
    ensures forall k :: 0 <= k < |cached| ==> Rebuilt(cached[k], issues[k], titles, batches)
    ensures forall t <- titles :: t.issues == OfTitle(issues, t) && t.hasChildErrors == old(t.hasChildErrors)
    ensures forall b <- batches :: b.issues == OfBatch(issues, b)
    ensures forall k :: 0 <= k < |titles| ==> TitleRecord(titles[k], k + 1) == old(TitleRecord(titles[k], k + 1))
    ensures forall k :: 0 <= k < |batches| ==> BatchRecord(batches[k], k + 1) == old(BatchRecord(batches[k], k + 1))
  {
    issues := [];
    for n := 0 to |cached|
      invariant |issues| == n && fresh(issues) && Unique(issues)
      invariant forall k :: 0 <= k < n ==> Rebuilt(cached[k], issues[k], titles, batches)
      invariant forall t <- titles ::
            t.issues == OfTitle(issues, t) && TitleRecord(t, 0) == old(TitleRecord(t, 0))
                && t.hasChildErrors == old(t.hasChildErrors)
      invariant forall b <- batches :: b.issues == OfBatch(issues, b) && BatchRecord(b, 0) == old(BatchRecord(b, 0))
    {
      var i := ReadIssue(cached[n], titles, batches, titleLookup, batchLookup);
      forall t <- titles ensures t.issues == OfTitle(issues + [i], t) {
        assert (issues + [i])[..n] == issues;
      }
      forall b <- batches ensures b.issues == OfBatch(issues + [i], b) {
        assert (issues + [i])[..n] == issues;
      }
      issues := issues + [i];
    }
    forall k | 0 <= k < |titles| ensures TitleRecord(titles[k], k + 1) == old(TitleRecord(titles[k], k + 1)) {
      assert titles[k] in titles && TitleRecord(titles[k], 0) == old(TitleRecord(titles[k], 0));
    }
    forall k | 0 <= k < |batches| ensures BatchRecord(batches[k], k + 1) == old(BatchRecord(batches[k], k + 1)) {
      assert batches[k] in batches && BatchRecord(batches[k], 0) == old(BatchRecord(batches[k], 0));
    }
  }

  /** addSearcher. */
  method AddSearcher(c: CachedSearcher) returns (s: Searcher)
    requires IDsOK(c)
    ensures fresh(s) && fresh(s.batches) && fresh(s.titles) && fresh(s.issues)
    ensures CachedAt(s, c)
    ensures forall i <- s.issues :: i.databaseID == 0 && i.marcOrgCode == "" && !i.hasChildErrors
    ensures forall t <- s.titles :: !t.hasChildErrors
  {
    var batches, titles, issues := ReadGraph(c);
    s := new Searcher(c.namespace, c.location, batches, titles, issues, c.errors);
    BuiltIsStored(s, c);
  }

  /** The objects rebuilt from c. */
  ghost predicate Built(c: CachedSearcher, batches: seq<Batch>, titles: seq<Title>, issues: seq<Issue>)
    requires IDsOK(c)
    reads batches, titles, issues
  {
    && Unique(batches) && Unique(titles) && Unique(issues)
    && |c.batches| == |batches| && |c.titles| == |titles| && |c.issues| == |issues|
    && (forall k :: 0 <= k < |batches| ==> c.batches[k] == BatchRecord(batches[k], k + 1))
    && (forall k :: 0 <= k < |titles| ==> c.titles[k] == TitleRecord(titles[k], k + 1))
    && (forall k :: 0 <= k < |issues| ==> Rebuilt(c.issues[k], issues[k], titles, batches))
    && (forall t <- titles :: t.issues == OfTitle(issues, t) && !t.hasChildErrors)
    && (forall b <- batches :: b.issues == OfBatch(issues, b))
  }

  method ReadGraph(c: CachedSearcher) returns (batches: seq<Batch>, titles: seq<Title>, issues: seq<Issue>)
    requires IDsOK(c)
    ensures fresh(batches) && fresh(titles) && fresh(issues) && Built(c, batches, titles, issues)
  {
    var batchLookup, titleLookup;
    batches, batchLookup := ReadBatches(c.batches);
    titles, titleLookup := ReadTitles(c.titles);
    issues := ReadIssues(c.issues, titles, batches, titleLookup, batchLookup);
  }

  lemma BuiltIsStored(s: Searcher, c: CachedSearcher)
    requires IDsOK(c) && Built(c, s.batches, s.titles, s.issues)
    requires c.namespace == s.namespace && c.location == s.location && c.errors == s.errors
    ensures WellFormed(s) && Stored(s, c)
  {
    forall k | 0 <= k < |s.issues| ensures Refers(s, s.issues[k]) && c.issues[k] == IssueRecord(s, s.issues[k], k + 1) {
      RebuiltRecord(s, c.issues[k], s.issues[k], k);
    }
  }

  lemma RebuiltRecord(s: Searcher, ci: CachedIssue, i: Issue, k: nat)
    requires Unique(s.titles) && Unique(s.batches) && ci.id == k + 1
    requires 1 <= ci.titleID <= |s.titles| && ci.batchID <= |s.batches| && Rebuilt(ci, i, s.titles, s.batches)
    ensures Refers(s, i) && ci == IssueRecord(s, i, k + 1)
  {
    PlaceOf(s.titles, ci.titleID - 1);
    if ci.batchID != 0 {
      PlaceOf(s.batches, ci.batchID - 1);
    }
  }

  // ---------------------------------------------------------------- the rebuilt graph is the same graph

  /** Same lists by place, same references by place. */
  ghost predicate Isomorphic(s: Searcher, t: Searcher)
    reads s, s.batches, s.titles, s.issues, t, t.batches, t.titles, t.issues
  {
    && s.namespace == t.namespace && s.location == t.location && s.errors == t.errors
    && |s.batches| == |t.batches| && |s.titles| == |t.titles| && |s.issues| == |t.issues|
    && (forall k :: 0 <= k < |s.batches| ==> BatchRecord(s.batches[k], 0) == BatchRecord(t.batches[k], 0))
    && (forall k :: 0 <= k < |s.titles| ==> TitleRecord(s.titles[k], 0) == TitleRecord(t.titles[k], 0))
    && (forall k :: 0 <= k < |s.issues| ==>
          Refers(s, s.issues[k]) && Refers(t, t.issues[k])
              && IssueRecord(s, s.issues[k], 0) == IssueRecord(t, t.issues[k], 0))
  }

  /** What the cache stores determines the graph. */
  lemma StoredTwice(s: Searcher, t: Searcher, c: CachedSearcher)
    requires Stored(s, c) && Stored(t, c)
    ensures Isomorphic(s, t)
  {
    forall k | 0 <= k < |s.batches| ensures BatchRecord(s.batches[k], 0) == BatchRecord(t.batches[k], 0) {
      assert BatchRecord(s.batches[k], k + 1) == BatchRecord(t.batches[k], k + 1);
    }
    forall k | 0 <= k < |s.titles| ensures TitleRecord(s.titles[k], 0) == TitleRecord(t.titles[k], 0) {
      assert TitleRecord(s.titles[k], k + 1) == TitleRecord(t.titles[k], k + 1);
    }
    forall k | 0 <= k < |s.issues| ensures IssueRecord(s, s.issues[k], 0) == IssueRecord(t, t.issues[k], 0) {
      assert IssueRecord(s, s.issues[k], k + 1) == IssueRecord(t, t.issues[k], k + 1);
    }
  }

  /** Issues at one place have titles at one place. */
  lemma SameTitlePlace(s: Searcher, t: Searcher, k: nat, n: nat)
    requires Isomorphic(s, t) && Unique(s.titles) && Unique(t.titles) && k < |s.titles| && n < |s.issues|
    ensures s.issues[n].title == s.titles[k] <==> t.issues[n].title == t.titles[k]
  {
    assert IssueRecord(s, s.issues[n], 0) == IssueRecord(t, t.issues[n], 0);
    PlaceOf(s.titles, k);
    PlaceOf(t.titles, k);
  }

  lemma {:induction false} SameTitleCounts(s: Searcher, t: Searcher, k: nat, n: nat)
    requires Isomorphic(s, t) && Unique(s.titles) && Unique(t.titles) && k < |s.titles| && n <= |s.issues|
    ensures |OfTitle(s.issues[..n], s.titles[k])| == |OfTitle(t.issues[..n], t.titles[k])|
  {
    if n > 0 {
      SameTitleCounts(s, t, k, n - 1);
      assert s.issues[..n][..n - 1] == s.issues[..n - 1] && t.issues[..n][..n - 1] == t.issues[..n - 1];
      SameTitlePlace(s, t, k, n - 1);
    }
  }

  lemma SameBatchPlace(s: Searcher, t: Searcher, k: nat, n: nat)
    requires Isomorphic(s, t) && Unique(s.batches) && Unique(t.batches) && k < |s.batches| && n < |s.issues|
    ensures s.issues[n].batch == s.batches[k] <==> t.issues[n].batch == t.batches[k]
  {
    assert IssueRecord(s, s.issues[n], 0) == IssueRecord(t, t.issues[n], 0);
    PlaceOf(s.batches, k);
    PlaceOf(t.batches, k);
  }

  lemma {:induction false} SameBatchCounts(s: Searcher, t: Searcher, k: nat, n: nat)
    requires Isomorphic(s, t) && Unique(s.batches) && Unique(t.batches) && k < |s.batches| && n <= |s.issues|
    ensures |OfBatch(s.issues[..n], s.batches[k])| == |OfBatch(t.issues[..n], t.batches[k])|
  {
    if n > 0 {
      SameBatchCounts(s, t, k, n - 1);
      assert s.issues[..n][..n - 1] == s.issues[..n - 1] && t.issues[..n][..n - 1] == t.issues[..n - 1];
      SameBatchPlace(s, t, k, n - 1);
    }
  }

  // ---------------------------------------------------------------- the reports made from it are the same

  function StepText(step: WorkflowStep): string {
    match step
    case WSNil => ""
    case WSSFTP => "SFTPUpload"
    case WSScan => "ScanUpload"
    case WSAwaitingProcessing => "AwaitingProcessing"
    case WSAwaitingPageReview => "AwaitingPageReview"
    case WSReadyForMetadataEntry => "ReadyForMetadataEntry"
    case WSAwaitingMetadataReview => "AwaitingMetadataReview"
    case WSUnfixableMetadataError => "UnfixableMetadataError"
    case WSReadyForMETSXML => "ReadyForMETSXML"
    case WSReadyForBatching => "ReadyForBatching"
    case WSInProduction => "InProduction"
  }

  /** Tabs become a backslash and a t. */
  function Escaped(s: string): string {
    if s == "" then "" else (if s[0] == '\t' then "\\t" else [s[0]]) + Escaped(s[1..])
  }

  function JoinNames(files: seq<File>): string {
    if files == [] then "" else if |files| == 1 then files[0].name else files[0].name + "," + JoinNames(files[1..])
  }

  function BatchTSV(b: Batch): string
    reads b
  {
    b.location + "\t" + BatchFullnames.Fullname(b.marcOrgCode, b.keyword, b.version) + "\t" + Pad(|b.issues|, 6)
  }

  function TitleTSV(t: Title): string
    reads t
  {
    t.location + "\t" + t.lccn + "\t" + t.name + "\t" + t.place + "\t" + Pad(|t.issues|, 6)
  }

  function TSV(i: Issue): string
    requires i.title != null
    reads i, i.title, i.batch
  {
    (if i.batch == null then "nil" else Escaped(BatchTSV(i.batch))) + "\t" + Escaped(TitleTSV(i.title)) + "\t"
        + i.location + "\t"
    + IssueDateEdition(i.rawDate, i.edition) + "\t" + StepText(i.step) + "\t" + JoinNames(i.files)
  }

  lemma SameTitleTSV(s: Searcher, t: Searcher, k: nat)
    requires WellFormed(s) && WellFormed(t) && Isomorphic(s, t) && k < |s.titles|
    ensures TitleTSV(s.titles[k]) == TitleTSV(t.titles[k])
  {
    SameTitleCounts(s, t, k, |s.issues|);
    assert s.issues[..|s.issues|] == s.issues && t.issues[..|t.issues|] == t.issues;
    assert s.titles[k] in s.titles && t.titles[k] in t.titles;
    assert TitleRecord(s.titles[k], 0) == TitleRecord(t.titles[k], 0);
  }

  lemma SameBatchTSV(s: Searcher, t: Searcher, k: nat)
    requires WellFormed(s) && WellFormed(t) && Isomorphic(s, t) && k < |s.batches|
    ensures BatchTSV(s.batches[k]) == BatchTSV(t.batches[k])
  {
    SameBatchCounts(s, t, k, |s.issues|);
    assert s.issues[..|s.issues|] == s.issues && t.issues[..|t.issues|] == t.issues;
    assert s.batches[k] in s.batches && t.batches[k] in t.batches;
    assert BatchRecord(s.batches[k], 0) == BatchRecord(t.batches[k], 0);
  }

  /** Isomorphic graphs give every issue the same TSV. */
  lemma SameTSV(s: Searcher, t: Searcher, k: nat)
    requires WellFormed(s) && WellFormed(t) && Isomorphic(s, t) && k < |s.issues|
    ensures s.issues[k].title != null && t.issues[k].title != null && TSV(s.issues[k]) == TSV(t.issues[k])
  {
    var i, j := s.issues[k], t.issues[k];
    assert Refers(s, i) && Refers(t, j) && IssueRecord(s, i, 0) == IssueRecord(t, j, 0);
    SameTitleTSV(s, t, Place(s.titles, i.title));
    if i.batch != null {
      SameBatchTSV(s, t, Place(s.batches, i.batch));
    }
  }

  /** Issue by issue, the two searchers give the same TSV. */
  ghost predicate SameReports(s: Searcher, t: Searcher)
    reads s, s.batches, s.titles, s.issues, t, t.batches, t.titles, t.issues
  {
    && |s.issues| == |t.issues|
    && forall k :: 0 <= k < |s.issues| ==>
         Refers(s, s.issues[k]) && Refers(t, t.issues[k]) && TSV(s.issues[k]) == TSV(t.issues[k])
  }

  /** What is read back from a searcher's cache is isomorphic to it and gives the same reports. */
  lemma ReadBackIsSame(s: Searcher, t: Searcher, c: CachedSearcher)
    requires CachedAt(s, c) && CachedAt(t, c)
    ensures Isomorphic(s, t) && SameReports(s, t)
  {
    StoredTwice(s, t, c);
    forall k | 0 <= k < |s.issues| ensures TSV(s.issues[k]) == TSV(t.issues[k]) {
      SameTSV(s, t, k);
    }
  }

  /** Reading a cached searcher leaves the one it was made from alone. */
  method ReadBack(ghost s: Searcher, c: CachedSearcher) returns (t: Searcher)
    requires CachedAt(s, c)
    ensures fresh(t) && CachedAt(s, c) && CachedAt(t, c)
    ensures forall i <- t.issues :: i.databaseID == 0 && i.marcOrgCode == "" && !i.hasChildErrors
  {
    StoredIDsOK(s, c);
    t := AddSearcher(c);
  }

  /** Writing a searcher to the cache and reading it back gives an isomorphic searcher with the same reports; only
      the MARC org codes, the database ids and the child-error flags of its issues are gone. */
  method Reload(s: Searcher) returns (t: Searcher)
    requires WellFormed(s)
    ensures WellFormed(t) && fresh(t) && Isomorphic(s, t) && SameReports(s, t)
    ensures forall i <- t.issues :: i.databaseID == 0 && i.marcOrgCode == "" && !i.hasChildErrors
  {
    var c := CacheSearcher(s);
    t := ReadBack(s, c);
    ReadBackIsSame(s, t, c);
  }
}
