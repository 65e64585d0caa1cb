/** Grouping ready issues into batches (src/cmd/queue-batches/batch_queue.go, src/cmd/queue-batches/main.go). */
module BatchQueue {
  import opened Sequences
  import opened Sorting

  /** A ready issue.  Queues hold references; two issues with equal fields are still two issues. */
  class ReadyIssue {
    const moc: string
    const pageLabels: seq<string>
    const pages: nat
    const approvedAt: int
    const daysStale: real

    constructor (moc: string, pageLabels: seq<string>, approvedAt: int, daysStale: real)
      ensures this.moc == moc && this.pageLabels == pageLabels && this.approvedAt == approvedAt
            && this.daysStale == daysStale
      ensures Wrapped(this)
    {
      this.moc, this.pageLabels, this.pages, this.approvedAt, this.daysStale := moc, pageLabels, |pageLabels|,
          approvedAt, daysStale;
    }
  }

  predicate Wrapped(i: ReadyIssue) {
    i.pages == |i.pageLabels|
  }

  function Sum(list: seq<ReadyIssue>): nat {
    if list == [] then 0 else Sum(list[..|list| - 1]) + list[|list| - 1].pages
  }

  predicate LongWait(i: ReadyIssue) {
    i.daysStale > 30.0
  }

  predicate AnyLongWait(list: seq<ReadyIssue>) {
    exists i <- list :: LongWait(i)
  }

  predicate OldestFirst(list: seq<ReadyIssue>) {
    forall j, k :: 0 <= j < k < |list| ==> list[j].approvedAt <= list[k].approvedAt
  }

  function Members(list: seq<ReadyIssue>): set<ReadyIssue> {
    set i <- list
  }

  // ---------------------------------------------------------------- the greedy split, on lists

  /** The issues a split takes out of the list. */
  function Taken(list: seq<ReadyIssue>, maxPages: int): seq<ReadyIssue> {
    if list == [] then []
    else
      var taken, last := Taken(list[..|list| - 1], maxPages), list[|list| - 1];
      if Sum(taken) + last.pages <= maxPages then taken + [last] else taken
  }

  /** The issues a split leaves. */
  function Left(list: seq<ReadyIssue>, maxPages: int): seq<ReadyIssue> {
    if list == [] then []
    else
      var left, last := Left(list[..|list| - 1], maxPages), list[|list| - 1];
      if Sum(Taken(list[..|list| - 1], maxPages)) + last.pages <= maxPages then left else left + [last]
  }

  lemma SumAppend(list: seq<ReadyIssue>, i: ReadyIssue)
    ensures Sum(list + [i]) == Sum(list) + i.pages
  {
    assert (list + [i])[..|list|] == list;
  }

  predicate Fits(front: seq<ReadyIssue>, last: ReadyIssue, maxPages: int) {
    Sum(Taken(front, maxPages)) + last.pages <= maxPages
  }

  lemma SplitStep(front: seq<ReadyIssue>, last: ReadyIssue, maxPages: int)
    ensures Taken(front + [last], maxPages) ==
          if Fits(front, last, maxPages) then Taken(front, maxPages) + [last] else Taken(front, maxPages)
    ensures Left(front + [last], maxPages) ==
          if Fits(front, last, maxPages) then Left(front, maxPages) else Left(front, maxPages) + [last]
    ensures Sum(Taken(front + [last], maxPages)) == Sum(Taken(front, maxPages))
          + if Fits(front, last, maxPages) then last.pages else 0
    ensures Sum(Left(front + [last], maxPages)) == Sum(Left(front, maxPages))
          + if Fits(front, last, maxPages) then 0 else last.pages
  {
    assert (front + [last])[..|front|] == front;
    SumAppend(Taken(front, maxPages), last);
    SumAppend(Left(front, maxPages), last);
  }

  lemma LastOf(list: seq<ReadyIssue>) returns (front: seq<ReadyIssue>, last: ReadyIssue)
    requires list != []
    ensures list == front + [last] && |front| < |list| && front == list[..|list| - 1] && last == list[|list| - 1]
  {
    front, last := list[..|list| - 1], list[|list| - 1];
  }

  /** No issue and no page is lost or doubled. */
  lemma {:induction false} SplitConserves(list: seq<ReadyIssue>, maxPages: int)
    ensures multiset(Taken(list, maxPages)) + multiset(Left(list, maxPages)) == multiset(list)
    ensures Sum(Taken(list, maxPages)) + Sum(Left(list, maxPages)) == Sum(list)
    decreases |list|
  {
    if list != [] {
      var front, last := LastOf(list);
      SplitConserves(front, maxPages);
      SplitStep(front, last, maxPages);
      SumAppend(front, last);
    }
  }

  /** What is taken fits. */
  lemma {:induction false} TakenFits(list: seq<ReadyIssue>, maxPages: int)
    ensures Taken(list, maxPages) != [] ==> Sum(Taken(list, maxPages)) <= maxPages
    decreases |list|
  {
    if list != [] {
      var front, last := LastOf(list);
      TakenFits(front, maxPages);
      SplitStep(front, last, maxPages);
    }
  }

  /** No issue that is left would still fit. */
  lemma {:induction false} LeftoversDoNotFit(list: seq<ReadyIssue>, maxPages: int, i: ReadyIssue)
    requires i in Left(list, maxPages)
    ensures Sum(Taken(list, maxPages)) + i.pages > maxPages
    decreases |list|
  {
    var front, last := LastOf(list);
    SplitStep(front, last, maxPages);
    if i in Left(front, maxPages) {
      LeftoversDoNotFit(front, maxPages, i);
    }
  }

  lemma {:induction false} TakenGrows(list: seq<ReadyIssue>, n: nat, maxPages: int)
    requires n <= |list|
    ensures Sum(Taken(list[..n], maxPages)) <= Sum(Taken(list, maxPages))
    decreases |list|
  {
    if n < |list| {
      var front, last := LastOf(list);
      assert front[..n] == list[..n];
      TakenGrows(front, n, maxPages);
      SplitStep(front, last, maxPages);
    } else {
      assert list[..n] == list;
    }
  }

  lemma {:induction false} OnlyListed(list: seq<ReadyIssue>, maxPages: int, i: ReadyIssue)
    ensures i in Taken(list, maxPages) || i in Left(list, maxPages) <==> i in list
    decreases |list|
  {
    if list != [] {
      var front, last := LastOf(list);
      OnlyListed(front, maxPages, i);
      SplitStep(front, last, maxPages);
    }
  }

  lemma UniqueFront(front: seq<ReadyIssue>, last: ReadyIssue)
    requires Unique(front + [last])
    ensures Unique(front) && last !in front
  {
    var all := front + [last];
    forall j, k | 0 <= j < k < |front| ensures front[j] != front[k] {
      assert all[j] == front[j] && all[k] == front[k];
    }
    forall j | 0 <= j < |front| ensures front[j] != last {
      assert all[j] == front[j] && all[|front|] == last;
    }
  }

  lemma LastTakenExactly(front: seq<ReadyIssue>, last: ReadyIssue, maxPages: int)
    requires last !in front
    ensures last in Taken(front + [last], maxPages) <==> Fits(front, last, maxPages)
  {
    SplitStep(front, last, maxPages);
    OnlyListed(front, maxPages, last);
  }

  /** An issue is taken exactly when it fits beside what was taken before it. */
  lemma {:induction false} TakenExactly(list: seq<ReadyIssue>, maxPages: int, k: nat)
    requires Unique(list) && k < |list|
    ensures list[k] in Taken(list, maxPages) <==> Fits(list[..k], list[k], maxPages)
    decreases |list|
  {
    var front, last := LastOf(list);
    UniqueFront(front, last);
    if k < |front| {
      assert front[..k] == list[..k] && front[k] == list[k];
      TakenExactly(front, maxPages, k);
      SplitStep(front, last, maxPages);
    } else {
      LastTakenExactly(front, last, maxPages);
    }
  }

  /** An issue is passed over for one that comes after it only when that one has strictly fewer pages. */
  lemma PassedOverOnlyForSmaller(list: seq<ReadyIssue>, maxPages: int, older: nat, later: nat)
    requires Unique(list) && older < later < |list|
    requires list[older] !in Taken(list, maxPages) && list[later] in Taken(list, maxPages)
    ensures list[later].pages < list[older].pages
  {
    TakenExactly(list, maxPages, older);
    TakenExactly(list, maxPages, later);
    assert list[..later][..older] == list[..older];
    TakenGrows(list[..later], older, maxPages);
  }

  /** An issue with more pages than the limit is never taken. */
  lemma {:induction false} OversizeIsLeft(list: seq<ReadyIssue>, maxPages: int, i: ReadyIssue)
    requires i.pages > maxPages
    ensures i !in Taken(list, maxPages) && (i in list ==> i in Left(list, maxPages))
    decreases |list|
  {
    if list != [] {
      var front, last := LastOf(list);
      OversizeIsLeft(front, maxPages, i);
      SplitStep(front, last, maxPages);
    }
  }

  /** If the oldest issue is within the limit, something is taken. */
  lemma {:induction false} FirstIsTaken(list: seq<ReadyIssue>, maxPages: int)
    requires list != [] && list[0].pages <= maxPages
    ensures Taken(list, maxPages) != []
    decreases |list|
  {
    var front, last := LastOf(list);
    SplitStep(front, last, maxPages);
    if front != [] {
      FirstIsTaken(front, maxPages);
    }
  }

  lemma AppendInOrder(list: seq<ReadyIssue>, last: ReadyIssue)
    requires Unique(list) && OldestFirst(list) && last !in list && forall i <- list :: i.approvedAt <= last.approvedAt
    ensures Unique(list + [last]) && OldestFirst(list + [last])
  {
    var all := list + [last];
    forall j, k | 0 <= j < k < |all| ensures all[j] != all[k] && all[j].approvedAt <= all[k].approvedAt {
      assert all[j] == list[j] && all[j] in list;
    }
  }

  lemma BeforeLast(front: seq<ReadyIssue>, last: ReadyIssue)
    requires Unique(front + [last]) && OldestFirst(front + [last])
    ensures Unique(front) && OldestFirst(front)
    ensures forall i <- front :: i != last && i.approvedAt <= last.approvedAt
  {
    var all := front + [last];
    forall j, k | 0 <= j < k < |front| ensures front[j] != front[k] && front[j].approvedAt <= front[k].approvedAt {
      assert all[j] == front[j] && all[k] == front[k];
    }
    forall i <- front ensures i != last && i.approvedAt <= last.approvedAt {
      var k :| 0 <= k < |front| && front[k] == i;
      assert all[k] == i && all[|front|] == last;
    }
  }

  lemma PartBeforeLast(front: seq<ReadyIssue>, last: ReadyIssue, maxPages: int, part: seq<ReadyIssue>)
    requires Unique(front + [last]) && OldestFirst(front + [last]) && Unique(part) && OldestFirst(part)
    requires part == Taken(front, maxPages) || part == Left(front, maxPages)
    ensures Unique(part + [last]) && OldestFirst(part + [last]) && last !in part
  {
    BeforeLast(front, last);
    forall i <- part ensures i in front {
      OnlyListed(front, maxPages, i);
    }
    AppendInOrder(part, last);
  }

  /** Both parts keep the order of the list, and each issue is in one part only. */
  lemma {:induction false} SplitKeepsOrder(list: seq<ReadyIssue>, maxPages: int)
    requires OldestFirst(list) && Unique(list)
    ensures OldestFirst(Taken(list, maxPages)) && OldestFirst(Left(list, maxPages))
    ensures Unique(Taken(list, maxPages)) && Unique(Left(list, maxPages))
    ensures forall i <- Taken(list, maxPages) :: i !in Left(list, maxPages)
    decreases |list|
  {
    if list != [] {
      var front, last := LastOf(list);
      BeforeLast(front, last);
      SplitKeepsOrder(front, maxPages);
      SplitStep(front, last, maxPages);
      PartBeforeLast(front, last, maxPages, Taken(front, maxPages));
      PartBeforeLast(front, last, maxPages, Left(front, maxPages));
    }
  }

  // ---------------------------------------------------------------- one organisation's queue

  function Appended(list: seq<ReadyIssue>, i: ReadyIssue): seq<ReadyIssue> {
    if i in list then list else list + [i]
  }

  predicate AllWrapped(list: seq<ReadyIssue>) {
    forall i <- list :: Wrapped(i)
  }

  lemma UniqueCounts(list: seq<ReadyIssue>)
    ensures Unique(list) ==> forall i :: multiset(list)[i] <= 1
    decreases |list|
  {
    if list != [] && Unique(list) {
      var front, last := LastOf(list);
      assert forall j, k :: 0 <= j < k < |front| ==> list[j] == front[j] && list[k] == front[k];
      UniqueCounts(front);
      assert last !in front;
      assert multiset(list) == multiset(front) + multiset{last};
    }
  }

  lemma CountsUnique(list: seq<ReadyIssue>, j: nat, k: nat)
    requires j < k < |list| && list[j] == list[k]
    ensures multiset(list)[list[j]] >= 2
  {
    var a, b := list[..k], list[k..];
    assert list == a + b && a[j] == list[j] && b[0] == list[j];
    assert multiset(list) == multiset(a) + multiset(b);
  }

  /** A reordered list has the same issues, each once. */
  lemma ReorderedUnique(a: seq<ReadyIssue>, b: seq<ReadyIssue>)
    requires Unique(a) && multiset(a) == multiset(b)
    ensures Unique(b) && forall i :: i in a <==> i in b
  {
    UniqueCounts(a);
    forall j, k | 0 <= j < k < |b| ensures b[j] != b[k] {
      if b[j] == b[k] {
        CountsUnique(b, j, k);
      }
    }
    forall i ensures i in a <==> i in b {
      assert i in a <==> i in multiset(a);
      assert i in b <==> i in multiset(b);
    }
  }

  /** sort.Slice by approval time; it does not promise to keep the order of issues approved at the same time. */
  method SortByApproval(list: seq<ReadyIssue>) returns (r: seq<ReadyIssue>)
    ensures OldestFirst(r) && multiset(r) == multiset(list)
  {
    var le := (a: ReadyIssue, b: ReadyIssue) => a.approvedAt <= b.approvedAt;
    r := SortBy(list, le);
    assert forall j, k :: 0 <= j < k < |r| ==> le(r[j], r[k]);
  }

  /** What the cached fields must say of a list. */
  ghost predicate Cached(list: seq<ReadyIssue>, seen: set<ReadyIssue>, pages: nat, longWait: bool) {
    Unique(list) && AllWrapped(list) && seen == Members(list) && pages == Sum(list) && longWait == AnyLongWait(list)
  }

  lemma CachedAppend(list: seq<ReadyIssue>, seen: set<ReadyIssue>, pages: nat, longWait: bool, i: ReadyIssue)
    requires Cached(list, seen, pages, longWait) && i !in seen && Wrapped(i)
    ensures i !in list && Cached(list + [i], seen + {i}, pages + i.pages, longWait || LongWait(i))
  {
    var all := list + [i];
    SumAppend(list, i);
    assert i !in list;
    forall j, k | 0 <= j < k < |all| ensures all[j] != all[k] {
      assert all[j] == list[j];
    }
    assert Members(all) == Members(list) + {i};
    AnyLongWaitAppend(list, i);
  }

  lemma AnyLongWaitAppend(list: seq<ReadyIssue>, i: ReadyIssue)
    ensures AnyLongWait(list + [i]) <==> AnyLongWait(list) || LongWait(i)
  {
    var all := list + [i];
    if AnyLongWait(list) {
      var j :| j in list && LongWait(j);
      assert j in all;
    }
    if LongWait(i) {
      assert i in all;
    }
    if AnyLongWait(all) {
      var j :| j in all && LongWait(j);
      assert j in list || j == i;
    }
  }

  class IssueQueue {
    var list: seq<ReadyIssue>
    var seen: set<ReadyIssue>
    var pages: nat
    var sorted: bool
    var longWait: bool

    /** The cached fields say what the list says. */
    ghost predicate Valid()
      reads this
    {
      Cached(list, seen, pages, longWait) && (sorted ==> OldestFirst(list))
    }

    constructor ()
      ensures Valid() && list == []
    {
      list, seen, pages, sorted, longWait := [], {}, 0, true, false;
    }

    method Append(i: ReadyIssue)
      requires Valid() && Wrapped(i)
      modifies this
      ensures Valid() && list == Appended(old(list), i)
    {
      if i in seen {
        assert i in list;
        return;
      }
      CachedAppend(list, seen, pages, longWait, i);
      list := list + [i];
      pages := pages + i.pages;
      sorted := false;
      seen := seen + {i};
      if !longWait {
        longWait := i.daysStale > 30.0;
      }
    }

    method EmptyList()
      modifies this
      ensures Valid() && list == []
    {
      seen, pages, list, sorted, longWait := {}, 0, [], true, false;
    }

    /** The list in order of approval. */
    method InOrder() returns (order: seq<ReadyIssue>)
      requires Valid()
      ensures OldestFirst(order) && multiset(order) == multiset(list) && Unique(order) && AllWrapped(order)
    {
      order := list;
      if !sorted {
        order := SortByApproval(list);
        ReorderedUnique(list, order);
      }
    }

    /** Splits off the next batch's issues: the list is put in order of approval, then split greedily. */
    method SplitQueue(maxPages: int) returns (popped: IssueQueue, ghost order: seq<ReadyIssue>)
      requires Valid()
      modifies this
      ensures Valid() && popped.Valid() && fresh(popped)
      ensures OldestFirst(order) && multiset(order) == multiset(old(list)) && Unique(order)
      ensures popped.list == Taken(order, maxPages) && list == Left(order, maxPages)
    {
      var work := InOrder();
      order := work;
      EmptyList();
      popped := new IssueQueue();
      for k := 0 to |work|
        invariant Valid() && popped.Valid() && fresh(popped)
        invariant popped.list == Taken(work[..k], maxPages) && list == Left(work[..k], maxPages)
      {
        NextToSplit(work, k, maxPages);
        Place(work[k], popped, maxPages);
      }
      assert work[..|work|] == work;
    }

    /** One turn of SplitQueue's loop. */
    method Place(issue: ReadyIssue, popped: IssueQueue, maxPages: int)
      requires Valid() && popped.Valid() && this != popped && Wrapped(issue) && issue !in list && issue !in popped.list
      modifies this, popped
      ensures Valid() && popped.Valid()
      ensures var fits := Sum(old(popped.list)) + |issue.pageLabels| <= maxPages;
              && popped.list == (if fits then old(popped.list) + [issue] else old(popped.list))
              && list == if fits then old(list) else old(list) + [issue]
    {
      var l := |issue.pageLabels|;
      if popped.pages + l <= maxPages {
        popped.Append(issue);
      } else {
        Append(issue);
      }
    }
  }

  lemma NextToSplit(work: seq<ReadyIssue>, k: nat, maxPages: int)
    requires Unique(work) && AllWrapped(work) && k < |work|
    ensures work[k] !in Taken(work[..k], maxPages) && work[k] !in Left(work[..k], maxPages) && Wrapped(work[k])
    ensures var fits := Sum(Taken(work[..k], maxPages)) + |work[k].pageLabels| <= maxPages;
            && Taken(work[..k + 1], maxPages)
                 == (if fits then Taken(work[..k], maxPages) + [work[k]] else Taken(work[..k], maxPages))
            && Left(work[..k + 1], maxPages) ==
                 if fits then Left(work[..k], maxPages) else Left(work[..k], maxPages) + [work[k]]
  {
    assert work[k] in work;
    OnlyListed(work[..k], maxPages, work[k]);
    assert work[..k + 1] == work[..k] + [work[k]];
    SplitStep(work[..k], work[k], maxPages);
  }

  // ---------------------------------------------------------------- all organisations' queues

  /** What one call of NextBatch comes to: nothing is queued; a group was dropped; a batch was made. */
  datatype Outcome =
    | NothingLeft
    | TooFewPages(moc: string, issues: seq<ReadyIssue>)
    | NewBatch(moc: string, issues: seq<ReadyIssue>)

  /** An issue has waited for more than 30 days. */
  predicate Overdue(issues: seq<ReadyIssue>) {
    exists i <- issues :: i.daysStale > 30.0
  }

  /** The limits every group must keep: a batch is worth making or overdue, a dropped group is neither. */
  ghost predicate Proper(o: Outcome, minPages: int, maxPages: int) {
    match o
    case NothingLeft => false
    case TooFewPages(moc, issues) => OfMOC(issues, moc) && Sum(issues) < minPages && !Overdue(issues)
    case NewBatch(moc, issues) =>
      && OfMOC(issues, moc)
      && (issues != [] ==> Sum(issues) <= maxPages)
      && (Sum(issues) >= minPages || Overdue(issues))
  }

  predicate OfMOC(issues: seq<ReadyIssue>, moc: string) {
    forall i <- issues :: i.moc == moc
  }

  /** All issues of an organisation in a list of groups. */
  function Grouped(groups: seq<Outcome>, moc: string): multiset<ReadyIssue> {
    if groups == [] then multiset{}
    else
      var last := groups[|groups| - 1];
      Grouped(groups[..|groups| - 1], moc)
          + if !last.NothingLeft? && last.moc == moc then multiset(last.issues) else multiset{}
  }

  lemma GroupedAppend(groups: seq<Outcome>, o: Outcome, moc: string)
    ensures Grouped(groups + [o], moc)
         == Grouped(groups, moc) + if !o.NothingLeft? && o.moc == moc then multiset(o.issues) else multiset{}
  {
    assert (groups + [o])[..|groups|] == groups;
  }

  /** The split at the heart of a call: `order` is the queue in order of approval. */
  ghost predicate SplitOff(was: seq<ReadyIssue>, order: seq<ReadyIssue>, issues: seq<ReadyIssue>,
          now: seq<ReadyIssue>, maxPages: int)
  {
    && OldestFirst(order) && Unique(order) && multiset(order) == multiset(was)
    && issues == Taken(order, maxPages)
    && now == Left(order, maxPages)
  }

  lemma SplitOffConserves(was: seq<ReadyIssue>, order: seq<ReadyIssue>, issues: seq<ReadyIssue>, now: seq<ReadyIssue>,
          maxPages: int)
    requires SplitOff(was, order, issues, now, maxPages)
    ensures multiset(issues) + multiset(now) == multiset(was)
    ensures |issues| + |now| == |was|
    ensures forall i :: i in issues || i in now <==> i in was
  {
    SplitConserves(order, maxPages);
    assert |multiset(issues) + multiset(now)| == |issues| + |now| && |multiset(was)| == |was|;
    forall i ensures i in issues || i in now <==> i in was {
      assert i in issues <==> i in multiset(issues);
      assert i in now <==> i in multiset(now);
      assert i in was <==> i in multiset(was);
    }
  }

  lemma SplitOffTakesSome(was: seq<ReadyIssue>, order: seq<ReadyIssue>, issues: seq<ReadyIssue>, now: seq<ReadyIssue>,
          maxPages: int)
    requires SplitOff(was, order, issues, now, maxPages) && was != [] && forall i <- was :: i.pages <= maxPages
    ensures issues != []
  {
    assert |order| == |multiset(order)| == |was|;
    assert order[0] in multiset(was);
    FirstIsTaken(order, maxPages);
  }

  lemma SplitOffKeepsOversize(was: seq<ReadyIssue>, order: seq<ReadyIssue>, issues: seq<ReadyIssue>,
          now: seq<ReadyIssue>, maxPages: int, i: ReadyIssue)
    requires SplitOff(was, order, issues, now, maxPages) && i in was && i.pages > maxPages
    ensures i in now
  {
    assert i in multiset(order);
    OversizeIsLeft(order, maxPages, i);
  }

  predicate AllWithin(list: seq<ReadyIssue>, maxPages: int) {
    forall i <- list :: i.pages <= maxPages
  }

  /** Every issue is in the groups made so far or still queued, as often as at the start. */
  ghost predicate Accounted(start: map<string, multiset<ReadyIssue>>, groups: seq<Outcome>,
          queued: map<string, seq<ReadyIssue>>)
  {
    && queued.Keys == start.Keys
    && forall m <- start :: Grouped(groups, m) + multiset(queued[m]) == start[m]
  }

  lemma MovedOver(a: multiset<ReadyIssue>, b: multiset<ReadyIssue>, c: multiset<ReadyIssue>)
    ensures (a + b) + c == a + (b + c)
  {
  }

  lemma AccountedStep(start: map<string, multiset<ReadyIssue>>, groups: seq<Outcome>, o: Outcome,
                      was: map<string, seq<ReadyIssue>>, now: map<string, seq<ReadyIssue>>)
    requires Accounted(start, groups, was) && now.Keys == was.Keys
    requires !o.NothingLeft? && o.moc in was && multiset(o.issues) + multiset(now[o.moc]) == multiset(was[o.moc])
    requires forall m <- was :: m != o.moc ==> now[m] == was[m]
    ensures Accounted(start, groups + [o], now)
  {
    forall m <- start ensures Grouped(groups + [o], m) + multiset(now[m]) == start[m] {
      GroupedAppend(groups, o, m);
      if m == o.moc {
        MovedOver(Grouped(groups, m), multiset(o.issues), multiset(now[m]));
      }
    }
  }

  /** One queue was split; the others are as they were. */
  ghost predicate SplitOffBy(was: map<string, seq<ReadyIssue>>, now: map<string, seq<ReadyIssue>>, o: Outcome,
          maxPages: int, order: seq<ReadyIssue>)
  {
    && was.Keys == now.Keys
    && !o.NothingLeft? && o.moc in was && was[o.moc] != []
    && SplitOff(was[o.moc], order, o.issues, now[o.moc], maxPages)
    && forall m <- was :: m != o.moc ==> now[m] == was[m]
  }

  lemma SplitOffProgress(was: map<string, seq<ReadyIssue>>, now: map<string, seq<ReadyIssue>>, o: Outcome,
          maxPages: int, order: seq<ReadyIssue>)
    requires SplitOffBy(was, now, o, maxPages, order) && forall m <- was :: AllWithin(was[m], maxPages)
    ensures now.Keys == was.Keys && !o.NothingLeft? && o.moc in was && |now[o.moc]| < |was[o.moc]| && o.issues != []
    ensures multiset(o.issues) + multiset(now[o.moc]) == multiset(was[o.moc])
    ensures forall m <- was :: m != o.moc ==> now[m] == was[m]
    ensures forall m <- now :: AllWithin(now[m], maxPages)
  {
    SplitOffConserves(was[o.moc], order, o.issues, now[o.moc], maxPages);
    SplitOffTakesSome(was[o.moc], order, o.issues, now[o.moc], maxPages);
  }

  class Allocator {
    var currentMOC: string
    var mocList: seq<string>
    var mocQueue: map<string, IssueQueue>
    const minPages: int
    const maxPages: int

    ghost predicate Valid()
      reads this, mocQueue.Values
    {
      && (forall m <- mocQueue :: mocQueue[m].Valid() && OfMOC(mocQueue[m].list, m))
      && (forall m <- mocQueue :: mocQueue[m].list != [] ==> m == currentMOC || m in mocList)
      && (forall m, n :: m in mocQueue && n in mocQueue && m != n ==> mocQueue[m] != mocQueue[n])
    }

    /** The issues queued for an organisation. */
    ghost function Queued(m: string): seq<ReadyIssue>
      reads this, mocQueue.Values
    {
      if m in mocQueue then mocQueue[m].list else []
    }

    constructor (minPages: int, maxPages: int)
      ensures Filling() && this.minPages == minPages && this.maxPages == maxPages
      ensures forall m :: Queued(m) == []
    {
      currentMOC, mocList, mocQueue, this.minPages, this.maxPages := "", [], map[], minPages, maxPages;
    }

    /** No batch was asked for yet: every organisation is still to come. */
    ghost predicate Filling()
      reads this, mocQueue.Values
    {
      Valid() && (forall m <- mocQueue :: m in mocList) && forall m <- mocList :: m in mocQueue
    }

    /** The organisations to take from, in order: the current one and those still to come. */
    function ToCome(): seq<string>
      reads this
    {
      [currentMOC] + mocList
    }

    method EnsureQueue(moc: string)
      requires Filling()
      modifies `mocList, `mocQueue
      ensures Filling() && moc in mocQueue && fresh(mocQueue.Values - old(mocQueue.Values))
      ensures forall m :: Queued(m) == old(Queued(m))
      ensures mocList == if moc in old(mocList) then old(mocList) else old(mocList) + [moc]
    {
      if moc !in mocQueue {
        var queue := new IssueQueue();
        mocQueue := mocQueue[moc := queue];
        mocList := mocList + [moc];
      }
    }

    method AppendTo(i: ReadyIssue)
      requires Filling() && Wrapped(i) && i.moc in mocQueue
      modifies mocQueue[i.moc]
      ensures Filling()
      ensures forall m :: Queued(m) == if m == i.moc then Appended(old(Queued(m)), i) else old(Queued(m))
    {
      mocQueue[i.moc].Append(i);
    }

    /** FindReadyIssues, for one issue: embargoed issues are skipped, others go to their organisation's queue. */
    method Add(i: ReadyIssue, embargoed: bool)
      requires Filling() && Wrapped(i)
      modifies this, mocQueue.Values
      ensures Filling() && fresh(mocQueue.Values - old(mocQueue.Values))
      ensures forall m :: Queued(m) == if m == i.moc && !embargoed then Appended(old(Queued(m)), i) else old(Queued(m))
      ensures mocList == if embargoed || i.moc in old(mocList) then old(mocList) else old(mocList) + [i.moc]
    {
      if !embargoed {
        EnsureQueue(i.moc);
        AppendTo(i);
      }
    }

    /** Of the organisations that were to come, those before the ones still to come have nothing queued. */
    ghost predicate PassedOver(was: seq<string>)
      reads this, mocQueue.Values
    {
      var n := |was| - |ToCome()|;
      0 <= n && ToCome() == was[n..] && forall k :: 0 <= k < n ==> Queued(was[k]) == []
    }

    /** The first queue that is not empty; organisations with empty queues are passed for good. */
    method NextMOCQueue() returns (mq: IssueQueue?)
      requires Valid()
      modifies `currentMOC, `mocList
      ensures Valid()
      ensures mq == null ==> forall m <- mocQueue :: mocQueue[m].list == []
      ensures mq != null ==> currentMOC in mocQueue && mq == mocQueue[currentMOC] && mq.list != []
      ensures PassedOver(old(ToCome()))
      ensures |mocList| < old(|mocList|) || (mocList == old(mocList) && currentMOC == old(currentMOC))
      decreases |mocList|
    {
      if currentMOC in mocQueue && mocQueue[currentMOC].list != [] {
        return mocQueue[currentMOC];
      }
      if mocList == [] {
        return null;
      }
      ghost var was := ToCome();
      currentMOC, mocList := mocList[0], mocList[1..];
      mq := NextMOCQueue();
      assert was[1..] == [was[1]] + was[2..];
    }

    /** NextBatch, once the queue to take from is known. */
    method BatchFrom(currentQ: IssueQueue) returns (outcome: Outcome, ghost order: seq<ReadyIssue>)
      requires Valid() && currentMOC in mocQueue && currentQ == mocQueue[currentMOC]
      modifies currentQ
      ensures Valid() && !outcome.NothingLeft? && outcome.moc == currentMOC
      ensures SplitOff(old(currentQ.list), order, outcome.issues, currentQ.list, maxPages)
      ensures Proper(outcome, minPages, maxPages)
    {
      ghost var was := currentQ.list;
      assert OfMOC(was, currentMOC);
      var smallQ;
      smallQ, order := currentQ.SplitQueue(maxPages);
      SplitOffConserves(was, order, smallQ.list, currentQ.list, maxPages);
      TakenFits(order, maxPages);
      if smallQ.pages < minPages && !smallQ.longWait {
        return TooFewPages(currentMOC, smallQ.list), order;
      }
      return NewBatch(currentMOC, smallQ.list), order;
    }

    method NextBatch() returns (outcome: Outcome, ghost order: seq<ReadyIssue>)
      requires Valid()
      modifies this, mocQueue.Values
      ensures Valid() && mocQueue == old(mocQueue)
      ensures outcome.NothingLeft? ==> forall m :: Queued(m) == [] && old(Queued(m)) == []
      ensures !outcome.NothingLeft? ==>
        var moc := outcome.moc;
        && currentMOC == moc
        && old(Queued(moc)) != []
        && SplitOff(old(Queued(moc)), order, outcome.issues, Queued(moc), maxPages)
        && (forall m :: m != moc ==> Queued(m) == old(Queued(m)))
        && Proper(outcome, minPages, maxPages)
      ensures PassedOver(old(ToCome()))
      ensures |mocList| < old(|mocList|) || (mocList == old(mocList) && currentMOC == old(currentMOC))
    {
      order := [];
      var currentQ := NextMOCQueue();
      if currentQ == null {
        return NothingLeft, order;
      }
      outcome, order := BatchFrom(currentQ);
    }

    ghost function AllQueued(): map<string, seq<ReadyIssue>>
      reads this, mocQueue.Values
    {
      map m <- mocQueue :: mocQueue[m].list
    }

    /** No queued issue is over the limit. */
    ghost predicate WithinLimit()
      reads this, mocQueue.Values
    {
      forall m <- mocQueue :: AllWithin(mocQueue[m].list, maxPages)
    }

    /** NextBatch, said of all the queues at once. */
    method NextGroup() returns (outcome: Outcome, ghost order: seq<ReadyIssue>)
      requires Valid()
      modifies this, mocQueue.Values
      ensures Valid() && mocQueue == old(mocQueue)
      ensures outcome.NothingLeft? ==> AllQueued() == old(AllQueued()) && forall m <- mocQueue :: mocQueue[m].list == []
      ensures !outcome.NothingLeft? ==>
        Proper(outcome, minPages, maxPages) && SplitOffBy(old(AllQueued()), AllQueued(), outcome, maxPages, order)
            && outcome.moc == currentMOC
      ensures |mocList| < old(|mocList|) || (mocList == old(mocList) && currentMOC == old(currentMOC))
    {
      ghost var was := AllQueued();
      outcome, order := NextBatch();
      if outcome.NothingLeft? {
        forall m <- mocQueue ensures mocQueue[m].list == [] && was[m] == [] {
          assert Queued(m) == [];
        }
        assert AllQueued() == was;
      } else {
        forall m <- was | m != outcome.moc ensures AllQueued()[m] == was[m] {
          assert Queued(m) == AllQueued()[m];
        }
      }
    }

    /** One turn of the loop of main. */
    method Turn(ghost start: map<string, multiset<ReadyIssue>>, groups: seq<Outcome>) returns (outcome: Outcome)
      requires Valid() && WithinLimit() && Accounted(start, groups, AllQueued())
      modifies this, mocQueue.Values
      ensures Valid() && mocQueue == old(mocQueue) && WithinLimit()
      ensures outcome.NothingLeft? ==> forall m <- mocQueue :: mocQueue[m].list == []
      ensures outcome.NothingLeft? ==> Accounted(start, groups, AllQueued())
      ensures !outcome.NothingLeft? ==> Proper(outcome, minPages, maxPages) && outcome.issues != []
      ensures !outcome.NothingLeft? ==> Accounted(start, groups + [outcome], AllQueued())
      ensures !outcome.NothingLeft? ==>
        |mocList| < old(|mocList|) || (|mocList| == old(|mocList|) && |Queued(currentMOC)| < old(|Queued(currentMOC)|))
    {
      ghost var was := AllQueued();
      ghost var order;
      outcome, order := NextGroup();
      if !outcome.NothingLeft? {
        SplitOffProgress(was, AllQueued(), outcome, maxPages, order);
        AccountedStep(start, groups, outcome, was, AllQueued());
        forall m <- mocQueue ensures AllWithin(mocQueue[m].list, maxPages) {
          assert AllWithin(AllQueued()[m], maxPages);
        }
      }
    }

    /** The loop of main, when no issue is over the limit: it ends, with every issue in exactly one group. */
    method Drain() returns (groups: seq<Outcome>)
      requires Valid() && WithinLimit()
      modifies this, mocQueue.Values
      ensures Valid() && mocQueue == old(mocQueue)
      ensures forall m <- mocQueue :: mocQueue[m].list == []
      ensures forall m <- mocQueue :: Grouped(groups, m) == multiset(old(mocQueue[m].list))
      ensures forall g <- groups :: Proper(g, minPages, maxPages) && g.issues != []
    {
      ghost var start := map m <- mocQueue :: multiset(mocQueue[m].list);
      groups := [];
      while true
        invariant Valid() && mocQueue == old(mocQueue) && WithinLimit()
        invariant Accounted(start, groups, AllQueued())
        invariant forall g <- groups :: Proper(g, minPages, maxPages) && g.issues != []
        decreases |mocList|, |Queued(currentMOC)|
      {
        var outcome := Turn(start, groups);
        if outcome.NothingLeft? {
          break;
        }
        groups := groups + [outcome];
      }
    }

    /** n turns of the loop of main while an issue is over the limit: it has not ended. */
    method Turns(n: nat) returns (ended: bool)
      requires Valid()
      requires exists m, i :: m in mocQueue && i in mocQueue[m].list && i.pages > maxPages
      modifies this, mocQueue.Values
      ensures !ended
    {
      ghost var moc, big :| moc in mocQueue && big in mocQueue[moc].list && big.pages > maxPages;
      ended := false;
      for k := 0 to n
        invariant Valid() && mocQueue == old(mocQueue) && big in Queued(moc) && !ended
      {
        ghost var was := Queued(moc);
        var outcome, order := NextBatch();
        if outcome.NothingLeft? {
          ended := true;
          break;
        }
        if outcome.moc == moc {
          SplitOffKeepsOversize(was, order, outcome.issues, Queued(moc), maxPages, big);
        }
      }
    }
  }
}
