/** Which issues a full scan reports as duplicates (src/schema/schema.go, src/issuewatcher/scanner.go). */
module Duplicates {
  import opened Decimal
  import opened IssueKeys
  import opened JobModel
  import opened Sorting
  import opened Lookup

  /** How far along the workflow a step is, for telling which of two copies is the duplicate. */
  function StepOrder(step: WorkflowStep): nat {
    match step
    case WSNil => 0
    case WSUnfixableMetadataError => 10
    case WSSFTP => 20
    case WSScan => 20
    case WSAwaitingProcessing => 100
    case WSAwaitingPageReview => 30
    case WSReadyForMetadataEntry => 40
    case WSAwaitingMetadataReview => 50
    case WSReadyForMETSXML => 60
    case WSReadyForBatching => 60
    case WSInProduction => 0x7fff_ffff
  }

  predicate Before(a: WorkflowStep, b: WorkflowStep) {
    StepOrder(a) < StepOrder(b)
  }

  /** The later copies among the issues found. */
  function Later(step: WorkflowStep, found: seq<Issue>): seq<Issue> {
    if found == [] then []
    else
      var last := found[|found| - 1];
      Later(step, found[..|found| - 1]) + if Before(step, last.step) then [last] else []
  }

  lemma {:induction false} InLater(step: WorkflowStep, found: seq<Issue>, j: Issue)
    ensures j in Later(step, found) <==> j in found && Before(step, j.step)
  {
    if found != [] {
      var front, last := found[..|found| - 1], found[|found| - 1];
      assert found == front + [last];
      InLater(step, front, j);
    }
  }

  /** CheckDupes: one error for every later copy the index finds; none when the issue's key cannot be parsed. */
  method CheckDupes(i: Issue, lookup: Index) returns (errors: seq<Issue>)
    requires lookup.Valid()
    modifies lookup
    ensures lookup.Valid() && lookup.contents == old(lookup.contents)
    ensures forall j :: j in errors <==> ReportedFor(lookup.contents, i, j)
  {
    var sKey := ParseSearchKey(i.key);
    if sKey.None? {
      return [];
    }
    var found := lookup.Issues(sKey.value);
    errors := [];
    for n := 0 to |found|
      invariant errors == Later(i.step, found[..n])
    {
      assert found[..n + 1][..n] == found[..n];
      if Before(i.step, found[n].step) {
        errors := errors + [found[n]];
      }
    }
    assert found[..|found|] == found;
    forall j ensures j in errors <==> ReportedFor(lookup.contents, i, j) {
      InLater(i.step, found, j);
      assert j in found <==> j in multiset(found);
      assert j in Select(lookup.contents, LevelOf(sKey.value), sKey.value.String())
        <==> j in multiset(Select(lookup.contents, LevelOf(sKey.value), sKey.value.String()));
    }
  }

  predicate FoundLater(issues: seq<Issue>, sKey: Option<Key>, step: WorkflowStep, j: Issue)
    requires AllIndexable(issues)
  {
    sKey.Some? && j in Select(issues, LevelOf(sKey.value), sKey.value.String()) && Before(step, j.step)
  }

  /** The scan reports j as a later copy of i. */
  predicate ReportedFor(issues: seq<Issue>, i: Issue, j: Issue)
    requires AllIndexable(issues)
  {
    FoundLater(issues, ParseSearchKey(i.key), i.step, j)
  }

  predicate Flagged(issues: seq<Issue>, i: Issue)
    requires AllIndexable(issues)
  {
    exists j <- issues :: ReportedFor(issues, i, j)
  }

  /** A well-formed issue that is not of the year 0 and has an edition. */
  predicate Proper(i: Issue) {
    Keyed(i) && WellFormed(i.lccn, i.rawDate, i.edition) && Value(i.rawDate[..4]) > 0 && i.edition > 0
  }

  /** The key of some proper issue. */
  ghost predicate ProperKey(key: string) {
    exists q: Issue :: Proper(q) && q.key == key
  }

  lemma {:induction false} InSelect(issues: seq<Issue>, level: Level, s: string, j: Issue)
    requires AllIndexable(issues)
    ensures j in Select(issues, level, s) <==> j in issues && LevelKey(j, level) == s
    decreases |issues|
  {
    if issues != [] {
      var front, i := issues[..|issues| - 1], issues[|issues| - 1];
      assert issues == front + [i];
      assert i in issues && forall k <- front :: k in issues;
      InSelect(front, level, s, j);
      SelectAppend(front, i, level, s);
    }
  }

  lemma ProperLevel(i: Issue)
    requires Proper(i)
    ensures ParseSearchKey(i.key).Some? && LevelOf(ParseSearchKey(i.key).value) == Full
  {
    ParsedIssueKey(i.lccn, i.rawDate, i.edition);
    DatePartsPositive(i.rawDate);
  }

  /** A proper key, parsed, asks for exactly that key. */
  lemma ParsedProperKey(key: string)
    requires ProperKey(key)
    ensures var sKey := ParseSearchKey(key); sKey.Some? && sKey.value.String() == key && LevelOf(sKey.value) == Full
  {
    var q: Issue :| Proper(q) && q.key == key;
    KeyRoundTrip(q.lccn, q.rawDate, q.edition);
    ProperLevel(q);
  }

  lemma FoundExactly(issues: seq<Issue>, sKey: Option<Key>, step: WorkflowStep, j: Issue)
    requires AllIndexable(issues) && sKey.Some? && LevelOf(sKey.value) == Full
    ensures FoundLater(issues, sKey, step, j) <==>
            j in issues && j.key == sKey.value.String() && Before(step, j.step)
  {
    InSelect(issues, Full, sKey.value.String(), j);
  }

  /** An issue with a proper key is reported against exactly the issues with its key at a later step. */
  lemma {:induction false} ReportedExactly(issues: seq<Issue>, i: Issue, j: Issue)
    requires AllIndexable(issues) && ProperKey(i.key)
    ensures ReportedFor(issues, i, j) <==> j in issues && j.key == i.key && Before(i.step, j.step)
  {
    ParsedProperKey(i.key);
    FoundExactly(issues, ParseSearchKey(i.key), i.step, j);
  }

  /** An issue with a proper key is flagged exactly when a copy of it is at a strictly later step, whatever else the
      scan has found. */
  lemma FlaggedExactly(issues: seq<Issue>, i: Issue)
    requires AllIndexable(issues) && ProperKey(i.key)
    ensures Flagged(issues, i) <==> exists j :: j in issues && j.key == i.key && Before(i.step, j.step)
  {
    forall j ensures ReportedFor(issues, i, j) <==> j in issues && j.key == i.key && Before(i.step, j.step) {
      ReportedExactly(issues, i, j);
    }
  }

  /** b is one of the steps that a copy at step a is a duplicate of.  Nothing live is a duplicate, and what awaits
      processing only of what is live; before that come METS and batching, which are level, review, entry, page review,
      then uploads and scans, which are level, then unfixable issues, then those without a step. */
  predicate DuplicateOf(a: WorkflowStep, b: WorkflowStep) {
    match a
    case WSInProduction => false
    case WSAwaitingProcessing => b == WSInProduction
    case WSReadyForMETSXML => b in {WSAwaitingProcessing, WSInProduction}
    case WSReadyForBatching => b in {WSAwaitingProcessing, WSInProduction}
    case WSAwaitingMetadataReview => b in {WSReadyForMETSXML, WSReadyForBatching, WSAwaitingProcessing, WSInProduction}
    case WSReadyForMetadataEntry =>
      b !in {WSNil, WSUnfixableMetadataError, WSSFTP, WSScan, WSAwaitingPageReview, WSReadyForMetadataEntry}
    case WSAwaitingPageReview => b !in {WSNil, WSUnfixableMetadataError, WSSFTP, WSScan, WSAwaitingPageReview}
    case WSSFTP => b !in {WSNil, WSUnfixableMetadataError, WSSFTP, WSScan}
    case WSScan => b !in {WSNil, WSUnfixableMetadataError, WSSFTP, WSScan}
    case WSUnfixableMetadataError => b !in {WSNil, WSUnfixableMetadataError}
    case WSNil => b != WSNil
  }

  lemma StepsCompared(a: WorkflowStep, b: WorkflowStep)
    ensures Before(a, b) <==> DuplicateOf(a, b)
  {
  }

  /** Of two issues with one proper key, the scan reports the second against the first exactly when the first is at a
      step that makes it the duplicate. */
  lemma DuplicateBySteps(issues: seq<Issue>, i: Issue, j: Issue)
    requires AllIndexable(issues) && ProperKey(i.key) && j in issues && j.key == i.key
    ensures ReportedFor(issues, i, j) <==> DuplicateOf(i.step, j.step)
  {
    ReportedExactly(issues, i, j);
    StepsCompared(i.step, j.step);
  }

  /** No two issues report each other. */
  lemma NoMutualReports(issues: seq<Issue>, i: Issue, j: Issue)
    requires AllIndexable(issues) && ReportedFor(issues, i, j)
    ensures !ReportedFor(issues, j, i)
  {
  }

  /** The copy that is furthest along. */
  lemma {:induction false} Furthest(issues: seq<Issue>, key: string) returns (best: Issue)
    requires exists i :: i in issues && i.key == key
    ensures best in issues && best.key == key
    ensures forall j <- issues :: j.key == key ==> !Before(best.step, j.step)
    decreases |issues|
  {
    var front, last := issues[..|issues| - 1], issues[|issues| - 1];
    assert issues == front + [last];
    if exists i :: i in front && i.key == key {
      best := Furthest(front, key);
      if last.key == key && Before(best.step, last.step) {
        best := last;
      }
    } else {
      best := last;
    }
  }

  /** Every group of copies keeps at least one issue that is not flagged. */
  lemma CanonicalCopySurvives(issues: seq<Issue>, i: Issue) returns (kept: Issue)
    requires AllIndexable(issues) && ProperKey(i.key) && i in issues
    ensures kept in issues && kept.key == i.key && !Flagged(issues, kept)
    ensures !Before(kept.step, i.step)
  {
    kept := Furthest(issues, i.key);
    FlaggedExactly(issues, kept);
  }
}
