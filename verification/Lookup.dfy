/** The issue index of five prefix maps, and duplicate checking with it (src/schema/lookup.go, src/schema/schema.go). */
module Lookup {
  import opened Decimal
  import opened IssueKeys
  import opened JobModel
  import opened Sorting
  import opened Text

  /** An issue as far as the index looks at it; the id stands for its identity and `key` is what its Key method
      returns. */
  datatype Issue = Issue(id: nat, lccn: string, rawDate: string, edition: nat, key: string, tsv: string,
      step: WorkflowStep)

  predicate Keyed(i: Issue) {
    i.key == IssueKey(i.lccn, i.rawDate, i.edition)
  }

  type IssueMap = map<string, seq<Issue>>

  /** Which of the five maps: how much of the key it leaves off. */
  datatype Level = Full | NoEdition | NoDay | NoMonth | NoYear
  {
    function Cut(): nat {
      match this
      case Full => 0
      case NoEdition => 2
      case NoDay => 4
      case NoMonth => 6
      case NoYear => 11
    }
  }

  /** The index slices eleven characters off each key. */
  predicate Indexable(i: Issue) {
    |i.key| >= 11
  }

  function LevelKey(i: Issue, level: Level): string
    requires Indexable(i)
  {
    i.key[..|i.key| - level.Cut()]
  }

  function Entry(m: IssueMap, s: string): seq<Issue> {
    if s in m then m[s] else []
  }

  function Added(m: IssueMap, s: string, i: Issue): IssueMap {
    m[s := Entry(m, s) + [i]]
  }

  predicate AllIndexable(issues: seq<Issue>) {
    forall i <- issues :: Indexable(i)
  }

  /** The issues whose key at the given level is s, in order. */
  function Select(issues: seq<Issue>, level: Level, s: string): seq<Issue>
    requires AllIndexable(issues)
  {
    if issues == [] then []
    else
      var i := issues[|issues| - 1];
      assert i in issues;
      Select(issues[..|issues| - 1], level, s) + if LevelKey(i, level) == s then [i] else []
  }

  ghost predicate IndexedAt(m: IssueMap, issues: seq<Issue>, level: Level, s: string)
    requires AllIndexable(issues)
  {
    multiset(Entry(m, s)) == multiset(Select(issues, level, s))
  }

  /** Each entry of the map has exactly the issues with that key. */
  ghost predicate Indexes(m: IssueMap, issues: seq<Issue>, level: Level)
    requires AllIndexable(issues)
  {
    forall s: string {:trigger IndexedAt(m, issues, level, s)} :: IndexedAt(m, issues, level, s)
  }

  lemma SelectAppend(issues: seq<Issue>, i: Issue, level: Level, s: string)
    requires AllIndexable(issues) && Indexable(i)
    ensures AllIndexable(issues + [i])
    ensures Select(issues + [i], level, s) == Select(issues, level, s) + if LevelKey(i, level) == s then [i] else []
  {
    assert (issues + [i])[..|issues|] == issues;
  }

  lemma AddedIndexes(m: IssueMap, issues: seq<Issue>, i: Issue, level: Level)
    requires AllIndexable(issues) && Indexable(i) && Indexes(m, issues, level)
    ensures AllIndexable(issues + [i]) && Indexes(Added(m, LevelKey(i, level), i), issues + [i], level)
  {
    SelectAppend(issues, i, level, "");
    forall s: string ensures IndexedAt(Added(m, LevelKey(i, level), i), issues + [i], level, s) {
      SelectAppend(issues, i, level, s);
      assert IndexedAt(m, issues, level, s);
    }
  }

  // ---------------------------------------------------------------- order of the results

  /** SortByKey's comparison: by key, then by TSV. */
  predicate KeyLe(a: Issue, b: Issue) {
    if a.key == b.key then StringLe(a.tsv, b.tsv) else StringLe(a.key, b.key)
  }

  lemma KeyLeOrders(issues: seq<Issue>)
    ensures Orders(issues, KeyLe)
  {
    forall a: Issue, b: Issue ensures KeyLe(a, b) || KeyLe(b, a) {
      StringLeTotal(a.key, b.key);
      StringLeTotal(a.tsv, b.tsv);
    }
    forall a: Issue, b: Issue, c: Issue | KeyLe(a, b) && KeyLe(b, c) ensures KeyLe(a, c) {
      KeyLeTransitive(a.key, b.key, c.key, a.tsv, b.tsv, c.tsv);
    }
  }

  predicate PairLe(k1: string, t1: string, k2: string, t2: string) {
    if k1 == k2 then StringLe(t1, t2) else StringLe(k1, k2)
  }

  lemma KeyLeTransitive(k1: string, k2: string, k3: string, t1: string, t2: string, t3: string)
    requires PairLe(k1, t1, k2, t2) && PairLe(k2, t2, k3, t3)
    ensures PairLe(k1, t1, k3, t3)
  {
    if k1 == k2 == k3 {
      StringLeTransitive(t1, t2, t3);
    } else if k1 != k2 && k2 != k3 {
      StringLeTransitive(k1, k2, k3);
      StringLeTotal(k1, k2);
    }
  }

  // ---------------------------------------------------------------- the index in place

  function LevelOf(k: Key): Level {
    if k.year == 0 then NoYear
    else if k.month == 0 then NoMonth
    else if k.day == 0 then NoDay
    else if k.ed == 0 then NoEdition
    else Full
  }

  class Index {
    var issue: IssueMap
    var issueNoEdition: IssueMap
    var issueNoDay: IssueMap
    var issueNoMonth: IssueMap
    var issueNoYear: IssueMap
    ghost var contents: seq<Issue>

    function MapAt(level: Level): IssueMap
      reads this
    {
      match level
      case Full => issue
      case NoEdition => issueNoEdition
      case NoDay => issueNoDay
      case NoMonth => issueNoMonth
      case NoYear => issueNoYear
    }

    ghost predicate Valid()
      reads this
    {
      && AllIndexable(contents)
      && Indexes(issue, contents, Full)
      && Indexes(issueNoEdition, contents, NoEdition)
      && Indexes(issueNoDay, contents, NoDay)
      && Indexes(issueNoMonth, contents, NoMonth)
      && Indexes(issueNoYear, contents, NoYear)
    }

    constructor ()
      ensures Valid() && contents == []
    {
      issue, issueNoEdition, issueNoDay, issueNoMonth, issueNoYear, contents := map[], map[], map[], map[], map[], [];
    }

    method CacheIssueLookup(i: Issue)
      requires Valid() && Indexable(i)
      modifies this
      ensures Valid() && contents == old(contents) + [i]
    {
      AddedIndexes(issue, contents, i, Full);
      AddedIndexes(issueNoEdition, contents, i, NoEdition);
      AddedIndexes(issueNoDay, contents, i, NoDay);
      AddedIndexes(issueNoMonth, contents, i, NoMonth);
      AddedIndexes(issueNoYear, contents, i, NoYear);
      LevelKeysByCutting(i);
      var k := i.key;
      issue := Added(issue, k, i);
      k := k[..|k| - 2];
      issueNoEdition := Added(issueNoEdition, k, i);
      k := k[..|k| - 2];
      issueNoDay := Added(issueNoDay, k, i);
      k := k[..|k| - 2];
      issueNoMonth := Added(issueNoMonth, k, i);
      k := k[..|k| - 5];
      issueNoYear := Added(issueNoYear, k, i);
      contents := contents + [i];
    }

    method Populate(issues: seq<Issue>)
      requires Valid() && AllIndexable(issues)
      modifies this
      ensures Valid() && contents == old(contents) + issues
    {
      for n := 0 to |issues|
        invariant Valid() && contents == old(contents) + issues[..n]
      {
        CacheIssueLookup(issues[n]);
        assert issues[..n + 1] == issues[..n] + [issues[n]];
      }
      assert issues[..|issues|] == issues;
    }

    method Store(level: Level, s: string, sorted: seq<Issue>)
      requires Valid() && s in MapAt(level) && multiset(sorted) == multiset(MapAt(level)[s])
      modifies this
      ensures Valid() && contents == old(contents)
    {
      SortedEntryIndexes(MapAt(level), contents, level, s, sorted);
      match level {
        case Full => issue := issue[s := sorted];
        case NoEdition => issueNoEdition := issueNoEdition[s := sorted];
        case NoDay => issueNoDay := issueNoDay[s := sorted];
        case NoMonth => issueNoMonth := issueNoMonth[s := sorted];
        case NoYear => issueNoYear := issueNoYear[s := sorted];
      }
    }

    /** The entries of one map under one key, sorted; the entry is sorted where it is stored. */
    method SortedEntry(level: Level, s: string) returns (found: seq<Issue>)
      requires Valid()
      modifies this
      ensures Valid() && contents == old(contents)
      ensures multiset(found) == multiset(Select(contents, level, s)) && SortedBy(found, KeyLe)
    {
      var stored := Entry(MapAt(level), s);
      KeyLeOrders(stored);
      found := SortBy(stored, KeyLe);
      assert IndexedAt(MapAt(level), contents, level, s);
      if s in MapAt(level) {
        Store(level, s, found);
      }
    }

    method Issues(k: Key) returns (found: seq<Issue>)
      requires Valid()
      modifies this
      ensures Valid() && contents == old(contents)
      ensures multiset(found) == multiset(Select(contents, LevelOf(k), k.String())) && SortedBy(found, KeyLe)
      ensures forall i, j :: 0 <= i < j < |found| ==> StringLe(found[i].key, found[j].key)
      ensures forall i, j :: 0 <= i < j < |found| ==>
                found[i].key == found[j].key ==> StringLe(found[i].tsv, found[j].tsv)
    {
      found := SortedEntry(LevelOf(k), k.String());
      forall i, j | 0 <= i < j < |found|
        ensures StringLe(found[i].key, found[j].key)
        ensures found[i].key == found[j].key ==> StringLe(found[i].tsv, found[j].tsv)
      {
        assert KeyLe(found[i], found[j]);
        StringLeTotal(found[i].key, found[j].key);
      }
    }
  }

  lemma SortedEntryIndexes(m: IssueMap, issues: seq<Issue>, level: Level, s: string, sorted: seq<Issue>)
    requires AllIndexable(issues) && Indexes(m, issues, level) && s in m && multiset(sorted) == multiset(m[s])
    ensures Indexes(m[s := sorted], issues, level)
  {
    var m' := m[s := sorted];
    forall t: string ensures IndexedAt(m', issues, level, t) {
      assert IndexedAt(m, issues, level, t);
    }
  }

  lemma LevelKeysByCutting(i: Issue)
    requires Indexable(i)
    ensures var k := i.key;
            && LevelKey(i, Full) == k
            && LevelKey(i, NoEdition) == k[..|k| - 2]
            && LevelKey(i, NoDay) == k[..|k| - 2][..|k| - 4]
            && LevelKey(i, NoMonth) == k[..|k| - 2][..|k| - 4][..|k| - 6]
            && LevelKey(i, NoYear) == k[..|k| - 2][..|k| - 4][..|k| - 6][..|k| - 11]
  {
    var k := i.key;
    assert k[..|k| - 2][..|k| - 4] == k[..|k| - 4];
    assert k[..|k| - 4][..|k| - 6] == k[..|k| - 6];
    assert k[..|k| - 6][..|k| - 11] == k[..|k| - 11];
  }

  // ---------------------------------------------------------------- the index agrees with a scan

  /** An issue with a ten-character date and a two-digit edition. */
  predicate Dated(i: Issue) {
    Keyed(i) && DateForm(i.rawDate) && i.edition <= 99
  }

  predicate AllDated(issues: seq<Issue>) {
    forall i <- issues :: Dated(i)
  }

  /** What a search key asks for: its LCCN, and each of its parts that is not 0. */
  predicate Matches(i: Issue, k: Key)
    requires DateForm(i.rawDate)
  {
    && i.lccn == k.lccn
    && (k.year == 0 || Value(i.rawDate[..4]) == k.year)
    && (k.month == 0 || Value(i.rawDate[5..7]) == k.month)
    && (k.day == 0 || Value(i.rawDate[8..10]) == k.day)
    && (k.ed == 0 || i.edition == k.ed)
  }

  /** A plain scan. */
  function Scan(issues: seq<Issue>, k: Key): seq<Issue>
    requires AllDated(issues)
  {
    if issues == [] then []
    else
      var i := issues[|issues| - 1];
      assert i in issues;
      Scan(issues[..|issues| - 1], k) + if Matches(i, k) then [i] else []
  }

  /** The date and edition part of a key, as far as the level goes. */
  function LevelDigits(level: Level, y: string, m: string, d: string, e: string): string {
    match level
    case Full => y + m + d + e
    case NoEdition => y + m + d
    case NoDay => y + m
    case NoMonth => y
    case NoYear => ""
  }

  function LevelString(level: Level, lccn: string, digits: string): string {
    if level == NoYear then lccn else lccn + ("/" + digits)
  }

  lemma CutKey(lccn: string, y: string, m: string, d: string, e: string, level: Level)
    requires |y| == 4 && |m| == |d| == |e| == 2
    ensures var key := lccn + "/" + (y + m + d + e);
            |key| >= 11 && key[..|key| - level.Cut()] == LevelString(level, lccn, LevelDigits(level, y, m, d, e))
  {
    var key := lccn + "/" + (y + m + d + e);
    var rest := LevelString(level, lccn, LevelDigits(level, y, m, d, e));
    assert |rest| == |key| - level.Cut();
    assert forall k :: 0 <= k < |rest| ==> key[k] == rest[k];
  }

  lemma LevelKeyOf(i: Issue, level: Level)
    requires Dated(i)
    ensures Indexable(i)
    ensures LevelKey(i, level)
         == LevelString(level, i.lccn, LevelDigits(level, i.rawDate[..4], i.rawDate[5..7], i.rawDate[8..10],
             Pad(i.edition, 2)))
  {
    var y, m, d, e := i.rawDate[..4], i.rawDate[5..7], i.rawDate[8..10], Pad(i.edition, 2);
    CondensedForm(i.rawDate);
    PadLength(i.edition, 2);
    assert i.key == i.lccn + "/" + (y + m + d + e);
    CutKey(i.lccn, y, m, d, e, level);
  }

  lemma KeyStringOf(k: Key)
    requires ZeroSuffix(k)
    ensures k.String() == LevelString(LevelOf(k), k.lccn,
          LevelDigits(LevelOf(k), Pad(k.year, 4), Pad(k.month, 2), Pad(k.day, 2), Pad(k.ed, 2)))
  {
    Regroup(k.lccn, Pad(k.year, 4), Pad(k.month, 2), Pad(k.day, 2), Pad(k.ed, 2));
  }

  lemma Regroup(l: string, y: string, m: string, d: string, e: string)
    ensures l + ("/" + y) + "" + "" + "" == l + ("/" + y)
    ensures l + ("/" + y) + m + "" + "" == l + ("/" + (y + m))
    ensures l + ("/" + y) + m + d + "" == l + ("/" + (y + m + d))
    ensures l + ("/" + y) + m + d + e == l + ("/" + (y + m + d + e))
    ensures l + "" + "" + "" + "" == l
  {
  }

  /** A text that ends in a slash and digits can be split at that slash in one way only. */
  lemma SlashSplit(a: string, b: string, s: string, t: string)
    requires AllDigits(s) && AllDigits(t)
    ensures a + ("/" + s) == b + ("/" + t) <==> a == b && s == t
  {
    var u, v := a + ("/" + s), b + ("/" + t);
    assert u[|a|] == '/' && v[|b|] == '/';
    assert forall k :: |a| < k < |u| ==> u[k] == s[k - |a| - 1] && IsDigit(u[k]);
    assert forall k :: |b| < k < |v| ==> v[k] == t[k - |b| - 1] && IsDigit(v[k]);
    if u == v {
      assert |a| == |b|;
      assert a == u[..|a|] && b == v[..|a|];
      assert s == u[|a| + 1..] && t == v[|a| + 1..];
    }
  }

  lemma PartsEqual(a: string, b: string, s: string, t: string)
    requires |a| <= |s| && |b| <= |t|
    ensures a + b == s + t <==> a == s && b == t
  {
    if a + b == s + t {
      assert |a| == |s| && |b| == |t|;
      assert a == (a + b)[..|a|] && s == (s + t)[..|a|];
      assert b == (a + b)[|a|..] && t == (s + t)[|a|..];
    }
  }

  lemma PadIs(s: string, n: nat)
    requires IsNumber(s)
    ensures s == Pad(n, |s|) <==> Value(s) == n
  {
    PadOfValue(s);
  }

  /** The digits of an issue and of a search key agree exactly when the numbers do. */
  lemma DigitsAgree(level: Level, y: string, m: string, d: string, e: string, year: nat, month: nat, day: nat, ed: nat)
    requires IsNumber(y) && IsNumber(m) && IsNumber(d) && IsNumber(e) && |y| == 4 && |m| == |d| == |e| == 2
    ensures LevelDigits(level, y, m, d, e) == LevelDigits(level, Pad(year, 4), Pad(month, 2), Pad(day, 2), Pad(ed, 2))
            <==> (level != NoYear ==> Value(y) == year) && (level in {Full, NoEdition, NoDay} ==> Value(m) == month)
                 && (level in {Full, NoEdition} ==> Value(d) == day) && (level == Full ==> Value(e) == ed)
  {
    var y', m', d', e' := Pad(year, 4), Pad(month, 2), Pad(day, 2), Pad(ed, 2);
    PadIs(y, year);
    PadIs(m, month);
    PadIs(d, day);
    PadIs(e, ed);
    PartsEqual(y, m, y', m');
    PartsEqual(y + m, d, y' + m', d');
    PartsEqual(y + m + d, e, y' + m' + d', e');
  }

  lemma DigitsOfLevel(level: Level, y: string, m: string, d: string, e: string)
    requires AllDigits(y) && AllDigits(m) && AllDigits(d) && AllDigits(e)
    ensures AllDigits(LevelDigits(level, y, m, d, e))
  {
  }

  /** The index key of an issue is the text of a search key exactly when the issue matches it. */
  lemma IndexKeyMatches(i: Issue, k: Key)
    requires Dated(i) && ZeroSuffix(k)
    ensures Indexable(i) && (LevelKey(i, LevelOf(k)) == k.String() <==> Matches(i, k))
  {
    var level := LevelOf(k);
    var y, m, d, e := i.rawDate[..4], i.rawDate[5..7], i.rawDate[8..10], Pad(i.edition, 2);
    LevelKeyOf(i, level);
    KeyStringOf(k);
    PadLength(i.edition, 2);
    DigitsOfLevel(level, y, m, d, e);
    DigitsOfLevel(level, Pad(k.year, 4), Pad(k.month, 2), Pad(k.day, 2), Pad(k.ed, 2));
    SlashSplit(i.lccn, k.lccn, LevelDigits(level, y, m, d, e),
        LevelDigits(level, Pad(k.year, 4), Pad(k.month, 2), Pad(k.day, 2), Pad(k.ed, 2)));
    DigitsAgree(level, y, m, d, e, k.year, k.month, k.day, k.ed);
    LevelParts(k);
  }

  lemma LevelParts(k: Key)
    requires ZeroSuffix(k)
    ensures LevelOf(k) != NoYear <==> k.year != 0
    ensures LevelOf(k) in {Full, NoEdition, NoDay} <==> k.month != 0
    ensures LevelOf(k) in {Full, NoEdition} <==> k.day != 0
    ensures LevelOf(k) == Full <==> k.ed != 0
  {
  }

  /** Looking a search key up in the index finds exactly what a scan of all issues would find. */
  lemma {:induction false} IndexEqualsScan(issues: seq<Issue>, k: Key)
    requires AllDated(issues) && ZeroSuffix(k)
    ensures AllIndexable(issues) && Select(issues, LevelOf(k), k.String()) == Scan(issues, k)
    decreases |issues|
  {
    if issues != [] {
      var front, i := issues[..|issues| - 1], issues[|issues| - 1];
      assert issues == front + [i];
      assert i in issues && forall j <- front :: j in issues;
      IndexEqualsScan(front, k);
      IndexKeyMatches(i, k);
      SelectAppend(front, i, LevelOf(k), k.String());
    }
  }
}
