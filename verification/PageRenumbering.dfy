/** Renaming the pages of a directory in place to 0001, 0002, ... (src/jobs/renumber_pages.go). */
module PageRenumbering {
  import opened Decimal
  import opened FileTree
  import opened FileMoves
  import opened Sequences
  import opened Text

  /** A listed file, as the job looks at it: `ext` is the extension a page is given, "" for other files. */
  datatype Entry = Entry(name: string, prefix: string, ext: string)
  {
    predicate IsPage() {
      ext != ""
    }
  }

  /** splitExt, and the test for source PDFs and TIFFs. */
  function Look(name: string): Entry {
    var ext := Ext(name);
    var lower := Lower(ext);
    Entry(name, name[..|name| - |ext|], if lower in {".pdf", ".tif", ".tiff"} then lower[..4] else "")
  }

  function LookAll(names: seq<string>): seq<Entry> {
    seq(|names|, i requires 0 <= i < |names| => Look(names[i]))
  }

  function NamesOf(es: seq<Entry>): seq<string> {
    seq(|es|, i requires 0 <= i < |es| => es[i].name)
  }

  function Position(s: seq<string>, p: string): (k: nat)
    requires p in s
    ensures k < |s| && s[k] == p
  {
    if s[|s| - 1] == p then |s| - 1 else Position(s[..|s| - 1], p)
  }

  /** The page prefixes among the first n entries, in first-seen order. */
  function Seen(es: seq<Entry>, n: nat): seq<string>
    requires n <= |es|
  {
    if n == 0 then []
    else
      var s := Seen(es, n - 1);
      if es[n - 1].IsPage() && es[n - 1].prefix !in s then s + [es[n - 1].prefix] else s
  }

  /** The prefixes seen are distinct and are those of the pages; looking further only adds to them. */
  lemma {:induction false} SeenFacts(es: seq<Entry>, n: nat, m: nat)
    requires n <= m <= |es|
    ensures Unique(Seen(es, m)) && Seen(es, n) <= Seen(es, m)
    ensures forall i :: 0 <= i < m && es[i].IsPage() ==> es[i].prefix in Seen(es, m)
    decreases m
  {
    if 0 < m {
      SeenFacts(es, if n == m then m - 1 else n, m - 1);
    }
  }

  /** Every prefix seen is a page's. */
  lemma {:induction false} SeenIsAPage(es: seq<Entry>, n: nat, k: nat) returns (i: nat)
    requires n <= |es| && k < |Seen(es, n)|
    ensures i < n && es[i].IsPage() && es[i].prefix == Seen(es, n)[k]
  {
    if k < |Seen(es, n - 1)| {
      i := SeenIsAPage(es, n - 1, k);
    } else {
      i := n - 1;
    }
  }

  /** The number page i is given: the place of its prefix in first-seen order. */
  function Number(es: seq<Entry>, i: nat): nat
    requires i < |es| && es[i].IsPage()
  {
    SeenFacts(es, i, |es|);
    Position(Seen(es, |es|), es[i].prefix) + 1
  }

  function PageName(number: nat, ext: string): string {
    Pad(number, 4) + ext
  }

  /** The name entry i is given. */
  function NewName(es: seq<Entry>, i: nat): string
    requires i < |es|
  {
    if es[i].IsPage() then PageName(Number(es, i), es[i].ext) else es[i].name
  }

  function NewNames(es: seq<Entry>): seq<string> {
    seq(|es|, i requires 0 <= i < |es| => NewName(es, i))
  }

  /** The map the job keeps: every prefix seen so far with its number. */
  ghost predicate Numbers(s: seq<string>, m: map<string, nat>) {
    && |m| == |s|
    && (forall k :: 0 <= k < |s| ==> s[k] in m && m[s[k]] == k + 1)
    && (forall p {:trigger Listed(s, p)} | p in m :: Listed(s, p))
  }

  lemma AddedNumber(s: seq<string>, m: map<string, nat>, p: string)
    requires Numbers(s, m) && p !in m
    ensures p !in s && Numbers(s + [p], m[p := |m| + 1])
  {
    var s', m' := s + [p], m[p := |m| + 1];
    forall q | q in m' ensures Listed(s', q) {
      if q == p {
        assert s'[|s|] == p;
      } else {
        assert Listed(s, q);
        var k :| 0 <= k < |s| && s[k] == q;
        assert s'[k] == q;
      }
    }
  }

  /** The map after looking at one more entry. */
  function Learned(m: map<string, nat>, e: Entry): map<string, nat> {
    if e.IsPage() && e.prefix !in m then m[e.prefix := |m| + 1] else m
  }

  lemma SeenStep(es: seq<Entry>, i: nat, m: map<string, nat>)
    requires i < |es| && Numbers(Seen(es, i), m)
    ensures Numbers(Seen(es, i + 1), Learned(m, es[i]))
    ensures |Learned(m, es[i])| == if es[i].IsPage() && es[i].prefix !in m then |m| + 1 else |m|
  {
    var p := es[i].prefix;
    if p in m {
      assert Listed(Seen(es, i), p);
    } else {
      AddedNumber(Seen(es, i), m, p);
    }
  }

  /** The number in the map is the final one. */
  lemma NumberIsFinal(es: seq<Entry>, i: nat, m: map<string, nat>)
    requires i < |es| && es[i].IsPage() && Numbers(Seen(es, i + 1), m)
    ensures es[i].prefix in m && m[es[i].prefix] == Number(es, i)
  {
    SeenFacts(es, i + 1, i + 1);
    SeenFacts(es, i + 1, |es|);
    var k := Position(Seen(es, i + 1), es[i].prefix);
    var l := Position(Seen(es, |es|), es[i].prefix);
    assert Seen(es, |es|)[k] == Seen(es, |es|)[l];
  }

  lemma RenameStep(f: Folder, es: seq<Entry>, i: nat)
    requires i < |es|
    ensures var before := MoveUpTo(f, NamesOf(es), NewNames(es), i);
            MoveUpTo(f, NamesOf(es), NewNames(es), i + 1)
            == if es[i].IsPage() then Moved(before, es[i].name, PageName(Number(es, i), es[i].ext)) else before
  {
  }

  /** Dealing with one entry: `after` is the map once it was looked at. */
  lemma LoopStep(f: Folder, es: seq<Entry>, i: nat, m: map<string, nat>, after: map<string, nat>)
    requires i < |es| && Numbers(Seen(es, i), m) && after == Learned(m, es[i])
    ensures Numbers(Seen(es, i + 1), after)
    ensures |after| == if es[i].IsPage() && es[i].prefix !in m then |m| + 1 else |m|
    ensures es[i].IsPage() ==> es[i].prefix in after
    ensures var before := MoveUpTo(f, NamesOf(es), NewNames(es), i);
            MoveUpTo(f, NamesOf(es), NewNames(es), i + 1)
            == if es[i].IsPage() then Moved(before, es[i].name, PageName(after[es[i].prefix], es[i].ext)) else before
  {
    SeenStep(es, i, m);
    RenameStep(f, es, i);
    if es[i].IsPage() {
      NumberIsFinal(es, i, after);
    }
  }

  class Directory {
    var files: Folder

    constructor (files: Folder)
      ensures this.files == files
    {
      this.files := files;
    }

    /** The loop over the listing; the rename of entry failAt, when there is one, fails. */
    method Renumber(es: seq<Entry>, failAt: nat) returns (ok: bool)
      modifies this
      ensures ok <==> (failAt < |es| ==> !es[failAt].IsPage())
      ensures files == MoveUpTo(old(files), NamesOf(es), NewNames(es), if ok then |es| else failAt)
    {
      ghost var src, dst := NamesOf(es), NewNames(es);
      var prefixMap: map<string, nat> := map[];
      var num := 1;
      for i := 0 to |es|
        invariant Numbers(Seen(es, i), prefixMap) && num == |prefixMap| + 1
        invariant files == MoveUpTo(old(files), src, dst, i)
        invariant failAt < i ==> !es[failAt].IsPage()
      {
        var file := es[i];
        ghost var before := prefixMap;
        if !file.IsPage() {
          LoopStep(old(files), es, i, before, prefixMap);
          continue;
        }
        if file.prefix !in prefixMap {
          prefixMap := prefixMap[file.prefix := num];
          num := num + 1;
        }
        LoopStep(old(files), es, i, before, prefixMap);
        if i == failAt {
          return false;
        }
        files := Moved(files, file.name, PageName(prefixMap[file.prefix], file.ext));
      }
      return true;
    }

    /** `names` is the directory's listing. */
    method Process(names: seq<string>, failAt: nat) returns (ok: bool)
      requires Lists(files, names)
      modifies this
      ensures ok <==> names != [] && (failAt < |names| ==> !Look(names[failAt]).IsPage())
      ensures names != [] ==> files == MoveUpTo(old(files), names, NewNames(LookAll(names)), if ok then |names|
            else failAt)
      ensures names == [] ==> files == old(files)
    {
      if names == [] {
        return false;
      }
      assert NamesOf(LookAll(names)) == names;
      ok := Renumber(LookAll(names), failAt);
    }
  }

  // ---------------------------------------------------------------- which files share a number

  /** Two pages share a number exactly when they share a prefix. */
  lemma SameNumberSamePrefix(es: seq<Entry>, i: nat, j: nat)
    requires i < |es| && j < |es| && es[i].IsPage() && es[j].IsPage()
    ensures Number(es, i) == Number(es, j) <==> es[i].prefix == es[j].prefix
  {
  }

  /** The numbers given are 1 to the number of prefixes, without gaps. */
  lemma EveryNumberIsUsed(es: seq<Entry>, number: nat) returns (i: nat)
    requires 1 <= number <= |Seen(es, |es|)|
    ensures i < |es| && es[i].IsPage() && Number(es, i) == number
  {
    i := SeenIsAPage(es, |es|, number - 1);
    SeenFacts(es, |es|, |es|);
  }

  // ---------------------------------------------------------------- listings in page order

  /** The number a prefix stands for; 0 when it is not a number. */
  function PageValue(prefix: string): nat {
    if IsNumber(prefix) then Value(prefix) else 0
  }

  /** The two are alike but for numbers at their ends, which have equally many digits. */
  predicate CountsUp(x: string, y: string, k: nat) {
    && k <= |x| == |y| && x[..k] == y[..k]
    && IsNumber(x[k..]) && IsNumber(y[k..]) && Value(x[k..]) < Value(y[k..])
  }

  /** Prefix x comes before y in any numeric sort: 2 before 0010, gray0356 before gray0357. */
  ghost predicate Precedes(x: string, y: string) {
    0 < PageValue(x) < PageValue(y) || exists k :: CountsUp(x, y, k)
  }

  /** The order a numeric sort lists files in. */
  ghost predicate NumericallySorted(es: seq<Entry>) {
    forall i, j :: 0 <= i < j < |es| && es[i].IsPage() && es[j].IsPage() ==> !Precedes(es[j].prefix, es[i].prefix)
  }

  /** For prefixes that are all positive numbers: in ascending order of the numbers. */
  ghost predicate InPageOrder(es: seq<Entry>) {
    forall i, j :: 0 <= i < j < |es| && es[i].IsPage() && es[j].IsPage() ==>
        PageValue(es[i].prefix) <= PageValue(es[j].prefix)
  }

  lemma PrecedesIsLess(x: string, y: string)
    requires PageValue(x) > 0 && PageValue(y) > 0
    ensures Precedes(x, y) <==> PageValue(x) < PageValue(y)
  {
    if k :| CountsUp(x, y, k) {
      TailsOrder(x, y, k);
    }
  }

  lemma SortedExactly(es: seq<Entry>)
    requires forall i :: 0 <= i < |es| && es[i].IsPage() ==> PageValue(es[i].prefix) > 0
    ensures NumericallySorted(es) <==> InPageOrder(es)
  {
    forall i, j | 0 <= i < j < |es| && es[i].IsPage() && es[j].IsPage()
      ensures Precedes(es[j].prefix, es[i].prefix) <==> PageValue(es[j].prefix) < PageValue(es[i].prefix)
    {
      PrecedesIsLess(es[j].prefix, es[i].prefix);
    }
  }

  /** A prefix that comes before another gets the smaller number. */
  lemma {:induction false} SeenIsSorted(es: seq<Entry>, n: nat, j: nat, k: nat)
    requires NumericallySorted(es) && n <= |es| && j < k < |Seen(es, n)|
    ensures !Precedes(Seen(es, n)[k], Seen(es, n)[j])
  {
    if k < |Seen(es, n - 1)| {
      SeenIsSorted(es, n - 1, j, k);
    } else {
      var i := SeenIsAPage(es, n - 1, j);
    }
  }

  lemma EarlierIsSmaller(es: seq<Entry>, i: nat, j: nat)
    requires NumericallySorted(es) && i < |es| && j < |es| && es[i].IsPage() && es[j].IsPage()
    requires Precedes(es[i].prefix, es[j].prefix)
    ensures Number(es, i) < Number(es, j)
  {
    if Number(es, j) < Number(es, i) {
      SeenIsSorted(es, |es|, Number(es, j) - 1, Number(es, i) - 1);
    }
  }

  /** Page prefixes are positive numbers, each number is written in one way only, and no two files share prefix
      and extension. */
  ghost predicate Consistent(es: seq<Entry>) {
    && (forall i :: 0 <= i < |es| && es[i].IsPage() ==> PageValue(es[i].prefix) > 0)
    && (forall i, j | 0 <= i < j < |es| && es[i].IsPage() && es[j].IsPage() ::
          PageValue(es[i].prefix) == PageValue(es[j].prefix) ==> es[i].prefix == es[j].prefix && es[i].ext != es[j].ext)
  }

  predicate Looked(e: Entry) {
    Look(e.name) == e
  }

  /** The listing of a folder, looked at. */
  ghost predicate ListingOf(f: Folder, es: seq<Entry>) {
    Lists(f, NamesOf(es)) && forall i {:trigger Looked(es[i])} | 0 <= i < |es| :: Looked(es[i])
  }

  predicate Ascending(s: seq<string>) {
    && (forall k :: 0 <= k < |s| ==> PageValue(s[k]) > 0)
    && (forall j, k :: 0 <= j < k < |s| ==> PageValue(s[j]) < PageValue(s[k]))
  }

  lemma {:induction false} SeenAscends(es: seq<Entry>, n: nat)
    requires InPageOrder(es) && Consistent(es) && n <= |es|
    ensures Ascending(Seen(es, n))
  {
    if n > 0 {
      SeenAscends(es, n - 1);
      var s := Seen(es, n - 1);
      if es[n - 1].IsPage() && es[n - 1].prefix !in s {
        forall k | 0 <= k < |s| ensures PageValue(s[k]) < PageValue(es[n - 1].prefix) {
          var i := SeenIsAPage(es, n - 1, k);
          assert es[i].IsPage() && es[n - 1].IsPage();
        }
      }
    }
  }

  lemma {:induction false} AtLeastPlace(s: seq<string>, k: nat)
    requires Ascending(s) && k < |s|
    ensures k + 1 <= PageValue(s[k])
  {
    if k > 0 {
      AtLeastPlace(s, k - 1);
    }
  }

  lemma NumberAtMostValue(es: seq<Entry>, i: nat)
    requires InPageOrder(es) && Consistent(es) && i < |es| && es[i].IsPage()
    ensures Number(es, i) <= PageValue(es[i].prefix)
  {
    SeenAscends(es, |es|);
    AtLeastPlace(Seen(es, |es|), Number(es, i) - 1);
  }

  lemma ExtOfDotted(prefix: string, a: char, b: char, c: char)
    requires a != '.' && b != '.' && c != '.'
    ensures Ext(prefix + ['.', a, b, c]) == ['.', a, b, c]
  {
    var s := prefix + ['.', a, b, c];
    var n := |prefix|;
    assert s[..n + 3] == prefix + ['.', a, b];
    assert (prefix + ['.', a, b])[..n + 2] == prefix + ['.', a];
    assert (prefix + ['.', a])[..n + 1] == prefix + ['.'];
    assert Ext(prefix + ['.']) == ".";
    assert Ext(prefix + ['.', a]) == ['.', a];
    assert Ext(prefix + ['.', a, b]) == ['.', a, b];
  }

  lemma PageExtensions(e: Entry)
    requires Looked(e)
    ensures e.ext in {"", ".pdf", ".tif"}
  {
    var lower := Lower(Ext(e.name));
    if lower in {".pdf", ".tif"} {
      assert lower[..4] == lower;
    } else if lower == ".tiff" {
      assert lower[..4] == ".tif";
    }
  }

  lemma ExtOfPrefixed(prefix: string, ext: string)
    requires ext in {".pdf", ".tif"}
    ensures Ext(prefix + ext) == ext
  {
    ExtOfDotted(prefix, ext[1], ext[2], ext[3]);
    assert ext == ['.', ext[1], ext[2], ext[3]];
  }

  lemma LookAtPrefixed(prefix: string, ext: string)
    requires ext in {".pdf", ".tif"}
    ensures Look(prefix + ext) == Entry(prefix + ext, prefix, ext)
  {
    var name := prefix + ext;
    ExtOfPrefixed(prefix, ext);
    assert name[..|name| - |ext|] == prefix && Lower(ext) == ext && ext[..4] == ext;
  }

  /** How the job would look at a name it has given itself. */
  lemma LookAtNewName(number: nat, ext: string)
    requires ext in {".pdf", ".tif"}
    ensures Looked(Entry(PageName(number, ext), Pad(number, 4), ext))
    ensures PageValue(Pad(number, 4)) == number
  {
    LookAtPrefixed(Pad(number, 4), ext);
  }

  // ---------------------------------------------------------------- a run on an orderly directory

  lemma NameTellsEntry(a: Entry, b: Entry)
    requires Looked(a) && Looked(b)
    ensures a.name == b.name <==> a == b
  {
  }

  /** Entry i under its new name, as the job would look at it. */
  function Result(es: seq<Entry>, i: nat): Entry
    requires i < |es|
  {
    if es[i].IsPage() then Entry(NewName(es, i), Pad(Number(es, i), 4), es[i].ext) else es[i]
  }

  lemma ResultLooked(f: Folder, es: seq<Entry>, i: nat)
    requires ListingOf(f, es) && i < |es|
    ensures Looked(Result(es, i)) && Result(es, i).name == NewName(es, i)
    ensures es[i].IsPage() ==> PageValue(Result(es, i).prefix) == Number(es, i)
  {
    assert Looked(es[i]);
    if es[i].IsPage() {
      PageExtensions(es[i]);
      LookAtNewName(Number(es, i), es[i].ext);
    }
  }

  /** Two entries never get the same name. */
  lemma NewNamesDiffer(f: Folder, es: seq<Entry>, i: nat, j: nat)
    requires ListingOf(f, es) && Consistent(es) && i < j < |es|
    ensures NewName(es, i) != NewName(es, j)
  {
    ResultLooked(f, es, i);
    ResultLooked(f, es, j);
    assert NamesOf(es)[i] != NamesOf(es)[j];
    if es[i].IsPage() && es[j].IsPage() {
      SameNumberSamePrefix(es, i, j);
    }
    assert Result(es, i) != Result(es, j);
    NameTellsEntry(Result(es, i), Result(es, j));
  }

  /** A page's new name is not the name of a later file. */
  lemma NewNameIsNotLater(f: Folder, es: seq<Entry>, i: nat, j: nat)
    requires ListingOf(f, es) && Consistent(es) && InPageOrder(es) && i < j < |es|
    ensures NewName(es, i) != es[j].name
  {
    ResultLooked(f, es, i);
    assert Looked(es[j]);
    assert NamesOf(es)[i] != NamesOf(es)[j];
    if es[i].IsPage() {
      NumberAtMostValue(es, i);
    }
    assert Result(es, i) != es[j];
    NameTellsEntry(Result(es, i), es[j]);
  }

  lemma OrderlyIsFree(f: Folder, es: seq<Entry>)
    requires ListingOf(f, es) && Consistent(es) && InPageOrder(es)
    ensures TargetsFree(NamesOf(es), NewNames(es))
  {
    forall i, j | 0 <= i < j < |es| ensures NewName(es, i) != NewName(es, j) && NewName(es, i) != es[j].name {
      NewNamesDiffer(f, es, i, j);
      NewNameIsNotLater(f, es, i, j);
    }
  }

  /** On an orderly listing no rename replaces a file, and any part of the run keeps every file and its content. */
  lemma OrderlyRunLosesNothing(f: Folder, es: seq<Entry>, n: nat)
    requires ListingOf(f, es) && Consistent(es) && InPageOrder(es) && n <= |es|
    ensures NoneClobber(f, NamesOf(es), NewNames(es), n)
    ensures Placed(f, NamesOf(es), Mixed(NamesOf(es), NewNames(es), n), MoveUpTo(f, NamesOf(es), NewNames(es), n))
  {
    OrderlyIsFree(f, es);
    FreeNeverClobbers(f, NamesOf(es), NewNames(es), n);
    FreeKeepsEveryFile(f, NamesOf(es), NewNames(es), n);
  }

  /** No file is given the name of a derivative. */
  lemma NewNameIsNoDerivative(f: Folder, es: seq<Entry>, i: nat)
    requires ListingOf(f, es) && i < |es| && !IsDerivative(es[i].name)
    ensures !IsDerivative(NewName(es, i))
  {
    assert Looked(es[i]);
    if es[i].IsPage() {
      PageExtensions(es[i]);
      ExtOfPrefixed(Pad(Number(es, i), 4), es[i].ext);
    }
  }

  // ---------------------------------------------------------------- a second run

  ghost predicate UsesExactly(s: seq<string>, m: nat) {
    && (forall k :: 0 <= k < |s| ==> PageValue(s[k]) <= m)
    && (forall v :: 1 <= v <= m ==> Uses(s, v))
  }

  ghost predicate Uses(s: seq<string>, v: nat) {
    exists k :: 0 <= k < |s| && PageValue(s[k]) == v
  }

  /** Ascending numbers that use exactly 1 to m are 1 to m. */
  lemma {:induction false} ExactPlace(s: seq<string>, m: nat, k: nat)
    requires Ascending(s) && UsesExactly(s, m) && k < |s|
    ensures PageValue(s[k]) == k + 1
  {
    AtLeastPlace(s, k);
    assert Uses(s, k + 1);
    var q :| 0 <= q < |s| && PageValue(s[q]) == k + 1;
    if q < k {
      ExactPlace(s, m, q);
    }
  }

  /** A page as the job names it, with a number up to m. */
  predicate NewPage(e: Entry, m: nat) {
    var v := PageValue(e.prefix);
    1 <= v <= m && e.prefix == Pad(v, 4) && e.name == PageName(v, e.ext)
  }

  /** A listing of a directory in which every page has the job's name for it, and 1 to m are all used. */
  ghost predicate Renumbered(es: seq<Entry>, m: nat) {
    && Unique(NamesOf(es))
    && (forall j {:trigger NewPage(es[j], m)} | 0 <= j < |es| && es[j].IsPage() :: NewPage(es[j], m))
    && (forall v {:trigger Uses(Seen(es, |es|), v)} | 1 <= v <= m :: Uses(Seen(es, |es|), v))
  }

  lemma ResultIsNewPage(f: Folder, es: seq<Entry>, i: nat)
    requires ListingOf(f, es) && i < |es| && es[i].IsPage()
    ensures NewPage(Result(es, i), |Seen(es, |es|)|)
  {
    ResultLooked(f, es, i);
  }

  lemma ResultPage(f: Folder, es: seq<Entry>, g: Folder, after: seq<Entry>, j: nat)
    requires ListingOf(f, es) && ListingOf(g, after) && Placed(f, NamesOf(es), NewNames(es), g)
    requires j < |after| && after[j].IsPage()
    ensures NewPage(after[j], |Seen(es, |es|)|)
  {
    var dst := NewNames(es);
    assert NamesOf(after)[j] in g && Listed(dst, NamesOf(after)[j]);
    var i :| 0 <= i < |dst| && dst[i] == NamesOf(after)[j];
    ResultLooked(f, es, i);
    assert Looked(after[j]);
    NameTellsEntry(Result(es, i), after[j]);
    ResultIsNewPage(f, es, i);
  }

  lemma SeenUses(es: seq<Entry>, j: nat)
    requires j < |es| && es[j].IsPage()
    ensures Uses(Seen(es, |es|), PageValue(es[j].prefix))
  {
    SeenFacts(es, |es|, |es|);
    assert Seen(es, |es|)[Position(Seen(es, |es|), es[j].prefix)] == es[j].prefix;
  }

  lemma ResultUses(f: Folder, es: seq<Entry>, g: Folder, after: seq<Entry>, v: nat)
    requires ListingOf(f, es) && ListingOf(g, after) && Placed(f, NamesOf(es), NewNames(es), g)
    requires 1 <= v <= |Seen(es, |es|)|
    ensures Uses(Seen(after, |after|), v)
  {
    var i := EveryNumberIsUsed(es, v);
    var now := NamesOf(after);
    assert NewNames(es)[i] in g && Listed(now, NewName(es, i));
    var j :| 0 <= j < |now| && now[j] == NewName(es, i);
    ResultLooked(f, es, i);
    assert Looked(after[j]);
    NameTellsEntry(Result(es, i), after[j]);
    SeenUses(after, j);
  }

  lemma ResultIsRenumbered(f: Folder, es: seq<Entry>, g: Folder, after: seq<Entry>)
    requires ListingOf(f, es) && ListingOf(g, after) && Placed(f, NamesOf(es), NewNames(es), g)
    ensures Renumbered(after, |Seen(es, |es|)|)
  {
    forall j | 0 <= j < |after| && after[j].IsPage() ensures NewPage(after[j], |Seen(es, |es|)|) {
      ResultPage(f, es, g, after, j);
    }
    forall v | 1 <= v <= |Seen(es, |es|)| ensures Uses(Seen(after, |after|), v) {
      ResultUses(f, es, g, after, v);
    }
  }

  lemma RenumberedPair(a: Entry, b: Entry, m: nat)
    requires NewPage(a, m) && NewPage(b, m) && a.name != b.name && PageValue(a.prefix) == PageValue(b.prefix)
    ensures a.prefix == b.prefix && a.ext != b.ext
  {
  }

  lemma RenumberedIsConsistent(es: seq<Entry>, m: nat)
    requires Renumbered(es, m)
    ensures Consistent(es)
  {
    forall i | 0 <= i < |es| && es[i].IsPage() ensures PageValue(es[i].prefix) > 0 {
      assert NewPage(es[i], m);
    }
    forall i, j | 0 <= i < j < |es| && es[i].IsPage() && es[j].IsPage()
        && PageValue(es[i].prefix) == PageValue(es[j].prefix)
      ensures es[i].prefix == es[j].prefix && es[i].ext != es[j].ext
    {
      assert NewPage(es[i], m) && NewPage(es[j], m) && NamesOf(es)[i] != NamesOf(es)[j];
      RenumberedPair(es[i], es[j], m);
    }
  }

  lemma RenumberedUsesExactly(es: seq<Entry>, m: nat)
    requires Renumbered(es, m)
    ensures UsesExactly(Seen(es, |es|), m)
  {
    var s := Seen(es, |es|);
    forall k | 0 <= k < |s| ensures PageValue(s[k]) <= m {
      var j := SeenIsAPage(es, |es|, k);
      assert NewPage(es[j], m);
    }
  }

  lemma RenumberedKeepsName(es: seq<Entry>, m: nat, j: nat)
    requires Ascending(Seen(es, |es|)) && UsesExactly(Seen(es, |es|), m)
    requires j < |es| && es[j].IsPage() && NewPage(es[j], m)
    ensures NewName(es, j) == es[j].name
  {
    ExactPlace(Seen(es, |es|), m, Number(es, j) - 1);
  }

  lemma RenumberedKeepsNames(es: seq<Entry>, m: nat)
    requires Renumbered(es, m) && InPageOrder(es)
    ensures NewNames(es) == NamesOf(es)
  {
    RenumberedIsConsistent(es, m);
    SeenAscends(es, |es|);
    RenumberedUsesExactly(es, m);
    forall j | 0 <= j < |es| ensures NewName(es, j) == es[j].name {
      if es[j].IsPage() {
        RenumberedKeepsName(es, m, j);
      }
    }
  }

  /** A second run changes nothing, in whatever order a numeric sort lists the renumbered files. */
  lemma SecondRunChangesNothing(f: Folder, es: seq<Entry>, after: seq<Entry>, n: nat)
    requires ListingOf(f, es) && Consistent(es) && InPageOrder(es)
    requires ListingOf(MoveUpTo(f, NamesOf(es), NewNames(es), |es|), after) && InPageOrder(after) && n <= |after|
    ensures var g := MoveUpTo(f, NamesOf(es), NewNames(es), |es|);
            MoveUpTo(g, NamesOf(after), NewNames(after), n) == g
  {
    var g := MoveUpTo(f, NamesOf(es), NewNames(es), |es|);
    OrderlyRunLosesNothing(f, es, |es|);
    assert Mixed(NamesOf(es), NewNames(es), |es|) == NewNames(es);
    ResultIsRenumbered(f, es, g, after);
    RenumberedKeepsNames(after, |Seen(es, |es|)|);
    SameNamesChangeNothing(g, NamesOf(after), n);
  }

  // ---------------------------------------------------------------- a try after a failed try

  /** Two pages that share a prefix have the prefix the job gives them. */
  ghost predicate Settled(es: seq<Entry>) {
    forall i, j :: 0 <= i < j < |es| && es[i].IsPage() && es[j].IsPage() && es[i].prefix == es[j].prefix ==>
      es[i].prefix == Pad(Number(es, i), 4)
  }

  /** Pages i and j share a prefix that the job changes. */
  ghost predicate Unsettled(es: seq<Entry>, i: nat, j: nat) {
    i < j < |es| && es[i].IsPage() && es[j].IsPage() && es[i].prefix == es[j].prefix != Pad(Number(es, i), 4)
  }

  /** After n entries page i is renamed, and page j of its pair still has the same number in another spelling. */
  ghost predicate Torn(es: seq<Entry>, n: nat, i: nat, j: nat) {
    Unsettled(es, i, j) && i < n <= j && PageValue(es[i].prefix) == Number(es, i)
  }

  ghost predicate Untorn(es: seq<Entry>, n: nat) {
    forall i, j :: !Torn(es, n, i, j)
  }

  /** A listing a run on which loses nothing. */
  ghost predicate Orderly(es: seq<Entry>) {
    InPageOrder(es) && Consistent(es)
  }

  /** The listing after the first n entries were dealt with. */
  function Partly(es: seq<Entry>, n: nat): seq<Entry>
    requires n <= |es|
  {
    seq(|es|, i requires 0 <= i < |es| => if i < n then Result(es, i) else es[i])
  }

  lemma AscendingPlaces(s: seq<string>, k: nat, l: nat)
    requires Ascending(s) && k < |s| && l < |s| && PageValue(s[k]) < PageValue(s[l])
    ensures k < l
  {
  }

  /** Pages with smaller prefixes have smaller numbers. */
  lemma NumberOrder(es: seq<Entry>, i: nat, j: nat)
    requires Orderly(es) && i < |es| && j < |es| && es[i].IsPage() && es[j].IsPage()
    requires PageValue(es[i].prefix) < PageValue(es[j].prefix)
    ensures Number(es, i) < Number(es, j)
  {
    SeenAscends(es, |es|);
    AscendingPlaces(Seen(es, |es|), Number(es, i) - 1, Number(es, j) - 1);
  }

  lemma PartlyPage(f: Folder, es: seq<Entry>, n: nat, i: nat)
    requires ListingOf(f, es) && Orderly(es) && n <= |es| && i < |es|
    ensures var e := Partly(es, n)[i];
            && e.IsPage() == es[i].IsPage() && e.ext == es[i].ext
            && (!e.IsPage() ==> e.name == es[i].name)
            && (e.IsPage() ==> e.prefix == if i < n then Pad(Number(es, i), 4) else es[i].prefix)
            && (e.IsPage() ==> 0 < PageValue(e.prefix) <= PageValue(es[i].prefix))
            && (e.IsPage() ==> PageValue(e.prefix) == if i < n then Number(es, i) else PageValue(es[i].prefix))
  {
    if es[i].IsPage() {
      NumberAtMostValue(es, i);
      ResultLooked(f, es, i);
    }
  }

  lemma PartlyAscends(f: Folder, es: seq<Entry>, n: nat, i: nat, j: nat)
    requires ListingOf(f, es) && Orderly(es) && n <= |es| && i < j < |es| && es[i].IsPage() && es[j].IsPage()
    ensures PageValue(Partly(es, n)[i].prefix) <= PageValue(Partly(es, n)[j].prefix)
  {
    PartlyPage(f, es, n, i);
    PartlyPage(f, es, n, j);
    if PageValue(es[i].prefix) < PageValue(es[j].prefix) {
      NumberOrder(es, i, j);
    } else {
      SameNumberSamePrefix(es, i, j);
    }
  }

  lemma PartlyInOrder(f: Folder, es: seq<Entry>, n: nat)
    requires ListingOf(f, es) && Orderly(es) && n <= |es|
    ensures InPageOrder(Partly(es, n))
  {
    var p := Partly(es, n);
    forall i, j | 0 <= i < j < |p| && p[i].IsPage() && p[j].IsPage()
      ensures PageValue(p[i].prefix) <= PageValue(p[j].prefix)
    {
      PartlyPage(f, es, n, i);
      PartlyPage(f, es, n, j);
      PartlyAscends(f, es, n, i, j);
    }
  }

  /** With shared prefixes settled, pages share a prefix half way exactly when they did at the start. */
  lemma PartlyShares(f: Folder, es: seq<Entry>, n: nat, i: nat, j: nat)
    requires ListingOf(f, es) && Orderly(es) && Settled(es) && n <= |es| && i < j < |es| && es[i].IsPage()
          && es[j].IsPage()
    ensures Partly(es, n)[i].prefix == Partly(es, n)[j].prefix <==> es[i].prefix == es[j].prefix
    ensures PageValue(Partly(es, n)[i].prefix) == PageValue(Partly(es, n)[j].prefix) ==> es[i].prefix == es[j].prefix
  {
    PartlyPage(f, es, n, i);
    PartlyPage(f, es, n, j);
    SameNumberSamePrefix(es, i, j);
    if es[i].prefix != es[j].prefix {
      assert PageValue(es[i].prefix) < PageValue(es[j].prefix);
      NumberOrder(es, i, j);
    }
  }

  /** Two pages with one number half way have one prefix, unless a pair was torn there. */
  lemma PartlyPair(f: Folder, es: seq<Entry>, n: nat, i: nat, j: nat)
    requires ListingOf(f, es) && Orderly(es) && n <= |es| && i < j < |es| && es[i].IsPage() && es[j].IsPage()
    requires !Torn(es, n, i, j) && PageValue(Partly(es, n)[i].prefix) == PageValue(Partly(es, n)[j].prefix)
    ensures Partly(es, n)[i].prefix == Partly(es, n)[j].prefix && es[i].ext != es[j].ext
  {
    PartlyPage(f, es, n, i);
    PartlyPage(f, es, n, j);
    SameNumberSamePrefix(es, i, j);
    if i < n <= j {
      NumberAtMostValue(es, i);
      assert PageValue(es[i].prefix) <= PageValue(es[j].prefix);
    }
  }

  lemma PartlyIsConsistent(f: Folder, es: seq<Entry>, n: nat)
    requires ListingOf(f, es) && Orderly(es) && n <= |es| && Untorn(es, n)
    ensures Consistent(Partly(es, n))
  {
    var p := Partly(es, n);
    forall i | 0 <= i < |p| && p[i].IsPage() ensures PageValue(p[i].prefix) > 0 {
      PartlyPage(f, es, n, i);
    }
    forall i, j | 0 <= i < j < |p| && p[i].IsPage() && p[j].IsPage() && PageValue(p[i].prefix) == PageValue(p[j].prefix)
      ensures p[i].prefix == p[j].prefix && p[i].ext != p[j].ext
    {
      PartlyPage(f, es, n, i);
      PartlyPage(f, es, n, j);
      assert !Torn(es, n, i, j);
      PartlyPair(f, es, n, i, j);
    }
  }

  lemma SettledIsUntorn(es: seq<Entry>, n: nat)
    requires Settled(es)
    ensures Untorn(es, n)
  {
  }

  /** Two listings in which the same pages share prefixes. */
  ghost predicate SameShares(a: seq<Entry>, b: seq<Entry>) {
    && |a| == |b|
    && (forall i :: 0 <= i < |a| ==> a[i].IsPage() == b[i].IsPage())
    && (forall i, j :: 0 <= i < |a| && 0 <= j < |a| && a[i].IsPage() && a[j].IsPage() ==>
          (a[i].prefix == a[j].prefix <==> b[i].prefix == b[j].prefix))
  }

  /** Their prefixes are seen in the same order. */
  lemma {:induction false} SeenAlike(a: seq<Entry>, b: seq<Entry>, n: nat)
    requires SameShares(a, b) && n <= |a|
    ensures |Seen(a, n)| == |Seen(b, n)|
    ensures forall i, k :: 0 <= i < |a| && a[i].IsPage() && 0 <= k < |Seen(a, n)| ==>
      (Seen(a, n)[k] == a[i].prefix <==> Seen(b, n)[k] == b[i].prefix)
  {
    if n > 0 {
      SeenAlike(a, b, n - 1);
      var s, t, e, d := Seen(a, n - 1), Seen(b, n - 1), a[n - 1], b[n - 1];
      if e.IsPage() {
        assert e.prefix in s <==> d.prefix in t by {
          if e.prefix in s {
            var k :| 0 <= k < |s| && s[k] == e.prefix;
            assert t[k] == d.prefix;
          }
          if d.prefix in t {
            var k :| 0 <= k < |t| && t[k] == d.prefix;
            assert s[k] == e.prefix;
          }
        }
      }
    }
  }

  lemma SameSharesSameNumber(a: seq<Entry>, b: seq<Entry>, i: nat)
    requires SameShares(a, b) && i < |a| && a[i].IsPage()
    ensures Number(a, i) == Number(b, i)
  {
    SeenAlike(a, b, |a|);
    SeenFacts(a, |a|, |a|);
    SeenFacts(b, |b|, |b|);
    var k := Number(a, i) - 1;
    assert Seen(a, |a|)[k] == a[i].prefix && Seen(b, |b|)[k] == b[i].prefix;
    assert Seen(b, |b|)[Number(b, i) - 1] == b[i].prefix;
  }

  lemma PartlySharesEither(f: Folder, es: seq<Entry>, n: nat, i: nat, j: nat)
    requires ListingOf(f, es) && Orderly(es) && Settled(es) && n <= |es|
    requires i < |es| && j < |es| && es[i].IsPage() && es[j].IsPage()
    ensures es[i].prefix == es[j].prefix <==> Partly(es, n)[i].prefix == Partly(es, n)[j].prefix
  {
    if i < j {
      PartlyShares(f, es, n, i, j);
    } else if j < i {
      PartlyShares(f, es, n, j, i);
    }
  }

  lemma PartlySharesAlike(f: Folder, es: seq<Entry>, n: nat)
    requires ListingOf(f, es) && Orderly(es) && Settled(es) && n <= |es|
    ensures SameShares(es, Partly(es, n))
  {
    var p := Partly(es, n);
    forall i | 0 <= i < |es| ensures es[i].IsPage() == p[i].IsPage() {
      PartlyPage(f, es, n, i);
    }
    forall i, j | 0 <= i < |es| && 0 <= j < |es| && es[i].IsPage() && es[j].IsPage()
      ensures es[i].prefix == es[j].prefix <==> p[i].prefix == p[j].prefix
    {
      PartlySharesEither(f, es, n, i, j);
    }
  }

  lemma PartlyNames(es: seq<Entry>, n: nat)
    requires n <= |es|
    ensures NamesOf(Partly(es, n)) == Mixed(NamesOf(es), NewNames(es), n)
  {
  }

  lemma PartlyLooked(f: Folder, es: seq<Entry>, n: nat, i: nat)
    requires ListingOf(f, es) && n <= |es| && i < |es|
    ensures Looked(Partly(es, n)[i])
  {
    assert Looked(es[i]);
    ResultLooked(f, es, i);
  }

  lemma PartlyListed(f: Folder, es: seq<Entry>, n: nat)
    requires ListingOf(f, es) && Orderly(es) && n <= |es|
    ensures ListingOf(MoveUpTo(f, NamesOf(es), NewNames(es), n), Partly(es, n))
  {
    OrderlyRunLosesNothing(f, es, n);
    PartlyNames(es, n);
    forall i | 0 <= i < |Partly(es, n)| ensures Looked(Partly(es, n)[i]) {
      PartlyLooked(f, es, n, i);
    }
  }

  /** The next try gives every file the name the failed try would have given it. */
  lemma PartlyKeepsTargets(f: Folder, es: seq<Entry>, n: nat)
    requires ListingOf(f, es) && Orderly(es) && Settled(es) && n <= |es|
    ensures NewNames(Partly(es, n)) == NewNames(es)
  {
    var p := Partly(es, n);
    PartlySharesAlike(f, es, n);
    forall i | 0 <= i < |es| ensures NewName(p, i) == NewName(es, i) {
      PartlyPage(f, es, n, i);
      if es[i].IsPage() {
        SameSharesSameNumber(es, p, i);
      }
    }
  }

  // ---- the result depends on the directory only, not on how equal listings are ordered

  lemma {:induction false} AscendingSame(s: seq<string>, t: seq<string>, k: nat)
    requires Ascending(s) && Ascending(t) && (forall v {:trigger Uses(s, v)} :: Uses(s, v) ==> Uses(t, v))
    requires (forall v {:trigger Uses(t, v)} :: Uses(t, v) ==> Uses(s, v)) && k < |s|
    ensures k < |t| && PageValue(t[k]) == PageValue(s[k])
  {
    if k > 0 {
      AscendingSame(s, t, k - 1);
    }
    assert Uses(s, PageValue(s[k]));
    var q :| 0 <= q < |t| && PageValue(t[q]) == PageValue(s[k]);
    assert k <= q;
    assert Uses(t, PageValue(t[k]));
    var r :| 0 <= r < |s| && PageValue(s[r]) == PageValue(t[k]);
  }

  lemma FoundIn(f: Folder, a: seq<Entry>, b: seq<Entry>, i: nat) returns (j: nat)
    requires ListingOf(f, a) && ListingOf(f, b) && i < |a|
    ensures j < |b| && b[j] == a[i]
  {
    assert NamesOf(a)[i] in f && Listed(NamesOf(b), a[i].name);
    j :| 0 <= j < |b| && NamesOf(b)[j] == a[i].name;
    assert Looked(a[i]) && Looked(b[j]);
    NameTellsEntry(a[i], b[j]);
  }

  lemma ListedUses(f: Folder, a: seq<Entry>, b: seq<Entry>, v: nat)
    requires ListingOf(f, a) && ListingOf(f, b) && Uses(Seen(a, |a|), v)
    ensures Uses(Seen(b, |b|), v)
  {
    var k :| 0 <= k < |Seen(a, |a|)| && PageValue(Seen(a, |a|)[k]) == v;
    var i := SeenIsAPage(a, |a|, k);
    var j := FoundIn(f, a, b, i);
    SeenUses(b, j);
  }

  lemma SameNumberInBoth(f: Folder, a: seq<Entry>, b: seq<Entry>, i: nat, j: nat)
    requires ListingOf(f, a) && InPageOrder(a) && Consistent(a) && ListingOf(f, b) && InPageOrder(b) && Consistent(b)
    requires i < |a| && j < |b| && a[i] == b[j] && a[i].IsPage()
    ensures Number(a, i) == Number(b, j)
  {
    var s, t := Seen(a, |a|), Seen(b, |b|);
    SeenAscends(a, |a|);
    SeenAscends(b, |b|);
    forall v | Uses(s, v) ensures Uses(t, v) {
      ListedUses(f, a, b, v);
    }
    forall v | Uses(t, v) ensures Uses(s, v) {
      ListedUses(f, b, a, v);
    }
    AscendingSame(s, t, Number(a, i) - 1);
  }

  lemma ConsistentInBoth(f: Folder, a: seq<Entry>, b: seq<Entry>)
    requires ListingOf(f, a) && Consistent(a) && ListingOf(f, b)
    ensures Consistent(b)
  {
    forall i | 0 <= i < |b| && b[i].IsPage() ensures PageValue(b[i].prefix) > 0 {
      var _ := FoundIn(f, b, a, i);
    }
    forall i, j | 0 <= i < j < |b| && b[i].IsPage() && b[j].IsPage() && PageValue(b[i].prefix) == PageValue(b[j].prefix)
      ensures b[i].prefix == b[j].prefix && b[i].ext != b[j].ext
    {
      var k := FoundIn(f, b, a, i);
      var l := FoundIn(f, b, a, j);
      assert NamesOf(b)[i] != NamesOf(b)[j];
      assert k != l;
    }
  }

  lemma SameNameInBoth(f: Folder, a: seq<Entry>, b: seq<Entry>, i: nat, j: nat)
    requires ListingOf(f, a) && InPageOrder(a) && Consistent(a) && ListingOf(f, b) && InPageOrder(b) && Consistent(b)
    requires i < |a| && j < |b| && a[i] == b[j]
    ensures NewName(a, i) == NewName(b, j)
  {
    if a[i].IsPage() {
      SameNumberInBoth(f, a, b, i, j);
    }
  }

  lemma SamePlace(f: Folder, a: seq<Entry>, b: seq<Entry>, g: Folder, h: Folder, x: string)
    requires ListingOf(f, a) && InPageOrder(a) && Consistent(a) && ListingOf(f, b) && InPageOrder(b) && Consistent(b)
    requires Placed(f, NamesOf(a), NewNames(a), g) && Placed(f, NamesOf(b), NewNames(b), h) && x in g
    ensures x in h && h[x] == g[x]
  {
    assert Listed(NewNames(a), x);
    var i :| 0 <= i < |a| && NewNames(a)[i] == x;
    var j := FoundIn(f, a, b, i);
    SameNameInBoth(f, a, b, i, j);
    assert NewNames(b)[j] == x && NamesOf(a)[i] == NamesOf(b)[j];
  }

  lemma CompleteRun(f: Folder, es: seq<Entry>)
    requires ListingOf(f, es) && InPageOrder(es) && Consistent(es)
    ensures Placed(f, NamesOf(es), NewNames(es), MoveUpTo(f, NamesOf(es), NewNames(es), |es|))
  {
    OrderlyRunLosesNothing(f, es, |es|);
    assert Mixed(NamesOf(es), NewNames(es), |es|) == NewNames(es);
  }

  lemma ResultIsTheDirectorys(f: Folder, a: seq<Entry>, b: seq<Entry>)
    requires ListingOf(f, a) && InPageOrder(a) && Consistent(a) && ListingOf(f, b) && InPageOrder(b)
    ensures MoveUpTo(f, NamesOf(a), NewNames(a), |a|) == MoveUpTo(f, NamesOf(b), NewNames(b), |b|)
  {
    ConsistentInBoth(f, a, b);
    var g, h := MoveUpTo(f, NamesOf(a), NewNames(a), |a|), MoveUpTo(f, NamesOf(b), NewNames(b), |b|);
    CompleteRun(f, a);
    CompleteRun(f, b);
    forall x: string
      ensures (x in g ==> x in h && h[x] == g[x]) && (x in h ==> x in g)
    {
      if x in g {
        SamePlace(f, a, b, g, h, x);
      }
      if x in h {
        SamePlace(f, b, a, h, g, x);
      }
    }
  }

  /** The directory after a whole run on the listing `again`, met after n entries of `es` were dealt with. */
  function Rerun(f: Folder, es: seq<Entry>, n: nat, again: seq<Entry>): Folder
    requires n <= |es|
  {
    MoveUpTo(MoveUpTo(f, NamesOf(es), NewNames(es), n), NamesOf(again), NewNames(again), |again|)
  }

  /** A try can meet the listing `again` after n entries of `es` were dealt with. */
  ghost predicate Follows(f: Folder, es: seq<Entry>, n: nat, again: seq<Entry>) {
    n <= |es| && ListingOf(MoveUpTo(f, NamesOf(es), NewNames(es), n), again) && InPageOrder(again)
  }

  /** If a try can meet the listing `again`, it ends where the whole first run would have ended. */
  ghost predicate RetryEndsRight(f: Folder, es: seq<Entry>, n: nat, again: seq<Entry>) {
    Follows(f, es, n, again) ==> Rerun(f, es, n, again) == MoveUpTo(f, NamesOf(es), NewNames(es), |es|)
  }

  /** When shared prefixes are settled, a try that follows a failed try ends where the failed one would have. */
  lemma RetryFinishes(f: Folder, es: seq<Entry>, n: nat, again: seq<Entry>)
    requires ListingOf(f, es) && Orderly(es) && Settled(es) && Follows(f, es, n, again)
    ensures RetryEndsRight(f, es, n, again)
  {
    var g := MoveUpTo(f, NamesOf(es), NewNames(es), n);
    var p := Partly(es, n);
    PartlyInOrder(f, es, n);
    SettledIsUntorn(es, n);
    PartlyIsConsistent(f, es, n);
    PartlyListed(f, es, n);
    PartlyNames(es, n);
    ResultIsTheDirectorys(g, p, again);
    PartlyKeepsTargets(f, es, n);
    OrderlyRunLosesNothing(f, es, n);
    CompleteRun(f, es);
    CompleteRun(g, p);
    PlacedTwice(f, NamesOf(es), NamesOf(p), NewNames(es), g, MoveUpTo(g, NamesOf(p), NewNames(p), |p|));
    PlacedIsOne(f, NamesOf(es), NewNames(es), MoveUpTo(g, NamesOf(p), NewNames(p), |p|),
        MoveUpTo(f, NamesOf(es), NewNames(es), |es|));
  }

  // ---- a failure between two pages that share a prefix which is not settled

  lemma {:induction false} NeverNamed(f: Folder, src: seq<string>, dst: seq<string>, n: nat, x: string)
    requires |src| == |dst| && n <= |src| && Lists(f, src) && x !in src && x !in dst
    ensures x !in MoveUpTo(f, src, dst, n)
  {
    if n == 0 {
      assert x in f ==> Listed(src, x);
    } else {
      NeverNamed(f, src, dst, n - 1, x);
    }
  }

  lemma NumberInSeen(es: seq<Entry>, i: nat, n: nat)
    requires i < n <= |es| && es[i].IsPage()
    ensures Number(es, i) <= |Seen(es, n)| && Seen(es, n)[Number(es, i) - 1] == es[i].prefix
  {
    SeenFacts(es, n, |es|);
    SeenFacts(es, n, n);
    var c := Position(Seen(es, n), es[i].prefix);
    assert Seen(es, |es|)[c] == es[i].prefix;
    assert Seen(es, |es|)[Number(es, i) - 1] == es[i].prefix;
  }

  /** 0001, 0002, ... */
  ghost predicate Numerals(t: seq<string>) {
    forall c :: 0 <= c < |t| ==> t[c] == Pad(c + 1, 4)
  }

  lemma NumeralsHave(t: seq<string>, number: nat)
    requires Numerals(t) && number > 0
    ensures Pad(number, 4) in t <==> number <= |t|
  {
    LookAtNewName(number, ".pdf");
    forall c | 0 <= c < |t| ensures t[c] == Pad(number, 4) <==> c + 1 == number {
      LookAtNewName(c + 1, ".pdf");
    }
    if number <= |t| {
      assert t[number - 1] == Pad(number, 4);
    }
  }

  lemma OneMoreNumeral(t: seq<string>)
    requires Numerals(t)
    ensures Numerals(t + [Pad(|t| + 1, 4)])
  {
  }

  lemma NumberIsNext(es: seq<Entry>, m: nat)
    requires m < |es| && es[m].IsPage()
    ensures es[m].prefix in Seen(es, m) <==> Number(es, m) <= |Seen(es, m)|
    ensures es[m].prefix !in Seen(es, m) ==> Number(es, m) == |Seen(es, m)| + 1
  {
    NumberInSeen(es, m, m + 1);
    SeenFacts(es, m, m + 1);
    SeenFacts(es, m + 1, m + 1);
    var s := Seen(es, m);
    if es[m].prefix in s {
      assert Seen(es, m + 1)[Position(s, es[m].prefix)] == es[m].prefix;
    }
  }

  /** The first n entries of p are those of es under the prefixes the job gives them. */
  ghost predicate Prefixed(es: seq<Entry>, p: seq<Entry>, n: nat)
    requires n <= |es| == |p|
  {
    forall k :: 0 <= k < n ==>
      p[k].IsPage() == es[k].IsPage() && (es[k].IsPage() ==> p[k].prefix == Pad(Number(es, k), 4))
  }

  lemma NextOfRenamed(es: seq<Entry>, p: seq<Entry>, m: nat)
    requires m < |es| == |p| && es[m].IsPage() && p[m].prefix == Pad(Number(es, m), 4)
    requires |Seen(p, m)| == |Seen(es, m)| && Numerals(Seen(p, m))
    ensures p[m].prefix in Seen(p, m) <==> es[m].prefix in Seen(es, m)
    ensures p[m].prefix !in Seen(p, m) ==> Numerals(Seen(p, m) + [p[m].prefix])
  {
    NumberIsNext(es, m);
    NumeralsHave(Seen(p, m), Number(es, m));
    if Number(es, m) == |Seen(p, m)| + 1 {
      OneMoreNumeral(Seen(p, m));
    }
  }

  /** The prefixes of the part already renamed are 0001, 0002, ... */
  lemma {:induction false} SeenOfRenamed(es: seq<Entry>, p: seq<Entry>, n: nat, m: nat)
    requires m <= n <= |es| == |p| && Prefixed(es, p, n)
    ensures |Seen(p, m)| == |Seen(es, m)| && Numerals(Seen(p, m))
  {
    if m > 0 {
      SeenOfRenamed(es, p, n, m - 1);
      assert p[m - 1].IsPage() == es[m - 1].IsPage();
      if es[m - 1].IsPage() {
        NextOfRenamed(es, p, m - 1);
      }
    }
  }

  lemma PartlyPrefixed(f: Folder, es: seq<Entry>, n: nat)
    requires ListingOf(f, es) && Orderly(es) && n <= |es|
    ensures Prefixed(es, Partly(es, n), n)
  {
    forall k | 0 <= k < n
      ensures Partly(es, n)[k].IsPage() == es[k].IsPage()
      ensures es[k].IsPage() ==> Partly(es, n)[k].prefix == Pad(Number(es, k), 4)
    {
      PartlyPage(f, es, n, k);
    }
  }

  /** A page already renamed keeps its number in the next try. */
  lemma RenamedKeepsNumber(f: Folder, es: seq<Entry>, n: nat, i: nat)
    requires ListingOf(f, es) && Orderly(es) && i < n <= |es| && es[i].IsPage()
    ensures Partly(es, n)[i].IsPage() && Number(Partly(es, n), i) == Number(es, i)
  {
    var p := Partly(es, n);
    PartlyPage(f, es, n, i);
    PartlyPrefixed(f, es, n);
    SeenOfRenamed(es, p, n, n);
    NumberInSeen(es, i, n);
    NumberInSeen(p, i, n);
    LookAtNewName(Number(es, i), ".pdf");
    LookAtNewName(Number(p, i), ".pdf");
  }

  /** At most two pages share a prefix. */
  lemma AtMostTwo(f: Folder, es: seq<Entry>, i: nat, j: nat, k: nat)
    requires ListingOf(f, es) && Consistent(es) && i < |es| && j < |es| && k < |es|
    requires es[i].IsPage() && es[j].IsPage() && es[k].IsPage() && es[i].prefix == es[j].prefix == es[k].prefix
    ensures i == j || j == k || i == k
  {
    assert Looked(es[i]) && Looked(es[j]) && Looked(es[k]);
    PageExtensions(es[i]);
    PageExtensions(es[j]);
    PageExtensions(es[k]);
  }

  /** After a failure between pages i and j, only page i has its prefix. */
  lemma OnlyPageHasPrefix(f: Folder, es: seq<Entry>, i: nat, j: nat, k: nat)
    requires ListingOf(f, es) && Orderly(es) && Unsettled(es, i, j) && k < |es| && k != i && es[k].IsPage()
    ensures Partly(es, i + 1)[k].prefix != Pad(Number(es, i), 4)
  {
    PartlyPage(f, es, i + 1, k);
    NumberAtMostValue(es, i);
    LookAtNewName(Number(es, i), ".pdf");
    if k < i {
      LookAtNewName(Number(es, k), ".pdf");
      SameNumberSamePrefix(es, k, i);
      if es[k].prefix == es[i].prefix {
        AtMostTwo(f, es, i, j, k);
      }
    } else {
      assert PageValue(es[i].prefix) <= PageValue(es[k].prefix);
    }
  }

  /** So only page i keeps the number the two pages should share. */
  lemma OnlyPageHasNumber(f: Folder, es: seq<Entry>, i: nat, j: nat, k: nat)
    requires ListingOf(f, es) && Orderly(es) && Unsettled(es, i, j) && k < |es| && k != i && es[k].IsPage()
    ensures var p := Partly(es, i + 1); p[k].IsPage() && Number(p, k) != Number(es, j)
  {
    var p := Partly(es, i + 1);
    PartlyPage(f, es, i + 1, k);
    PartlyPage(f, es, i + 1, i);
    OnlyPageHasPrefix(f, es, i, j, k);
    RenamedKeepsNumber(f, es, i + 1, i);
    SameNumberSamePrefix(p, i, k);
    SameNumberSamePrefix(es, i, j);
  }

  lemma OtherName(a: nat, b: nat, x: string, y: string)
    requires x in {".pdf", ".tif"} && y in {".pdf", ".tif"} && (a != b || x != y)
    ensures PageName(a, x) != PageName(b, y)
  {
    LookAtPrefixed(Pad(a, 4), x);
    LookAtPrefixed(Pad(b, 4), y);
    LookAtNewName(a, x);
    LookAtNewName(b, y);
  }

  /** Then no page has, or is given, the name page j should get. */
  lemma MissedBy(f: Folder, es: seq<Entry>, i: nat, j: nat, k: nat)
    requires ListingOf(f, es) && Orderly(es) && Unsettled(es, i, j) && k < |es| && es[k].IsPage()
    ensures NewName(Partly(es, i + 1), k) != NewName(es, j)
  {
    var p := Partly(es, i + 1);
    assert es[i].ext != es[j].ext;
    assert Looked(es[k]) && Looked(es[j]);
    PageExtensions(es[k]);
    PageExtensions(es[j]);
    PartlyPage(f, es, i + 1, k);
    if k != i {
      OnlyPageHasNumber(f, es, i, j, k);
    }
    OtherName(Number(p, k), Number(es, j), es[k].ext, es[j].ext);
  }

  lemma NotThereYet(f: Folder, es: seq<Entry>, i: nat, j: nat, k: nat)
    requires ListingOf(f, es) && Orderly(es) && Unsettled(es, i, j) && k < |es| && es[k].IsPage()
    ensures Partly(es, i + 1)[k].name != NewName(es, j)
  {
    var p := Partly(es, i + 1);
    assert es[i].ext != es[j].ext;
    PartlyPage(f, es, i + 1, k);
    PartlyLooked(f, es, i + 1, k);
    ResultLooked(f, es, j);
    SameNumberSamePrefix(es, i, j);
    if k != i {
      OnlyPageHasPrefix(f, es, i, j, k);
    }
    NameTellsEntry(p[k], Result(es, j));
  }

  lemma NotThePage(f: Folder, es: seq<Entry>, j: nat, k: nat)
    requires ListingOf(f, es) && j < |es| && k < |es| && es[j].IsPage() && !es[k].IsPage()
    ensures es[k].name != NewName(es, j)
  {
    ResultLooked(f, es, j);
    assert Looked(es[k]);
    NameTellsEntry(es[k], Result(es, j));
  }

  /** The name the second page should get is given to no file by the next try. */
  lemma NameIsMissed(f: Folder, es: seq<Entry>, i: nat, j: nat)
    requires ListingOf(f, es) && Orderly(es) && Unsettled(es, i, j)
    ensures NewName(es, j) !in NamesOf(Partly(es, i + 1)) && NewName(es, j) !in NewNames(Partly(es, i + 1))
  {
    var p, x := Partly(es, i + 1), NewName(es, j);
    forall k | 0 <= k < |p| ensures p[k].name != x && NewName(p, k) != x {
      PartlyPage(f, es, i + 1, k);
      if es[k].IsPage() {
        MissedBy(f, es, i, j, k);
        NotThereYet(f, es, i, j, k);
      } else {
        NotThePage(f, es, j, k);
      }
    }
  }

  lemma EndsWrong(f: Folder, es: seq<Entry>, n: nat, again: seq<Entry>, x: string)
    requires n <= |es|
    ensures && Follows(f, es, n, again)
            && x in MoveUpTo(f, NamesOf(es), NewNames(es), |es|)
            && x !in Rerun(f, es, n, again)
            ==> !RetryEndsRight(f, es, n, again)
  {
  }

  lemma NotInTheRetry(f: Folder, es: seq<Entry>, i: nat, j: nat)
    requires ListingOf(f, es) && Orderly(es) && Unsettled(es, i, j)
    ensures NewName(es, j) !in Rerun(f, es, i + 1, Partly(es, i + 1))
  {
    PartlyListed(f, es, i + 1);
    NameIsMissed(f, es, i, j);
    NeverNamed(MoveUpTo(f, NamesOf(es), NewNames(es), i + 1), NamesOf(Partly(es, i + 1)), NewNames(Partly(es, i + 1)),
        |es|, NewName(es, j));
  }

  lemma InTheFullRun(f: Folder, es: seq<Entry>, j: nat)
    requires ListingOf(f, es) && Orderly(es) && j < |es|
    ensures NewName(es, j) in MoveUpTo(f, NamesOf(es), NewNames(es), |es|)
  {
    CompleteRun(f, es);
    assert NewNames(es)[j] == NewName(es, j);
  }

  lemma PartlyFollows(f: Folder, es: seq<Entry>, n: nat)
    requires ListingOf(f, es) && Orderly(es) && n <= |es|
    ensures Follows(f, es, n, Partly(es, n))
  {
    PartlyInOrder(f, es, n);
    PartlyListed(f, es, n);
  }

  /** A failure between two such pages: the next try never gives the second page the number of the first. */
  lemma RetrySplitsThePair(f: Folder, es: seq<Entry>, i: nat, j: nat)
    requires ListingOf(f, es) && Orderly(es) && Unsettled(es, i, j)
    ensures !RetryEndsRight(f, es, i + 1, Partly(es, i + 1))
  {
    PartlyFollows(f, es, i + 1);
    NotInTheRetry(f, es, i, j);
    InTheFullRun(f, es, j);
    EndsWrong(f, es, i + 1, Partly(es, i + 1), NewName(es, j));
  }

  /** Wherever the first try fails and however the directory is listed then, the next try ends where the first
      should have: exactly when pages that share a prefix already have the prefix the job gives them. */
  lemma RetryFinishesExactly(f: Folder, es: seq<Entry>)
    requires ListingOf(f, es) && Orderly(es)
    ensures (forall n: nat, again: seq<Entry> :: RetryEndsRight(f, es, n, again)) <==> Settled(es)
  {
    if Settled(es) {
      forall n: nat, again: seq<Entry> ensures RetryEndsRight(f, es, n, again) {
        if Follows(f, es, n, again) {
          RetryFinishes(f, es, n, again);
        }
      }
    } else {
      var i, j :| 0 <= i < j < |es| && es[i].IsPage() && es[j].IsPage()
                  && es[i].prefix == es[j].prefix && es[i].prefix != Pad(Number(es, i), 4);
      RetrySplitsThePair(f, es, i, j);
    }
  }

  // ---------------------------------------------------------------- a retry that replaces a page

  /** The listing of three files. */
  lemma Listing3(f: Folder, a: Entry, b: Entry, c: Entry)
    requires Looked(a) && Looked(b) && Looked(c)
    requires a.name != b.name && a.name != c.name && b.name != c.name
    requires f.Keys == {a.name, b.name, c.name}
    ensures ListingOf(f, [a, b, c])
  {
    var es := [a, b, c];
    var names := NamesOf(es);
    assert names == [a.name, b.name, c.name];
    Lists3(f, a.name, b.name, c.name);
    forall i | 0 <= i < |es| ensures Looked(es[i]) {
      assert es[i] == a || es[i] == b || es[i] == c;
    }
  }

  lemma Lists3(f: Folder, x: string, y: string, z: string)
    requires x != y && x != z && y != z && f.Keys == {x, y, z}
    ensures Lists(f, [x, y, z])
  {
    var names := [x, y, z];
    assert names[0] == x && names[1] == y && names[2] == z;
    forall n <- f ensures Listed(names, n) {
      assert n == names[0] || n == names[1] || n == names[2];
    }
  }

  lemma PageLooked(name: string, prefix: string, ext: string)
    requires ext in {".pdf", ".tif"} && name == prefix + ext
    ensures Looked(Entry(name, prefix, ext))
  {
    LookAtPrefixed(prefix, ext);
  }

  lemma SmallNumerals()
    ensures Pad(1, 4) == "0001" && Pad(2, 4) == "0002"
    ensures PageValue("1") == 1 && PageValue("0001") == 1 && PageValue("0002") == 2
  {
    SmallNumeral(1, "1", "01", "001", "0001");
    SmallNumeral(2, "2", "02", "002", "0002");
  }

  lemma SmallNumeral(n: nat, a: string, b: string, c: string, d: string)
    requires n < 10 && a == [Digit(n)] && b == "0" + a && c == "0" + b && d == "0" + c
    ensures Pad(n, 4) == d && PageValue(a) == n && PageValue(d) == n
  {
    assert Print(n) == a;
    assert IsNumber(b) && IsNumber(c) && IsNumber(d);
    assert AddZeros(d, 4) == d;
    assert AddZeros(c, 4) == d;
    assert AddZeros(b, 4) == d;
    assert AddZeros(a, 4) == d;
  }

  const ONE_PDF := Entry("1.pdf", "1", ".pdf")
  const ONE_TIF := Entry("1.tif", "1", ".tif")
  const TWO_TIF := Entry("0002.tif", "0002", ".tif")
  const ONE_DONE := Entry("0001.pdf", "0001", ".pdf")

  lemma PairLooked()
    ensures Looked(ONE_PDF) && Looked(ONE_TIF) && Looked(TWO_TIF) && Looked(ONE_DONE)
  {
    PageLooked("1.pdf", "1", ".pdf");
    PageLooked("1.tif", "1", ".tif");
    PageLooked("0002.tif", "0002", ".tif");
    PageLooked("0001.pdf", "0001", ".pdf");
  }

  /** The first page's number is 1. */
  lemma FirstPage(es: seq<Entry>)
    requires es != [] && es[0].IsPage()
    ensures NewName(es, 0) == PageName(1, es[0].ext)
  {
    SeenFacts(es, 1, |es|);
    SeenFacts(es, |es|, |es|);
    assert Seen(es, 1) == [es[0].prefix];
    assert Seen(es, |es|)[0] == es[0].prefix;
  }

  /** A second page with another prefix has number 2. */
  lemma SecondPage(es: seq<Entry>)
    requires 2 <= |es| && es[0].IsPage() && es[1].IsPage() && es[0].prefix != es[1].prefix
    ensures NewName(es, 1) == PageName(2, es[1].ext)
  {
    SeenFacts(es, 2, |es|);
    SeenFacts(es, |es|, |es|);
    assert Seen(es, 1) == [es[0].prefix];
    assert Seen(es, 2) == [es[0].prefix, es[1].prefix];
    assert Seen(es, |es|)[1] == es[1].prefix;
  }

  lemma FirstTry(f: Folder)
    ensures var es := [ONE_PDF, ONE_TIF, TWO_TIF];
            MoveUpTo(f, NamesOf(es), NewNames(es), 1) == Moved(f, "1.pdf", "0001.pdf")
  {
    var es := [ONE_PDF, ONE_TIF, TWO_TIF];
    FirstPage(es);
    assert PageName(1, ".pdf") == "0001.pdf" by { SmallNumerals(); }
    assert NamesOf(es)[0] == "1.pdf" && NewNames(es)[0] == "0001.pdf";
  }

  lemma SecondTry(g: Folder)
    requires "0002.tif" in g
    ensures var again := [ONE_DONE, ONE_TIF, TWO_TIF];
            Clobbers(g, NamesOf(again), NewNames(again), 1)
  {
    var again := [ONE_DONE, ONE_TIF, TWO_TIF];
    FirstPage(again);
    SecondPage(again);
    assert PageName(1, ".pdf") == "0001.pdf" && PageName(2, ".tif") == "0002.tif" by { SmallNumerals(); }
    assert NamesOf(again)[0] == NewNames(again)[0] == "0001.pdf";
    assert NamesOf(again)[1] == "1.tif" && NewNames(again)[1] == "0002.tif";
  }

  lemma PairListing(f: Folder, first: Entry)
    requires first == ONE_PDF || first == ONE_DONE
    requires f.Keys == {first.name, "1.tif", "0002.tif"}
    ensures ListingOf(f, [first, ONE_TIF, TWO_TIF])
  {
    PairLooked();
    Listing3(f, first, ONE_TIF, TWO_TIF);
  }

  lemma PairInOrder(first: Entry)
    requires first == ONE_PDF || first == ONE_DONE
    ensures InPageOrder([first, ONE_TIF, TWO_TIF])
  {
    SmallNumerals();
  }

  lemma FirstListingConsistent()
    ensures Consistent([ONE_PDF, ONE_TIF, TWO_TIF])
  {
    SmallNumerals();
  }

  /** With a PDF and a TIFF of one page, a failure between the two splits the pair, and the next try can then
      replace another page: the first listing was safe to the end, the second is not. */
  lemma RetryCanReplaceAPage(f: Folder)
    requires f.Keys == {"1.pdf", "1.tif", "0002.tif"}
    ensures var es, again := [ONE_PDF, ONE_TIF, TWO_TIF], [ONE_DONE, ONE_TIF, TWO_TIF];
            var g := MoveUpTo(f, NamesOf(es), NewNames(es), 1);
            && ListingOf(f, es) && InPageOrder(es) && Consistent(es)
            && ListingOf(g, again) && InPageOrder(again)
            && Clobbers(g, NamesOf(again), NewNames(again), 1)
  {
    var g := Moved(f, "1.pdf", "0001.pdf");
    assert g.Keys == {"0001.pdf", "1.tif", "0002.tif"};
    PairListing(f, ONE_PDF);
    PairListing(g, ONE_DONE);
    PairInOrder(ONE_PDF);
    PairInOrder(ONE_DONE);
    FirstListingConsistent();
    FirstTry(f);
    SecondTry(g);
  }
}
