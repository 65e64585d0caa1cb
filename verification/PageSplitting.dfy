/** Splitting an upload into one file per page (src/jobs/pagesplit.go).  Ghostscript and pdfseparate are steps that
    succeed or fail; the pages pdfseparate makes, and what a page becomes as PDF/A, are parameters. */
module PageSplitting {
  import opened Decimal
  import opened DiskJobs
  import opened DiskModel
  import opened FileMoves
  import opened FileTree
  import opened JobModel
  import opened Sequences
  import opened Text
  import opened Words

  datatype Matched = NoMatch | TooLarge | Page(number: nat)

  /** The number in a name that matches ^seq-(\d+).pdf$ in full; its dot matches any character but a newline. */
  function PageNumber(name: string): Matched {
    if |name| > 8 && name[..4] == "seq-" && IsNumber(name[4..|name| - 4]) && name[|name| - 4] != '\n'
        && name[|name| - 3..] == "pdf" then
      var number := Value(name[4..|name| - 4]);
      if number < TWO_63 then Page(number) else TooLarge
    else NoMatch
  }

  /** What stands between the prefix and the extension. */
  function Numeral(name: string): string {
    if |name| < 8 then "" else name[4..|name| - 4]
  }

  /** The name pdfseparate gives page k; pages are numbered from 1. */
  function Separated(k: nat): (name: string)
    ensures Numeral(name) == Print(k + 1)
  {
    "seq-" + Print(k + 1) + ".pdf"
  }

  /** The name of page k with four digits or more. */
  function Sortable(k: nat): (name: string)
    ensures Numeral(name) == Pad(k + 1, 4)
  {
    "seq-" + Pad(k + 1, 4) + ".pdf"
  }

  /** The name fixPageNames gives a file. */
  function Fixed(name: string): string {
    var m := PageNumber(name);
    if m.Page? then "seq-" + Pad(m.number, 4) + ".pdf" else name
  }

  function FixedNames(names: seq<string>): seq<string> {
    seq(|names|, i requires 0 <= i < |names| => Fixed(names[i]))
  }

  predicate IsPage(name: string) {
    PageNumber(name).Page?
  }

  predicate AllPages(names: seq<string>) {
    forall k :: 0 <= k < |names| ==> IsPage(names[k])
  }

  lemma MiddleOf(a: string, b: string, c: string)
    ensures (a + b + c)[..|a|] == a && (a + b + c)[|a|..|a| + |b|] == b && (a + b + c)[|a| + |b|..] == c
  {
  }

  /** A name made with a numeral is read as its number. */
  lemma NumberRead(digits: string)
    requires IsNumber(digits)
    ensures PageNumber("seq-" + digits + ".pdf") == if Value(digits) < TWO_63 then Page(Value(digits)) else TooLarge
  {
    var name := "seq-" + digits + ".pdf";
    MiddleOf("seq-", digits, ".pdf");
    assert name[|name| - 4..] == ".pdf";
    assert name[|name| - 4] == name[|name| - 4..][0];
    assert name[|name| - 3..] == name[|name| - 4..][1..] == "pdf";
  }

  /** No two pages have one name, before or after. */
  lemma NamesDiffer()
    ensures forall a: nat, b: nat :: Separated(a) == Separated(b) ==> a == b
    ensures forall a: nat, b: nat :: Sortable(a) == Sortable(b) ==> a == b
    ensures forall a: nat, b: nat :: Sortable(a) == Separated(b) ==> a == b
  {
    forall a: nat, b: nat | Separated(a) == Separated(b) ensures a == b {
      assert Value(Print(a + 1)) == Value(Print(b + 1));
    }
    forall a: nat, b: nat | Sortable(a) == Sortable(b) ensures a == b {
      assert Value(Pad(a + 1, 4)) == Value(Pad(b + 1, 4));
    }
    forall a: nat, b: nat | Sortable(a) == Separated(b) ensures a == b {
      assert Value(Pad(a + 1, 4)) == Value(Print(b + 1));
    }
  }

  // ---------------------------------------------------------------- the temporary directory

  /** What pdfseparate leaves: one file per page. */
  function SeparatedFolder(pages: seq<Content>): Folder {
    NamesDiffer();
    map k | 0 <= k < |pages| :: Separated(k) := pages[k]
  }

  /** The pages under their sortable names. */
  function SortableFolder(pages: seq<Content>): Folder {
    NamesDiffer();
    map k | 0 <= k < |pages| :: Sortable(k) := pages[k]
  }

  function Converted(f: Folder, toPDFA: Content -> Content): Folder {
    map x <- f :: toPDFA(f[x])
  }

  /** Which page a file of the directory is. */
  ghost function PageOf(pages: seq<Content>, name: string): (k: nat)
    requires name in SeparatedFolder(pages)
    ensures k < |pages| && name == Separated(k) && SeparatedFolder(pages)[name] == pages[k]
  {
    NamesDiffer();
    var k :| 0 <= k < |pages| && name == Separated(k);
    k
  }

  lemma FixedPage(pages: seq<Content>, name: string)
    requires name in SeparatedFolder(pages) && PageNumber(name).Page?
    ensures Fixed(name) == Sortable(PageOf(pages, name))
  {
    NumberRead(Print(PageOf(pages, name) + 1));
  }

  lemma PagesAreFree(pages: seq<Content>, names: seq<string>)
    requires Lists(SeparatedFolder(pages), names) && AllPages(names)
    ensures TargetsFree(names, FixedNames(names))
  {
    NamesDiffer();
    forall i, j | 0 <= i < j < |names|
      ensures FixedNames(names)[i] != FixedNames(names)[j] && FixedNames(names)[i] != names[j]
    {
      FixedPage(pages, names[i]);
      FixedPage(pages, names[j]);
      assert PageOf(pages, names[i]) != PageOf(pages, names[j]);
    }
  }

  lemma SeparatedPlace(pages: seq<Content>, k: nat)
    requires k < |pages|
    ensures Separated(k) in SeparatedFolder(pages) && PageOf(pages, Separated(k)) == k
  {
    NamesDiffer();
  }

  lemma SortablePlace(pages: seq<Content>, k: nat)
    requires k < |pages|
    ensures Sortable(k) in SortableFolder(pages) && SortableFolder(pages)[Sortable(k)] == pages[k]
  {
    NamesDiffer();
  }

  /** A page under its fixed name. */
  lemma FixedPlace(pages: seq<Content>, names: seq<string>, i: nat)
    requires Lists(SeparatedFolder(pages), names) && AllPages(names) && i < |names|
    ensures Fixed(names[i]) in SortableFolder(pages)
    ensures SortableFolder(pages)[Fixed(names[i])] == SeparatedFolder(pages)[names[i]]
  {
    FixedPage(pages, names[i]);
    SortablePlace(pages, PageOf(pages, names[i]));
  }

  /** Every sortable name is the fixed name of a listed page. */
  lemma FixedFrom(pages: seq<Content>, names: seq<string>, x: string)
    requires Lists(SeparatedFolder(pages), names) && AllPages(names) && x in SortableFolder(pages)
    ensures Listed(FixedNames(names), x)
  {
    var k :| 0 <= k < |pages| && x == Sortable(k);
    SeparatedPlace(pages, k);
    assert Listed(names, Separated(k));
    var i :| 0 <= i < |names| && names[i] == Separated(k);
    FixedPage(pages, names[i]);
    assert FixedNames(names)[i] == x;
  }

  lemma SortableIsListed(pages: seq<Content>, names: seq<string>)
    requires Lists(SeparatedFolder(pages), names) && AllPages(names)
    ensures Lists(SortableFolder(pages), FixedNames(names))
  {
    PagesAreFree(pages, names);
    forall i | 0 <= i < |names| ensures FixedNames(names)[i] in SortableFolder(pages) {
      FixedPlace(pages, names, i);
    }
    forall x | x in SortableFolder(pages) ensures Listed(FixedNames(names), x) {
      FixedFrom(pages, names, x);
    }
  }

  lemma SortableIsPlaced(pages: seq<Content>, names: seq<string>)
    requires Lists(SeparatedFolder(pages), names) && AllPages(names)
    ensures Placed(SeparatedFolder(pages), names, FixedNames(names), SortableFolder(pages))
  {
    SortableIsListed(pages, names);
    forall i | 0 <= i < |names|
      ensures SortableFolder(pages)[FixedNames(names)[i]] == SeparatedFolder(pages)[names[i]]
    {
      FixedPlace(pages, names, i);
    }
  }

  /** Giving the pages sortable names loses and replaces none of them, in whatever order they are renamed. */
  lemma FixingKeepsEveryPage(pages: seq<Content>, names: seq<string>)
    requires Lists(SeparatedFolder(pages), names) && AllPages(names)
    ensures NoneClobber(SeparatedFolder(pages), names, FixedNames(names), |names|)
    ensures MoveUpTo(SeparatedFolder(pages), names, FixedNames(names), |names|) == SortableFolder(pages)
  {
    PagesAreFree(pages, names);
    SortableIsPlaced(pages, names);
    FreeRunEndsIn(SeparatedFolder(pages), names, FixedNames(names), SortableFolder(pages));
  }

  // ---------------------------------------------------------------- sorting by name

  lemma TimesTen(d: nat, p: nat)
    ensures 10 * (d * p) == d * (10 * p)
  {
  }

  lemma {:induction false} HigherDigitWins(x: nat, y: nat, p: nat, a: nat, b: nat)
    requires x < y && a < p
    ensures x * p + a < y * p + b
    decreases y
  {
    if x + 1 < y {
      HigherDigitWins(x, y - 1, p, a, b);
    }
    assert y * p == (y - 1) * p + p;
  }

  lemma {:induction false} FrontDigit(s: string)
    requires s != "" && forall k :: 0 <= k < |s| ==> IsDigit(s[k])
    ensures Value(s) == DigitValue(s[0]) * Pow10(|s| - 1) + Value(s[1..])
  {
    var n := |s| - 1;
    if n > 0 {
      FrontDigit(s[..n]);
      assert s[..n][1..] == s[1..][..n - 1];
      TimesTen(DigitValue(s[0]), Pow10(n - 1));
    }
  }

  /** Numerals of one length are in the order of their values. */
  lemma {:induction false} NumeralsInOrder(s: string, t: string, end: string)
    requires |s| == |t| && (forall k :: 0 <= k < |s| ==> IsDigit(s[k]) && IsDigit(t[k]))
    requires Value(s) <= Value(t)
    ensures StringLe(s + end, t + end)
  {
    if s == "" {
      StringLeTotal(s + end, t + end);
    } else {
      FrontDigit(s);
      FrontDigit(t);
      ValueBelowPow10(s[1..]);
      ValueBelowPow10(t[1..]);
      var p, x, y := Pow10(|s| - 1), DigitValue(s[0]), DigitValue(t[0]);
      if y < x {
        HigherDigitWins(y, x, p, Value(t[1..]), Value(s[1..]));
        assert false;
      }
      assert (s + end)[1..] == s[1..] + end && (t + end)[1..] == t[1..] + end;
      if x == y {
        NumeralsInOrder(s[1..], t[1..], end);
      }
    }
  }

  /** A common beginning does not matter. */
  lemma {:induction false} SameBeginning(p: string, s: string, t: string)
    ensures StringLe(p + s, p + t) <==> StringLe(s, t)
  {
    if p == "" {
      assert p + s == s && p + t == t;
    } else {
      SameBeginning(p[1..], s, t);
      assert (p + s)[1..] == p[1..] + s && (p + t)[1..] == p[1..] + t;
    }
  }

  lemma FourDigits(n: nat)
    requires n <= 9999
    ensures |Pad(n, 4)| == 4
  {
    assert Pow10(4) == 10000;
    PadLength(n, 4);
  }

  lemma NumeralNamesInOrder(s: string, t: string)
    requires |s| == |t| && IsNumber(s) && IsNumber(t) && Value(s) <= Value(t)
    ensures StringLe("seq-" + s + ".pdf", "seq-" + t + ".pdf")
  {
    NumeralsInOrder(s, t, ".pdf");
    SameBeginning("seq-", s + ".pdf", t + ".pdf");
    assert "seq-" + s + ".pdf" == "seq-" + (s + ".pdf") && "seq-" + t + ".pdf" == "seq-" + (t + ".pdf");
  }

  lemma FourDigitsInOrder(a: nat, b: nat)
    requires a <= b < 9999
    ensures StringLe(Sortable(a), Sortable(b))
  {
    FourDigits(a + 1);
    FourDigits(b + 1);
    NumeralNamesInOrder(Pad(a + 1, 4), Pad(b + 1, 4));
  }

  lemma NineThousand()
    ensures Print(9999) == "9999"
  {
    assert Print(9) == "9";
    assert Print(99) == "9" + "9";
    assert Print(999) == "99" + "9";
    assert Print(9999) == "999" + "9";
  }

  lemma TenThousand()
    ensures Print(10000) == "10000"
  {
    assert Print(1) == "1";
    assert Print(10) == "1" + "0";
    assert Print(100) == "10" + "0";
    assert Print(1000) == "100" + "0";
    assert Print(10000) == "1000" + "0";
  }

  lemma LongSortables()
    ensures Sortable(9998) == "seq-" + "9999.pdf" && Sortable(9999) == "seq-" + "10000.pdf"
  {
    NineThousand();
    TenThousand();
    assert "9999" + ".pdf" == "9999.pdf" && "10000" + ".pdf" == "10000.pdf";
  }

  lemma TenThousandthIsEarlier()
    ensures !StringLe(Sortable(9998), Sortable(9999))
  {
    LongSortables();
    var s, t := "9999.pdf", "10000.pdf";
    SameBeginning("seq-", s, t);
    assert s[0] == '9' && t[0] == '1';
  }

  /** The pages of an issue sort by name exactly when there are fewer than ten thousand. */
  lemma SortedByNameExactly(n: nat)
    ensures (forall a: nat, b: nat :: a <= b < n ==> StringLe(Sortable(a), Sortable(b))) <==> n <= 9999
  {
    if n <= 9999 {
      forall a: nat, b: nat | a <= b < n ensures StringLe(Sortable(a), Sortable(b)) {
        FourDigitsInOrder(a, b);
      }
    } else {
      TenThousandthIsEarlier();
    }
  }

  // ---------------------------------------------------------------- the job

  /** Which of the job's steps fail: `make` is the making of the output directory; `rename`, `convert` and `copy` are
      the numbers of the files at which the loops stop, and `part` is what a failed copy leaves of its file. */
  datatype Faults = Faults(temp: bool, combine: bool, separate: bool, rename: nat, convert: nat, make: bool,
      copy: nat, part: Content)

  /** The output directory holds exactly the given files, none of them deeper. */
  ghost predicate OutputIs(d: Disk, out: Path, f: Folder) {
    FolderAt(d, out, f) && forall x <- d :: out < x ==> |x| == |out| + 1
  }

  lemma FirstPageIsThere(d: Disk, out: Path, pages: seq<Content>, toPDFA: Content -> Content)
    requires pages != [] && OutputIs(d, out, Converted(SortableFolder(pages), toPDFA))
    ensures !Absent(d, out)
  {
    SortablePlace(pages, 0);
    assert Sortable(0) in Converted(SortableFolder(pages), toPDFA);
    assert out <= out + [Sortable(0)];
  }

  /** The folder once the first n names are fixed. */
  ghost predicate FixedUpTo(start: Folder, names: seq<string>, now: Folder, n: nat) {
    n <= |names| && now == MoveUpTo(start, names, FixedNames(names), n)
  }

  lemma FixedOneMore(start: Folder, now: Folder, names: seq<string>, i: nat)
    requires FixedUpTo(start, names, now, i) && i < |names|
    ensures FixedUpTo(start, names, Moved(now, names[i], Fixed(names[i])), i + 1)
  {
  }

  class PageSplit {
    const storage: Storage
    var temp: Folder

    constructor (storage: Storage)
      ensures this.storage == storage
    {
      this.storage, temp := storage, map[];
    }

    /** The files of the temporary directory, in some order. */
    method Listing() returns (names: seq<string>)
      ensures Lists(temp, names)
    {
      names := [];
      var left := temp.Keys;
      while left != {}
        invariant left <= temp.Keys && Unique(names)
        invariant forall i :: 0 <= i < |names| ==> names[i] in temp && names[i] !in left
        invariant forall x {:trigger Listed(names, x)} | x in temp && x !in left :: Listed(names, x)
        decreases |left|
      {
        var x :| x in left;
        left := left - {x};
        ghost var before := names;
        names := names + [x];
        forall y | y in temp && y !in left ensures Listed(names, y) {
          if y == x {
            assert names[|before|] == x;
          } else {
            assert Listed(before, y);
          }
        }
      }
    }

    method FixPageName(ghost start: Folder, names: seq<string>, i: nat, fails: bool) returns (ok: bool)
      requires i < |names| && FixedUpTo(start, names, temp, i)
      modifies `temp
      ensures ok <==> IsPage(names[i]) && !fails
      ensures FixedUpTo(start, names, temp, if ok then i + 1 else i)
    {
      var isPage := IsPage(names[i]);
      if !isPage || fails {
        return false;
      }
      FixedOneMore(start, temp, names, i);
      temp := Moved(temp, names[i], Fixed(names[i]));
      return true;
    }

    /** fixPageNames: stops at the first name that is not a page's, or at a failing rename. */
    method FixPageNames(names: seq<string>, minPages: int, failAt: nat) returns (ok: bool, ghost done: nat)
      requires Lists(temp, names)
      modifies `temp
      ensures FixedUpTo(old(temp), names, temp, done)
      ensures ok ==> minPages <= |names| <= failAt && AllPages(names) && done == |names|
      ensures !ok ==> |names| < minPages || failAt < |names| || !AllPages(names)
    {
      done := 0;
      if |names| < minPages {
        return false, 0;
      }
      for i := 0 to |names|
        invariant done == i <= failAt && forall k :: 0 <= k < i ==> IsPage(names[k])
        invariant FixedUpTo(old(temp), names, temp, i)
      {
        var fixed := FixPageName(old(temp), names, i, i == failAt);
        if !fixed {
          assert i == failAt || !AllPages(names);
          return false, i;
        }
        done := i + 1;
      }
      return true, |names|;
    }

    /** convertToPDFA: file by file. */
    method ConvertToPDFA(toPDFA: Content -> Content, failAt: nat) returns (ok: bool)
      modifies `temp
      ensures ok <==> |old(temp)| <= failAt
      ensures ok ==> temp == Converted(old(temp), toPDFA)
    {
      var names := Listing();
      ListingLength(temp, names);
      for i := 0 to |names|
        invariant i <= failAt && temp.Keys == old(temp).Keys
        invariant forall k :: 0 <= k < i ==> temp[names[k]] == toPDFA(old(temp)[names[k]])
        invariant forall k :: i <= k < |names| ==> temp[names[k]] == old(temp)[names[k]]
      {
        if i == failAt {
          return false;
        }
        temp := temp[names[i] := toPDFA(temp[names[i]])];
      }
      forall x <- temp ensures temp[x] == toPDFA(old(temp)[x]) {
        assert Listed(names, x);
      }
      return true;
    }

    /** moveIssue: the output directory is made, and the files are copied into it.  Once made it stays. */
    method MoveIssue(out: Path, makeFails: bool, failAt: nat, part: Content) returns (ok: bool)
      requires Absent(storage.disk, out)
      modifies storage
      ensures SameOutside(old(storage.disk), storage.disk, out)
      ensures ok <==> !makeFails && |temp| <= failAt
      ensures ok ==> OutputIs(storage.disk, out, temp)
      ensures !makeFails ==> !Absent(storage.disk, out)
    {
      if makeFails {
        return false;
      }
      var names := Listing();
      storage.disk := storage.disk[out := Directory];
      ListingLength(temp, names);
      for i := 0 to |names|
        modifies storage
        invariant i <= failAt && SameOutside(old(storage.disk), storage.disk, out)
        invariant forall k :: 0 <= k < i ==>
              out + [names[k]] in storage.disk && storage.disk[out + [names[k]]] == temp[names[k]]
        invariant out in storage.disk
        invariant forall x <- storage.disk :: out < x ==> |x| == |out| + 1 && x[|out|] in temp
      {
        var copy := out + [names[i]];
        if i == failAt {
          storage.disk := storage.disk[copy := part];
          assert copy in storage.disk && out <= copy;
          return false;
        }
        forall k | 0 <= k < i ensures out + [names[k]] != copy {
          assert (out + [names[k]])[|out|] == names[k] && copy[|out|] == names[i];
        }
        storage.disk := storage.disk[copy := temp[names[i]]];
      }
      forall x: string
        ensures (x in temp <==> out + [x] in storage.disk) && (x in temp ==> temp[x] == storage.disk[out + [x]])
      {
        if x in temp {
          assert Listed(names, x);
        }
        if out + [x] in storage.disk {
          assert (out + [x])[|out|] == x;
        }
      }
      return true;
    }

    /** The whole job.  The output directory must not exist; the temporary directory is gone at the end, and a success
        leaves every page in the output directory, converted, and nothing else.  The configuration is refused
        unless it asks for at least one page (src/config/config.go). */
    method Process(out: Path, pages: seq<Content>, toPDFA: Content -> Content, minPages: int, faults: Faults)
      returns (ok: bool)
      requires 0 < minPages
      modifies this, storage
      ensures PageSplitEffect(old(storage.disk), storage.disk, out, ok)
      ensures temp == map[]
      ensures ok ==> minPages <= |pages| && OutputIs(storage.disk, out, Converted(SortableFolder(pages), toPDFA))
    {
      temp := map[];
      if faults.temp || !Absent(storage.disk, out) || faults.combine || faults.separate {
        return false;
      }
      temp := SeparatedFolder(pages);
      ok := WorkInTemp(out, pages, toPDFA, minPages, faults);
      if ok {
        FirstPageIsThere(storage.disk, out, pages, toPDFA);
      }
      temp := map[];
    }

    method WorkInTemp(out: Path, ghost pages: seq<Content>, toPDFA: Content -> Content, minPages: int, faults: Faults)
      returns (ok: bool)
      requires Absent(storage.disk, out) && temp == SeparatedFolder(pages)
      modifies this, storage
      ensures SameOutside(old(storage.disk), storage.disk, out)
      ensures ok ==> minPages <= |pages| && OutputIs(storage.disk, out, Converted(SortableFolder(pages), toPDFA))
    {
      var names := Listing();
      ghost var done;
      ok, done := FixPageNames(names, minPages, faults.rename);
      if !ok {
        return;
      }
      FixingKeepsEveryPage(pages, names);
      AsManyNames(pages, names);
      ok := ConvertToPDFA(toPDFA, faults.convert);
      if !ok {
        return;
      }
      ok := MoveIssue(out, faults.make, faults.copy, faults.part);
    }
  }

  function Elements(names: seq<string>): set<string> {
    set x | x in names
  }

  lemma ListingLength(f: Folder, names: seq<string>)
    requires Lists(f, names)
    ensures |names| == |f|
  {
    assert Elements(names) == f.Keys by {
      forall x <- f ensures x in names {
        assert Listed(names, x);
      }
    }
    UniqueSize(names);
  }

  lemma {:induction false} UniqueSize(names: seq<string>)
    requires Unique(names)
    ensures |Elements(names)| == |names|
  {
    if names != [] {
      var n := |names| - 1;
      UniqueSize(names[..n]);
      assert Elements(names) == Elements(names[..n]) + {names[n]};
    }
  }

  function SeparatedNames(n: nat): seq<string> {
    seq(n, k requires 0 <= k < n => Separated(k))
  }

  lemma SeparatedSize(pages: seq<Content>)
    ensures |SeparatedFolder(pages)| == |pages|
  {
    var names := SeparatedNames(|pages|);
    NamesDiffer();
    forall x | x in SeparatedFolder(pages) ensures Listed(names, x) {
      assert names[PageOf(pages, x)] == x;
    }
    forall i | 0 <= i < |names| ensures names[i] in SeparatedFolder(pages) {
      SeparatedPlace(pages, i);
    }
    ListingLength(SeparatedFolder(pages), names);
  }

  lemma AsManyNames(pages: seq<Content>, names: seq<string>)
    requires Lists(SeparatedFolder(pages), names)
    ensures |names| == |pages|
  {
    ListingLength(SeparatedFolder(pages), names);
    SeparatedSize(pages);
  }
}
