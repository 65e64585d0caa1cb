/** What renumbering makes of a directory (src/jobs/renumber_pages.go), said of the files on disk: which files there
    are under which names, before and after. */
module PageNumbers {
  import opened Decimal
  import opened JobModel
  import opened FileTree
  import opened FileMoves
  import opened Sequences
  import opened Text
  import opened PageRenumbering
  import PageCollisions
  import RenumberTries
  import opened DiskModel
  import opened Pipelines

  // ---------------------------------------------------------------- names of pages

  /** Source PDFs and TIFFs. */
  predicate IsScan(name: string) {
    Lower(Ext(name)) in {".pdf", ".tif", ".tiff"}
  }

  function ScanExt(name: string): string {
    if Lower(Ext(name)) == ".pdf" then ".pdf" else ".tif"
  }

  /** The name without its extension. */
  function Prefix(name: string): string {
    name[..|name| - |Ext(name)|]
  }

  function PageNo(name: string): nat {
    PageValue(Prefix(name))
  }

  /** A positive number of at least four digits, with zeros in front only as far as it takes four. */
  predicate Numeral(s: string) {
    IsNumber(s) && Value(s) > 0 && 4 <= |s| && (|s| == 4 || s[0] != '0')
  }

  lemma LookedAt(name: string)
    ensures Look(name) == Entry(name, Prefix(name), if IsScan(name) then ScanExt(name) else "")
  {
    var lower := Lower(Ext(name));
    if lower == ".tiff" {
      assert lower[..4] == ".tif";
    } else if lower in {".pdf", ".tif"} {
      assert lower[..4] == lower;
    }
  }

  lemma PadIsNumeral(number: nat)
    requires number > 0
    ensures Numeral(Pad(number, 4))
  {
    NoZeroInFront(number);
  }

  lemma OtherExtension(e: string)
    requires e == ".xml" || e == ".jp2"
    ensures Lower(e) !in {".pdf", ".tif", ".tiff"}
  {
    assert Lower(e)[1] == e[1];
  }

  /** A scan is no derivative. */
  lemma ScanIsSource(name: string)
    requires IsScan(name)
    ensures !IsDerivative(name)
  {
    if IsDerivative(name) {
      OtherExtension(Ext(name));
    }
  }

  // ---------------------------------------------------------------- directories that are safe to renumber

  /** es is a listing of the directory, whose files are f. */
  ghost predicate ListingAt(d: Disk, dir: Path, f: Folder, es: seq<Entry>) {
    FolderAt(d, dir, f) && ListingOf(f, es) && NumericallySorted(es)
  }

  /** However the directory is listed, a run without a failure replaces no file. */
  ghost predicate Renumberable(d: Disk, dir: Path) {
    forall f, es: seq<Entry> :: ListingAt(d, dir, f, es) ==> TargetsFree(NamesOf(es), NewNames(es))
  }

  ghost predicate LosslessIn(d: Disk, dir: Path, f: Folder, es: seq<Entry>) {
    FolderAt(d, dir, f) && ListingOf(f, es) && RenumberTries.Lossless(es)
  }

  /** No number of tries of renumbering the directory, wherever they fail, loses a file. */
  ghost predicate Resumable(d: Disk, dir: Path) {
    exists f, es :: LosslessIn(d, dir, f, es)
  }

  ghost predicate SettledIn(d: Disk, dir: Path, f: Folder, es: seq<Entry>) {
    FolderAt(d, dir, f) && ListingOf(f, es) && Orderly(es) && Settled(es)
  }

  /** Wherever a try fails, the next one ends where the first should have. */
  ghost predicate SettledDir(d: Disk, dir: Path) {
    exists f, es :: SettledIn(d, dir, f, es)
  }

  // ---------------------------------------------------------------- files and their new names

  /** Every file directly in `dir` of the disk `was`, derivatives aside, is there in d, under the name `ren` gives;
      no two files have one name. */
  ghost predicate RenamedBy(was: Disk, d: Disk, dir: Path, ren: map<string, string>) {
    && (forall x: string :: dir + [x] in was && !IsDerivative(x) ==> x in ren)
    && (forall x <- ren :: dir + [x] in was && !IsDerivative(ren[x]) && dir + [ren[x]] in d
         && d[dir + [ren[x]]] == was[dir + [x]])
    && (forall x, y :: x in ren && y in ren && ren[x] == ren[y] ==> x == y)
  }

  ghost predicate FilesRenamed(was: Disk, d: Disk, dir: Path) {
    exists ren :: RenamedBy(was, d, dir, ren)
  }

  ghost predicate Reached(ren: map<string, string>, y: string) {
    exists x <- ren :: ren[x] == y
  }

  predicate SameSort(x: string, y: string) {
    IsScan(x) == IsScan(y) && (IsScan(x) ==> ScanExt(x) == ScanExt(y))
  }

  /** The two keep their order, and where that is told, whether they share a prefix. */
  ghost predicate KeptApart(ren: map<string, string>, x: string, y: string, shared: bool)
    requires x in ren && y in ren
  {
    && (Precedes(Prefix(x), Prefix(y)) ==> Precedes(Prefix(ren[x]), Prefix(ren[y])))
    && (shared ==> (Prefix(ren[x]) == Prefix(ren[y]) <==> Prefix(x) == Prefix(y)))
  }

  /** What failed tries of renumbering keep: the scans of d are those of `was`, in the same order. */
  ghost predicate TrackedBy(was: Disk, d: Disk, dir: Path, ren: map<string, string>, shared: bool) {
    && RenamedBy(was, d, dir, ren)
    && (forall x <- ren :: SameSort(x, ren[x]))
    && (forall y: string :: dir + [y] in d && IsScan(y) ==> Reached(ren, y))
    && (forall x, y :: x in ren && y in ren && IsScan(x) && IsScan(y) ==> KeptApart(ren, x, y, shared))
  }

  ghost predicate Tracked(was: Disk, d: Disk, dir: Path, shared: bool) {
    exists ren :: TrackedBy(was, d, dir, ren, shared)
  }

  ghost predicate Used(to: map<string, string>, number: nat) {
    exists x <- to :: PageNo(to[x]) == number
  }

  /** Every scan directly in `dir` of the disk `was` is there in d, unchanged, called by a number. */
  ghost predicate CalledBy(was: Disk, d: Disk, dir: Path, to: map<string, string>) {
    && (forall x: string :: x in to <==> dir + [x] in was && IsScan(x))
    && (forall x <- to :: Numeral(Prefix(to[x])) && to[x] == Prefix(to[x]) + ScanExt(x)
         && dir + [to[x]] in d && d[dir + [to[x]]] == was[dir + [x]])
  }

  /** No two are called the same, and there is no other scan. */
  ghost predicate OneToOne(d: Disk, dir: Path, to: map<string, string>) {
    && (forall x, y :: x in to && y in to && to[x] == to[y] ==> x == y)
    && (forall y: string :: dir + [y] in d && IsScan(y) ==> Reached(to, y))
  }

  /** The numbers run from 1 on. */
  ghost predicate WithoutGap(to: map<string, string>) {
    forall x, number: nat :: x in to && 0 < number <= PageNo(to[x]) ==> Used(to, number)
  }

  /** The numbers are in page order. */
  ghost predicate PagesInOrder(to: map<string, string>) {
    forall x, y :: x in to && y in to && Precedes(Prefix(x), Prefix(y)) ==> PageNo(to[x]) < PageNo(to[y])
  }

  /** Files share a number exactly when they shared a prefix. */
  ghost predicate SharedBy(to: map<string, string>) {
    forall x, y :: x in to && y in to ==> (PageNo(to[x]) == PageNo(to[y]) <==> Prefix(x) == Prefix(y))
  }

  ghost predicate NumberedBy(was: Disk, d: Disk, dir: Path, to: map<string, string>, shared: bool) {
    && CalledBy(was, d, dir, to)
    && OneToOne(d, dir, to)
    && WithoutGap(to)
    && PagesInOrder(to)
    && (shared ==> SharedBy(to))
  }

  ghost predicate PagesNumbered(was: Disk, d: Disk, dir: Path, shared: bool) {
    exists to :: NumberedBy(was, d, dir, to, shared)
  }

  // ---------------------------------------------------------------- listings of one directory

  lemma FolderIsOne(d: Disk, dir: Path, f: Folder, g: Folder)
    requires FolderAt(d, dir, f) && FolderAt(d, dir, g)
    ensures f == g
  {
  }

  lemma FolderWhereSame(d: Disk, d': Disk, dir: Path, f: Folder)
    requires FolderAt(d, dir, f) && SameUnder(d, d', dir)
    ensures FolderAt(d', dir, f)
  {
    forall x: string ensures (x in f <==> dir + [x] in d') && (x in f ==> f[x] == d'[dir + [x]]) {
      assert dir <= dir + [x];
    }
  }

  lemma ResumableWhereSame(d: Disk, d': Disk, dir: Path)
    requires Resumable(d, dir) && SameUnder(d, d', dir)
    ensures Resumable(d', dir)
  {
    var f, es :| LosslessIn(d, dir, f, es);
    FolderWhereSame(d, d', dir, f);
    assert LosslessIn(d', dir, f, es);
  }

  lemma SettledWhereSame(d: Disk, d': Disk, dir: Path)
    requires SettledDir(d, dir) && SameUnder(d, d', dir)
    ensures SettledDir(d', dir)
  {
    var f, es :| SettledIn(d, dir, f, es);
    FolderWhereSame(d, d', dir, f);
    assert SettledIn(d', dir, f, es);
  }

  lemma LosslessListing(d: Disk, dir: Path, f: Folder, es: seq<Entry>)
    requires Resumable(d, dir) && ListingAt(d, dir, f, es)
    ensures RenumberTries.Lossless(es)
  {
    var g, gs :| LosslessIn(d, dir, g, gs);
    FolderIsOne(d, dir, f, g);
    RenumberTries.LooseInBoth(f, gs, es);
    SortedExactly(es);
    RenumberTries.LosslessInBoth(f, gs, es);
  }

  /** For a directory of numbered pages, that is so exactly when no try of any sequence of tries replaces a file. */
  lemma ResumableExactly(d: Disk, dir: Path, f: Folder, es: seq<Entry>)
    requires ListingAt(d, dir, f, es) && RenumberTries.Loose(es)
    ensures Resumable(d, dir) <==> RenumberTries.NeverReplaces(f)
  {
    SortedExactly(es);
    RenumberTries.TriesReplaceExactly(f, es);
    if Resumable(d, dir) {
      LosslessListing(d, dir, f, es);
    }
    if RenumberTries.NeverReplaces(f) {
      assert LosslessIn(d, dir, f, es);
    }
  }

  lemma SettledListing(d: Disk, dir: Path, f: Folder, es: seq<Entry>)
    requires SettledDir(d, dir) && ListingAt(d, dir, f, es)
    ensures Orderly(es) && Settled(es)
  {
    var g, gs :| SettledIn(d, dir, g, gs);
    FolderIsOne(d, dir, f, g);
    ConsistentInBoth(f, gs, es);
    SortedExactly(es);
    SettledInBoth(f, gs, es);
  }

  lemma SettledInBoth(f: Folder, a: seq<Entry>, b: seq<Entry>)
    requires ListingOf(f, a) && Orderly(a) && Settled(a) && ListingOf(f, b) && Orderly(b)
    ensures Settled(b)
  {
    forall i, j | 0 <= i < j < |b| && b[i].IsPage() && b[j].IsPage() && b[i].prefix == b[j].prefix
      ensures b[i].prefix == Pad(Number(b, i), 4)
    {
      assert NamesOf(b)[i] != NamesOf(b)[j];
      var k := FoundIn(f, b, a, i);
      var l := FoundIn(f, b, a, j);
      SameNumberSamePrefix(a, k, l);
      SameNumberInBoth(f, b, a, i, k);
    }
  }

  /** Entry i is the look at its name, which is in the directory. */
  lemma NameListed(d: Disk, dir: Path, f: Folder, es: seq<Entry>, i: nat)
    requires FolderAt(d, dir, f) && ListingOf(f, es) && i < |es|
    ensures dir + [es[i].name] in d
    ensures es[i] == Entry(es[i].name, Prefix(es[i].name), if IsScan(es[i].name) then ScanExt(es[i].name) else "")
  {
    assert NamesOf(es)[i] in f;
    assert Looked(es[i]);
    LookedAt(es[i].name);
  }

  /** What a page is called by. */
  lemma NewNameParts(f: Folder, es: seq<Entry>, i: nat)
    requires ListingOf(f, es) && i < |es| && es[i].IsPage()
    ensures var y := NewName(es, i);
            && IsScan(y) && Numeral(Prefix(y)) && ScanExt(y) == es[i].ext && PageNo(y) == Number(es, i)
            && y == Prefix(y) + es[i].ext
  {
    ResultLooked(f, es, i);
    LookedAt(NewName(es, i));
    PadIsNumeral(Number(es, i));
  }

  /** An orderly directory can be renumbered. */
  lemma OrderlyIsRenumberable(d: Disk, dir: Path, f: Folder, es: seq<Entry>)
    requires FolderAt(d, dir, f) && ListingOf(f, es) && Orderly(es)
    ensures Renumberable(d, dir)
  {
    forall g, gs | ListingAt(d, dir, g, gs) ensures TargetsFree(NamesOf(gs), NewNames(gs)) {
      FolderIsOne(d, dir, f, g);
      ConsistentInBoth(f, es, gs);
      SortedExactly(gs);
      OrderlyIsFree(f, gs);
    }
  }

  /** No scan is called by a number of four digits yet, and no two share prefix and extension. */
  ghost predicate Foreign(d: Disk, dir: Path) {
    && (forall x: string :: dir + [x] in d && IsScan(x) ==> !Numeral(Prefix(x)))
    && (forall x: string, y: string | x != y && IsScan(x) && IsScan(y) ::
          dir + [x] in d && dir + [y] in d && Prefix(x) == Prefix(y) ==> ScanExt(x) != ScanExt(y))
  }

  lemma ForeignName(d: Disk, dir: Path, f: Folder, es: seq<Entry>, i: nat, j: nat)
    requires ListingAt(d, dir, f, es) && i < |es| && j < |es| && es[i].name != es[j].name
    requires Foreign(d, dir)
    ensures NewName(es, i) != NewName(es, j) && NewName(es, i) != es[j].name
  {
    NameListed(d, dir, f, es, i);
    NameListed(d, dir, f, es, j);
    if es[i].IsPage() {
      NewNameParts(f, es, i);
    }
    if es[j].IsPage() {
      NewNameParts(f, es, j);
    }
    if es[i].IsPage() && es[j].IsPage() {
      SameNumberSamePrefix(es, i, j);
    }
  }

  /** So can one that can be renumbered whatever fails. */
  lemma ResumableIsRenumberable(d: Disk, dir: Path)
    requires Resumable(d, dir)
    ensures Renumberable(d, dir)
  {
    forall f, es: seq<Entry> | ListingAt(d, dir, f, es) ensures TargetsFree(NamesOf(es), NewNames(es)) {
      LosslessListing(d, dir, f, es);
      RenumberTries.LosslessIsFree(f, es);
    }
  }

  /** So can one whose files come from elsewhere, such as gray0356.pdf and gray0356.tif. */
  lemma ForeignIsRenumberable(d: Disk, dir: Path)
    requires Foreign(d, dir)
    ensures Renumberable(d, dir)
  {
    forall f, es: seq<Entry> | ListingAt(d, dir, f, es) ensures TargetsFree(NamesOf(es), NewNames(es)) {
      forall i, j | 0 <= i < j < |es| ensures NewName(es, i) != NewName(es, j) && NewName(es, i) != es[j].name {
        assert NamesOf(es)[i] != NamesOf(es)[j];
        ForeignName(d, dir, f, es, i, j);
      }
    }
  }

  // ---------------------------------------------------------------- what leaves the names alone

  /** The same scans are directly in the directory. */
  ghost predicate SameScans(d: Disk, d': Disk, dir: Path) {
    forall x: string :: IsScan(x) ==>
        (dir + [x] in d <==> dir + [x] in d') && (dir + [x] in d ==> d'[dir + [x]] == d[dir + [x]])
  }

  lemma ScansWhereSame(d: Disk, d': Disk, dir: Path)
    requires SameUnder(d, d', dir)
    ensures SameScans(d, d', dir)
  {
    forall x: string ensures (dir + [x] in d <==> dir + [x] in d') {
      assert dir <= dir + [x];
    }
    forall x: string | dir + [x] in d ensures d'[dir + [x]] == d[dir + [x]] {
      assert dir <= dir + [x];
    }
  }

  lemma ScansBesideDerivatives(d: Disk, d': Disk, dir: Path, ok: bool)
    requires DerivativesEffect(d, d', dir, ok)
    ensures SameScans(d, d', dir)
  {
    forall x: string | IsScan(x)
      ensures (dir + [x] in d <==> dir + [x] in d') && (dir + [x] in d ==> d'[dir + [x]] == d[dir + [x]])
    {
      ScanIsSource(x);
      assert Name(dir + [x]) == x;
    }
  }

  lemma StillNumbered(was: Disk, d: Disk, d': Disk, dir: Path, shared: bool)
    requires PagesNumbered(was, d, dir, shared) && SameScans(d, d', dir)
    ensures PagesNumbered(was, d', dir, shared)
  {
    var to :| NumberedBy(was, d, dir, to, shared);
    forall x <- to ensures dir + [to[x]] in d' && d'[dir + [to[x]]] == was[dir + [x]] {
      NumeralIsScan(to[x], x);
    }
    assert NumberedBy(was, d', dir, to, shared);
  }

  lemma NumeralIsScan(y: string, x: string)
    requires y == Prefix(y) + ScanExt(x)
    ensures IsScan(y) && ScanExt(y) == ScanExt(x)
  {
    LookAtPrefixed(Prefix(y), ScanExt(x));
    LookedAt(y);
  }

  /** Every file's own name. */
  function Unchanged(d: Disk, dir: Path): map<string, string> {
    map q <- d | |q| == |dir| + 1 && dir <= q && !IsDerivative(q[|dir|]) :: q[|dir|] := q[|dir|]
  }

  lemma UnchangedNames(d: Disk, dir: Path)
    ensures forall x: string :: x in Unchanged(d, dir) <==> dir + [x] in d && !IsDerivative(x)
    ensures forall x <- Unchanged(d, dir) :: Unchanged(d, dir)[x] == x
  {
    var ren := Unchanged(d, dir);
    forall x <- ren ensures dir + [x] in d && ren[x] == x && !IsDerivative(x) {
      var q :| q in d && |q| == |dir| + 1 && dir <= q && !IsDerivative(q[|dir|]) && q[|dir|] == x;
      assert q == dir + [x];
    }
    forall x: string | dir + [x] in d && !IsDerivative(x) ensures x in ren {
      assert (dir + [x])[|dir|] == x;
    }
  }

  lemma UnchangedApart(ren: map<string, string>, x: string, y: string)
    requires x in ren && y in ren && ren[x] == x && ren[y] == y
    ensures KeptApart(ren, x, y, true)
  {
  }

  lemma NothingRenamedYet(d: Disk, dir: Path)
    ensures Tracked(d, d, dir, true)
  {
    var ren := Unchanged(d, dir);
    UnchangedNames(d, dir);
    forall y: string | dir + [y] in d && IsScan(y) ensures Reached(ren, y) {
      ScanIsSource(y);
      assert ren[y] == y;
    }
    assert RenamedBy(d, d, dir, ren);
    forall x, y | x in ren && y in ren && IsScan(x) && IsScan(y) ensures KeptApart(ren, x, y, true) {
      UnchangedApart(ren, x, y);
    }
    assert TrackedBy(d, d, dir, ren, true);
  }

  lemma NotShared(was: Disk, d: Disk, dir: Path, shared: bool)
    requires Tracked(was, d, dir, true)
    ensures Tracked(was, d, dir, shared)
  {
    var ren :| TrackedBy(was, d, dir, ren, true);
    forall x, y | x in ren && y in ren && IsScan(x) && IsScan(y) ensures KeptApart(ren, x, y, shared) {
      assert KeptApart(ren, x, y, true);
    }
    assert TrackedBy(was, d, dir, ren, shared);
  }

  lemma TrackedIsRenamed(was: Disk, d: Disk, dir: Path, shared: bool)
    requires Tracked(was, d, dir, shared)
    ensures FilesRenamed(was, d, dir)
  {
    var ren :| TrackedBy(was, d, dir, ren, shared);
    assert RenamedBy(was, d, dir, ren);
  }

  lemma RenamedStays(was: Disk, d: Disk, d': Disk, dir: Path, ren: map<string, string>)
    requires RenamedBy(was, d, dir, ren)
    requires forall x <- ren :: dir + [ren[x]] in d' && d'[dir + [ren[x]]] == d[dir + [ren[x]]]
    ensures RenamedBy(was, d', dir, ren)
  {
  }

  lemma SameNames(d: Disk, d': Disk, dir: Path, ren: map<string, string>)
    requires SameUnder(d, d', dir) && forall x <- ren :: dir + [ren[x]] in d
    ensures forall x <- ren :: dir + [ren[x]] in d' && d'[dir + [ren[x]]] == d[dir + [ren[x]]]
  {
    forall x <- ren ensures dir + [ren[x]] in d' && d'[dir + [ren[x]]] == d[dir + [ren[x]]] {
      assert dir <= dir + [ren[x]];
    }
  }

  lemma RenamedWhereSame(was: Disk, d: Disk, d': Disk, dir: Path)
    requires FilesRenamed(was, d, dir) && SameUnder(d, d', dir)
    ensures FilesRenamed(was, d', dir)
  {
    var ren :| RenamedBy(was, d, dir, ren);
    SameNames(d, d', dir, ren);
    RenamedStays(was, d, d', dir, ren);
  }

  lemma TrackedWhereSame(was: Disk, d: Disk, d': Disk, dir: Path, shared: bool)
    requires Tracked(was, d, dir, shared) && SameUnder(d, d', dir)
    ensures Tracked(was, d', dir, shared)
  {
    var ren :| TrackedBy(was, d, dir, ren, shared);
    SameNames(d, d', dir, ren);
    RenamedStays(was, d, d', dir, ren);
    ScansWhereSame(d, d', dir);
    assert TrackedBy(was, d', dir, ren, shared);
  }

  lemma RenamedAfterDerivatives(was: Disk, d: Disk, d': Disk, dir: Path, ok: bool)
    requires FilesRenamed(was, d, dir) && DerivativesEffect(d, d', dir, ok)
    ensures FilesRenamed(was, d', dir)
  {
    var ren :| RenamedBy(was, d, dir, ren);
    forall x <- ren ensures dir + [ren[x]] in d' && d'[dir + [ren[x]]] == d[dir + [ren[x]]] {
      assert Name(dir + [ren[x]]) == ren[x];
    }
    RenamedStays(was, d, d', dir, ren);
  }

  // ---------------------------------------------------------------- a try, whole or partial

  /** The name a try of renumbering leaves a file with. */
  function NameAfter(es: seq<Entry>, n: nat, y: string): string
    requires n <= |es| && y in NamesOf(es)
  {
    Mixed(NamesOf(es), NewNames(es), n)[Position(NamesOf(es), y)]
  }

  lemma NameAfterIsNoDerivative(f: Folder, es: seq<Entry>, n: nat, k: nat)
    requires ListingOf(f, es) && n <= |es| && k < |es| && !IsDerivative(es[k].name)
    ensures !IsDerivative(Mixed(NamesOf(es), NewNames(es), n)[k])
  {
    NewNameIsNoDerivative(f, es, k);
    assert Mixed(NamesOf(es), NewNames(es), n)[k] == if k < n then NewName(es, k) else es[k].name;
  }

  lemma PlaceAfterTry(f: Folder, es: seq<Entry>, n: nat, y: string)
    requires ListingOf(f, es) && TargetsFree(NamesOf(es), NewNames(es)) && n <= |es| && y in f
    ensures y in NamesOf(es)
    ensures var g := MoveUpTo(f, NamesOf(es), NewNames(es), n);
            NameAfter(es, n, y) in g && g[NameAfter(es, n, y)] == f[y]
  {
    assert Listed(NamesOf(es), y);
    FreeKeepsEveryFile(f, NamesOf(es), NewNames(es), n);
  }

  lemma FileAfterTry(d: Disk, d': Disk, dir: Path, f: Folder, es: seq<Entry>, n: nat, ok: bool, y: string)
    requires RenumberTry(d, d', dir, f, es, n, ok) && TargetsFree(NamesOf(es), NewNames(es)) && dir + [y] in d
          && !IsDerivative(y)
    ensures y in NamesOf(es) && !IsDerivative(NameAfter(es, n, y))
    ensures dir + [NameAfter(es, n, y)] in d' && d'[dir + [NameAfter(es, n, y)]] == d[dir + [y]]
  {
    PlaceAfterTry(f, es, n, y);
    NameAfterIsNoDerivative(f, es, n, Position(NamesOf(es), y));
  }

  lemma {:induction false} NamesAfterDiffer(f: Folder, es: seq<Entry>, n: nat, x: string, y: string)
    requires ListingOf(f, es) && TargetsFree(NamesOf(es), NewNames(es)) && n <= |es|
    requires x in NamesOf(es) && y in NamesOf(es) && NameAfter(es, n, x) == NameAfter(es, n, y)
    ensures x == y
  {
    var names := Mixed(NamesOf(es), NewNames(es), n);
    assert Unique(names) by { FreeKeepsEveryFile(f, NamesOf(es), NewNames(es), n); }
    assert names[Position(NamesOf(es), x)] == names[Position(NamesOf(es), y)];
  }

  lemma RenamedAreListed(was: Disk, d: Disk, dir: Path, ren: map<string, string>, f: Folder, es: seq<Entry>)
    requires RenamedBy(was, d, dir, ren) && FolderAt(d, dir, f) && ListingOf(f, es)
    ensures forall x <- ren :: ren[x] in NamesOf(es)
  {
    forall x <- ren ensures ren[x] in NamesOf(es) {
      assert Listed(NamesOf(es), ren[x]);
    }
  }

  function RenamedOn(ren: map<string, string>, es: seq<Entry>, n: nat): map<string, string>
    requires n <= |es| && forall x <- ren :: ren[x] in NamesOf(es)
  {
    map x <- ren :: NameAfter(es, n, ren[x])
  }

  lemma RenamedAfterTry(was: Disk, d: Disk, d': Disk, dir: Path, ren: map<string, string>, f: Folder, es: seq<Entry>,
                        n: nat, ok: bool)
    requires RenamedBy(was, d, dir, ren) && RenumberTry(d, d', dir, f, es, n, ok)
          && TargetsFree(NamesOf(es), NewNames(es))
    ensures (forall x <- ren :: ren[x] in NamesOf(es)) && RenamedBy(was, d', dir, RenamedOn(ren, es, n))
  {
    RenamedAreListed(was, d, dir, ren, f, es);
    var ren' := RenamedOn(ren, es, n);
    forall x <- ren'
      ensures !IsDerivative(ren'[x]) && dir + [ren'[x]] in d' && d'[dir + [ren'[x]]] == was[dir + [x]]
    {
      FileAfterTry(d, d', dir, f, es, n, ok, ren[x]);
    }
    forall x, y | x in ren' && y in ren' && ren'[x] == ren'[y] ensures x == y {
      NamesAfterDiffer(f, es, n, ren[x], ren[y]);
    }
  }

  // ---------------------------------------------------------------- a failed try

  /** Where a name is in the listing, and what a look at the name it has after the try shows. */
  lemma LookAfter(d: Disk, dir: Path, f: Folder, es: seq<Entry>, n: nat, y: string) returns (i: nat)
    requires FolderAt(d, dir, f) && ListingOf(f, es) && n <= |es| && dir + [y] in d
    ensures y in NamesOf(es) && i == Position(NamesOf(es), y) < |es| && es[i] == Look(y)
    ensures Look(NameAfter(es, n, y)) == Partly(es, n)[i]
  {
    assert Listed(NamesOf(es), y);
    i := Position(NamesOf(es), y);
    assert Looked(es[i]);
    PartlyNames(es, n);
    PartlyLooked(f, es, n, i);
    assert NamesOf(Partly(es, n))[i] == NameAfter(es, n, y);
    assert Looked(Partly(es, n)[i]);
  }

  lemma SortAfter(d: Disk, dir: Path, f: Folder, es: seq<Entry>, n: nat, y: string)
    requires FolderAt(d, dir, f) && ListingOf(f, es) && n <= |es| && dir + [y] in d
    ensures y in NamesOf(es) && SameSort(y, NameAfter(es, n, y))
  {
    var i := LookAfter(d, dir, f, es, n, y);
    RenumberTries.HalfWayPage(f, es, n, i);
    LookedAt(y);
    LookedAt(NameAfter(es, n, y));
  }

  /** Half way, pages are in the same order. */
  lemma OrderHalfWay(f: Folder, es: seq<Entry>, n: nat, a: nat, b: nat)
    requires ListingOf(f, es) && RenumberTries.Lossless(es) && n <= |es| && a < |es| && b < |es|
    requires es[a].IsPage() && es[b].IsPage() && Precedes(es[a].prefix, es[b].prefix)
    ensures Precedes(Partly(es, n)[a].prefix, Partly(es, n)[b].prefix)
  {
    var v := PageValue(es[b].prefix);
    PrecedesIsLess(es[a].prefix, es[b].prefix);
    RenumberTries.HalfWayPage(f, es, n, a);
    RenumberTries.HalfWayPage(f, es, n, b);
    PageCollisions.SmallerFirst(es, a, b);
    RenumberTries.NumberAtMostOwn(f, es, a, PageValue(es[a].prefix));
    assert RenumberTries.PageOf(es, b, v);
    assert PageValue(Partly(es, n)[a].prefix) < PageValue(Partly(es, n)[b].prefix);
  }

  lemma ApartAfterTry(d: Disk, dir: Path, f: Folder, es: seq<Entry>, n: nat, y: string, z: string)
    requires FolderAt(d, dir, f) && ListingOf(f, es) && n <= |es| && RenumberTries.Lossless(es)
    requires dir + [y] in d && dir + [z] in d && IsScan(y) && IsScan(z)
    ensures y in NamesOf(es) && z in NamesOf(es)
    ensures Precedes(Prefix(y), Prefix(z)) ==>
              Precedes(Prefix(NameAfter(es, n, y)), Prefix(NameAfter(es, n, z)))
    ensures Orderly(es) && Settled(es) ==>
              (Prefix(NameAfter(es, n, y)) == Prefix(NameAfter(es, n, z)) <==> Prefix(y) == Prefix(z))
  {
    var i := LookAfter(d, dir, f, es, n, y);
    var j := LookAfter(d, dir, f, es, n, z);
    LookedAt(y);
    LookedAt(z);
    LookedAt(NameAfter(es, n, y));
    LookedAt(NameAfter(es, n, z));
    if Precedes(es[i].prefix, es[j].prefix) {
      OrderHalfWay(f, es, n, i, j);
    }
    if Orderly(es) && Settled(es) {
      PartlySharesEither(f, es, n, i, j);
    }
  }

  /** No scan appears that was not there. */
  lemma NothingNew(was: Disk, d: Disk, d': Disk, dir: Path, ren: map<string, string>, shared: bool, f: Folder,
                   es: seq<Entry>, n: nat, ok: bool, y: string)
    requires TrackedBy(was, d, dir, ren, shared) && RenumberTry(d, d', dir, f, es, n, ok)
          && TargetsFree(NamesOf(es), NewNames(es)) && dir + [y] in d' && IsScan(y)
    ensures (forall x <- ren :: ren[x] in NamesOf(es)) && Reached(RenamedOn(ren, es, n), y)
  {
    RenamedAreListed(was, d, dir, ren, f, es);
    FreeKeepsEveryFile(f, NamesOf(es), NewNames(es), n);
    var names := Mixed(NamesOf(es), NewNames(es), n);
    assert Listed(names, y);
    var i :| 0 <= i < |names| && names[i] == y;
    NameAtPlace(f, es, i);
    SortAfter(d, dir, f, es, n, es[i].name);
    assert Reached(ren, es[i].name);
    var x :| x in ren && ren[x] == es[i].name;
    assert RenamedOn(ren, es, n)[x] == y;
  }

  lemma NameAtPlace(f: Folder, es: seq<Entry>, i: nat)
    requires ListingOf(f, es) && i < |es|
    ensures es[i].name in f && es[i].name in NamesOf(es) && Position(NamesOf(es), es[i].name) == i
  {
    assert NamesOf(es)[i] == es[i].name;
    var k := Position(NamesOf(es), es[i].name);
    assert NamesOf(es)[k] == NamesOf(es)[i];
  }

  /** What is tracked stays tracked, wherever the try ends. */
  lemma TrackedAfterTry(was: Disk, d: Disk, d': Disk, dir: Path, shared: bool, f: Folder, es: seq<Entry>, n: nat,
                        ok: bool)
    requires Tracked(was, d, dir, shared) && RenumberTry(d, d', dir, f, es, n, ok)
    requires RenumberTries.Lossless(es) && (shared ==> Orderly(es) && Settled(es))
    ensures Tracked(was, d', dir, shared)
  {
    var ren :| TrackedBy(was, d, dir, ren, shared);
    RenumberTries.LosslessIsFree(f, es);
    RenamedAfterTry(was, d, d', dir, ren, f, es, n, ok);
    var ren' := RenamedOn(ren, es, n);
    forall x <- ren' ensures SameSort(x, ren'[x]) {
      SortAfter(d, dir, f, es, n, ren[x]);
    }
    forall y: string | dir + [y] in d' && IsScan(y) ensures Reached(ren', y) {
      NothingNew(was, d, d', dir, ren, shared, f, es, n, ok, y);
    }
    forall x, y | x in ren' && y in ren' && IsScan(x) && IsScan(y) ensures KeptApart(ren', x, y, shared) {
      assert KeptApart(ren, x, y, shared);
      ApartAfterTry(d, dir, f, es, n, ren[x], ren[y]);
    }
    assert TrackedBy(was, d', dir, ren', shared);
  }

  lemma ResumableAfterTry(d: Disk, d': Disk, dir: Path, f: Folder, es: seq<Entry>, n: nat, ok: bool)
    requires RenumberTry(d, d', dir, f, es, n, ok) && RenumberTries.Lossless(es)
    ensures Resumable(d', dir)
  {
    RenumberTries.PartlyIsLossless(f, es, n);
    assert LosslessIn(d', dir, MoveUpTo(f, NamesOf(es), NewNames(es), n), Partly(es, n));
  }

  lemma PartlyIsSettled(f: Folder, es: seq<Entry>, n: nat)
    requires ListingOf(f, es) && Orderly(es) && Settled(es) && n <= |es|
    ensures Settled(Partly(es, n))
  {
    var p := Partly(es, n);
    PartlySharesAlike(f, es, n);
    forall i, j | 0 <= i < j < |p| && p[i].IsPage() && p[j].IsPage() && p[i].prefix == p[j].prefix
      ensures p[i].prefix == Pad(Number(p, i), 4)
    {
      PartlySharesEither(f, es, n, i, j);
      SameSharesSameNumber(es, p, i);
    }
  }

  lemma SettledAfterTry(d: Disk, d': Disk, dir: Path, f: Folder, es: seq<Entry>, n: nat, ok: bool)
    requires RenumberTry(d, d', dir, f, es, n, ok) && Orderly(es) && Settled(es)
    ensures SettledDir(d', dir)
  {
    PartlyListed(f, es, n);
    PartlyInOrder(f, es, n);
    SettledIsUntorn(es, n);
    PartlyIsConsistent(f, es, n);
    PartlyIsSettled(f, es, n);
    assert SettledIn(d', dir, MoveUpTo(f, NamesOf(es), NewNames(es), n), Partly(es, n));
  }

  // ---------------------------------------------------------------- a successful try

  /** The numbers a whole run gives. */
  function NumbersGiven(ren: map<string, string>, es: seq<Entry>): map<string, string>
    requires forall x <- ren :: ren[x] in NamesOf(es)
  {
    map x <- ren | IsScan(x) :: NameAfter(es, |es|, ren[x])
  }

  lemma NameAfterAll(es: seq<Entry>, y: string)
    requires y in NamesOf(es)
    ensures NameAfter(es, |es|, y) == NewName(es, Position(NamesOf(es), y))
  {
    assert Mixed(NamesOf(es), NewNames(es), |es|) == NewNames(es);
  }

  /** A scan's entry and its new name. */
  lemma {:induction false} NumberGiven(d: Disk, dir: Path, f: Folder, es: seq<Entry>, y: string) returns (i: nat)
    requires FolderAt(d, dir, f) && ListingOf(f, es) && dir + [y] in d && IsScan(y)
    ensures y in NamesOf(es) && i == Position(NamesOf(es), y) < |es| && es[i].IsPage() && es[i].prefix == Prefix(y)
    ensures var z := NameAfter(es, |es|, y);
            && IsScan(z) && Numeral(Prefix(z)) && PageNo(z) == Number(es, i) && z == Prefix(z) + ScanExt(y)
  {
    i := LookAfter(d, dir, f, es, |es|, y);
    LookedAt(y);
    NewNameParts(f, es, i);
    NameAfterAll(es, y);
  }

  lemma NumberIsUsed(was: Disk, d: Disk, dir: Path, ren: map<string, string>, shared: bool, f: Folder, es: seq<Entry>,
                     x: string, number: nat)
    requires TrackedBy(was, d, dir, ren, shared) && FolderAt(d, dir, f) && ListingOf(f, es) && x in ren && IsScan(x)
    requires forall y <- ren :: ren[y] in NamesOf(es)
    requires 0 < number <= PageNo(NameAfter(es, |es|, ren[x]))
    ensures Used(NumbersGiven(ren, es), number)
  {
    var i := NumberGiven(d, dir, f, es, ren[x]);
    var j := EveryNumberIsUsed(es, number);
    NameAtPlace(f, es, j);
    NameListed(d, dir, f, es, j);
    assert Reached(ren, es[j].name);
    var y :| y in ren && ren[y] == es[j].name;
    var k := NumberGiven(d, dir, f, es, ren[y]);
    assert y in NumbersGiven(ren, es);
  }

  lemma NumbersKeepOrder(was: Disk, d: Disk, dir: Path, ren: map<string, string>, shared: bool, f: Folder,
                         es: seq<Entry>, x: string, y: string)
    requires TrackedBy(was, d, dir, ren, shared) && ListingAt(d, dir, f, es)
    requires forall y <- ren :: ren[y] in NamesOf(es)
    requires x in ren && y in ren && IsScan(x) && IsScan(y)
    ensures var to := NumbersGiven(ren, es);
            && (Precedes(Prefix(x), Prefix(y)) ==> PageNo(to[x]) < PageNo(to[y]))
            && (shared ==> (PageNo(to[x]) == PageNo(to[y]) <==> Prefix(x) == Prefix(y)))
  {
    var i := NumberGiven(d, dir, f, es, ren[x]);
    var j := NumberGiven(d, dir, f, es, ren[y]);
    assert KeptApart(ren, x, y, shared);
    if Precedes(Prefix(x), Prefix(y)) {
      EarlierIsSmaller(es, i, j);
    }
    SameNumberSamePrefix(es, i, j);
  }

  lemma GivenIsThere(was: Disk, d: Disk, d': Disk, dir: Path, ren: map<string, string>, shared: bool, f: Folder,
                     es: seq<Entry>, x: string)
    requires TrackedBy(was, d, dir, ren, shared) && RenumberTry(d, d', dir, f, es, |es|, true)
          && TargetsFree(NamesOf(es), NewNames(es)) && x in ren && IsScan(x)
    ensures (forall y <- ren :: ren[y] in NamesOf(es))
    ensures var z := NumbersGiven(ren, es)[x];
            && Numeral(Prefix(z)) && z == Prefix(z) + ScanExt(x)
            && dir + [z] in d' && d'[dir + [z]] == was[dir + [x]]
  {
    RenamedAreListed(was, d, dir, ren, f, es);
    var i := NumberGiven(d, dir, f, es, ren[x]);
    FileAfterTry(d, d', dir, f, es, |es|, true, ren[x]);
  }

  lemma GivenIsCalled(was: Disk, d: Disk, d': Disk, dir: Path, ren: map<string, string>, shared: bool, f: Folder,
                      es: seq<Entry>)
    requires TrackedBy(was, d, dir, ren, shared) && RenumberTry(d, d', dir, f, es, |es|, true)
          && TargetsFree(NamesOf(es), NewNames(es))
    ensures (forall y <- ren :: ren[y] in NamesOf(es)) && CalledBy(was, d', dir, NumbersGiven(ren, es))
  {
    RenamedAreListed(was, d, dir, ren, f, es);
    var to := NumbersGiven(ren, es);
    forall x: string ensures x in to <==> dir + [x] in was && IsScan(x) {
      if dir + [x] in was && IsScan(x) {
        ScanIsSource(x);
      }
    }
    forall x <- to
      ensures Numeral(Prefix(to[x])) && to[x] == Prefix(to[x]) + ScanExt(x)
      ensures dir + [to[x]] in d' && d'[dir + [to[x]]] == was[dir + [x]]
    {
      GivenIsThere(was, d, d', dir, ren, shared, f, es, x);
    }
  }

  lemma GivenIsOneToOne(was: Disk, d: Disk, d': Disk, dir: Path, ren: map<string, string>, shared: bool, f: Folder,
                        es: seq<Entry>)
    requires TrackedBy(was, d, dir, ren, shared) && RenumberTry(d, d', dir, f, es, |es|, true)
          && TargetsFree(NamesOf(es), NewNames(es))
    ensures (forall y <- ren :: ren[y] in NamesOf(es)) && OneToOne(d', dir, NumbersGiven(ren, es))
  {
    RenamedAreListed(was, d, dir, ren, f, es);
    var to := NumbersGiven(ren, es);
    forall x, y | x in to && y in to && to[x] == to[y] ensures x == y {
      NamesAfterDiffer(f, es, |es|, ren[x], ren[y]);
    }
    forall y: string | dir + [y] in d' && IsScan(y) ensures Reached(to, y) {
      NothingNew(was, d, d', dir, ren, shared, f, es, |es|, true, y);
      var x :| x in ren && RenamedOn(ren, es, |es|)[x] == y;
      SortAfter(d, dir, f, es, |es|, ren[x]);
      assert to[x] == y;
    }
  }

  lemma GivenWithoutGap(was: Disk, d: Disk, dir: Path, ren: map<string, string>, shared: bool, f: Folder,
                        es: seq<Entry>)
    requires TrackedBy(was, d, dir, ren, shared) && FolderAt(d, dir, f) && ListingOf(f, es)
    requires forall y <- ren :: ren[y] in NamesOf(es)
    ensures WithoutGap(NumbersGiven(ren, es))
  {
    var to := NumbersGiven(ren, es);
    forall x, number: nat | x in to && 0 < number <= PageNo(to[x]) ensures Used(to, number) {
      NumberIsUsed(was, d, dir, ren, shared, f, es, x, number);
    }
  }

  lemma GivenInOrder(was: Disk, d: Disk, dir: Path, ren: map<string, string>, shared: bool, f: Folder, es: seq<Entry>)
    requires TrackedBy(was, d, dir, ren, shared) && ListingAt(d, dir, f, es)
    requires forall y <- ren :: ren[y] in NamesOf(es)
    ensures PagesInOrder(NumbersGiven(ren, es)) && (shared ==> SharedBy(NumbersGiven(ren, es)))
  {
    var to := NumbersGiven(ren, es);
    forall x, y | x in to && y in to
      ensures Precedes(Prefix(x), Prefix(y)) ==> PageNo(to[x]) < PageNo(to[y])
      ensures shared ==> (PageNo(to[x]) == PageNo(to[y]) <==> Prefix(x) == Prefix(y))
    {
      NumbersKeepOrder(was, d, dir, ren, shared, f, es, x, y);
    }
  }

  /** A successful try numbers the pages that were tracked. */
  lemma NumberedAfterRun(was: Disk, d: Disk, d': Disk, dir: Path, shared: bool, f: Folder, es: seq<Entry>)
    requires Tracked(was, d, dir, shared) && RenumberTry(d, d', dir, f, es, |es|, true)
          && TargetsFree(NamesOf(es), NewNames(es))
    ensures PagesNumbered(was, d', dir, shared)
  {
    var ren :| TrackedBy(was, d, dir, ren, shared);
    GivenIsCalled(was, d, d', dir, ren, shared, f, es);
    GivenIsOneToOne(was, d, d', dir, ren, shared, f, es);
    GivenWithoutGap(was, d, dir, ren, shared, f, es);
    GivenInOrder(was, d, dir, ren, shared, f, es);
    assert NumberedBy(was, d', dir, NumbersGiven(ren, es), shared);
  }

  // ---------------------------------------------------------------- when derivatives could be made

  lemma NotThere(s: string, k: nat, t: string, i: nat)
    requires i < |t| && k + i < |s| && s[k + i] != t[i]
    ensures !HasAt(s, k, t)
  {
  }

  /** The characters of a page's name. */
  lemma NameCharacters(s: string, ext: string, i: nat)
    requires IsNumber(s) && ext in {".pdf", ".tif"} && i < |s + ext|
    ensures Lower(s + ext)[i] !in {'a', 'j', 'x'}
    ensures i <= |s| ==> Lower(s + ext)[i] !in {'p', 't'}
  {
    if i < |s| {
      assert (s + ext)[i] == s[i];
    } else {
      assert (s + ext)[i] == ext[i - |s|];
    }
  }

  lemma CharacterAt(s: string, k: nat, t: string, i: nat)
    requires HasAt(s, k, t) && i < |t|
    ensures s[k + i] == t[i]
  {
    assert s[k..k + |t|][i] == s[k + i];
  }

  lemma NeitherMetsNorTar(s: string, ext: string, k: nat)
    requires IsNumber(s) && ext in {".pdf", ".tif"}
    ensures !MetsAt(s + ext, k) && !TarAt(s + ext, k)
  {
    forall i: nat | i < |s + ext| ensures Lower(s + ext)[i] !in {'a', 'x'} {
      NameCharacters(s, ext, i);
    }
    if k + 14 <= |s + ext| {
      NotThere(Lower(s + ext), k + 11, "xml", 0);
    }
    if k + 5 <= |s + ext| {
      NotThere(Lower(s + ext), k + 2, "tar", 1);
    }
  }

  /** Only a page number of exactly four digits is a valid internal name. */
  lemma ValidIsFourDigits(s: string, ext: string)
    requires Numeral(s) && ext in {".pdf", ".tif"} && ValidInternalName(s + ext)
    ensures |s| == 4
  {
    forall k: nat ensures !MetsAt(s + ext, k) && !TarAt(s + ext, k) {
      NeitherMetsNorTar(s, ext, k);
    }
    var e :| e in {"pdf", "jp2", "xml", "tif"} && HasAt(Lower(s + ext), 5, e);
    CharacterAt(Lower(s + ext), 5, e, 0);
    NameCharacters(s, ext, 5);
  }

  /** Derivatives that are there stay there. */
  lemma DerivativesWhereSame(d: Disk, d': Disk, dir: Path)
    requires DerivativesMade(d, dir) && SameUnder(d, d', dir)
    ensures DerivativesMade(d', dir)
  {
    forall x: string ensures dir + [x] in d <==> dir + [x] in d' {
      assert dir <= dir + [x];
    }
  }

  /** Numbers and derivatives together: every scan's name is a number of four digits. */
  lemma FourDigitNames(was: Disk, d: Disk, dir: Path, shared: bool, y: string)
    requires PagesNumbered(was, d, dir, shared) && DerivativesMade(d, dir) && dir + [y] in d && IsScan(y)
    ensures |Prefix(y)| == 4 && Numeral(Prefix(y)) && y == Prefix(y) + ScanExt(y)
  {
    var to :| NumberedBy(was, d, dir, to, shared);
    assert Reached(to, y);
    var x :| x in to && to[x] == y;
    ScanIsSource(y);
    NumeralIsScan(y, x);
    ValidIsFourDigits(Prefix(y), ScanExt(x));
  }
}
