/** The chain that moves an approved scan or page-reviewed issue into the workflow and makes its derivatives
    (QueueMoveIssueForDerivatives in src/jobs/queue.go). */
module DeriveChain {
  import opened JobModel
  import opened FileTree
  import opened FileMoves
  import opened Sequences
  import opened PageRenumbering
  import opened PageNumbers
  import RenumberTries
  import opened DiskModel
  import opened Pipelines

  function WorkNo(pl: Pipeline, p: nat): Work
    requires pl.Derive? && p < 10
  {
    match p
    case 0 => SetIssueWS(WSAwaitingProcessing)
    case 1 => SyncDir(pl.location, pl.WorkWip())
    case 2 => KillDir(pl.location)
    case 3 => RenameDir(pl.WorkWip(), pl.WorkDir())
    case 4 => SetIssueLocation(pl.WorkDir())
    case 5 => CleanFiles(pl.WorkDir())
    case 6 => RenumberPages
    case 7 => MakeDerivatives(false)
    case 8 => SetIssueWS(WSReadyForMetadataEntry)
    case _ => IssueAction("Created issue derivatives")
  }

  lemma StepHasNumber(pl: Pipeline, p: nat)
    requires pl.Derive? && p < |pl.Works()|
    ensures p < 10 && pl.Works()[p] == WorkNo(pl, p)
  {
  }

  /** Where the files are, until they are renamed in place at position 6. */
  function FilesDir(pl: Pipeline, p: nat): Path
    requires pl.Derive?
  {
    if p <= 1 then pl.location
    else if p <= 3 then pl.WorkWip()
    else pl.WorkDir()
  }

  /** Every file directly in `base` of the disk `was` that CleanFiles would keep, derivatives aside, is directly in
      `dir` of d, under a name of its own, unchanged. */
  ghost predicate AllThere(was: Disk, base: Path, d: Disk, dir: Path) {
    exists ren :: ThereBy(was, base, d, dir, ren)
  }

  ghost predicate ThereBy(was: Disk, base: Path, d: Disk, dir: Path, ren: map<string, string>) {
    && (forall x: string :: base + [x] in was && !Fraggable(x) && !IsDerivative(x) ==>
          x in ren && dir + [ren[x]] in d && d[dir + [ren[x]]] == was[base + [x]])
    && (forall x, y :: x in ren && y in ren && ren[x] == ren[y] ==> x == y)
  }

  /** Every scan of the cleaned directory has its number, and every file is there. */
  ghost predicate Renumbered(cleaned: Disk, d: Disk, dir: Path, shared: bool) {
    FilesRenamed(cleaned, d, dir) && PagesNumbered(cleaned, d, dir, shared)
  }

  /** The next try of renumbering finds what it takes, whatever failed ones have renamed. */
  ghost predicate InProgress(cleaned: Disk, d: Disk, dir: Path) {
    && Resumable(d, dir)
    && (SettledDir(cleaned, dir) ==> SettledDir(d, dir))
    && Tracked(cleaned, d, dir, SettledDir(cleaned, dir))
  }

  ghost predicate PagesKnown(p: nat, cleaned: Disk, d: Disk, dir: Path) {
    if p == 6 then InProgress(cleaned, d, dir) else Renumbered(cleaned, d, dir, SettledDir(cleaned, dir))
  }

  /** What is known when the chain has reached position p.  `start` is the disk before the chain, `cleaned` the
      disk right after CleanFiles succeeded. */
  ghost predicate Stage(pl: Pipeline, p: nat, i: Issue, d: Disk, start: Disk, cleaned: Disk)
    requires pl.Derive?
  {
    && Held(NotFraggable, if p <= 5 then d else cleaned, FilesDir(pl, p), start, pl.location)
    && (3 <= p ==> Absent(d, pl.location))
    && (4 <= p ==> Absent(d, pl.WorkWip()))
    && (5 <= p ==> i.location == pl.WorkDir())
    && (6 <= p ==> NoneFraggable(cleaned, pl.WorkDir()))
    && (6 <= p && Resumable(cleaned, pl.WorkDir()) ==> PagesKnown(p, cleaned, d, pl.WorkDir()))
    && (8 <= p ==> DerivativesMade(d, pl.WorkDir()))
    && (9 <= p ==> i.step == WSReadyForMetadataEntry)
  }

  lemma StageAtStart(pl: Pipeline, i: Issue, d: Disk)
    requires pl.Derive?
    ensures Stage(pl, 0, i, d, d, d)
  {
    HeldAtStart(NotFraggable, d, pl.location);
  }

  lemma Apart(pl: Pipeline)
    requires pl.Derive? && pl.Separate()
    ensures !Nested(pl.location, pl.WorkDir()) && !Nested(pl.location, pl.WorkWip())
          && !Nested(pl.WorkDir(), pl.WorkWip())
  {
    var ds := pl.Dirs();
    assert ds[0] == pl.location && ds[1] == pl.WorkDir() && ds[2] == pl.WorkWip();
  }

  function Next(p: nat, ok: bool): nat {
    if ok then p + 1 else p
  }

  /** The disk right after cleaning, as the history of the chain records it. */
  function CleanedAfter(p: nat, ok: bool, d': Disk, cleaned: Disk): Disk {
    if p == 5 && ok then d' else cleaned
  }

  // ---------------------------------------------------------------- each step keeps what is known

  lemma RowEffect(pl: Pipeline, p: nat, i: Issue, d: Disk, i': Issue, d': Disk, ok: bool)
    requires pl.Derive? && p in {0, 4, 8, 9} && Effect(WorkNo(pl, p), i, d, i', d', ok)
    ensures d' == d
    ensures p == 4 && ok ==> i'.location == pl.WorkDir()
    ensures p == 8 && ok ==> i'.step == WSReadyForMetadataEntry
    ensures p != 4 ==> i'.location == i.location
    ensures p == 9 ==> i'.step == i.step
  {
  }

  /** Steps that only write the issue row. */
  lemma RowStep(pl: Pipeline, p: nat, i: Issue, d: Disk, i': Issue, ok: bool, start: Disk, cleaned: Disk)
    requires pl.Derive? && p in {0, 4, 8, 9} && Stage(pl, p, i, d, start, cleaned)
    requires p == 4 && ok ==> i'.location == pl.WorkDir()
    requires p == 8 && ok ==> i'.step == WSReadyForMetadataEntry
    requires p != 4 ==> i'.location == i.location
    requires p == 9 ==> i'.step == i.step
    ensures Stage(pl, Next(p, ok), i', d, start, cleaned)
  {
  }

  lemma SyncStep(pl: Pipeline, i: Issue, d: Disk, d': Disk, ok: bool, start: Disk, cleaned: Disk)
    requires pl.Derive? && pl.Separate() && Stage(pl, 1, i, d, start, cleaned)
          && SyncEffect(d, d', pl.location, pl.WorkWip(), ok)
    ensures Stage(pl, Next(1, ok), i, d', start, cleaned)
  {
    Apart(pl);
    HeldOutside(NotFraggable, d, d', pl.WorkWip(), pl.location, start, pl.location);
    if ok {
      HeldAfterSync(NotFraggable, d, d', pl.location, pl.WorkWip(), start, pl.location);
    }
  }

  lemma KillStep(pl: Pipeline, i: Issue, d: Disk, d': Disk, ok: bool, start: Disk, cleaned: Disk)
    requires pl.Derive? && pl.Separate() && Stage(pl, 2, i, d, start, cleaned) && KillEffect(d, d', pl.location, ok)
    ensures Stage(pl, Next(2, ok), i, d', start, cleaned)
  {
    Apart(pl);
    if pl.location != [] {
      HeldOutside(NotFraggable, d, d', pl.location, pl.WorkWip(), start, pl.location);
    }
  }

  lemma RenameStep(pl: Pipeline, i: Issue, d: Disk, d': Disk, ok: bool, start: Disk, cleaned: Disk)
    requires pl.Derive? && pl.Separate() && Stage(pl, 3, i, d, start, cleaned)
    requires RenameEffect(d, d', pl.WorkWip(), pl.WorkDir(), ok)
    ensures Stage(pl, Next(3, ok), i, d', start, cleaned)
  {
    Apart(pl);
    if ok {
      HeldAfterRename(NotFraggable, d, d', pl.WorkWip(), pl.WorkDir(), start, pl.location);
      EmptyBesideRename(d, d', pl.WorkWip(), pl.WorkDir(), pl.location);
      EmptyAfterRename(d, d', pl.WorkWip(), pl.WorkDir());
    }
  }

  /** A change to the directory leaves the two others empty. */
  lemma OthersEmpty(pl: Pipeline, d: Disk, d': Disk)
    requires pl.Derive? && pl.Separate() && SameOutside(d, d', pl.WorkDir())
    requires Absent(d, pl.location) && Absent(d, pl.WorkWip())
    ensures Absent(d', pl.location) && Absent(d', pl.WorkWip())
  {
    Apart(pl);
    EmptyOutside(d, d', pl.WorkDir(), pl.location);
    EmptyOutside(d, d', pl.WorkDir(), pl.WorkWip());
  }

  lemma FreshlyCleaned(d: Disk, dir: Path)
    ensures Resumable(d, dir) ==> InProgress(d, d, dir)
  {
    NothingRenamedYet(d, dir);
    NotShared(d, d, dir, SettledDir(d, dir));
  }

  lemma CleanStep(pl: Pipeline, i: Issue, d: Disk, d': Disk, ok: bool, start: Disk, cleaned: Disk)
    requires pl.Derive? && pl.Separate() && Stage(pl, 5, i, d, start, cleaned) && CleanEffect(d, d', pl.WorkDir(), ok)
    ensures Stage(pl, Next(5, ok), i, d', start, CleanedAfter(5, ok, d', cleaned))
  {
    Apart(pl);
    HeldAfterClean(d, d', pl.WorkDir(), ok, pl.WorkDir(), start, pl.location);
    OthersEmpty(pl, d, d');
    CleanedOut(d, d', pl.WorkDir(), ok);
    FreshlyCleaned(d', pl.WorkDir());
  }

  lemma TryKeepsProgress(cleaned: Disk, d: Disk, d': Disk, dir: Path, f: Folder, es: seq<Entry>, n: nat, ok: bool)
    requires InProgress(cleaned, d, dir) && RenumberTry(d, d', dir, f, es, n, ok)
    ensures InProgress(cleaned, d', dir) && (ok ==> Renumbered(cleaned, d', dir, SettledDir(cleaned, dir)))
  {
    var shared := SettledDir(cleaned, dir);
    assert ListingAt(d, dir, f, es);
    LosslessListing(d, dir, f, es);
    if shared {
      SettledListing(d, dir, f, es);
      SettledAfterTry(d, d', dir, f, es, n, ok);
    }
    ResumableAfterTry(d, d', dir, f, es, n, ok);
    TrackedAfterTry(cleaned, d, d', dir, shared, f, es, n, ok);
    TrackedIsRenamed(cleaned, d', dir, shared);
    if ok {
      RenumberTries.LosslessIsFree(f, es);
      NumberedAfterRun(cleaned, d, d', dir, shared, f, es);
    }
  }

  lemma RenumberStep(pl: Pipeline, i: Issue, d: Disk, d': Disk, ok: bool, start: Disk, cleaned: Disk)
    requires pl.Derive? && pl.Separate() && Stage(pl, 6, i, d, start, cleaned)
          && RenumberEffect(d, d', pl.WorkDir(), ok)
    ensures Stage(pl, Next(6, ok), i, d', start, cleaned)
  {
    OthersEmpty(pl, d, d');
    if Resumable(cleaned, pl.WorkDir()) {
      var f, es, n :| RenumberTry(d, d', pl.WorkDir(), f, es, n, ok);
      TryKeepsProgress(cleaned, d, d', pl.WorkDir(), f, es, n, ok);
    }
  }

  lemma RenumberedBesideDerivatives(cleaned: Disk, d: Disk, d': Disk, dir: Path, shared: bool, ok: bool)
    requires Renumbered(cleaned, d, dir, shared) && DerivativesEffect(d, d', dir, ok)
    ensures Renumbered(cleaned, d', dir, shared)
  {
    RenamedAfterDerivatives(cleaned, d, d', dir, ok);
    ScansBesideDerivatives(d, d', dir, ok);
    StillNumbered(cleaned, d, d', dir, shared);
  }

  lemma DerivativesStep(pl: Pipeline, i: Issue, d: Disk, d': Disk, ok: bool, start: Disk, cleaned: Disk)
    requires pl.Derive? && pl.Separate() && Stage(pl, 7, i, d, start, cleaned)
          && DerivativesEffect(d, d', pl.WorkDir(), ok)
    ensures Stage(pl, Next(7, ok), i, d', start, cleaned)
  {
    OthersEmpty(pl, d, d');
    if Resumable(cleaned, pl.WorkDir()) {
      RenumberedBesideDerivatives(cleaned, d, d', pl.WorkDir(), SettledDir(cleaned, pl.WorkDir()), ok);
    }
  }

  lemma StepNo(pl: Pipeline, p: nat, i: Issue, d: Disk, i': Issue, d': Disk, ok: bool, start: Disk, cleaned: Disk)
    requires pl.Derive? && pl.Separate() && p < 10 && Stage(pl, p, i, d, start, cleaned)
    requires Effect(WorkNo(pl, p), i, d, i', d', ok)
    ensures Stage(pl, Next(p, ok), i', d', start, CleanedAfter(p, ok, d', cleaned))
  {
    match p
    case 1 => SyncStep(pl, i, d, d', ok, start, cleaned);
    case 2 => KillStep(pl, i, d, d', ok, start, cleaned);
    case 3 => RenameStep(pl, i, d, d', ok, start, cleaned);
    case 5 => CleanStep(pl, i, d, d', ok, start, cleaned);
    case 6 => RenumberStep(pl, i, d, d', ok, start, cleaned);
    case 7 => DerivativesStep(pl, i, d, d', ok, start, cleaned);
    case _ =>
      RowEffect(pl, p, i, d, i', d', ok);
      RowStep(pl, p, i, d, i', ok, start, cleaned);
  }

  /** Any try of the step at position p, successful or not, complete or not, keeps what is known. */
  lemma Step(pl: Pipeline, p: nat, i: Issue, d: Disk, i': Issue, d': Disk, ok: bool, start: Disk, cleaned: Disk)
    requires pl.Derive? && pl.Separate() && p < |pl.Works()| && Stage(pl, p, i, d, start, cleaned)
    requires Effect(pl.Works()[p], i, d, i', d', ok)
    ensures Stage(pl, Next(p, ok), i', d', start, CleanedAfter(p, ok, d', cleaned))
  {
    StepHasNumber(pl, p);
    StepNo(pl, p, i, d, i', d', ok, start, cleaned);
  }

  lemma RenumberedWhereSame(cleaned: Disk, d: Disk, d': Disk, dir: Path, shared: bool)
    requires Renumbered(cleaned, d, dir, shared) && SameUnder(d, d', dir)
    ensures Renumbered(cleaned, d', dir, shared)
  {
    RenamedWhereSame(cleaned, d, d', dir);
    ScansWhereSame(d, d', dir);
    StillNumbered(cleaned, d, d', dir, shared);
  }

  lemma PagesWhereSame(p: nat, cleaned: Disk, d: Disk, d': Disk, dir: Path)
    requires PagesKnown(p, cleaned, d, dir) && SameUnder(d, d', dir)
    ensures PagesKnown(p, cleaned, d', dir)
  {
    if p == 6 {
      ResumableWhereSame(d, d', dir);
      TrackedWhereSame(cleaned, d, d', dir, SettledDir(cleaned, dir));
      if SettledDir(cleaned, dir) {
        SettledWhereSame(d, d', dir);
      }
    } else {
      RenumberedWhereSame(cleaned, d, d', dir, SettledDir(cleaned, dir));
    }
  }

  /** Work elsewhere on the disk does not matter. */
  lemma Elsewhere(pl: Pipeline, p: nat, i: Issue, d: Disk, d': Disk, start: Disk, cleaned: Disk)
    requires pl.Derive? && Stage(pl, p, i, d, start, cleaned)
    requires forall k :: 0 <= k < |pl.Dirs()| ==> SameUnder(d, d', pl.Dirs()[k])
    ensures Stage(pl, p, i, d', start, cleaned)
  {
    var ds := pl.Dirs();
    assert ds[0] == pl.location && ds[1] == pl.WorkDir() && ds[2] == pl.WorkWip();
    if p <= 5 {
      HeldWhereSame(NotFraggable, d, d', FilesDir(pl, p), start, pl.location);
    } else if Resumable(cleaned, pl.WorkDir()) {
      PagesWhereSame(p, cleaned, d, d', pl.WorkDir());
    }
    if 8 <= p {
      DerivativesWhereSame(d, d', pl.WorkDir());
    }
  }

  // ---------------------------------------------------------------- when no failed try renamed anything

  /** A whole run of renumbering on the directory as it was cleaned. */
  lemma WholeRenumbering(d: Disk, d': Disk, dir: Path, cleaned: Disk)
    requires Renumberable(cleaned, dir) && SameUnder(d, cleaned, dir) && RenumberEffect(d, d', dir, true)
    ensures Renumbered(cleaned, d', dir, true)
  {
    var f, es, n :| RenumberTry(d, d', dir, f, es, n, true);
    FolderWhereSame(d, cleaned, dir, f);
    assert ListingAt(cleaned, dir, f, es);
    NothingRenamedYet(cleaned, dir);
    TrackedWhereSame(cleaned, cleaned, d, dir, true);
    NumberedAfterRun(cleaned, d, d', dir, true, f, es);
    var ren :| TrackedBy(cleaned, d, dir, ren, true);
    RenamedAfterTry(cleaned, d, d', dir, ren, f, es, n, true);
  }

  /** A try from renumbering on, when until its success the directory stayed as it was cleaned. */
  lemma UntornStep(pl: Pipeline, p: nat, i: Issue, d: Disk, i': Issue, d': Disk, ok: bool, start: Disk, cleaned: Disk)
    requires pl.Derive? && 6 <= p < 10 && Stage(pl, p, i, d, start, cleaned) && Effect(WorkNo(pl, p), i, d, i', d', ok)
    requires Renumberable(cleaned, pl.WorkDir())
    requires if p == 6 then SameUnder(d, cleaned, pl.WorkDir()) else Renumbered(cleaned, d, pl.WorkDir(), true)
    ensures p > 6 || ok ==> Renumbered(cleaned, d', pl.WorkDir(), true)
  {
    if p == 6 && ok {
      WholeRenumbering(d, d', pl.WorkDir(), cleaned);
    } else if p == 7 {
      RenumberedBesideDerivatives(cleaned, d, d', pl.WorkDir(), true, ok);
    }
  }

  // ---------------------------------------------------------------- where the files are

  lemma HeldFile(d: Disk, dir: Path, start: Disk, base: Path, name: string)
    requires Held(NotFraggable, d, dir, start, base) && base + [name] in start && !Fraggable(name)
    ensures dir + [name] in d && d[dir + [name]] == start[base + [name]]
  {
    var f := base + [name];
    assert f[|base|..] == [name] && Name([name]) == name;
  }

  lemma HeldIsThere(start: Disk, base: Path, d: Disk, dir: Path)
    requires Held(NotFraggable, d, dir, start, base)
    ensures AllThere(start, base, d, dir)
  {
    var ren := map q <- start | |q| == |base| + 1 :: q[|base|] := q[|base|];
    forall x: string | base + [x] in start && !Fraggable(x) && !IsDerivative(x)
      ensures x in ren && dir + [ren[x]] in d && d[dir + [ren[x]]] == start[base + [x]]
    {
      assert (base + [x])[|base|] == x;
      HeldFile(d, dir, start, base, x);
    }
    assert ThereBy(start, base, d, dir, ren);
  }

  lemma RenamedIsThere(start: Disk, base: Path, cleaned: Disk, d: Disk, dir: Path)
    requires Held(NotFraggable, cleaned, dir, start, base) && FilesRenamed(cleaned, d, dir)
    ensures AllThere(start, base, d, dir)
  {
    var ren :| RenamedBy(cleaned, d, dir, ren);
    forall x: string | base + [x] in start && !Fraggable(x) && !IsDerivative(x)
      ensures x in ren && dir + [ren[x]] in d && d[dir + [ren[x]]] == start[base + [x]]
    {
      HeldFile(cleaned, dir, start, base, x);
    }
    assert ThereBy(start, base, d, dir, ren);
  }

  /** Unless renumbering went wrong, no file that CleanFiles would keep is ever lost, derivatives aside, and from the
      cleaning on it is in the directory the issue row names. */
  lemma FilesAreSomewhere(pl: Pipeline, p: nat, i: Issue, d: Disk, start: Disk, cleaned: Disk)
    requires pl.Derive? && Stage(pl, p, i, d, start, cleaned) && (6 <= p ==> FilesRenamed(cleaned, d, pl.WorkDir()))
    ensures FilesDir(pl, p) in {pl.location, pl.WorkWip(), pl.WorkDir()} && (5 <= p ==> FilesDir(pl, p) == i.location)
    ensures AllThere(start, pl.location, d, FilesDir(pl, p))
  {
    if p <= 5 {
      HeldIsThere(start, pl.location, d, FilesDir(pl, p));
    } else {
      RenamedIsThere(start, pl.location, cleaned, d, pl.WorkDir());
    }
  }
}
