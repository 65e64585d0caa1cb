/** The chain that takes an errored or purged issue out of the workflow
    (GetJobsForRemoveErroredIssue in src/jobs/queue.go). */
module RemovalChain {
  import opened JobModel
  import opened FileTree
  import opened DiskModel
  import opened Pipelines

  /** Every kept file of the issue is in exactly one of two directories. */
  ghost predicate InOne(flt: Filter, d: Disk, a: Path, b: Path, ref: Disk, base: Path) {
    forall f <- ref :: base <= f && flt.Keeps(f[|base|..]) ==>
      var r := f[|base|..];
      || (a + r in d && d[a + r] == ref[f] && b + r !in d)
      || (b + r in d && d[b + r] == ref[f] && a + r !in d)
  }

  predicate GoesToDerivatives(r: Path) {
    r != [] && IsDerivative(r[0])
  }

  /** Derivatives are in b only and everything else is in a only. */
  ghost predicate Sorted(flt: Filter, d: Disk, a: Path, b: Path, ref: Disk, base: Path) {
    forall f <- ref :: base <= f && flt.Keeps(f[|base|..]) ==>
      var r := f[|base|..];
      var here, there := if GoesToDerivatives(r) then b else a, if GoesToDerivatives(r) then a else b;
      here + r in d && d[here + r] == ref[f] && there + r !in d
  }

  /** The names the chain itself writes into the content directory. */
  function Kept(pl: Pipeline): Filter
    requires pl.Remove?
  {
    Without(if pl.backup == [] then {"actions.txt"} else {"actions.txt", "original.tar"})
  }

  function FinalContent(pl: Pipeline): Path
    requires pl.Remove?
  {
    pl.ErrorDir() + ["content"]
  }

  function FinalDerivatives(pl: Pipeline): Path
    requires pl.Remove?
  {
    pl.ErrorDir() + ["derivatives"]
  }

  /** Positions are numbered as in the chain with a backup; without one, the archive steps 5 to 7 do not exist. */
  function Index(pl: Pipeline, p: nat): nat
    requires pl.Remove?
  {
    if pl.backup == [] && 5 <= p then p + 3 else p
  }

  /** The step with the given number. */
  function WorkNo(pl: Pipeline, n: nat): Work
    requires pl.Remove? && n < 13
  {
    match n
    case 0 => SyncDir(pl.location, pl.Content())
    case 1 => KillDir(pl.location)
    case 2 => SetIssueLocation(pl.Content())
    case 3 => MoveDerivatives(pl.Derivatives())
    case 4 => WriteActionLog
    case 5 => ArchiveBackups
    case 6 => KillDir(pl.backup)
    case 7 => SetIssueBackupLoc([])
    case 8 => RenameDir(pl.ErrorWip(), pl.ErrorDir())
    case 9 => IgnoreIssue
    case 10 => SetIssueLocation([])
    case 11 => SetIssueWS(WSUnfixableMetadataError)
    case _ => IssueAction("Errored issue removed from NCA")
  }

  lemma StepHasNumber(pl: Pipeline, p: nat)
    requires pl.Remove? && p < |pl.Works()|
    ensures Index(pl, p) < 13 && pl.Works()[p] == WorkNo(pl, Index(pl, p))
    ensures pl.backup == [] ==> Index(pl, p) < 5 || 8 <= Index(pl, p)
    ensures Index(pl, p + 1) == if pl.backup == [] && p == 4 then 8 else Index(pl, p) + 1
  {
  }

  ghost predicate Files(pl: Pipeline, n: nat, d: Disk, start: Disk)
    requires pl.Remove?
  {
    && (n == 0 ==> Held(Kept(pl), d, pl.location, start, pl.location))
    && (n <= 2 ==> Absent(d, pl.Derivatives()))
    && (1 <= n <= 3 ==> InOne(Kept(pl), d, pl.Content(), pl.Derivatives(), start, pl.location))
    && (4 <= n <= 8 ==> Sorted(Kept(pl), d, pl.Content(), pl.Derivatives(), start, pl.location))
    && (9 <= n ==> Sorted(Kept(pl), d, FinalContent(pl), FinalDerivatives(pl), start, pl.location))
  }

  ghost predicate Backup(pl: Pipeline, n: nat, d: Disk, start: Disk)
    requires pl.Remove?
  {
    pl.backup != [] ==>
      && (n <= 5 ==> Held(Every, d, pl.backup, start, pl.backup))
      && (6 <= n <= 8 ==> Tarfile(pl.Content()) in d && ArchiveHolds(d[Tarfile(pl.Content())], start, pl.backup))
      && (9 <= n ==> Tarfile(FinalContent(pl)) in d && ArchiveHolds(d[Tarfile(FinalContent(pl))], start, pl.backup))
      && (7 <= n ==> Absent(d, pl.backup))
  }

  /** The action log has been written beside the content. */
  ghost predicate Logged(pl: Pipeline, n: nat, d: Disk)
    requires pl.Remove?
  {
    5 <= n ==>
      var log := ActionLog(if n <= 8 then pl.Content() else FinalContent(pl));
      log in d && d[log].Bytes?
  }

  /** The directories the files have left. */
  predicate Left(pl: Pipeline, n: nat, d: Disk)
    requires pl.Remove?
  {
    (2 <= n ==> Absent(d, pl.location)) && (9 <= n ==> Absent(d, pl.ErrorWip()))
  }

  /** The issue row. */
  predicate Row(pl: Pipeline, n: nat, i: Issue)
    requires pl.Remove?
  {
    && (n <= 6 || pl.backup == [] ==> i.backup == pl.backup)
    && (8 <= n ==> i.backup == [])
    && (3 <= n <= 9 ==> i.location == pl.Content())
    && (10 <= n ==> i.ignored)
    && (11 <= n ==> i.location == [])
    && (12 <= n ==> i.step == WSUnfixableMetadataError)
  }

  ghost predicate Stage(pl: Pipeline, n: nat, i: Issue, d: Disk, start: Disk)
    requires pl.Remove?
  {
    && Files(pl, n, d, start)
    && Backup(pl, n, d, start)
    && Logged(pl, n, d)
    && Left(pl, n, d)
    && Row(pl, n, i)
  }

  lemma StageAtStart(pl: Pipeline, i: Issue, d: Disk)
    requires pl.Remove? && i.backup == pl.backup && Absent(d, pl.ErrorWip())
    ensures Stage(pl, 0, i, d, d)
  {
    HeldAtStart(Kept(pl), d, pl.location);
    HeldAtStart(Every, d, pl.backup);
    forall f <- d ensures !(pl.Derivatives() <= f) {
      assert pl.ErrorWip() <= pl.Derivatives();
    }
  }

  lemma Apart(pl: Pipeline)
    requires pl.Remove? && pl.Separate()
    ensures !Nested(pl.location, pl.ErrorWip()) && !Nested(pl.location, pl.ErrorDir())
          && !Nested(pl.ErrorWip(), pl.ErrorDir())
    ensures !Nested(pl.location, pl.Content()) && !Nested(pl.location, pl.Derivatives())
    ensures !Nested(pl.Content(), pl.Derivatives())
    ensures pl.backup != [] ==>
              !Nested(pl.backup, pl.location) && !Nested(pl.backup, pl.ErrorWip()) && !Nested(pl.backup, pl.ErrorDir())
    ensures pl.backup != [] ==> !Nested(pl.backup, pl.Content()) && !Nested(pl.backup, pl.Derivatives())
  {
    var ds := pl.Dirs();
    assert ds[0] == pl.location && ds[1] == pl.ErrorWip() && ds[2] == pl.ErrorDir();
    ChildApart(pl.location, pl.ErrorWip(), "content");
    ChildApart(pl.location, pl.ErrorWip(), "derivatives");
    if pl.backup != [] {
      assert ds[3] == pl.backup;
      ChildApart(pl.backup, pl.ErrorWip(), "content");
      ChildApart(pl.backup, pl.ErrorWip(), "derivatives");
    }
    assert pl.Content()[|pl.ErrorWip()|] == "content" && pl.Derivatives()[|pl.ErrorWip()|] == "derivatives";
  }

  // ---------------------------------------------------------------- facts about the placement predicates

  lemma HeldAloneIsInOne(flt: Filter, d: Disk, a: Path, b: Path, ref: Disk, base: Path)
    requires Held(flt, d, a, ref, base) && Absent(d, b)
    ensures InOne(flt, d, a, b, ref, base)
  {
    forall f <- ref | base <= f ensures b + f[|base|..] !in d {
      assert b <= b + f[|base|..];
    }
  }

  lemma InOneOutside(flt: Filter, d: Disk, d': Disk, changed: Path, a: Path, b: Path, ref: Disk, base: Path)
    requires InOne(flt, d, a, b, ref, base) && SameOutside(d, d', changed) && !Nested(a, changed) && !Nested(b, changed)
    ensures InOne(flt, d', a, b, ref, base)
  {
    forall f <- ref | base <= f && flt.Keeps(f[|base|..])
      ensures !(changed <= a + f[|base|..]) && !(changed <= b + f[|base|..])
    {
      UnderOne(a, changed, a + f[|base|..]);
      UnderOne(b, changed, b + f[|base|..]);
    }
  }

  /** A change to one entry of directory a that the filter does not keep. */
  lemma SortedBesideEntry(names: set<string>, d: Disk, d': Disk, a: Path, b: Path, entry: string, ref: Disk, base: Path)
    requires Sorted(Without(names), d, a, b, ref, base) && entry in names
    requires SameBeside(d, d', a + [entry]) && !Nested(a, b)
    ensures Sorted(Without(names), d', a, b, ref, base)
  {
    forall f <- ref | base <= f && Without(names).Keeps(f[|base|..])
      ensures a + [entry] != a + f[|base|..] && a + [entry] != b + f[|base|..]
    {
      var r := f[|base|..];
      assert (a + [entry])[|a|..] == [entry] && (a + r)[|a|..] == r;
      UnderOne(a, b, b + r);
      assert b <= b + r && a <= a + [entry];
    }
  }

  lemma SortedOutside(flt: Filter, d: Disk, d': Disk, changed: Path, a: Path, b: Path, ref: Disk, base: Path)
    requires Sorted(flt, d, a, b, ref, base) && SameOutside(d, d', changed) && !Nested(a, changed)
          && !Nested(b, changed)
    ensures Sorted(flt, d', a, b, ref, base)
  {
    forall f <- ref | base <= f && flt.Keeps(f[|base|..])
      ensures !(changed <= a + f[|base|..]) && !(changed <= b + f[|base|..])
    {
      UnderOne(a, changed, a + f[|base|..]);
      UnderOne(b, changed, b + f[|base|..]);
    }
  }

  /** Moving some derivative entries leaves each file in exactly one place; moving all sorts them. */
  lemma MoveSorts(flt: Filter, d: Disk, d': Disk, a: Path, b: Path, moved: set<string>, all: bool, ref: Disk,
          base: Path)
    requires InOne(flt, d, a, b, ref, base) && Absent(d, b) && !Nested(a, b) && !flt.Every? && (flt.Keeps([]) ==> false)
    requires MovedInto(d, d', a, b, moved, all)
    ensures InOne(flt, d', a, b, ref, base)
    ensures all ==> Sorted(flt, d', a, b, ref, base)
  {
    forall f <- ref | base <= f && flt.Keeps(f[|base|..])
      ensures var r := f[|base|..];
              var here, there := if r[0] in moved then b else a, if r[0] in moved then a else b;
              here + r in d' && d'[here + r] == ref[f] && there + r !in d'
                  && (all ==> (GoesToDerivatives(r) <==> r[0] in moved))
    {
      var r := f[|base|..];
      assert b <= b + r && b + r != b;
      assert a + r in d && d[a + r] == ref[f];
      assert a < a + r && (a + r)[|a|] == r[0] && (a + r)[|a|..] == r;
      UnderOne(a, b, a + r);
      assert (b + r)[|b|] == r[0];
    }
  }

  lemma RenameMoves(d: Disk, d': Disk, src: Path, dest: Path, rel: Path)
    requires Renamed(d, d', src, dest)
    ensures src + rel in d <==> dest + rel in d'
    ensures src + rel in d ==> d'[dest + rel] == d[src + rel]
  {
    assert (src + rel)[|src|..] == rel && (dest + rel)[|dest|..] == rel;
  }

  lemma RenameMovesChild(d: Disk, d': Disk, src: Path, dest: Path, z: string, r: Path)
    requires Renamed(d, d', src, dest)
    ensures src + [z] + r in d <==> dest + [z] + r in d'
    ensures src + [z] + r in d ==> d'[dest + [z] + r] == d[src + [z] + r]
  {
    RenameMoves(d, d', src, dest, [z] + r);
    assert src + ([z] + r) == src + [z] + r && dest + ([z] + r) == dest + [z] + r;
  }

  /** Renaming the parent of two directories moves both. */
  lemma SortedAfterRename(flt: Filter, d: Disk, d': Disk, src: Path, dest: Path, x: string, y: string, ref: Disk,
          base: Path)
    requires Sorted(flt, d, src + [x], src + [y], ref, base) && Renamed(d, d', src, dest)
    ensures Sorted(flt, d', dest + [x], dest + [y], ref, base)
  {
    forall f <- ref | base <= f && flt.Keeps(f[|base|..])
      ensures var r := f[|base|..];
              var here, there := dest + [if GoesToDerivatives(r) then y else x],
                  dest + [if GoesToDerivatives(r) then x else y];
              here + r in d' && d'[here + r] == ref[f] && there + r !in d'
    {
      RenameMovesChild(d, d', src, dest, x, f[|base|..]);
      RenameMovesChild(d, d', src, dest, y, f[|base|..]);
    }
  }

  // ---------------------------------------------------------------- each step keeps what is known

  function Next(n: nat, ok: bool): nat {
    if ok then n + 1 else n
  }

  lemma BackupOutside(pl: Pipeline, n: nat, d: Disk, d': Disk, start: Disk, changed: Path)
    requires pl.Remove? && n <= 5 && Backup(pl, n, d, start) && SameOutside(d, d', changed)
    requires pl.backup != [] ==> !Nested(pl.backup, changed)
    ensures Backup(pl, n, d', start)
  {
    if pl.backup != [] {
      HeldOutside(Every, d, d', changed, pl.backup, start, pl.backup);
    }
  }

  lemma SyncStep(pl: Pipeline, i: Issue, d: Disk, i': Issue, d': Disk, ok: bool, start: Disk)
    requires pl.Remove? && pl.Separate() && Stage(pl, 0, i, d, start)
    requires i' == i && SyncEffect(d, d', pl.location, pl.Content(), ok)
    ensures Stage(pl, Next(0, ok), i', d', start)
  {
    Apart(pl);
    HeldOutside(Kept(pl), d, d', pl.Content(), pl.location, start, pl.location);
    EmptyOutside(d, d', pl.Content(), pl.Derivatives());
    BackupOutside(pl, 0, d, d', start, pl.Content());
    if ok {
      HeldAfterSync(Kept(pl), d, d', pl.location, pl.Content(), start, pl.location);
      HeldAloneIsInOne(Kept(pl), d', pl.Content(), pl.Derivatives(), start, pl.location);
    }
  }

  lemma KillStep(pl: Pipeline, i: Issue, d: Disk, i': Issue, d': Disk, ok: bool, start: Disk)
    requires pl.Remove? && pl.Separate() && Stage(pl, 1, i, d, start)
    requires i' == i && KillEffect(d, d', pl.location, ok)
    ensures Stage(pl, Next(1, ok), i', d', start)
  {
    Apart(pl);
    if pl.location != [] {
      InOneOutside(Kept(pl), d, d', pl.location, pl.Content(), pl.Derivatives(), start, pl.location);
      EmptyOutside(d, d', pl.location, pl.Derivatives());
      BackupOutside(pl, 1, d, d', start, pl.location);
    }
  }

  lemma MoveStep(pl: Pipeline, i: Issue, d: Disk, i': Issue, d': Disk, ok: bool, start: Disk)
    requires pl.Remove? && pl.Separate() && Stage(pl, 3, i, d, start)
    requires i' == i && MoveDerivativesEffect(d, d', pl.Content(), pl.Derivatives(), ok)
    ensures Stage(pl, Next(3, ok), i', d', start)
  {
    Apart(pl);
    var a, b := pl.Content(), pl.Derivatives();
    if Absent(d, b) && (ok || d' != d) {
      var moved: set<string> :| MovedInto(d, d', a, b, moved, ok);
      MoveSorts(Kept(pl), d, d', a, b, moved, ok, start, pl.location);
      if pl.backup != [] {
        BackupBesideMove(pl, d, d', start, moved);
      }
    }
  }

  lemma BackupBesideMove(pl: Pipeline, d: Disk, d': Disk, start: Disk, moved: set<string>)
    requires pl.Remove? && pl.backup != [] && !Nested(pl.backup, pl.Content())
    requires EntriesMoved(d[pl.Derivatives() := Directory], d', pl.Content(), pl.Derivatives(), moved)
    requires !Nested(pl.backup, pl.Derivatives())
    requires Held(Every, d, pl.backup, start, pl.backup)
    ensures Held(Every, d', pl.backup, start, pl.backup)
  {
    forall f <- start | pl.backup <= f
      ensures pl.backup + f[|pl.backup|..] in d' && d'[pl.backup + f[|pl.backup|..]] == start[f]
    {
      UnderOne(pl.backup, pl.Content(), pl.backup + f[|pl.backup|..]);
    }
  }

  /** A change to one entry of the content leaves the directories that were left empty. */
  lemma LeftBesideEntry(pl: Pipeline, n: nat, d: Disk, d': Disk, entry: string)
    requires pl.Remove? && pl.Separate() && n <= 8 && Left(pl, n, d) && SameBeside(d, d', pl.Content() + [entry])
    ensures Left(pl, n, d')
  {
    Apart(pl);
    ChildApart(pl.location, pl.Content(), entry);
    if 2 <= n {
      EmptyOutside(d, d', pl.Content() + [entry], pl.location);
    }
  }

  lemma LogStep(pl: Pipeline, i: Issue, d: Disk, i': Issue, d': Disk, ok: bool, start: Disk)
    requires pl.Remove? && pl.Separate() && Stage(pl, 4, i, d, start)
    requires i' == i && WriteActionLogEffect(d, d', pl.Content(), ok)
    ensures Stage(pl, Next(4, ok), i', d', start)
    ensures ok && pl.backup == [] ==> Stage(pl, 8, i', d', start)
  {
    Apart(pl);
    ChildApart(pl.backup, pl.Content(), "actions.txt");
    SortedBesideEntry(Kept(pl).names, d, d', pl.Content(), pl.Derivatives(), "actions.txt", start, pl.location);
    BackupOutside(pl, 4, d, d', start, ActionLog(pl.Content()));
    LeftBesideEntry(pl, 4, d, d', "actions.txt");
  }

  lemma ArchiveStep(pl: Pipeline, i: Issue, d: Disk, i': Issue, d': Disk, ok: bool, start: Disk)
    requires pl.Remove? && pl.Separate() && pl.backup != [] && Stage(pl, 5, i, d, start)
    requires i' == i && ArchiveEffect(d, d', pl.Content(), pl.backup, ok)
    ensures Stage(pl, Next(5, ok), i', d', start)
  {
    Apart(pl);
    ChildApart(pl.backup, pl.Content(), "original.tar");
    SortedBesideEntry(Kept(pl).names, d, d', pl.Content(), pl.Derivatives(), "original.tar", start, pl.location);
    BackupOutside(pl, 5, d, d', start, Tarfile(pl.Content()));
    LeftBesideEntry(pl, 5, d, d', "original.tar");
    assert ActionLog(pl.Content())[|pl.Content()|] != Tarfile(pl.Content())[|pl.Content()|];
    if ok {
      ArchiveOfHeld(d'[Tarfile(pl.Content())], d, start, pl.backup);
    }
  }

  lemma KillBackupStep(pl: Pipeline, i: Issue, d: Disk, i': Issue, d': Disk, ok: bool, start: Disk)
    requires pl.Remove? && pl.Separate() && pl.backup != [] && Stage(pl, 6, i, d, start)
    requires i' == i && KillEffect(d, d', pl.backup, ok)
    ensures Stage(pl, Next(6, ok), i', d', start)
  {
    Apart(pl);
    SortedOutside(Kept(pl), d, d', pl.backup, pl.Content(), pl.Derivatives(), start, pl.location);
    assert pl.Content() <= Tarfile(pl.Content());
    UnderOne(pl.Content(), pl.backup, Tarfile(pl.Content()));
  }

  /** The renaming of the parent moves a file of the content along. */
  lemma EntryMoves(pl: Pipeline, d: Disk, d': Disk, entry: string)
    requires pl.Remove? && Renamed(d, d', pl.ErrorWip(), pl.ErrorDir())
    ensures pl.Content() + [entry] in d ==>
      FinalContent(pl) + [entry] in d' && d'[FinalContent(pl) + [entry]] == d[pl.Content() + [entry]]
  {
    var rel := ["content", entry];
    assert pl.ErrorWip() + rel == pl.Content() + [entry] && pl.ErrorDir() + rel == FinalContent(pl) + [entry];
    RenameMoves(d, d', pl.ErrorWip(), pl.ErrorDir(), rel);
  }

  lemma LeftByRename(pl: Pipeline, d: Disk, d': Disk)
    requires pl.Remove? && pl.Separate() && Left(pl, 8, d) && Renamed(d, d', pl.ErrorWip(), pl.ErrorDir())
    ensures Left(pl, 9, d')
    ensures pl.backup != [] && Absent(d, pl.backup) ==> Absent(d', pl.backup)
  {
    Apart(pl);
    EmptyBesideRename(d, d', pl.ErrorWip(), pl.ErrorDir(), pl.location);
    EmptyAfterRename(d, d', pl.ErrorWip(), pl.ErrorDir());
    if pl.backup != [] && Absent(d, pl.backup) {
      EmptyBesideRename(d, d', pl.ErrorWip(), pl.ErrorDir(), pl.backup);
    }
  }

  lemma RenameStep(pl: Pipeline, i: Issue, d: Disk, i': Issue, d': Disk, ok: bool, start: Disk)
    requires pl.Remove? && pl.Separate() && Stage(pl, 8, i, d, start)
    requires i' == i && RenameEffect(d, d', pl.ErrorWip(), pl.ErrorDir(), ok)
    ensures Stage(pl, Next(8, ok), i', d', start)
  {
    if ok {
      SortedAfterRename(Kept(pl), d, d', pl.ErrorWip(), pl.ErrorDir(), "content", "derivatives", start, pl.location);
      EntryMoves(pl, d, d', "original.tar");
      EntryMoves(pl, d, d', "actions.txt");
      LeftByRename(pl, d, d');
    }
  }

  lemma LocationStep(pl: Pipeline, i: Issue, d: Disk, i': Issue, d': Disk, ok: bool, start: Disk)
    requires pl.Remove? && Stage(pl, 2, i, d, start) && Effect(WorkNo(pl, 2), i, d, i', d', ok)
    ensures Stage(pl, Next(2, ok), i', d', start)
  {
  }

  lemma BackupLocStep(pl: Pipeline, i: Issue, d: Disk, i': Issue, d': Disk, ok: bool, start: Disk)
    requires pl.Remove? && Stage(pl, 7, i, d, start) && Effect(WorkNo(pl, 7), i, d, i', d', ok)
    ensures Stage(pl, Next(7, ok), i', d', start)
  {
  }

  lemma LastStepsOnlyWriteTheRow(pl: Pipeline, n: nat, i: Issue, d: Disk, i': Issue, d': Disk, ok: bool)
    requires pl.Remove? && 9 <= n < 13 && Effect(WorkNo(pl, n), i, d, i', d', ok)
    ensures d' == d && (n == 9 ==> i'.location == i.location)
  {
  }

  lemma LastSteps(pl: Pipeline, n: nat, i: Issue, d: Disk, i': Issue, d': Disk, ok: bool, start: Disk)
    requires pl.Remove? && 9 <= n < 13 && Stage(pl, n, i, d, start) && Effect(WorkNo(pl, n), i, d, i', d', ok)
    ensures Stage(pl, Next(n, ok), i', d', start)
  {
    LastStepsOnlyWriteTheRow(pl, n, i, d, i', d', ok);
  }

  /** From the archiving of the backup on. */
  lemma LaterStepNo(pl: Pipeline, n: nat, i: Issue, d: Disk, i': Issue, d': Disk, ok: bool, start: Disk)
    requires pl.Remove? && pl.Separate() && 5 <= n < 13 && Stage(pl, n, i, d, start) && (n < 8 ==> pl.backup != [])
    requires Effect(WorkNo(pl, n), i, d, i', d', ok)
    ensures Stage(pl, Next(n, ok), i', d', start)
  {
    match n
    case 5 => ArchiveStep(pl, i, d, i', d', ok, start);
    case 6 => KillBackupStep(pl, i, d, i', d', ok, start);
    case 7 => BackupLocStep(pl, i, d, i', d', ok, start);
    case 8 => RenameStep(pl, i, d, i', d', ok, start);
    case _ => LastSteps(pl, n, i, d, i', d', ok, start);
  }

  lemma StepNo(pl: Pipeline, n: nat, i: Issue, d: Disk, i': Issue, d': Disk, ok: bool, start: Disk)
    requires pl.Remove? && pl.Separate() && n < 13 && Stage(pl, n, i, d, start)
    requires 5 <= n < 8 ==> pl.backup != []
    requires Effect(WorkNo(pl, n), i, d, i', d', ok)
    ensures Stage(pl, Next(n, ok), i', d', start)
    ensures n == 4 && ok && pl.backup == [] ==> Stage(pl, 8, i', d', start)
  {
    match n
    case 0 => SyncStep(pl, i, d, i', d', ok, start);
    case 1 => KillStep(pl, i, d, i', d', ok, start);
    case 2 => LocationStep(pl, i, d, i', d', ok, start);
    case 3 => MoveStep(pl, i, d, i', d', ok, start);
    case 4 => LogStep(pl, i, d, i', d', ok, start);
    case _ => LaterStepNo(pl, n, i, d, i', d', ok, start);
  }

  /** Any try of the step at position p, successful or not, complete or not, keeps what is known. */
  lemma Step(pl: Pipeline, p: nat, i: Issue, d: Disk, i': Issue, d': Disk, ok: bool, start: Disk)
    requires pl.Remove? && pl.Separate() && p < |pl.Works()| && Stage(pl, Index(pl, p), i, d, start)
    requires Effect(pl.Works()[p], i, d, i', d', ok)
    ensures Stage(pl, Index(pl, Next(p, ok)), i', d', start)
  {
    StepHasNumber(pl, p);
    StepNo(pl, Index(pl, p), i, d, i', d', ok, start);
  }

  /** Work elsewhere on the disk does not matter. */
  lemma Elsewhere(pl: Pipeline, n: nat, i: Issue, d: Disk, d': Disk, start: Disk)
    requires pl.Remove? && Stage(pl, n, i, d, start)
    requires forall k :: 0 <= k < |pl.Dirs()| ==> SameUnder(d, d', pl.Dirs()[k])
    ensures Stage(pl, n, i, d', start)
  {
    var ds := pl.Dirs();
    assert ds[0] == pl.location && ds[1] == pl.ErrorWip() && ds[2] == pl.ErrorDir()
        && (pl.backup != [] ==> ds[3] == pl.backup);
    HeldElsewhere(pl, n, d, d', start);
    SameUnderChild(d, d', pl.ErrorWip(), "content");
    SameUnderChild(d, d', pl.ErrorWip(), "derivatives");
    SameUnderChild(d, d', pl.ErrorDir(), "content");
    SameUnderChild(d, d', pl.ErrorDir(), "derivatives");
    if 1 <= n <= 3 {
      InOneWhereSame(Kept(pl), d, d', pl.Content(), pl.Derivatives(), start, pl.location);
    } else if 4 <= n <= 8 {
      SortedWhereSame(Kept(pl), d, d', pl.Content(), pl.Derivatives(), start, pl.location);
    } else if 9 <= n {
      SortedWhereSame(Kept(pl), d, d', FinalContent(pl), FinalDerivatives(pl), start, pl.location);
    }
    assert pl.Content() <= Tarfile(pl.Content()) && FinalContent(pl) <= Tarfile(FinalContent(pl));
  }

  lemma HeldElsewhere(pl: Pipeline, n: nat, d: Disk, d': Disk, start: Disk)
    requires pl.Remove? && Files(pl, n, d, start) && Backup(pl, n, d, start)
    requires SameUnder(d, d', pl.location) && (pl.backup != [] ==> SameUnder(d, d', pl.backup))
    ensures n == 0 ==> Held(Kept(pl), d', pl.location, start, pl.location)
    ensures n <= 5 && pl.backup != [] ==> Held(Every, d', pl.backup, start, pl.backup)
  {
    if n == 0 {
      HeldWhereSame(Kept(pl), d, d', pl.location, start, pl.location);
    }
    if n <= 5 && pl.backup != [] {
      HeldWhereSame(Every, d, d', pl.backup, start, pl.backup);
    }
  }

  lemma InOneWhereSame(flt: Filter, d: Disk, d': Disk, a: Path, b: Path, ref: Disk, base: Path)
    requires InOne(flt, d, a, b, ref, base) && SameUnder(d, d', a) && SameUnder(d, d', b)
    ensures InOne(flt, d', a, b, ref, base)
  {
    forall f <- ref | base <= f ensures a <= a + f[|base|..] && b <= b + f[|base|..] {
    }
  }

  lemma SortedWhereSame(flt: Filter, d: Disk, d': Disk, a: Path, b: Path, ref: Disk, base: Path)
    requires Sorted(flt, d, a, b, ref, base) && SameUnder(d, d', a) && SameUnder(d, d', b)
    ensures Sorted(flt, d', a, b, ref, base)
  {
    forall f <- ref | base <= f ensures a <= a + f[|base|..] && b <= b + f[|base|..] {
    }
  }

  // ---------------------------------------------------------------- what a reader wants to know

  /** Every original the chain does not itself overwrite is on disk, and once content was moved it is in exactly
      one of content and derivatives, before or after the final rename. */
  lemma FilesAreSomewhere(pl: Pipeline, n: nat, i: Issue, d: Disk, start: Disk, f: Path)
    requires pl.Remove? && Stage(pl, n, i, d, start) && f in start && pl.location <= f
          && Kept(pl).Keeps(f[|pl.location|..])
    ensures var r := f[|pl.location|..];
            var a := if n <= 8 then pl.Content() else FinalContent(pl);
            var b := if n <= 8 then pl.Derivatives() else FinalDerivatives(pl);
            if n == 0 then f in d && d[f] == start[f]
            else
              || (a + r in d && d[a + r] == start[f] && b + r !in d)
              || (b + r in d && d[b + r] == start[f] && a + r !in d)
  {
    assert pl.location + f[|pl.location|..] == f;
  }

  /** When the chain is over, the issue is ignored and has no directory of its own; its files are sorted into content
      and derivatives, with the log and the archived originals beside the content. */
  lemma Complete(pl: Pipeline, i: Issue, d: Disk, start: Disk)
    requires pl.Remove? && Stage(pl, Index(pl, |pl.Works()|), i, d, start)
    ensures i.ignored && i.location == [] && i.backup == [] && i.step == WSUnfixableMetadataError
    ensures Sorted(Kept(pl), d, FinalContent(pl), FinalDerivatives(pl), start, pl.location)
    ensures ActionLog(FinalContent(pl)) in d && d[ActionLog(FinalContent(pl))].Bytes?
    ensures Absent(d, pl.location) && Absent(d, pl.ErrorWip())
    ensures pl.backup != [] ==> Absent(d, pl.backup) && Tarfile(FinalContent(pl)) in d
                                && ArchiveHolds(d[Tarfile(FinalContent(pl))], start, pl.backup)
  {
  }

  /** A backup file is gone from the backup directory only when the tar beside the content has it. */
  lemma BackupIsSomewhere(pl: Pipeline, n: nat, i: Issue, d: Disk, start: Disk, f: Path)
    requires pl.Remove? && pl.backup != [] && Stage(pl, n, i, d, start) && f in start && pl.backup < f
    ensures || (f in d && d[f] == start[f])
            || (var tar := Tarfile(if n <= 8 then pl.Content() else FinalContent(pl));
                && tar in d && d[tar].Archive?
                && |f| == |pl.backup| + 1
                && "original/" + f[|pl.backup|] in d[tar].members
                && d[tar].members["original/" + f[|pl.backup|]] == start[f])
  {
    assert pl.backup + f[|pl.backup|..] == f;
  }
}
