/** The job chains that move an issue's directory (src/jobs/queue.go), and what is known of the disk and the
    issue row when a chain has reached each of its positions. */
module Pipelines {
  import opened JobModel
  import opened FileTree
  import opened DiskModel

  /** Which files of a directory a statement is about, by path inside the directory. */
  datatype Filter = Every | NotFraggable | Without(names: set<string>)
  {
    predicate Keeps(r: Path) {
      match this
      case Every => true
      case NotFraggable => r != [] && !Fraggable(Name(r))
      case Without(names) => r != [] && !(|r| == 1 && r[0] in names)
    }
  }

  /** Every kept file that `ref` has under `base` is in d at the same place under `dir`, unchanged. */
  ghost predicate Held(flt: Filter, d: Disk, dir: Path, ref: Disk, base: Path) {
    forall f <- ref :: base <= f && flt.Keeps(f[|base|..]) ==> dir + f[|base|..] in d && d[dir + f[|base|..]] == ref[f]
  }

  function Wip(name: string): string {
    ".wip-" + name
  }

  datatype Pipeline =
    | Upload(location: Path, workflowPath: Path, reviewPath: Path, backupPath: Path, name: string)
    | Derive(location: Path, workflowPath: Path, name: string)
    | Finalize(location: Path, backup: Path, dateEdition: string)
    | Remove(location: Path, backup: Path, errorPath: Path, name: string)
  {
    function WorkDir(): Path
      requires Upload? || Derive?
    {
      workflowPath + [name]
    }

    function WorkWip(): Path
      requires Upload? || Derive?
    {
      workflowPath + [Wip(name)]
    }

    function ReviewDir(): Path
      requires Upload?
    {
      reviewPath + [name]
    }

    function ReviewWip(): Path
      requires Upload?
    {
      reviewPath + [Wip(name)]
    }

    function BackupDir(): Path
      requires Upload?
    {
      backupPath + [name]
    }

    function ErrorWip(): Path
      requires Remove?
    {
      errorPath + [Wip(name)]
    }

    function ErrorDir(): Path
      requires Remove?
    {
      errorPath + [name]
    }

    function Content(): Path
      requires Remove?
    {
      ErrorWip() + ["content"]
    }

    function Derivatives(): Path
      requires Remove?
    {
      ErrorWip() + ["derivatives"]
    }

    /** The directories the chain uses. */
    function Dirs(): seq<Path> {
      match this
      case Upload(location, _, _, _, _) => [location, WorkDir(), WorkWip(), ReviewDir(), ReviewWip(), BackupDir()]
      case Derive(location, _, _) => [location, WorkDir(), WorkWip()]
      case Finalize(location, backup, _) => if backup == [] then [location] else [location, backup]
      case Remove(location, backup, _, _) =>
        if backup == [] then [location, ErrorWip(), ErrorDir()] else [location, ErrorWip(), ErrorDir(), backup]
    }

    predicate Separate() {
      forall i, j :: 0 <= i < j < |Dirs()| ==> !Nested(Dirs()[i], Dirs()[j])
    }

    /** The chain's steps, in order. */
    function Works(): seq<Work> {
      match this
      case Upload(location, _, _, _, _) => [
        SetIssueWS(WSAwaitingProcessing),
        SyncDir(location, WorkWip()),
        KillDir(location),
        RenameDir(WorkWip(), WorkDir()),
        SetIssueLocation(WorkDir()),
        CleanFiles(WorkDir()),
        PageSplit(WorkWip()),
        SyncDir(WorkDir(), BackupDir()),
        KillDir(WorkDir()),
        SetIssueBackupLoc(BackupDir()),
        RenameDir(WorkWip(), WorkDir()),
        SyncDir(WorkDir(), ReviewWip()),
        KillDir(WorkDir()),
        RenameDir(ReviewWip(), ReviewDir()),
        SetIssueLocation(ReviewDir()),
        SetIssueWS(WSAwaitingPageReview),
        IssueAction("Moved issue from SFTP into NCA")]
      case Derive(location, _, _) => [
        SetIssueWS(WSAwaitingProcessing),
        SyncDir(location, WorkWip()),
        KillDir(location),
        RenameDir(WorkWip(), WorkDir()),
        SetIssueLocation(WorkDir()),
        CleanFiles(WorkDir()),
        RenumberPages,
        MakeDerivatives(false),
        SetIssueWS(WSReadyForMetadataEntry),
        IssueAction("Created issue derivatives")]
      case Finalize(_, backup, _) =>
        [BuildMETS(false)]
        + ArchiveWorks(backup)
        + [SetIssueWS(WSReadyForBatching),
           IssueAction("Issue prepped for batching")]
      case Remove(location, backup, _, _) =>
        [SyncDir(location, Content()),
         KillDir(location),
         SetIssueLocation(Content()),
         MoveDerivatives(Derivatives()),
         WriteActionLog]
        + ArchiveWorks(backup)
        + [RenameDir(ErrorWip(), ErrorDir()),
           IgnoreIssue,
           SetIssueLocation([]),
           SetIssueWS(WSUnfixableMetadataError),
           IssueAction("Errored issue removed from NCA")]
    }
  }

  /** Archiving is queued only for an issue that has a backup. */
  function ArchiveWorks(backup: Path): seq<Work> {
    if backup == [] then [] else [ArchiveBackups, KillDir(backup), SetIssueBackupLoc([])]
  }

  /** Plain filesystem jobs are not tied to the issue; all others are. */
  function Prepare(work: Work, issue: nat, now: int): Job {
    if work.SyncDir? || work.KillDir? || work.RenameDir? || work.CleanFiles? then NewJob(work, now)
    else IssueJob(work, issue, now)
  }

  function ChainJobs(pl: Pipeline, issue: nat, now: int): seq<Job> {
    seq(|pl.Works()|, i requires 0 <= i < |pl.Works()| => Prepare(pl.Works()[i], issue, now))
  }

  /** Directories configured apart from each other, and from the upload, keep all six directories apart. */
  lemma ConfiguredApart(pl: Pipeline)
    requires pl.Upload?
    requires !Nested(pl.location, pl.workflowPath) && !Nested(pl.location, pl.reviewPath)
          && !Nested(pl.location, pl.backupPath)
    requires !Nested(pl.workflowPath, pl.reviewPath) && !Nested(pl.workflowPath, pl.backupPath)
          && !Nested(pl.reviewPath, pl.backupPath)
    ensures pl.Separate()
  {
    var ds := pl.Dirs();
    forall i, j | 0 <= i < j < |ds| ensures !Nested(ds[i], ds[j]) {
      if i == 0 {
        UploadApart(pl, j);
      } else {
        TargetsApart(pl, i, j);
      }
    }
  }

  /** The upload directory and one of the others. */
  lemma UploadApart(pl: Pipeline, j: nat)
    requires pl.Upload? && 0 < j < 6
    requires !Nested(pl.location, pl.workflowPath) && !Nested(pl.location, pl.reviewPath)
          && !Nested(pl.location, pl.backupPath)
    ensures !Nested(pl.location, pl.Dirs()[j])
  {
    var root := if j <= 2 then pl.workflowPath else if j <= 4 then pl.reviewPath else pl.backupPath;
    ChildApart(pl.location, root, if j == 2 || j == 4 then Wip(pl.name) else pl.name);
  }

  /** Two of the directories the chain fills. */
  lemma TargetsApart(pl: Pipeline, i: nat, j: nat)
    requires pl.Upload? && 0 < i < j < 6
    requires !Nested(pl.workflowPath, pl.reviewPath) && !Nested(pl.workflowPath, pl.backupPath)
          && !Nested(pl.reviewPath, pl.backupPath)
    ensures !Nested(pl.Dirs()[i], pl.Dirs()[j])
  {
    var a := if i <= 2 then pl.workflowPath else pl.reviewPath;
    var b := if j <= 2 then pl.workflowPath else if j <= 4 then pl.reviewPath else pl.backupPath;
    if a == b {
      Siblings(a, pl.name);
    } else {
      ChildrenApart(a, b, if i % 2 == 0 then Wip(pl.name) else pl.name, if j % 2 == 0 then Wip(pl.name) else pl.name);
    }
  }

  lemma Siblings(root: Path, name: string)
    ensures !Nested(root + [name], root + [Wip(name)])
  {
    assert (root + [name])[|root|] == name && (root + [Wip(name)])[|root|] == Wip(name);
    assert |name| != |Wip(name)|;
  }

  lemma ChildApart(a: Path, b: Path, y: string)
    ensures Nested(a, b + [y]) ==> Nested(a, b)
  {
    if a <= b + [y] {
      BothPrefixes(a, b, b + [y]);
    }
  }

  lemma ChildrenApart(a: Path, b: Path, x: string, y: string)
    ensures Nested(a + [x], b + [y]) ==> Nested(a, b)
  {
    if a + [x] <= b + [y] {
      BothPrefixes(a, b, b + [y]);
    } else if b + [y] <= a + [x] {
      BothPrefixes(a, b, a + [x]);
    }
  }

  // ---------------------------------------------------------------- what each kind of step keeps

  lemma HeldOutside(flt: Filter, d: Disk, d': Disk, changed: Path, dir: Path, ref: Disk, base: Path)
    requires Held(flt, d, dir, ref, base) && SameOutside(d, d', changed) && !Nested(dir, changed)
    ensures Held(flt, d', dir, ref, base)
  {
    forall f <- ref | base <= f && flt.Keeps(f[|base|..])
      ensures dir + f[|base|..] in d' && d'[dir + f[|base|..]] == ref[f]
    {
      UnderOne(dir, changed, dir + f[|base|..]);
    }
  }

  lemma BesideIsOutside(d: Disk, d': Disk, file: Path)
    requires SameBeside(d, d', file)
    ensures SameOutside(d, d', file)
  {
  }

  lemma EmptyOutside(d: Disk, d': Disk, changed: Path, dir: Path)
    requires Absent(d, dir) && SameOutside(d, d', changed) && !Nested(dir, changed)
    ensures Absent(d', dir)
  {
    forall f <- d' ensures !(dir <= f) {
      UnderOne(dir, changed, f);
    }
  }

  lemma HeldAfterSync(flt: Filter, d: Disk, d': Disk, src: Path, dest: Path, ref: Disk, base: Path)
    requires Held(flt, d, src, ref, base) && SyncEffect(d, d', src, dest, true)
    ensures Held(flt, d', dest, ref, base)
  {
    forall f <- ref | base <= f && flt.Keeps(f[|base|..])
      ensures dest + f[|base|..] in d' && d'[dest + f[|base|..]] == ref[f]
    {
      assert (src + f[|base|..])[|src|..] == f[|base|..];
    }
  }

  lemma HeldAfterRename(flt: Filter, d: Disk, d': Disk, src: Path, dest: Path, ref: Disk, base: Path)
    requires Held(flt, d, src, ref, base) && Renamed(d, d', src, dest)
    ensures Held(flt, d', dest, ref, base)
  {
    forall f <- ref | base <= f && flt.Keeps(f[|base|..])
      ensures dest + f[|base|..] in d' && d'[dest + f[|base|..]] == ref[f]
    {
      assert (src + f[|base|..])[|src|..] == f[|base|..];
    }
  }

  lemma HeldBesideRename(flt: Filter, d: Disk, d': Disk, src: Path, dest: Path, dir: Path, ref: Disk, base: Path)
    requires Held(flt, d, dir, ref, base) && Renamed(d, d', src, dest) && !Nested(dir, src)
    ensures Held(flt, d', dir, ref, base)
  {
    forall f <- ref | base <= f && flt.Keeps(f[|base|..])
      ensures dir + f[|base|..] in d' && d'[dir + f[|base|..]] == ref[f]
    {
      UnderOne(dir, src, dir + f[|base|..]);
    }
  }

  lemma EmptyBesideRename(d: Disk, d': Disk, src: Path, dest: Path, dir: Path)
    requires Absent(d, dir) && Renamed(d, d', src, dest) && !Nested(dir, dest)
    ensures Absent(d', dir)
  {
    forall f <- d' ensures !(dir <= f) {
      UnderOne(dir, dest, f);
    }
  }

  lemma EmptyAfterRename(d: Disk, d': Disk, src: Path, dest: Path)
    requires Renamed(d, d', src, dest) && !Nested(src, dest)
    ensures Absent(d', src)
  {
    forall f <- d' ensures !(src <= f) {
      UnderOne(src, dest, f);
    }
  }

  lemma HeldAfterClean(d: Disk, d': Disk, loc: Path, ok: bool, dir: Path, ref: Disk, base: Path)
    requires Held(NotFraggable, d, dir, ref, base) && CleanEffect(d, d', loc, ok)
    ensures Held(NotFraggable, d', dir, ref, base)
  {
    forall f <- ref | base <= f && NotFraggable.Keeps(f[|base|..])
      ensures dir + f[|base|..] in d' && d'[dir + f[|base|..]] == ref[f]
    {
      assert Name(dir + f[|base|..]) == Name(f[|base|..]);
    }
  }

  /** No file directly in the directory is one that CleanFiles removes. */
  ghost predicate NoneFraggable(d: Disk, dir: Path) {
    forall x: string :: dir + [x] in d ==> !Fraggable(x) || d[dir + [x]].Directory?
  }

  lemma NoneFraggableOutside(d: Disk, d': Disk, changed: Path, dir: Path)
    requires NoneFraggable(d, dir) && SameOutside(d, d', changed) && !Nested(dir, changed)
    ensures NoneFraggable(d', dir)
  {
    forall x: string | dir + [x] in d' ensures !Fraggable(x) || d'[dir + [x]].Directory? {
      UnderOne(dir, changed, dir + [x]);
    }
  }

  lemma CleanedOut(d: Disk, d': Disk, dir: Path, ok: bool)
    requires CleanEffect(d, d', dir, ok)
    ensures ok ==> NoneFraggable(d', dir)
  {
    forall x: string | ok && dir + [x] in d' ensures !Fraggable(x) || d'[dir + [x]].Directory? {
      assert Name(dir + [x]) == x;
    }
  }

  lemma HeldAtStart(flt: Filter, d: Disk, dir: Path)
    ensures Held(flt, d, dir, d, dir)
  {
    forall f <- d | dir <= f ensures dir + f[|dir|..] == f {
    }
  }

  ghost predicate SameUnder(d: Disk, d': Disk, dir: Path) {
    forall f: Path :: dir <= f ==> (f in d <==> f in d') && (f in d ==> d'[f] == d[f])
  }

  lemma SameUnderChild(d: Disk, d': Disk, dir: Path, entry: string)
    requires SameUnder(d, d', dir)
    ensures SameUnder(d, d', dir + [entry])
  {
    assert dir <= dir + [entry];
  }

  lemma NoneFraggableWhereSame(d: Disk, d': Disk, dir: Path)
    requires NoneFraggable(d, dir) && SameUnder(d, d', dir)
    ensures NoneFraggable(d', dir)
  {
    forall x: string | dir + [x] in d' ensures !Fraggable(x) || d'[dir + [x]].Directory? {
      assert dir <= dir + [x];
    }
  }

  lemma HeldWhereSame(flt: Filter, d: Disk, d': Disk, dir: Path, ref: Disk, base: Path)
    requires Held(flt, d, dir, ref, base) && SameUnder(d, d', dir)
    ensures Held(flt, d', dir, ref, base)
  {
    forall f <- ref | base <= f && flt.Keeps(f[|base|..])
      ensures dir + f[|base|..] in d' && d'[dir + f[|base|..]] == ref[f]
    {
      assert dir <= dir + f[|base|..];
    }
  }

  /** An archive of everything now under the backup directory holds what was there at the start. */
  lemma ArchiveOfHeld(c: Content, d: Disk, start: Disk, backup: Path)
    requires ArchiveHolds(c, d, backup) && Held(Every, d, backup, start, backup)
    ensures ArchiveHolds(c, start, backup)
  {
    forall f <- start | backup < f
      ensures |f| == |backup| + 1 && !start[f].Directory? && "original/" + f[|backup|] in c.members
            && c.members["original/" + f[|backup|]] == start[f]
    {
      assert backup + f[|backup|..] == f;
    }
  }
}
