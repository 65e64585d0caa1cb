/** The upload chain: from the publisher's upload directory, through page splitting, to page review
    (QueueSFTPIssueMove in src/jobs/queue.go). */
module UploadChain {
  import opened JobModel
  import opened FileTree
  import opened DiskModel
  import opened Pipelines

  /** What is known when the chain has reached position p.  `start` is the disk before the chain, `split` the
      disk right after page splitting succeeded. */
  ghost predicate Stage(pl: Pipeline, p: nat, i: Issue, d: Disk, start: Disk, split: Disk)
    requires pl.Upload?
  {
    && Originals(pl, p, d, start)
    && (7 <= p ==> Pages(pl, p, d, split) && !Absent(split, pl.WorkWip()))
    && Cleared(pl, p, d)
    && (5 <= p <= 13 ==> i.location == pl.WorkDir())
    && (6 <= p <= 7 ==> NoneFraggable(d, pl.WorkDir()))
    && (10 <= p ==> i.backup == pl.BackupDir())
    && (15 <= p ==> i.location == pl.ReviewDir())
    && (16 <= p ==> i.step == WSAwaitingPageReview)
  }

  /** The step at a position. */
  function WorkNo(pl: Pipeline, p: nat): Work
    requires pl.Upload? && p < 17
  {
    match p
    case 0 => SetIssueWS(WSAwaitingProcessing)
    case 1 => SyncDir(pl.location, pl.WorkWip())
    case 2 => KillDir(pl.location)
    case 3 => RenameDir(pl.WorkWip(), pl.WorkDir())
    case 4 => SetIssueLocation(pl.WorkDir())
    case 5 => CleanFiles(pl.WorkDir())
    case 6 => PageSplit(pl.WorkWip())
    case 7 => SyncDir(pl.WorkDir(), pl.BackupDir())
    case 8 => KillDir(pl.WorkDir())
    case 9 => SetIssueBackupLoc(pl.BackupDir())
    case 10 => RenameDir(pl.WorkWip(), pl.WorkDir())
    case 11 => SyncDir(pl.WorkDir(), pl.ReviewWip())
    case 12 => KillDir(pl.WorkDir())
    case 13 => RenameDir(pl.ReviewWip(), pl.ReviewDir())
    case 14 => SetIssueLocation(pl.ReviewDir())
    case 15 => SetIssueWS(WSAwaitingPageReview)
    case _ => IssueAction("Moved issue from SFTP into NCA")
  }

  lemma StepHasNumber(pl: Pipeline, p: nat)
    requires pl.Upload? && p < |pl.Works()|
    ensures p < 17 && pl.Works()[p] == WorkNo(pl, p)
  {
  }

  /** Where the originals are, position by position. */
  function OriginalsDir(pl: Pipeline, p: nat): Path
    requires pl.Upload?
  {
    if p <= 1 then pl.location
    else if p <= 3 then pl.WorkWip()
    else if p <= 7 then pl.WorkDir()
    else pl.BackupDir()
  }

  ghost predicate Originals(pl: Pipeline, p: nat, d: Disk, start: Disk)
    requires pl.Upload?
  {
    Held(NotFraggable, d, OriginalsDir(pl, p), start, pl.location)
  }

  /** Where the split pages are, from the position after page splitting on. */
  function PagesDir(pl: Pipeline, p: nat): Path
    requires pl.Upload?
  {
    if p <= 10 then pl.WorkWip()
    else if p == 11 then pl.WorkDir()
    else if p <= 13 then pl.ReviewWip()
    else pl.ReviewDir()
  }

  ghost predicate Pages(pl: Pipeline, p: nat, d: Disk, split: Disk)
    requires pl.Upload?
  {
    Held(Every, d, PagesDir(pl, p), split, pl.WorkWip())
  }

  ghost predicate Cleared(pl: Pipeline, p: nat, d: Disk)
    requires pl.Upload?
  {
    && (3 <= p ==> Absent(d, pl.location))
    && (11 <= p ==> Absent(d, pl.WorkWip()))
    && (13 <= p ==> Absent(d, pl.WorkDir()))
    && (14 <= p ==> Absent(d, pl.ReviewWip()))
  }

  lemma StageAtStart(pl: Pipeline, i: Issue, d: Disk)
    requires pl.Upload?
    ensures Stage(pl, 0, i, d, d, d)
  {
    HeldAtStart(NotFraggable, d, pl.location);
  }

  lemma Apart(pl: Pipeline)
    requires pl.Upload? && pl.Separate()
    ensures !Nested(pl.location, pl.WorkDir()) && !Nested(pl.location, pl.WorkWip())
          && !Nested(pl.location, pl.ReviewDir())
    ensures !Nested(pl.location, pl.ReviewWip()) && !Nested(pl.location, pl.BackupDir())
    ensures !Nested(pl.WorkDir(), pl.WorkWip()) && !Nested(pl.WorkDir(), pl.ReviewDir())
          && !Nested(pl.WorkDir(), pl.ReviewWip())
    ensures !Nested(pl.WorkDir(), pl.BackupDir()) && !Nested(pl.WorkWip(), pl.ReviewDir())
          && !Nested(pl.WorkWip(), pl.ReviewWip())
    ensures !Nested(pl.WorkWip(), pl.BackupDir()) && !Nested(pl.ReviewDir(), pl.ReviewWip())
    ensures !Nested(pl.ReviewDir(), pl.BackupDir()) && !Nested(pl.ReviewWip(), pl.BackupDir())
  {
    var ds := pl.Dirs();
    assert ds[0] == pl.location && ds[1] == pl.WorkDir() && ds[2] == pl.WorkWip();
    assert ds[3] == pl.ReviewDir() && ds[4] == pl.ReviewWip() && ds[5] == pl.BackupDir();
  }

  /** A change confined to a directory that holds neither originals nor pages, and need not stay empty. */
  lemma ChangeElsewhere(pl: Pipeline, p: nat, i: Issue, d: Disk, d': Disk, start: Disk, split: Disk, changed: Path)
    requires pl.Upload? && Stage(pl, p, i, d, start, split) && SameOutside(d, d', changed)
    requires !Nested(OriginalsDir(pl, p), changed) && (7 <= p ==> !Nested(PagesDir(pl, p), changed))
    requires 3 <= p ==> Absent(d', pl.location)
    requires 11 <= p ==> Absent(d', pl.WorkWip())
    requires 13 <= p ==> Absent(d', pl.WorkDir())
    requires 14 <= p ==> Absent(d', pl.ReviewWip())
    ensures Stage(pl, p, i, d', start, split)
  {
    HeldOutside(NotFraggable, d, d', changed, OriginalsDir(pl, p), start, pl.location);
    if 6 <= p <= 7 {
      NoneFraggableOutside(d, d', changed, pl.WorkDir());
    }
    if 7 <= p {
      HeldOutside(Every, d, d', changed, PagesDir(pl, p), split, pl.WorkWip());
    }
  }

  /** The disk right after page splitting, as the history of the chain records it. */
  function SplitAfter(p: nat, ok: bool, d': Disk, split: Disk): Disk {
    if p == 6 && ok then d' else split
  }

  function Next(p: nat, ok: bool): nat {
    if ok then p + 1 else p
  }

  /** Steps that only write the issue row. */
  lemma RowStep(pl: Pipeline, p: nat, i: Issue, d: Disk, i': Issue, ok: bool, start: Disk, split: Disk)
    requires pl.Upload? && p in {0, 4, 9, 14, 15, 16} && Stage(pl, p, i, d, start, split)
    requires p == 4 && ok ==> i'.location == pl.WorkDir()
    requires p == 9 && ok ==> i'.backup == pl.BackupDir()
    requires p == 14 && ok ==> i'.location == pl.ReviewDir()
    requires p in {0, 9, 15, 16} ==> i'.location == i.location
    requires p != 9 ==> i'.backup == i.backup
    requires p == 15 && ok ==> i'.step == WSAwaitingPageReview
    requires p == 16 ==> i'.step == i.step
    ensures Stage(pl, Next(p, ok), i', d, start, split)
  {
  }

  lemma RowEffect(pl: Pipeline, p: nat, i: Issue, d: Disk, i': Issue, d': Disk, ok: bool)
    requires pl.Upload? && p in {0, 4, 9, 14, 15, 16} && Effect(WorkNo(pl, p), i, d, i', d', ok)
    ensures d' == d
    ensures p == 4 && ok ==> i'.location == pl.WorkDir()
    ensures p == 9 && ok ==> i'.backup == pl.BackupDir()
    ensures p == 14 && ok ==> i'.location == pl.ReviewDir()
    ensures p in {0, 9, 15, 16} ==> i'.location == i.location
    ensures p != 9 ==> i'.backup == i.backup
    ensures p == 15 && ok ==> i'.step == WSAwaitingPageReview
    ensures p == 16 ==> i'.step == i.step
  {
  }

  lemma SyncStep(pl: Pipeline, p: nat, i: Issue, d: Disk, i': Issue, d': Disk, ok: bool, start: Disk, split: Disk)
    requires pl.Upload? && pl.Separate() && p in {1, 7, 11} && Stage(pl, p, i, d, start, split)
    requires i' == i && SyncEffect(d, d', WorkNo(pl, p).src, WorkNo(pl, p).dest, ok)
    ensures Stage(pl, Next(p, ok), i', d', start, split)
  {
    Apart(pl);
    var src, dest := WorkNo(pl, p).src, WorkNo(pl, p).dest;
    EmptyOutsideAll(pl, p, d, d', dest);
    ChangeElsewhere(pl, p, i, d, d', start, split, dest);
    if ok {
      if p == 11 {
        HeldAfterSync(Every, d, d', src, dest, split, pl.WorkWip());
      } else {
        HeldAfterSync(NotFraggable, d, d', src, dest, start, pl.location);
      }
    }
  }

  /** Directories that were cleared stay clear when the change is apart from them. */
  lemma EmptyOutsideAll(pl: Pipeline, p: nat, d: Disk, d': Disk, changed: Path)
    requires pl.Upload? && Cleared(pl, p, d) && SameOutside(d, d', changed)
    requires 3 <= p ==> !Nested(pl.location, changed)
    requires 11 <= p ==> !Nested(pl.WorkWip(), changed)
    requires 13 <= p ==> !Nested(pl.WorkDir(), changed)
    requires 14 <= p ==> !Nested(pl.ReviewWip(), changed)
    ensures Cleared(pl, p, d')
  {
    if 3 <= p {
      EmptyOutside(d, d', changed, pl.location);
    }
    if 11 <= p {
      EmptyOutside(d, d', changed, pl.WorkWip());
    }
    if 13 <= p {
      EmptyOutside(d, d', changed, pl.WorkDir());
    }
    if 14 <= p {
      EmptyOutside(d, d', changed, pl.ReviewWip());
    }
  }

  lemma KillStep(pl: Pipeline, p: nat, i: Issue, d: Disk, i': Issue, d': Disk, ok: bool, start: Disk, split: Disk)
    requires pl.Upload? && pl.Separate() && p in {2, 8, 12} && Stage(pl, p, i, d, start, split)
    requires i' == i && KillEffect(d, d', WorkNo(pl, p).loc, ok)
    ensures Stage(pl, Next(p, ok), i', d', start, split)
  {
    Apart(pl);
    var loc := WorkNo(pl, p).loc;
    if loc != [] {
      EmptyOutsideAll(pl, p, d, d', loc);
      ChangeElsewhere(pl, p, i, d, d', start, split, loc);
    }
  }

  lemma FirstRenameStep(pl: Pipeline, i: Issue, d: Disk, i': Issue, d': Disk, ok: bool, start: Disk, split: Disk)
    requires pl.Upload? && pl.Separate() && Stage(pl, 3, i, d, start, split)
    requires i' == i && RenameEffect(d, d', pl.WorkWip(), pl.WorkDir(), ok)
    ensures Stage(pl, Next(3, ok), i', d', start, split)
  {
    Apart(pl);
    if ok {
      HeldAfterRename(NotFraggable, d, d', pl.WorkWip(), pl.WorkDir(), start, pl.location);
      EmptyBesideRename(d, d', pl.WorkWip(), pl.WorkDir(), pl.location);
    }
  }

  lemma SecondRenameStep(pl: Pipeline, i: Issue, d: Disk, i': Issue, d': Disk, ok: bool, start: Disk, split: Disk)
    requires pl.Upload? && pl.Separate() && Stage(pl, 10, i, d, start, split)
    requires i' == i && RenameEffect(d, d', pl.WorkWip(), pl.WorkDir(), ok)
    ensures Stage(pl, Next(10, ok), i', d', start, split)
  {
    Apart(pl);
    if ok {
      HeldAfterRename(Every, d, d', pl.WorkWip(), pl.WorkDir(), split, pl.WorkWip());
      HeldBesideRename(NotFraggable, d, d', pl.WorkWip(), pl.WorkDir(), pl.BackupDir(), start, pl.location);
      EmptyBesideRename(d, d', pl.WorkWip(), pl.WorkDir(), pl.location);
      EmptyAfterRename(d, d', pl.WorkWip(), pl.WorkDir());
    }
  }

  lemma LastRenameStep(pl: Pipeline, i: Issue, d: Disk, i': Issue, d': Disk, ok: bool, start: Disk, split: Disk)
    requires pl.Upload? && pl.Separate() && Stage(pl, 13, i, d, start, split)
    requires i' == i && RenameEffect(d, d', pl.ReviewWip(), pl.ReviewDir(), ok)
    ensures Stage(pl, Next(13, ok), i', d', start, split)
  {
    Apart(pl);
    if ok {
      HeldAfterRename(Every, d, d', pl.ReviewWip(), pl.ReviewDir(), split, pl.WorkWip());
      HeldBesideRename(NotFraggable, d, d', pl.ReviewWip(), pl.ReviewDir(), pl.BackupDir(), start, pl.location);
      EmptyBesideRename(d, d', pl.ReviewWip(), pl.ReviewDir(), pl.location);
      EmptyBesideRename(d, d', pl.ReviewWip(), pl.ReviewDir(), pl.WorkWip());
      EmptyBesideRename(d, d', pl.ReviewWip(), pl.ReviewDir(), pl.WorkDir());
      EmptyAfterRename(d, d', pl.ReviewWip(), pl.ReviewDir());
    }
  }

  lemma CleanStep(pl: Pipeline, i: Issue, d: Disk, i': Issue, d': Disk, ok: bool, start: Disk, split: Disk)
    requires pl.Upload? && pl.Separate() && Stage(pl, 5, i, d, start, split)
    requires i' == i && CleanEffect(d, d', pl.WorkDir(), ok)
    ensures Stage(pl, Next(5, ok), i', d', start, split)
  {
    Apart(pl);
    HeldAfterClean(d, d', pl.WorkDir(), ok, pl.WorkDir(), start, pl.location);
    EmptyOutside(d, d', pl.WorkDir(), pl.location);
    CleanedOut(d, d', pl.WorkDir(), ok);
  }

  lemma SplitStep(pl: Pipeline, i: Issue, d: Disk, i': Issue, d': Disk, ok: bool, start: Disk, split: Disk)
    requires pl.Upload? && pl.Separate() && Stage(pl, 6, i, d, start, split)
    requires i' == i && PageSplitEffect(d, d', pl.WorkWip(), ok)
    ensures Stage(pl, Next(6, ok), i', d', start, SplitAfter(6, ok, d', split))
  {
    Apart(pl);
    if SameOutside(d, d', pl.WorkWip()) {
      HeldOutside(NotFraggable, d, d', pl.WorkWip(), pl.WorkDir(), start, pl.location);
      EmptyOutside(d, d', pl.WorkWip(), pl.location);
      NoneFraggableOutside(d, d', pl.WorkWip(), pl.WorkDir());
    }
    HeldAtStart(Every, d', pl.WorkWip());
  }

  lemma StepNo(pl: Pipeline, p: nat, i: Issue, d: Disk, i': Issue, d': Disk, ok: bool, start: Disk, split: Disk)
    requires pl.Upload? && pl.Separate() && p < 17 && Stage(pl, p, i, d, start, split)
    requires Effect(WorkNo(pl, p), i, d, i', d', ok)
    ensures Stage(pl, Next(p, ok), i', d', start, SplitAfter(p, ok, d', split))
  {
    if p in {0, 4, 9, 14, 15, 16} {
      RowEffect(pl, p, i, d, i', d', ok);
      RowStep(pl, p, i, d, i', ok, start, split);
    } else if p in {1, 7, 11} {
      SyncStep(pl, p, i, d, i', d', ok, start, split);
    } else if p in {2, 8, 12} {
      KillStep(pl, p, i, d, i', d', ok, start, split);
    } else if p == 3 {
      FirstRenameStep(pl, i, d, i', d', ok, start, split);
    } else if p == 5 {
      CleanStep(pl, i, d, i', d', ok, start, split);
    } else if p == 6 {
      SplitStep(pl, i, d, i', d', ok, start, split);
    } else if p == 10 {
      SecondRenameStep(pl, i, d, i', d', ok, start, split);
    } else {
      LastRenameStep(pl, i, d, i', d', ok, start, split);
    }
  }

  /** Any try of the step at position p, successful or not, complete or not, keeps what is known. */
  lemma Step(pl: Pipeline, p: nat, i: Issue, d: Disk, i': Issue, d': Disk, ok: bool, start: Disk, split: Disk)
    requires pl.Upload? && pl.Separate() && p < |pl.Works()| && Stage(pl, p, i, d, start, split)
    requires Effect(pl.Works()[p], i, d, i', d', ok)
    ensures Stage(pl, Next(p, ok), i', d', start, SplitAfter(p, ok, d', split))
  {
    StepHasNumber(pl, p);
    StepNo(pl, p, i, d, i', d', ok, start, split);
  }

  /** Work elsewhere on the disk does not matter. */
  lemma Elsewhere(pl: Pipeline, p: nat, i: Issue, d: Disk, d': Disk, start: Disk, split: Disk)
    requires pl.Upload? && Stage(pl, p, i, d, start, split)
    requires forall k :: 0 <= k < |pl.Dirs()| ==> SameUnder(d, d', pl.Dirs()[k])
    ensures Stage(pl, p, i, d', start, split)
  {
    var ds := pl.Dirs();
    assert ds[0] == pl.location && ds[1] == pl.WorkDir() && ds[2] == pl.WorkWip();
    assert ds[3] == pl.ReviewDir() && ds[4] == pl.ReviewWip() && ds[5] == pl.BackupDir();
    HeldWhereSame(NotFraggable, d, d', OriginalsDir(pl, p), start, pl.location);
    if 7 <= p {
      HeldWhereSame(Every, d, d', PagesDir(pl, p), split, pl.WorkWip());
    }
    if 6 <= p <= 7 {
      NoneFraggableWhereSame(d, d', pl.WorkDir());
    }
  }

  // ---------------------------------------------------------------- what a reader wants to know

  /** No original that CleanFiles would keep is lost, at any position. */
  lemma OriginalsAreSomewhere(pl: Pipeline, p: nat, i: Issue, d: Disk, start: Disk, split: Disk, f: Path)
    requires pl.Upload? && Stage(pl, p, i, d, start, split)
    requires f in start && pl.location < f && !Fraggable(Name(f))
    ensures exists dir :: dir in [pl.location, pl.WorkWip(), pl.WorkDir(), pl.BackupDir()]
              && dir + f[|pl.location|..] in d && d[dir + f[|pl.location|..]] == start[f]
  {
    assert Name(f[|pl.location|..]) == Name(f);
    assert OriginalsDir(pl, p) in [pl.location, pl.WorkWip(), pl.WorkDir(), pl.BackupDir()];
  }

  /** No page is lost once pages were split. */
  lemma PagesAreSomewhere(pl: Pipeline, p: nat, i: Issue, d: Disk, start: Disk, split: Disk, f: Path)
    requires pl.Upload? && Stage(pl, p, i, d, start, split) && 7 <= p
    requires f in split && pl.WorkWip() <= f
    ensures exists dir :: dir in [pl.WorkWip(), pl.WorkDir(), pl.ReviewWip(), pl.ReviewDir()]
              && dir + f[|pl.WorkWip()|..] in d && d[dir + f[|pl.WorkWip()|..]] == split[f]
  {
    assert PagesDir(pl, p) in [pl.WorkWip(), pl.WorkDir(), pl.ReviewWip(), pl.ReviewDir()];
  }

  /** When the chain is over, the pages, one at least, are in page review, the originals in the backup, the four other
      directories are empty and the issue row names the two. */
  lemma Complete(pl: Pipeline, i: Issue, d: Disk, start: Disk, split: Disk)
    requires pl.Upload? && Stage(pl, |pl.Works()|, i, d, start, split)
    ensures i.location == pl.ReviewDir() && i.backup == pl.BackupDir() && i.step == WSAwaitingPageReview
    ensures Held(Every, d, i.location, split, pl.WorkWip())
    ensures Held(NotFraggable, d, i.backup, start, pl.location)
    ensures !Absent(d, i.location)
    ensures Absent(d, pl.location) && Absent(d, pl.WorkDir()) && Absent(d, pl.WorkWip()) && Absent(d, pl.ReviewWip())
  {
    var f :| f in split && pl.WorkWip() <= f;
    assert i.location <= i.location + f[|pl.WorkWip()|..];
  }
}
