/** The chain that readies an approved issue for batching: METS XML, then the backed-up originals into a tar
    beside it (QueueFinalizeIssue in src/jobs/queue.go). */
module FinalizeChain {
  import opened JobModel
  import opened FileTree
  import opened DiskModel
  import opened Pipelines

  /** The names the chain itself writes into the issue's directory. */
  function Kept(pl: Pipeline): Filter
    requires pl.Finalize?
  {
    Without(if pl.backup == [] then {pl.dateEdition + ".xml"} else {pl.dateEdition + ".xml", "original.tar"})
  }

  /** Positions are numbered as in the chain with a backup; without one, the archive steps 1 to 3 do not exist. */
  function Index(pl: Pipeline, p: nat): nat
    requires pl.Finalize?
  {
    if pl.backup == [] && 1 <= p then p + 3 else p
  }

  function WorkNo(pl: Pipeline, n: nat): Work
    requires pl.Finalize? && n < 6
  {
    match n
    case 0 => BuildMETS(false)
    case 1 => ArchiveBackups
    case 2 => KillDir(pl.backup)
    case 3 => SetIssueBackupLoc([])
    case 4 => SetIssueWS(WSReadyForBatching)
    case _ => IssueAction("Issue prepped for batching")
  }

  lemma StepHasNumber(pl: Pipeline, p: nat)
    requires pl.Finalize? && p < |pl.Works()|
    ensures Index(pl, p) < 6 && pl.Works()[p] == WorkNo(pl, Index(pl, p))
    ensures pl.backup == [] ==> Index(pl, p) < 1 || 4 <= Index(pl, p)
    ensures Index(pl, p + 1) == if pl.backup == [] && p == 0 then 4 else Index(pl, p) + 1
  {
  }

  /** The issue's METS XML is there. */
  predicate HasMets(pl: Pipeline, d: Disk)
    requires pl.Finalize?
  {
    var mets := pl.location + [pl.dateEdition + ".xml"];
    mets in d && d[mets].Bytes?
  }

  ghost predicate Stage(pl: Pipeline, n: nat, i: Issue, d: Disk, start: Disk)
    requires pl.Finalize?
  {
    && i.location == pl.location && i.dateEdition == pl.dateEdition
    && Held(Kept(pl), d, pl.location, start, pl.location)
    && (1 <= n ==> HasMets(pl, d))
    && (5 <= n ==> i.step == WSReadyForBatching)
    && (n <= 2 || pl.backup == [] ==> i.backup == pl.backup)
    && (pl.backup != [] ==>
          && (n <= 1 ==> Held(Every, d, pl.backup, start, pl.backup))
          && (2 <= n ==> Tarfile(pl.location) in d && ArchiveHolds(d[Tarfile(pl.location)], start, pl.backup))
          && (3 <= n ==> Absent(d, pl.backup))
          && (4 <= n ==> i.backup == []))
  }

  lemma StageAtStart(pl: Pipeline, i: Issue, d: Disk)
    requires pl.Finalize? && i.location == pl.location && i.backup == pl.backup && i.dateEdition == pl.dateEdition
    ensures Stage(pl, 0, i, d, d)
  {
    HeldAtStart(Kept(pl), d, pl.location);
    HeldAtStart(Every, d, pl.backup);
  }

  lemma Apart(pl: Pipeline)
    requires pl.Finalize? && pl.Separate() && pl.backup != []
    ensures !Nested(pl.location, pl.backup)
  {
    assert pl.Dirs()[0] == pl.location && pl.Dirs()[1] == pl.backup;
  }

  /** A change to one entry of the directory that the filter does not keep. */
  lemma HeldBesideEntry(names: set<string>, d: Disk, d': Disk, dir: Path, entry: string, ref: Disk)
    requires Held(Without(names), d, dir, ref, dir) && entry in names && SameBeside(d, d', dir + [entry])
    ensures Held(Without(names), d', dir, ref, dir)
  {
    forall f <- ref | dir <= f && Without(names).Keeps(f[|dir|..]) ensures dir + [entry] != dir + f[|dir|..] {
      assert (dir + [entry])[|dir|..] == [entry] && (dir + f[|dir|..])[|dir|..] == f[|dir|..];
    }
  }

  function Next(n: nat, ok: bool): nat {
    if ok then n + 1 else n
  }

  lemma MetsStep(pl: Pipeline, i: Issue, d: Disk, d': Disk, ok: bool, start: Disk)
    requires pl.Finalize? && pl.Separate() && Stage(pl, 0, i, d, start) && MetsEffect(d, d', MetsFile(i), ok)
    ensures Stage(pl, Next(0, ok), i, d', start)
    ensures ok && pl.backup == [] ==> Stage(pl, 4, i, d', start)
  {
    HeldBesideEntry(Kept(pl).names, d, d', pl.location, pl.dateEdition + ".xml", start);
    if pl.backup != [] {
      Apart(pl);
      ChildApart(pl.backup, pl.location, pl.dateEdition + ".xml");
      HeldOutside(Every, d, d', MetsFile(i), pl.backup, start, pl.backup);
    }
  }

  lemma MetsIsNotTheTar(pl: Pipeline)
    requires pl.Finalize?
    ensures pl.location + [pl.dateEdition + ".xml"] != Tarfile(pl.location)
  {
    var name := pl.dateEdition + ".xml";
    assert name[|name| - 1] == 'l' && "original.tar"[|"original.tar"| - 1] == 'r';
    assert (pl.location + [name])[|pl.location|] == name && Tarfile(pl.location)[|pl.location|] == "original.tar";
  }

  lemma ArchiveStep(pl: Pipeline, i: Issue, d: Disk, d': Disk, ok: bool, start: Disk)
    requires pl.Finalize? && pl.Separate() && pl.backup != [] && Stage(pl, 1, i, d, start)
    requires ArchiveEffect(d, d', pl.location, pl.backup, ok)
    ensures Stage(pl, Next(1, ok), i, d', start)
  {
    Apart(pl);
    ChildApart(pl.backup, pl.location, "original.tar");
    HeldBesideEntry(Kept(pl).names, d, d', pl.location, "original.tar", start);
    MetsIsNotTheTar(pl);
    HeldOutside(Every, d, d', Tarfile(pl.location), pl.backup, start, pl.backup);
    if ok {
      ArchiveOfHeld(d'[Tarfile(pl.location)], d, start, pl.backup);
    }
  }

  lemma MetsUnder(pl: Pipeline)
    requires pl.Finalize?
    ensures pl.location <= pl.location + [pl.dateEdition + ".xml"]
  {
  }

  lemma KillStep(pl: Pipeline, i: Issue, d: Disk, d': Disk, ok: bool, start: Disk)
    requires pl.Finalize? && pl.Separate() && pl.backup != [] && Stage(pl, 2, i, d, start)
    requires KillEffect(d, d', pl.backup, ok)
    ensures Stage(pl, Next(2, ok), i, d', start)
  {
    Apart(pl);
    HeldOutside(Kept(pl), d, d', pl.backup, pl.location, start, pl.location);
    assert pl.location <= Tarfile(pl.location);
    UnderOne(pl.location, pl.backup, Tarfile(pl.location));
    MetsUnder(pl);
    UnderOne(pl.location, pl.backup, pl.location + [pl.dateEdition + ".xml"]);
  }

  lemma StepNo(pl: Pipeline, n: nat, i: Issue, d: Disk, i': Issue, d': Disk, ok: bool, start: Disk)
    requires pl.Finalize? && pl.Separate() && n < 6 && Stage(pl, n, i, d, start)
    requires 1 <= n < 4 ==> pl.backup != []
    requires Effect(WorkNo(pl, n), i, d, i', d', ok)
    ensures Stage(pl, Next(n, ok), i', d', start)
    ensures n == 0 && ok && pl.backup == [] ==> Stage(pl, 4, i', d', start)
  {
    match n
    case 0 => MetsStep(pl, i, d, d', ok, start);
    case 1 => ArchiveStep(pl, i, d, d', ok, start);
    case 2 => KillStep(pl, i, d, d', ok, start);
    case 3 =>
    case 4 =>
    case _ =>
  }

  /** Any try of the step at position p, successful or not, complete or not, keeps what is known. */
  lemma Step(pl: Pipeline, p: nat, i: Issue, d: Disk, i': Issue, d': Disk, ok: bool, start: Disk)
    requires pl.Finalize? && pl.Separate() && p < |pl.Works()| && Stage(pl, Index(pl, p), i, d, start)
    requires Effect(pl.Works()[p], i, d, i', d', ok)
    ensures Stage(pl, Index(pl, Next(p, ok)), i', d', start)
  {
    StepHasNumber(pl, p);
    StepNo(pl, Index(pl, p), i, d, i', d', ok, start);
  }

  /** Work elsewhere on the disk does not matter. */
  lemma Elsewhere(pl: Pipeline, n: nat, i: Issue, d: Disk, d': Disk, start: Disk)
    requires pl.Finalize? && Stage(pl, n, i, d, start)
    requires forall k :: 0 <= k < |pl.Dirs()| ==> SameUnder(d, d', pl.Dirs()[k])
    ensures Stage(pl, n, i, d', start)
  {
    assert pl.Dirs()[0] == pl.location && (pl.backup != [] ==> pl.Dirs()[1] == pl.backup);
    HeldWhereSame(Kept(pl), d, d', pl.location, start, pl.location);
    if n <= 1 && pl.backup != [] {
      HeldWhereSame(Every, d, d', pl.backup, start, pl.backup);
    }
    assert pl.location <= Tarfile(pl.location);
    MetsUnder(pl);
  }

  /** When the chain is over, the METS XML is in the recorded location, the originals are in the tar beside it and
      nowhere else, and the issue can be batched. */
  lemma Complete(pl: Pipeline, i: Issue, d: Disk, start: Disk)
    requires pl.Finalize? && Stage(pl, Index(pl, |pl.Works()|), i, d, start)
    ensures i.location == pl.location && i.backup == [] && i.step == WSReadyForBatching
    ensures MetsFile(i) in d && d[MetsFile(i)].Bytes?
    ensures Held(Kept(pl), d, i.location, start, pl.location)
    ensures pl.backup != [] ==>
              Absent(d, pl.backup) && Tarfile(i.location) in d && ArchiveHolds(d[Tarfile(i.location)], start, pl.backup)
  {
  }

  /** A backup file is gone from the backup directory only when the tar in the issue's recorded location has it. */
  lemma BackupIsSomewhere(pl: Pipeline, n: nat, i: Issue, d: Disk, start: Disk, f: Path)
    requires pl.Finalize? && pl.backup != [] && Stage(pl, n, i, d, start) && f in start && pl.backup < f
    ensures || (f in d && d[f] == start[f])
            || (var tar := Tarfile(i.location);
                && tar in d && d[tar].Archive?
                && |f| == |pl.backup| + 1
                && "original/" + f[|pl.backup|] in d[tar].members
                && d[tar].members["original/" + f[|pl.backup|]] == start[f])
  {
    assert pl.backup + f[|pl.backup|..] == f;
  }
}
