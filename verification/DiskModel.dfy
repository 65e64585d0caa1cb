/** What each kind of job may do to the files on disk and to the issue row (src/jobs/fs_jobs.go,
    src/jobs/remove_errored_issue_jobs.go, src/jobs/archive_backups.go, src/jobs/pagesplit.go,
    src/jobs/renumber_pages.go, src/jobs/derivatives.go, src/jobs/build_mets_xml.go).  A failing job may have done any
    part of its work, except that a rename either happens or does not. */
module DiskModel {
  import opened Decimal
  import opened JobModel
  import opened FileTree
  import opened FileMoves
  import opened PageRenumbering
  import opened Text

  /** The issue row, as far as jobs read or write it. */
  datatype Issue = Issue(location: Path, backup: Path, step: WorkflowStep, ignored: bool, dateEdition: string)

  // ---------------------------------------------------------------- effects

  ghost predicate SyncEffect(d: Disk, d': Disk, src: Path, dest: Path, ok: bool) {
    && SameOutside(d, d', dest)
    && (ok ==> forall f <- d :: src <= f ==> dest + f[|src|..] in d' && d'[dest + f[|src|..]] == d[f])
  }

  ghost predicate KillEffect(d: Disk, d': Disk, loc: Path, ok: bool) {
    if loc == [] then !ok && d' == d
    else SomeRemoved(d, d', loc) && (ok ==> Absent(d', loc))
  }

  /** Everything at src is now at dest, where nothing was; nothing else changed. */
  ghost predicate Renamed(d: Disk, d': Disk, src: Path, dest: Path) {
    && !Absent(d, src) && Absent(d, dest)
    && (forall f <- d :: src <= f ==> dest + f[|src|..] in d' && d'[dest + f[|src|..]] == d[f])
    && (forall f <- d :: !(src <= f) ==> f in d' && d'[f] == d[f])
    && (forall f <- d' :: if dest <= f then src + f[|dest|..] in d else f in d && !(src <= f))
  }

  ghost predicate RenameEffect(d: Disk, d': Disk, src: Path, dest: Path, ok: bool) {
    if ok then Renamed(d, d', src, dest) else d' == d
  }

  ghost predicate CleanEffect(d: Disk, d': Disk, loc: Path, ok: bool) {
    && SomeRemoved(d, d', loc)
    && (forall f <- d :: !Fraggable(Name(f)) || d[f].Directory? ==> f in d')
    && (ok ==> forall f <- d' :: loc <= f && |f| == |loc| + 1 ==> !Fraggable(Name(f)) || d'[f].Directory?)
  }

  /** An existing output directory is refused; a success leaves pages in it. */
  ghost predicate PageSplitEffect(d: Disk, d': Disk, out: Path, ok: bool) {
    if !Absent(d, out) then !ok && d' == d else SameOutside(d, d', out) && (ok ==> !Absent(d', out))
  }

  /** The entries of `src` named in `moved`, with all below them, are now in `dest`. */
  ghost predicate EntriesMoved(d: Disk, d': Disk, src: Path, dest: Path, moved: set<string>) {
    && (forall f <- d :: src < f && f[|src|] in moved ==> dest + f[|src|..] in d' && d'[dest + f[|src|..]] == d[f])
    && (forall f <- d :: !(src < f && f[|src|] in moved) ==> f in d' && d'[f] == d[f])
    && (forall f <- d' :: (f in d && !(src < f && f[|src|] in moved))
         || (dest < f && f[|dest|] in moved && src + f[|dest|..] in d))
  }

  /** Only derivative entries are moved; all of them, when the job succeeds. */
  ghost predicate DerivativesMoved(d: Disk, d': Disk, src: Path, dest: Path, moved: set<string>, ok: bool) {
    && (forall n <- moved :: IsDerivative(n))
    && EntriesMoved(d, d', src, dest, moved)
    && (ok ==> forall f <- d :: src < f && IsDerivative(f[|src|]) ==> f[|src|] in moved)
  }

  /** The destination is made, and then derivatives are moved into it. */
  ghost predicate MovedInto(d: Disk, d': Disk, src: Path, dest: Path, moved: set<string>, ok: bool) {
    DerivativesMoved(d[dest := Directory], d', src, dest, moved, ok)
  }

  /** The destination must not exist.  */
  ghost predicate MoveDerivativesEffect(d: Disk, d': Disk, src: Path, dest: Path, ok: bool) {
    if !Absent(d, dest) then !ok && d' == d
    else (!ok && d' == d) || exists moved: set<string> :: MovedInto(d, d', src, dest, moved, ok)
  }

  function ActionLog(location: Path): Path {
    location + ["actions.txt"]
  }

  function Tarfile(location: Path): Path {
    location + ["original.tar"]
  }

  /** A directory of that name is not replaced. */
  ghost predicate WriteActionLogEffect(d: Disk, d': Disk, location: Path, ok: bool) {
    && SameBeside(d, d', ActionLog(location))
    && (IsDirectory(d, ActionLog(location)) ==> !ok && d' == d)
    && (ok ==> exists log :: d' == d[ActionLog(location) := Bytes(log)])
  }

  /** The archive holds everything in `backup` of the disk `ref`: files directly inside it. */
  ghost predicate ArchiveHolds(c: Content, ref: Disk, backup: Path) {
    && c.Archive?
    && forall f <- ref :: backup < f ==>
         |f| == |backup| + 1 && !ref[f].Directory? && "original/" + f[|backup|] in c.members
             && c.members["original/" + f[|backup|]] == ref[f]
  }

  /** The backup directory has only files in it. */
  predicate Archivable(d: Disk, backup: Path) {
    forall f <- d :: backup < f ==> |f| == |backup| + 1 && !d[f].Directory?
  }

  /** A directory in the backup makes the job fail before the tar is put in place. */
  ghost predicate ArchiveEffect(d: Disk, d': Disk, location: Path, backup: Path, ok: bool) {
    if backup == [] then d' == d
    else if !Archivable(d, backup) then !ok && d' == d
    else
      && SameBeside(d, d', Tarfile(location))
      && (IsDirectory(d, Tarfile(location)) ==> !ok && d' == d)
      && (ok ==> Tarfile(location) in d' && ArchiveHolds(d'[Tarfile(location)], d, backup))
  }

  predicate HasAt(s: string, k: nat, t: string) {
    k + |t| <= |s| && s[k..k + |t|] == t
  }

  ghost predicate Contains(s: string, t: string) {
    exists k: nat :: HasAt(s, k, t)
  }

  /** The name starts with four digits. */
  predicate Numbered(name: string) {
    4 <= |name| && forall k :: 0 <= k < 4 ==> IsDigit(name[k])
  }

  /** A number of ten digits, any character, and "xml". */
  predicate MetsAt(name: string, k: nat) {
    k + 14 <= |name| && (forall i :: k <= i < k + 10 ==> IsDigit(name[i])) && HasAt(Lower(name), k + 11, "xml")
  }

  /** A letter, any character, and "tar". */
  predicate TarAt(name: string, k: nat) {
    k + 5 <= |name| && 'a' <= LowerChar(name[k]) <= 'z' && HasAt(Lower(name), k + 2, "tar")
  }

  /** validInternalName; only the first of its alternatives is tied to the start of the name. */
  ghost predicate ValidInternalName(name: string) {
    || (Numbered(name) && exists ext <- {"pdf", "jp2", "xml", "tif"} :: HasAt(Lower(name), 5, ext))
    || (exists k: nat :: MetsAt(name, k))
    || (exists k: nat :: TarAt(name, k))
  }

  /** Four digits and ".pdf". */
  predicate PagePdf(name: string) {
    |name| == 8 && Numbered(name) && Lower(name[4..]) == ".pdf"
  }

  /** Four digits, any character and "tif". */
  predicate PageTiff(name: string) {
    Numbered(name) && HasAt(Lower(name), 5, "tif")
  }

  /** Derivatives are named by replacing the first thing in the whole path that is the source's extension. */
  ghost predicate PlainPath(dir: Path) {
    forall k :: 0 <= k < |dir| ==> !Contains(Lower(dir[k]), ".pdf") && !Contains(Lower(dir[k]), ".tif")
  }

  /** JP2s are made from the TIFFs of a scan; each has only its page number in front of the extension. */
  predicate PlainTiff(name: string) {
    PageTiff(name) ==> |Ext(name)| + 4 == |name|
  }

  /** Every file is validly named, there is a page, and every page has its ALTO XML and JP2. */
  ghost predicate DerivativesMade(d: Disk, dir: Path) {
    && (forall x: string :: dir + [x] in d && !IsDerivative(x) ==> ValidInternalName(x))
    && (exists x: string :: dir + [x] in d && PagePdf(x))
    && (PlainPath(dir) ==> forall x: string :: dir + [x] in d && PagePdf(x) ==> dir + [x[..4] + ".xml"] in d)
    && (PlainPath(dir) && (forall x: string :: dir + [x] in d ==> PlainTiff(x)) ==>
          forall x: string :: dir + [x] in d && PagePdf(x) ==> dir + [x[..4] + ".jp2"] in d)
  }

  /** Only files named as METS, ALTO or JP2 derivatives change. */
  ghost predicate DerivativesEffect(d: Disk, d': Disk, location: Path, ok: bool) {
    && SameOutside(d, d', location)
    && (forall f: Path :: !IsDerivative(Name(f)) ==> (f in d <==> f in d') && (f in d ==> d'[f] == d[f]))
    && (ok ==> DerivativesMade(d', location))
  }

  /** f is what is directly in the directory. */
  ghost predicate FolderAt(d: Disk, dir: Path, f: Folder) {
    forall x: string :: (x in f <==> dir + [x] in d) && (x in f ==> f[x] == d[dir + [x]])
  }

  /** A numerically sorted listing is renamed from the front, all of it when the job succeeds. */
  ghost predicate RenumberTry(d: Disk, d': Disk, dir: Path, f: Folder, es: seq<Entry>, n: nat, ok: bool) {
    && FolderAt(d, dir, f)
    && ListingOf(f, es)
    && NumericallySorted(es)
    && n <= |es|
    && (ok ==> n == |es| > 0)
    && FolderAt(d', dir, MoveUpTo(f, NamesOf(es), NewNames(es), n))
  }

  ghost predicate RenumberEffect(d: Disk, d': Disk, dir: Path, ok: bool) {
    && SameOutside(d, d', dir)
    && exists f, es, n :: RenumberTry(d, d', dir, f, es, n, ok)
  }

  function MetsFile(i: Issue): Path {
    i.location + [i.dateEdition + ".xml"]
  }

  ghost predicate MetsEffect(d: Disk, d': Disk, mets: Path, ok: bool) {
    SameBeside(d, d', mets) && (ok ==> mets in d' && d'[mets].Bytes?)
  }

  ghost predicate FieldEffect(i: Issue, i': Issue, updated: Issue, ok: bool) {
    i' == updated || (!ok && i' == i)
  }

  /** What running a job with the given work may do to the issue row and the disk, and whether it may report success. */
  ghost predicate Effect(work: Work, i: Issue, d: Disk, i': Issue, d': Disk, ok: bool) {
    match work
    case SetIssueWS(step) => d' == d && FieldEffect(i, i', i.(step := step), ok)
    case SetIssueBackupLoc(loc) => d' == d && FieldEffect(i, i', i.(backup := loc), ok)
    case SetIssueLocation(loc) => d' == d && FieldEffect(i, i', i.(location := loc), ok)
    case IgnoreIssue => d' == d && FieldEffect(i, i', i.(ignored := true), ok)
    case IssueAction(_) => d' == d && i' == i
    case SyncDir(src, dest) => i' == i && SyncEffect(d, d', src, dest, ok)
    case KillDir(loc) => i' == i && KillEffect(d, d', loc, ok)
    case RenameDir(src, dest) => i' == i && RenameEffect(d, d', src, dest, ok)
    case CleanFiles(loc) => i' == i && CleanEffect(d, d', loc, ok)
    case PageSplit(loc) => i' == i && PageSplitEffect(d, d', loc, ok)
    case MoveDerivatives(loc) => i' == i && MoveDerivativesEffect(d, d', i.location, loc, ok)
    case WriteActionLog => i' == i && WriteActionLogEffect(d, d', i.location, ok)
    case ArchiveBackups => i' == i && ArchiveEffect(d, d', i.location, i.backup, ok)
    case BuildMETS(_) => i' == i && MetsEffect(d, d', MetsFile(i), ok)
    case MakeDerivatives(_) => i' == i && DerivativesEffect(d, d', i.location, ok)
    case RenumberPages => i' == i && RenumberEffect(d, d', i.location, ok)
    case _ => i' == i
  }
}
