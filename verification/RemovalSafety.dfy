/** Exactly when the chain that removes an issue keeps the issue's files (GetJobsForRemoveErroredIssue in
    src/jobs/queue.go, the jobs in src/jobs/remove_errored_issue_jobs.go). */
module RemovalSafety {
  import opened JobModel
  import opened FileTree
  import opened DiskModel
  import opened Pipelines
  import opened ChainRuns
  import opened Outcomes
  import opened RemovalChain

  /** Derivatives are in a or in b, everything else is in a. */
  ghost predicate Placed(flt: Filter, d: Disk, a: Path, b: Path, ref: Disk, base: Path) {
    forall f <- ref :: base <= f && flt.Keeps(f[|base|..]) ==>
      var r := f[|base|..];
      || (a + r in d && d[a + r] == ref[f])
      || (GoesToDerivatives(r) && b + r in d && d[b + r] == ref[f])
  }

  lemma HeldIsPlaced(flt: Filter, d: Disk, a: Path, b: Path, ref: Disk, base: Path)
    requires Held(flt, d, a, ref, base)
    ensures Placed(flt, d, a, b, ref, base)
  {
  }

  lemma PlacedOutside(flt: Filter, d: Disk, d': Disk, changed: Path, a: Path, b: Path, ref: Disk, base: Path)
    requires Placed(flt, d, a, b, ref, base) && SameOutside(d, d', changed) && !Nested(a, changed)
          && !Nested(b, changed)
    ensures Placed(flt, d', a, b, ref, base)
  {
    forall f <- ref | base <= f && flt.Keeps(f[|base|..])
      ensures !(changed <= a + f[|base|..]) && !(changed <= b + f[|base|..])
    {
      UnderOne(a, changed, a + f[|base|..]);
      UnderOne(b, changed, b + f[|base|..]);
    }
  }

  /** A change to one entry of directory a that the filter does not keep. */
  lemma PlacedBesideEntry(names: set<string>, d: Disk, d': Disk, a: Path, b: Path, entry: string, ref: Disk, base: Path)
    requires Placed(Without(names), d, a, b, ref, base) && entry in names && SameBeside(d, d', a + [entry])
          && !Nested(a, b)
    ensures Placed(Without(names), d', a, b, ref, base)
  {
    forall f <- ref | base <= f && Without(names).Keeps(f[|base|..])
      ensures a + [entry] != a + f[|base|..] && a + [entry] != b + f[|base|..]
    {
      var r := f[|base|..];
      assert (a + [entry])[|a|..] == [entry] && (a + r)[|a|..] == r;
      UnderOne(a, b, b + r);
      assert b <= b + r && a <= a + [entry];
    }
  }

  lemma PlacedAfterMove(names: set<string>, d: Disk, d': Disk, a: Path, b: Path, moved: set<string>, all: bool,
          ref: Disk, base: Path)
    requires Placed(Without(names), d, a, b, ref, base) && Absent(d, b) && !Nested(a, b)
          && MovedInto(d, d', a, b, moved, all)
    ensures Placed(Without(names), d', a, b, ref, base)
  {
    forall f <- ref | base <= f && Without(names).Keeps(f[|base|..])
      ensures var r := f[|base|..];
              (a + r in d' && d'[a + r] == ref[f]) || (GoesToDerivatives(r) && b + r in d' && d'[b + r] == ref[f])
    {
      var r := f[|base|..];
      assert b <= b + r && a + r in d && d[a + r] == ref[f];
      assert a < a + r && (a + r)[|a|] == r[0] && (a + r)[|a|..] == r;
      UnderOne(a, b, a + r);
    }
  }

  lemma PlacedAfterRename(flt: Filter, d: Disk, d': Disk, src: Path, dest: Path, x: string, y: string, ref: Disk,
          base: Path)
    requires Placed(flt, d, src + [x], src + [y], ref, base) && Renamed(d, d', src, dest)
    ensures Placed(flt, d', dest + [x], dest + [y], ref, base)
  {
    forall f <- ref | base <= f && flt.Keeps(f[|base|..])
      ensures var r := f[|base|..];
              || (dest + [x] + r in d' && d'[dest + [x] + r] == ref[f])
              || (GoesToDerivatives(r) && dest + [y] + r in d' && d'[dest + [y] + r] == ref[f])
    {
      RenameMovesChild(d, d', src, dest, x, f[|base|..]);
      RenameMovesChild(d, d', src, dest, y, f[|base|..]);
    }
  }

  // ---------------------------------------------------------------- what a run keeps

  /** The chain's directories are told apart where it matters here. */
  predicate Configured(pl: Pipeline) {
    pl.Remove? && pl.location != []
        && (pl.backup != [] ==> !Nested(pl.backup, pl.ErrorWip()) && !Nested(pl.backup, pl.location))
  }

  function LogName(pl: Pipeline): Path
    requires pl.Remove?
  {
    pl.location + ["actions.txt"]
  }

  function TarName(pl: Pipeline): Path
    requires pl.Remove?
  {
    pl.location + ["original.tar"]
  }

  /** The chain's own files replace nothing that is not in `names`. */
  ghost predicate Harmless(pl: Pipeline, names: set<string>, start: Disk)
    requires pl.Remove?
  {
    && ("actions.txt" in names || IsDirectory(start, LogName(pl)))
    && (pl.backup == [] || "original.tar" in names
        || IsDirectory(start, TarName(pl))
        || !Archivable(start, pl.backup)
        || ("actions.txt" !in names && IsDirectory(start, LogName(pl))))
  }

  ghost predicate KeptAt(pl: Pipeline, names: set<string>, n: nat, i: Issue, d: Disk, start: Disk)
    requires pl.Remove?
  {
    && (n == 0 ==> Held(Without(names), d, pl.location, start, pl.location))
    && (n == 1 ==> Held(Without(names), d, pl.Content(), start, pl.location))
    && (2 <= n <= 8 ==> Placed(Without(names), d, pl.Content(), pl.Derivatives(), start, pl.location))
    && (9 <= n ==> Placed(Without(names), d, FinalContent(pl), FinalDerivatives(pl), start, pl.location))
    && (pl.backup != [] && n <= 5 ==> Held(Every, d, pl.backup, start, pl.backup))
    && (3 <= n <= 9 ==> i.location == pl.Content())
    && (n <= 6 ==> i.backup == pl.backup)
    && ("actions.txt" !in names ==> n <= 4)
  }

  lemma ContentApart(pl: Pipeline)
    requires Configured(pl)
    ensures !Nested(pl.Content(), pl.Derivatives())
    ensures pl.backup != [] ==> !Nested(pl.backup, pl.Content()) && !Nested(pl.backup, pl.Derivatives())
  {
    assert pl.Content()[|pl.ErrorWip()|] == "content" && pl.Derivatives()[|pl.ErrorWip()|] == "derivatives";
    if pl.backup != [] {
      ChildApart(pl.backup, pl.ErrorWip(), "content");
      ChildApart(pl.backup, pl.ErrorWip(), "derivatives");
    }
  }

  lemma KeptAtStart(pl: Pipeline, names: set<string>, i: Issue, d: Disk)
    requires pl.Remove? && i.backup == pl.backup
    ensures KeptAt(pl, names, 0, i, d, d)
  {
    HeldAtStart(Without(names), d, pl.location);
    HeldAtStart(Every, d, pl.backup);
  }

  lemma KeptBySync(pl: Pipeline, names: set<string>, i: Issue, d: Disk, d': Disk, ok: bool, start: Disk)
    requires Configured(pl) && !Nested(pl.location, pl.Content()) && KeptAt(pl, names, 0, i, d, start)
    requires SyncEffect(d, d', pl.location, pl.Content(), ok)
    ensures KeptAt(pl, names, Next(0, ok), i, d', start)
  {
    ContentApart(pl);
    HeldOutside(Without(names), d, d', pl.Content(), pl.location, start, pl.location);
    if ok {
      HeldAfterSync(Without(names), d, d', pl.location, pl.Content(), start, pl.location);
    }
    if pl.backup != [] {
      HeldOutside(Every, d, d', pl.Content(), pl.backup, start, pl.backup);
    }
  }

  lemma KeptByKill(pl: Pipeline, names: set<string>, i: Issue, d: Disk, d': Disk, ok: bool, start: Disk)
    requires Configured(pl) && !Nested(pl.location, pl.Content()) && KeptAt(pl, names, 1, i, d, start)
    requires KillEffect(d, d', pl.location, ok)
    ensures KeptAt(pl, names, Next(1, ok), i, d', start)
  {
    HeldOutside(Without(names), d, d', pl.location, pl.Content(), start, pl.location);
    HeldIsPlaced(Without(names), d', pl.Content(), pl.Derivatives(), start, pl.location);
    if pl.backup != [] {
      HeldOutside(Every, d, d', pl.location, pl.backup, start, pl.backup);
    }
  }

  lemma KeptByMove(pl: Pipeline, names: set<string>, i: Issue, d: Disk, d': Disk, ok: bool, start: Disk)
    requires Configured(pl) && KeptAt(pl, names, 3, i, d, start)
    requires MoveDerivativesEffect(d, d', pl.Content(), pl.Derivatives(), ok)
    ensures KeptAt(pl, names, Next(3, ok), i, d', start)
  {
    ContentApart(pl);
    if Absent(d, pl.Derivatives()) && (ok || d' != d) {
      var moved: set<string> :| MovedInto(d, d', pl.Content(), pl.Derivatives(), moved, ok);
      PlacedAfterMove(names, d, d', pl.Content(), pl.Derivatives(), moved, ok, start, pl.location);
      if pl.backup != [] {
        BackupBesideMove(pl, d, d', start, moved);
      }
    }
  }

  /** A directory the issue has under one of the chain's own names is a directory in the content, too. */
  lemma DirectoryArrived(pl: Pipeline, names: set<string>, d: Disk, start: Disk, name: string)
    requires pl.Remove? && Placed(Without(names), d, pl.Content(), pl.Derivatives(), start, pl.location)
    requires name !in names && !IsDerivative(name) && IsDirectory(start, pl.location + [name])
    ensures IsDirectory(d, pl.Content() + [name])
  {
    var f := pl.location + [name];
    assert f[|pl.location|..] == [name];
    if !(f in start && start[f].Directory?) {
      var g :| g in start && f < g;
      var r := g[|pl.location|..];
      assert r[0] == f[|pl.location|] == name && |r| > 1;
      assert pl.Content() + r in d && pl.Content() + [name] < pl.Content() + r by {
        assert (pl.Content() + r)[..|pl.Content()| + 1] == pl.Content() + [name];
      }
    }
  }

  lemma ExtGrows(name: string, c: char)
    requires c != '.' && Ext(name) != ""
    ensures Ext(name + [c]) == Ext(name) + [c]
  {
    assert (name + [c])[..|name|] == name;
  }

  lemma OwnNamesAreNoDerivatives()
    ensures !IsDerivative("actions.txt") && !IsDerivative("original.tar")
  {
    assert Ext("actions.") == "." && Ext("original.") == ".";
    ExtGrows("actions.", 't');
    ExtGrows("actions." + "t", 'x');
    ExtGrows("actions." + "t" + "x", 't');
    assert "actions." + "t" + "x" + "t" == "actions.txt";
    assert Ext("actions.txt")[1] == 't';
    ExtGrows("original.", 't');
    ExtGrows("original." + "t", 'a');
    ExtGrows("original." + "t" + "a", 'r');
    assert "original." + "t" + "a" + "r" == "original.tar";
    assert Ext("original.tar")[1] == 't';
  }

  lemma KeptByLog(pl: Pipeline, names: set<string>, i: Issue, d: Disk, d': Disk, ok: bool, start: Disk)
    requires Configured(pl) && KeptAt(pl, names, 4, i, d, start) && Harmless(pl, names, start)
    requires WriteActionLogEffect(d, d', pl.Content(), ok)
    ensures "actions.txt" !in names ==> !ok
    ensures KeptAt(pl, names, 4, i, d', start) && (ok ==> KeptAt(pl, names, 5, i, d', start))
    ensures ok && pl.backup == [] ==> KeptAt(pl, names, 8, i, d', start)
  {
    ContentApart(pl);
    OwnNamesAreNoDerivatives();
    if "actions.txt" in names {
      PlacedBesideEntry(names, d, d', pl.Content(), pl.Derivatives(), "actions.txt", start, pl.location);
      if pl.backup != [] {
        ChildApart(pl.backup, pl.Content(), "actions.txt");
        BesideIsOutside(d, d', ActionLog(pl.Content()));
        HeldOutside(Every, d, d', ActionLog(pl.Content()), pl.backup, start, pl.backup);
      }
    } else {
      DirectoryArrived(pl, names, d, start, "actions.txt");
    }
  }

  /** A backup that cannot be archived stays so while its files are held. */
  lemma StillNotArchivable(pl: Pipeline, d: Disk, start: Disk)
    requires pl.Remove? && pl.backup != [] && Held(Every, d, pl.backup, start, pl.backup)
          && !Archivable(start, pl.backup)
    ensures !Archivable(d, pl.backup)
  {
    var f :| f in start && pl.backup < f && !(|f| == |pl.backup| + 1 && !start[f].Directory?);
    assert pl.backup + f[|pl.backup|..] == f;
  }

  lemma KeptByArchive(pl: Pipeline, names: set<string>, i: Issue, d: Disk, d': Disk, ok: bool, start: Disk)
    requires Configured(pl) && pl.backup != [] && KeptAt(pl, names, 5, i, d, start) && Harmless(pl, names, start)
    requires ArchiveEffect(d, d', pl.Content(), pl.backup, ok)
    ensures KeptAt(pl, names, Next(5, ok), i, d', start)
  {
    ContentApart(pl);
    OwnNamesAreNoDerivatives();
    if "original.tar" in names {
      if Archivable(d, pl.backup) {
        PlacedBesideEntry(names, d, d', pl.Content(), pl.Derivatives(), "original.tar", start, pl.location);
        ChildApart(pl.backup, pl.Content(), "original.tar");
        BesideIsOutside(d, d', Tarfile(pl.Content()));
        HeldOutside(Every, d, d', Tarfile(pl.Content()), pl.backup, start, pl.backup);
      }
    } else if IsDirectory(start, TarName(pl)) {
      DirectoryArrived(pl, names, d, start, "original.tar");
    } else {
      StillNotArchivable(pl, d, start);
    }
  }

  lemma KeptByRest(pl: Pipeline, names: set<string>, n: nat, i: Issue, d: Disk, i': Issue, d': Disk, ok: bool,
          start: Disk)
    requires Configured(pl) && KeptAt(pl, names, n, i, d, start) && (n == 2 || 6 <= n < 13)
    requires (n == 6 || n == 7) ==> pl.backup != []
    requires Effect(WorkNo(pl, n), i, d, i', d', ok)
    ensures KeptAt(pl, names, Next(n, ok), i', d', start)
  {
    ContentApart(pl);
    if n == 6 {
      PlacedOutside(Without(names), d, d', pl.backup, pl.Content(), pl.Derivatives(), start, pl.location);
    } else if n == 8 && ok {
      PlacedAfterRename(Without(names), d, d', pl.ErrorWip(), pl.ErrorDir(), "content", "derivatives", start,
          pl.location);
    } else if 9 <= n {
      LastStepsOnlyWriteTheRow(pl, n, i, d, i', d', ok);
    }
  }

  /** A try of step n keeps every file the chain does not replace. */
  lemma KeptByStep(pl: Pipeline, names: set<string>, n: nat, i: Issue, d: Disk, i': Issue, d': Disk, ok: bool,
          start: Disk)
    requires Configured(pl) && !Nested(pl.location, pl.Content()) && n < 13 && KeptAt(pl, names, n, i, d, start)
    requires Harmless(pl, names, start) && (5 <= n < 8 ==> pl.backup != [])
    requires Effect(WorkNo(pl, n), i, d, i', d', ok)
    ensures KeptAt(pl, names, Next(n, ok), i', d', start)
    ensures n == 4 && ok && pl.backup == [] ==> KeptAt(pl, names, 8, i', d', start)
  {
    match n
    case 0 => KeptBySync(pl, names, i, d, d', ok, start);
    case 1 => KeptByKill(pl, names, i, d, d', ok, start);
    case 3 => KeptByMove(pl, names, i, d, d', ok, start);
    case 4 => KeptByLog(pl, names, i, d, d', ok, start);
    case 5 => KeptByArchive(pl, names, i, d, d', ok, start);
    case _ => KeptByRest(pl, names, n, i, d, i', d', ok, start);
  }

  lemma KeptByTry(pl: Pipeline, names: set<string>, a: Point, b: Point, start: Disk)
    requires Configured(pl) && !Nested(pl.location, pl.Content()) && Harmless(pl, names, start)
    requires KeptAt(pl, names, Index(pl, a.pos), a.issue, a.disk, start) && Try(pl.Works(), a, b)
    ensures KeptAt(pl, names, Index(pl, b.pos), b.issue, b.disk, start)
  {
    StepHasNumber(pl, a.pos);
    KeptByStep(pl, names, Index(pl, a.pos), a.issue, a.disk, b.issue, b.disk, b.pos == a.pos + 1, start);
  }

  // ---------------------------------------------------------------- a run that loses a file

  /** Where a file of the issue may be when the chain is at a position. */
  function Places(pl: Pipeline, p: nat): seq<Path>
    requires pl.Remove?
  {
    if Index(pl, p) <= 8 then [pl.location, pl.Content(), pl.Derivatives()]
        else [FinalContent(pl), FinalDerivatives(pl)]
  }

  ghost predicate Somewhere(pl: Pipeline, p: Point, start: Disk, f: Path)
    requires pl.Remove? && f in start && pl.location <= f
  {
    exists dir :: dir in Places(pl, p.pos) && dir + f[|pl.location|..] in p.disk
        && p.disk[dir + f[|pl.location|..]] == start[f]
  }

  lemma KeptIsSomewhere(pl: Pipeline, names: set<string>, p: Point, start: Disk, f: Path)
    requires pl.Remove? && KeptAt(pl, names, Index(pl, p.pos), p.issue, p.disk, start)
    requires f in start && pl.location <= f && Without(names).Keeps(f[|pl.location|..])
    ensures Somewhere(pl, p, start, f)
  {
    var places := Places(pl, p.pos);
    assert forall k :: 0 <= k < |places| ==> places[k] in places;
    if Index(pl, p.pos) <= 8 {
      assert places[0] == pl.location && places[1] == pl.Content() && places[2] == pl.Derivatives();
    } else {
      assert places[0] == FinalContent(pl) && places[1] == FinalDerivatives(pl);
    }
  }

  /** A file whose copy in the content directory is under the location as well. */
  function Victim(pl: Pipeline): (r: Path)
    requires pl.Remove? && Nested(pl.location, pl.Content())
    ensures Kept(pl).Keeps(r) && pl.location <= pl.Content() + r
  {
    if pl.location <= pl.Content() then ["a"]
    else
      var r := pl.location[|pl.Content()|..] + ["a"];
      assert pl.Content() + r == pl.location + ["a"];
      r
  }

  lemma VictimGoes(pl: Pipeline)
    requires pl.Remove? && Nested(pl.location, pl.Content())
    ensures Killed(Synced(map[pl.location + Victim(pl) := Bytes("")], pl.location, pl.Content()), pl.location) == map[]
  {
    var f := pl.location + Victim(pl);
    assert f[|pl.location|..] == Victim(pl);
    forall g <- Synced(map[f := Bytes("")], pl.location, pl.Content()) ensures pl.location <= g {
    }
  }

  /** Copying the location to the content directory and deleting it, both without a failure. */
  lemma MovedRun(pl: Pipeline, i: Issue, d: Disk) returns (ps: seq<Point>)
    requires Configured(pl)
    ensures TryRun(pl.Works(), ps) && |ps| == 3 && ps[0] == Point(0, i, d)
    ensures ps[2] == Point(2, i, Killed(Synced(d, pl.location, pl.Content()), pl.location))
  {
    var d1 := Synced(d, pl.location, pl.Content());
    SyncCanSucceed(d, pl.location, pl.Content());
    KillCanSucceed(d1, pl.location);
    StepHasNumber(pl, 0);
    StepHasNumber(pl, 1);
    ps := [Point(0, i, d), Point(1, i, d1), Point(2, i, Killed(d1, pl.location))];
  }

  /** At the end of the run, in which no try fails, file f is nowhere. */
  ghost predicate Loses(pl: Pipeline, i: Issue, d: Disk, ps: seq<Point>, f: Path)
    requires pl.Remove?
  {
    && TryRun(pl.Works(), ps) && ps[0] == Point(0, i, d) && 1 < |ps| && ps[|ps| - 1].pos == |ps| - 1
    && f in d && pl.location < f && !Somewhere(pl, ps[|ps| - 1], d, f)
  }

  /** When the location and the content directory contain each other, the first two jobs can lose a file. */
  lemma NestedLoses(pl: Pipeline, i: Issue) returns (d: Disk, ps: seq<Point>, f: Path)
    requires Configured(pl) && Nested(pl.location, pl.Content())
    ensures Loses(pl, i, d, ps, f) && Kept(pl).Keeps(f[|pl.location|..])
  {
    f := pl.location + Victim(pl);
    d := map[f := Bytes("")];
    ps := MovedRun(pl, i, d);
    VictimGoes(pl);
    assert f[|pl.location|..] == Victim(pl);
  }

  /** A removal whose move of derivatives, or any later job before the final rename, died: a second removal in the same
      month gets the first one's content directory as its source and as its destination, and can lose everything. */
  lemma SecondRemovalLosesAll(pl: Pipeline, n: nat, i: Issue, d: Disk, start: Disk)
    returns (second: Pipeline, ps: seq<Point>)
    requires pl.Remove? && pl.Separate() && 3 <= n <= 8 && RemovalChain.Stage(pl, n, i, d, start)
    ensures second == Remove(i.location, i.backup, pl.errorPath, pl.name)
    ensures second.location == second.Content() == pl.Content()
    ensures TryRun(second.Works(), ps) && ps[0] == Point(0, i, d) && Absent(ps[|ps| - 1].disk, pl.Content())
  {
    second := Remove(i.location, i.backup, pl.errorPath, pl.name);
    StepHasNumber(second, 0);
    StepHasNumber(second, 1);
    assert forall f <- d :: second.location <= f ==> second.location + f[|second.location|..] == f;
    assert SyncEffect(d, d, second.location, second.Content(), true);
    KillCanSucceed(d, second.location);
    ps := [Point(0, i, d), Point(1, i, d), Point(2, i, Killed(d, second.location))];
  }

  // ---------------------------------------------------------------- the chain's own files

  /** The issue has a file where the action log is copied to be written. */
  ghost predicate LosesToLog(pl: Pipeline, d: Disk)
    requires pl.Remove?
  {
    LogName(pl) in d && !IsDirectory(d, LogName(pl))
  }

  /** The issue has a file where the tar of its backup will be written. */
  ghost predicate LosesToTar(pl: Pipeline, d: Disk)
    requires pl.Remove?
  {
    && pl.backup != [] && Archivable(d, pl.backup)
    && TarName(pl) in d && !IsDirectory(d, TarName(pl)) && !IsDirectory(d, LogName(pl))
  }

  /** The chain's own names the issue does not use. */
  ghost function Unused(pl: Pipeline, d: Disk): set<string>
    requires pl.Remove?
  {
    set x | x in {"actions.txt", "original.tar"} && pl.location + [x] !in d && !IsDirectory(d, pl.location + [x])
  }

  /** A path inside the issue's directory before the removal, and once derivatives are sorted out. */
  ghost predicate ArrangedAt(pl: Pipeline, d: Disk, d4: Disk, r: Path)
    requires pl.Remove?
  {
    && (pl.Content() + r in d4 <==> pl.location + r in d)
    && (pl.Content() + r in d4 ==> d4[pl.Content() + r] == d[pl.location + r])
    && pl.location + r !in d4 && pl.Derivatives() + r !in d4
  }

  /** Files that are no derivatives are in the content and nowhere else; other directories are as they were. */
  ghost predicate Arranged(pl: Pipeline, d: Disk, d4: Disk)
    requires pl.Remove?
  {
    && (forall r {:trigger ArrangedAt(pl, d, d4, r)} | r != [] && !IsDerivative(r[0]) :: ArrangedAt(pl, d, d4, r))
    && (forall f: Path :: !(pl.location <= f) && !(pl.ErrorWip() <= f) ==>
         (f in d4 <==> f in d) && (f in d ==> d4[f] == d[f]))
  }

  ghost predicate CopiedAt(pl: Pipeline, d: Disk, d2: Disk, r: Path)
    requires pl.Remove?
  {
    && (pl.Content() + r in d2 <==> pl.location + r in d)
    && (pl.Content() + r in d2 ==> d2[pl.Content() + r] == d[pl.location + r])
  }

  /** The issue's directory has been moved to the content directory. */
  ghost predicate Copied(pl: Pipeline, d: Disk, d2: Disk)
    requires pl.Remove?
  {
    && (forall r: Path {:trigger CopiedAt(pl, d, d2, r)} :: CopiedAt(pl, d, d2, r))
    && Absent(d2, pl.location) && Absent(d2, pl.Derivatives())
    && (forall f: Path :: !(pl.location <= f) && !(pl.Content() <= f) ==>
         (f in d2 <==> f in d) && (f in d ==> d2[f] == d[f]))
  }

  lemma CopiedContent(pl: Pipeline, d: Disk, r: Path)
    requires pl.Remove? && pl.Separate() && Absent(d, pl.ErrorWip())
    ensures CopiedAt(pl, d, Killed(Synced(d, pl.location, pl.Content()), pl.location), r)
  {
    Apart(pl);
    var d1 := Synced(d, pl.location, pl.Content());
    var x, f := pl.Content() + r, pl.location + r;
    assert pl.ErrorWip() <= x;
    UnderOne(pl.location, pl.ErrorWip(), x);
    assert f[|pl.location|..] == r;
    if f in d {
      SyncedAt(d, pl.location, pl.Content(), f);
    }
    if x in d1 {
      var g :| g in d && pl.location <= g && x == pl.Content() + g[|pl.location|..];
      assert x[|pl.Content()|..] == r && x[|pl.Content()|..] == g[|pl.location|..];
      assert g == f;
    }
  }

  lemma CopiedByRun(pl: Pipeline, d: Disk)
    requires pl.Remove? && pl.Separate() && Absent(d, pl.ErrorWip())
    ensures Copied(pl, d, Killed(Synced(d, pl.location, pl.Content()), pl.location))
  {
    Apart(pl);
    var d2 := Killed(Synced(d, pl.location, pl.Content()), pl.location);
    SyncCanSucceed(d, pl.location, pl.Content());
    forall r: Path ensures CopiedAt(pl, d, d2, r) {
      CopiedContent(pl, d, r);
    }
    assert pl.ErrorWip() <= pl.Derivatives();
    forall f <- d2 ensures !(pl.Derivatives() <= f) {
      UnderOne(pl.Content(), pl.Derivatives(), f);
    }
  }

  lemma ArrangedFile(pl: Pipeline, d: Disk, d2: Disk, d4: Disk, moved: set<string>, r: Path)
    requires pl.Remove? && pl.Separate() && Copied(pl, d, d2)
          && MovedInto(d2, d4, pl.Content(), pl.Derivatives(), moved, true)
    requires r != [] && !IsDerivative(r[0])
    ensures ArrangedAt(pl, d, d4, r)
  {
    Apart(pl);
    assert CopiedAt(pl, d, d2, r);
    var x, y, z := pl.Content() + r, pl.Derivatives() + r, pl.location + r;
    assert pl.Content() < x && x[|pl.Content()|] == r[0] && r[0] !in moved;
    assert pl.Derivatives() < y && y[|pl.Derivatives()|] == r[0];
    UnderOne(pl.Content(), pl.Derivatives(), x);
    UnderOne(pl.location, pl.Derivatives(), z);
    assert pl.location <= z;
  }

  lemma ArrangedByMove(pl: Pipeline, d: Disk, d2: Disk, d4: Disk, moved: set<string>)
    requires pl.Remove? && pl.Separate() && Copied(pl, d, d2)
          && MovedInto(d2, d4, pl.Content(), pl.Derivatives(), moved, true)
    ensures Arranged(pl, d, d4)
  {
    forall r: Path | r != [] && !IsDerivative(r[0]) ensures ArrangedAt(pl, d, d4, r) {
      ArrangedFile(pl, d, d2, d4, moved, r);
    }
    assert pl.ErrorWip() <= pl.Content() && pl.ErrorWip() <= pl.Derivatives();
  }

  lemma CopiedRun(pl: Pipeline, i: Issue, d: Disk) returns (ps: seq<Point>, d2: Disk)
    requires Configured(pl) && pl.Separate() && Absent(d, pl.ErrorWip())
    ensures TryRun(pl.Works(), ps) && |ps| == 3 && ps[0] == Point(0, i, d) && ps[2] == Point(2, i, d2)
          && Copied(pl, d, d2)
  {
    ps := MovedRun(pl, i, d);
    d2 := ps[2].disk;
    CopiedByRun(pl, d);
  }

  lemma LocationTry(pl: Pipeline, i: Issue, d: Disk)
    requires pl.Remove?
    ensures Try(pl.Works(), Point(2, i, d), Point(3, i.(location := pl.Content()), d))
  {
    StepHasNumber(pl, 2);
  }

  lemma MoveTry(pl: Pipeline, i: Issue, d: Disk, d': Disk)
    requires pl.Remove? && i.location == pl.Content()
          && MoveDerivativesEffect(d, d', pl.Content(), pl.Derivatives(), true)
    ensures Try(pl.Works(), Point(3, i, d), Point(4, i, d'))
  {
    StepHasNumber(pl, 3);
  }

  /** The first four jobs, without a failure. */
  lemma ArrangedRun(pl: Pipeline, i: Issue, d: Disk) returns (ps: seq<Point>, d4: Disk)
    requires Configured(pl) && pl.Separate() && Absent(d, pl.ErrorWip())
    ensures TryRun(pl.Works(), ps) && |ps| == 5 && ps[0] == Point(0, i, d)
    ensures ps[4] == Point(4, i.(location := pl.Content()), d4) && Arranged(pl, d, d4)
  {
    var j := i.(location := pl.Content());
    var d2, moved;
    ps, d2 := CopiedRun(pl, i, d);
    LocationTry(pl, i, d2);
    OneMoreTry(pl.Works(), ps, Point(3, j, d2));
    ps := ps + [Point(3, j, d2)];
    d4, moved := MovedDisk(pl, d2);
    ArrangedByMove(pl, d, d2, d4, moved);
    MoveTry(pl, j, d2, d4);
    OneMoreTry(pl.Works(), ps, Point(4, j, d4));
    ps := ps + [Point(4, j, d4)];
  }

  lemma MovedDisk(pl: Pipeline, d2: Disk) returns (d4: Disk, moved: set<string>)
    requires pl.Remove? && Absent(d2, pl.Derivatives())
    ensures MovedInto(d2, d4, pl.Content(), pl.Derivatives(), moved, true)
    ensures MoveDerivativesEffect(d2, d4, pl.Content(), pl.Derivatives(), true)
  {
    MoveCanSucceed(d2, pl.Content(), pl.Derivatives());
    d4 := DerivativesOut(d2, pl.Content(), pl.Derivatives());
    moved :| MovedInto(d2, d4, pl.Content(), pl.Derivatives(), moved, true);
  }

  /** What is under a directory in the content was under one in the location. */
  lemma CameFromDirectory(pl: Pipeline, d: Disk, d4: Disk, name: string, g: Path)
    requires pl.Remove? && Arranged(pl, d, d4) && !IsDerivative(name) && g in d4 && pl.Content() + [name] < g
    ensures IsDirectory(d, pl.location + [name])
  {
    var p, r := pl.Content() + [name], g[|pl.Content()|..];
    assert g == pl.Content() + r && r[0] == p[|pl.Content()|] == name && |r| > 1;
    assert ArrangedAt(pl, d, d4, r);
    assert pl.location + [name] < pl.location + r by {
      assert (pl.location + r)[..|pl.location| + 1] == pl.location + [name];
    }
  }

  /** A directory in the content was one in the location. */
  lemma NoDirectoryArrived(pl: Pipeline, d: Disk, d4: Disk, name: string)
    requires pl.Remove? && Arranged(pl, d, d4) && !IsDerivative(name) && !IsDirectory(d, pl.location + [name])
    ensures !IsDirectory(d4, pl.Content() + [name])
  {
    assert ArrangedAt(pl, d, d4, [name]);
    forall g <- d4 ensures !(pl.Content() + [name] < g) {
      if pl.Content() + [name] < g {
        CameFromDirectory(pl, d, d4, name, g);
      }
    }
  }

  function LogContent(pl: Pipeline, d: Disk): string
    requires pl.Remove?
  {
    if LogName(pl) in d && d[LogName(pl)] == Bytes("") then "a" else ""
  }

  /** The first five jobs, without a failure. */
  lemma LoggedRun(pl: Pipeline, i: Issue, d: Disk) returns (ps: seq<Point>, d4: Disk)
    requires Configured(pl) && pl.Separate() && Absent(d, pl.ErrorWip()) && !IsDirectory(d, LogName(pl))
    ensures TryRun(pl.Works(), ps) && |ps| == 6 && ps[0] == Point(0, i, d) && Arranged(pl, d, d4)
    ensures ps[5] == Point(5, i.(location := pl.Content()), d4[ActionLog(pl.Content()) := Bytes(LogContent(pl, d))])
  {
    var j := i.(location := pl.Content());
    ps, d4 := ArrangedRun(pl, i, d);
    var d5 := d4[ActionLog(pl.Content()) := Bytes(LogContent(pl, d))];
    OwnNamesAreNoDerivatives();
    NoDirectoryArrived(pl, d, d4, "actions.txt");
    StepHasNumber(pl, 4);
    assert WriteActionLogEffect(d4, d5, pl.Content(), true);
    OneMoreTry(pl.Works(), ps, Point(5, j, d5));
    ps := ps + [Point(5, j, d5)];
  }

  /** What replaces the copy of a file in the content leaves no other copy. */
  lemma ReplacedIsLost(pl: Pipeline, d: Disk, d4: Disk, p: Point, r: Path)
    requires pl.Remove? && pl.Separate() && Arranged(pl, d, d4) && |r| == 1 && !IsDerivative(r[0])
    requires pl.location + r in d && Index(pl, p.pos) <= 8
    requires pl.Content() + r in p.disk && p.disk[pl.Content() + r] != d[pl.location + r]
    requires forall f <- p.disk :: f in d4 || f == ActionLog(pl.Content()) || f == pl.Content() + r
    ensures !Somewhere(pl, p, d, pl.location + r)
  {
    Apart(pl);
    assert ArrangedAt(pl, d, d4, r);
    assert (pl.location + r)[|pl.location|..] == r;
    var log := ActionLog(pl.Content());
    assert pl.Content() <= log && pl.Content() <= pl.Content() + r;
    UnderOne(pl.location, pl.Content(), pl.Content() + r);
    UnderOne(pl.Derivatives(), pl.Content(), pl.Content() + r);
    UnderOne(pl.location, pl.Content(), log);
    UnderOne(pl.Derivatives(), pl.Content(), log);
    assert pl.location <= pl.location + r && pl.Derivatives() <= pl.Derivatives() + r;
  }

  lemma LogLoses(pl: Pipeline, i: Issue, d: Disk) returns (ps: seq<Point>)
    requires Configured(pl) && pl.Separate() && Absent(d, pl.ErrorWip()) && LosesToLog(pl, d)
    ensures Loses(pl, i, d, ps, LogName(pl))
  {
    var d4;
    ps, d4 := LoggedRun(pl, i, d);
    var f, r := LogName(pl), ["actions.txt"];
    OwnNamesAreNoDerivatives();
    StepNumbers(pl);
    assert f == pl.location + r && ActionLog(pl.Content()) == pl.Content() + r;
    ReplacedIsLost(pl, d, d4, ps[5], r);
    assert pl.location < f;
  }

  lemma StepNumbers(pl: Pipeline)
    requires pl.Remove?
    ensures pl.backup != [] ==> Index(pl, 5) == 5 && Index(pl, 6) == 6
    ensures pl.backup == [] ==> Index(pl, 5) == 8
  {
  }

  predicate InBackup(d: Disk, backup: Path, f: Path) {
    f in d && backup < f && |f| == |backup| + 1
  }

  /** The files of a backup directory as a tar holds them. */
  function Members(d: Disk, backup: Path): map<string, Content> {
    MembersDiffer(d, backup);
    map f <- d | InBackup(d, backup, f) :: "original/" + f[|backup|] := d[f]
  }

  lemma MembersDiffer(d: Disk, backup: Path)
    ensures forall f, g | InBackup(d, backup, f) && InBackup(d, backup, g) && f[|backup|] == g[|backup|] :: f == g
    ensures forall f, g | InBackup(d, backup, f) && InBackup(d, backup, g)
          && "original/" + f[|backup|] == "original/" + g[|backup|] :: f == g
  {
    forall f, g | InBackup(d, backup, f) && InBackup(d, backup, g)
        && "original/" + f[|backup|] == "original/" + g[|backup|]
      ensures f == g
    {
      assert ("original/" + f[|backup|])[9..] == f[|backup|] && ("original/" + g[|backup|])[9..] == g[|backup|];
      assert f == backup + [f[|backup|]] && g == backup + [g[|backup|]];
    }
  }

  lemma MembersHold(d: Disk, backup: Path, extra: Content)
    requires Archivable(d, backup)
    ensures ArchiveHolds(Archive(Members(d, backup)["" := extra]), d, backup)
  {
    MembersDiffer(d, backup);
    forall f <- d | backup < f
      ensures "original/" + f[|backup|] in Members(d, backup) && Members(d, backup)["original/" + f[|backup|]] == d[f]
    {
    }
  }

  /** The tar of the backup, different from the file it replaces. */
  function OtherTar(d: Disk, backup: Path, was: Content): Content {
    var members := Members(d, backup);
    if was == Archive(members["" := Bytes("")]) then Archive(members["" := Bytes("a")])
        else Archive(members["" := Bytes("")])
  }

  lemma OtherTarDiffers(d: Disk, backup: Path, was: Content)
    ensures OtherTar(d, backup, was) != was
  {
    var members := Members(d, backup);
    assert members["" := Bytes("")][""] != members["" := Bytes("a")][""];
  }

  lemma StillArchivable(pl: Pipeline, d: Disk, d4: Disk, log: Content)
    requires pl.Remove? && pl.Separate() && Arranged(pl, d, d4) && LosesToTar(pl, d)
    ensures Archivable(d4[ActionLog(pl.Content()) := log], pl.backup)
  {
    Apart(pl);
    assert pl.ErrorWip() <= ActionLog(pl.Content());
    forall f <- d4[ActionLog(pl.Content()) := log] | pl.backup < f
      ensures |f| == |pl.backup| + 1 && !d4[ActionLog(pl.Content()) := log][f].Directory?
    {
      UnderOne(pl.backup, pl.ErrorWip(), f);
      UnderOne(pl.backup, pl.location, f);
    }
  }

  /** After the log is written, the backup is as it was, and no directory is in the tar's place. */
  lemma TarCanSucceed(pl: Pipeline, d: Disk, d4: Disk, log: Content)
    requires pl.Remove? && pl.Separate() && Arranged(pl, d, d4) && LosesToTar(pl, d) && !log.Directory?
    ensures var d5 := d4[ActionLog(pl.Content()) := log];
            Archivable(d5, pl.backup) && !IsDirectory(d5, Tarfile(pl.Content()))
  {
    StillArchivable(pl, d, d4, log);
    OwnNamesAreNoDerivatives();
    NoDirectoryArrived(pl, d, d4, "original.tar");
    assert ActionLog(pl.Content())[|pl.Content()|] == "actions.txt"
        && Tarfile(pl.Content())[|pl.Content()|] == "original.tar";
  }

  lemma TarIsPut(d5: Disk, location: Path, backup: Path, was: Content)
    requires backup != [] && Archivable(d5, backup) && !IsDirectory(d5, Tarfile(location))
    ensures ArchiveEffect(d5, d5[Tarfile(location) := OtherTar(d5, backup, was)], location, backup, true)
    ensures OtherTar(d5, backup, was) != was
  {
    MembersHold(d5, backup, Bytes(""));
    MembersHold(d5, backup, Bytes("a"));
    OtherTarDiffers(d5, backup, was);
  }

  lemma ArchiveTry(pl: Pipeline, a: Point, b: Point)
    requires pl.Remove? && pl.backup != [] && a.pos == 5 && b.pos == 6 && b.issue == a.issue
    requires ArchiveEffect(a.disk, b.disk, a.issue.location, a.issue.backup, true)
    ensures Try(pl.Works(), a, b)
  {
    StepNumbers(pl);
    StepHasNumber(pl, 5);
  }

  /** Archiving after the log was written puts another tar in place. */
  lemma TarTry(pl: Pipeline, d: Disk, d4: Disk, a: Point) returns (b: Point)
    requires Configured(pl) && pl.Separate() && LosesToTar(pl, d) && Arranged(pl, d, d4) && a.pos == 5
    requires a.issue.location == pl.Content() && a.issue.backup == pl.backup
    requires a.disk == d4[ActionLog(pl.Content()) := Bytes(LogContent(pl, d))]
    ensures Try(pl.Works(), a, b) && b.pos == 6
    ensures Tarfile(pl.Content()) in b.disk && b.disk[Tarfile(pl.Content())] != d[TarName(pl)]
    ensures forall f <- b.disk :: f in a.disk || f == Tarfile(pl.Content())
  {
    TarCanSucceed(pl, d, d4, Bytes(LogContent(pl, d)));
    TarIsPut(a.disk, pl.Content(), pl.backup, d[TarName(pl)]);
    b := Point(6, a.issue, a.disk[Tarfile(pl.Content()) := OtherTar(a.disk, pl.backup, d[TarName(pl)])]);
    ArchiveTry(pl, a, b);
  }

  /** The first six jobs, without a failure. */
  lemma TarRun(pl: Pipeline, i: Issue, d: Disk) returns (ps: seq<Point>, d4: Disk)
    requires Configured(pl) && pl.Separate() && Absent(d, pl.ErrorWip()) && LosesToTar(pl, d) && i.backup == pl.backup
    ensures TryRun(pl.Works(), ps) && |ps| == 7 && ps[0] == Point(0, i, d) && ps[6].pos == 6 && Arranged(pl, d, d4)
    ensures Tarfile(pl.Content()) in ps[6].disk && ps[6].disk[Tarfile(pl.Content())] != d[TarName(pl)]
    ensures forall f <- ps[6].disk :: f in d4 || f == ActionLog(pl.Content()) || f == Tarfile(pl.Content())
  {
    ps, d4 := LoggedRun(pl, i, d);
    var b := TarTry(pl, d, d4, ps[5]);
    OneMoreTry(pl.Works(), ps, b);
    ps := ps + [b];
  }

  lemma TarLoses(pl: Pipeline, i: Issue, d: Disk) returns (ps: seq<Point>)
    requires Configured(pl) && pl.Separate() && Absent(d, pl.ErrorWip()) && LosesToTar(pl, d) && i.backup == pl.backup
    ensures Loses(pl, i, d, ps, TarName(pl))
  {
    var d4;
    ps, d4 := TarRun(pl, i, d);
    var f, r := TarName(pl), ["original.tar"];
    OwnNamesAreNoDerivatives();
    StepNumbers(pl);
    assert f == pl.location + r && Tarfile(pl.Content()) == pl.Content() + r;
    ReplacedIsLost(pl, d, d4, ps[6], r);
    assert pl.location < f;
  }
}
