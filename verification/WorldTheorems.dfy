/** What every run of the job chains guarantees about newspaper content, however runners, retries, stops,
    requeues, purges and other work interleave. */
module WorldTheorems {
  import opened JobModel
  import opened FileTree
  import opened DiskModel
  import opened Pipelines
  import opened Text
  import opened JobProtocol
  import opened JobOrigins
  import opened JobWorld
  import opened Outcomes
  import opened PageNumbers
  import UploadChain
  import JobPurges
  import DeriveChain
  import FinalizeChain
  import RemovalChain

  lemma QueuedLink(cfg: Config, s: Sys, jobs: seq<Job>)
    requires Sane(cfg, s)
    ensures InStep(AddChain(s, jobs), |s.chains|, 0) && AddChain(s, jobs).chains[|s.chains|].jobs == jobs
  {
    var s' := AddChain(s, jobs);
    forall r | 0 <= r < |s'.runners| && s'.runners[r].Done? && s'.runners[r].id in s'.home
      ensures s'.home[s'.runners[r].id].chain != |s.chains|
    {
      assert LocalOK(cfg, s, r);
      assert RowOK(s, s.runners[r].id);
      AddedOldRow(s, jobs, s.runners[r].id);
    }
  }

  lemma PurgeQueuesLink(cfg: Config, s: Sys, o: nat, jobs: seq<Job>)
    requires Inv(cfg, s) && Enabled(cfg, s, SavePurge(o, jobs)) && Safe(cfg, s, SavePurge(o, jobs))
    ensures var s' := Apply(cfg, s, SavePurge(o, jobs));
            |s.chains| < |s'.chains| && InStep(s', |s.chains|, 0) && s'.chains[|s.chains|].jobs == jobs
  {
    var s1 := CancelCopies(s, s.operators[o].copies);
    assert OperatorOK(s, o) && s.operators[o].Held() == s.operators[o].copies;
    CancelKeeps(cfg, s, s.operators[o].copies);
    QueuedLink(cfg, s1, jobs);
    OperatorLink(cfg, AddChain(s1, jobs), |s.chains|, 0, o, Nothing);
  }

  lemma JobsAreTheChain(pl: Pipeline, issue: nat, now: int, c: Chain)
    requires c.jobs == ChainJobs(pl, issue, now)
    ensures IsChain(pl, c)
  {
  }

  lemma QueuedIsInv(cfg: Config, pl: Pipeline, k: nat, issue: nat, now: int, w: World)
    requires cfg.Sound() && Queued(cfg, pl, k, issue, now, w) && Fresh(pl, w.disk)
    ensures WorldInv(cfg, pl, k, w)
  {
    QueuedIsLinked(cfg, pl, k, issue, now, w);
    StageAtStart(pl, w);
  }

  lemma QueuedIsLinked(cfg: Config, pl: Pipeline, k: nat, issue: nat, now: int, w: World)
    requires cfg.Sound() && Queued(cfg, pl, k, issue, now, w)
    ensures LinkInv(cfg, pl, k, w)
  {
    var jobs := ChainJobs(pl, issue, now);
    var s, e :| Inv(cfg, s) && Origins(s) && k == |s.chains| && Queues(cfg, s, e, jobs) && w.sys == Apply(cfg, s, e);
    StepKeepsExactly(cfg, s, e);
    StepKeepsOrigins(cfg, s, e);
    if e.QueueChain? {
      QueuedLink(cfg, s, jobs);
    } else {
      PurgeQueuesLink(cfg, s, e.o, jobs);
    }
    JobsAreTheChain(pl, issue, now, w.sys.chains[k]);
  }

  lemma StepOfRun(cfg: Config, pl: Pipeline, k: nat, ws: seq<World>, es: seq<Event>, n: nat)
    requires WorldRun(cfg, pl, k, ws, es) && n < |es|
    ensures WorldStep(cfg, pl, k, ws[n], es[n], ws[n + 1])
  {
  }

  /** What every step keeps holds all along a run. */
  lemma {:induction false} Along(cfg: Config, pl: Pipeline, k: nat, ws: seq<World>, es: seq<Event>, n: nat,
          holds: World -> bool)
    requires WorldRun(cfg, pl, k, ws, es) && n <= |es| && holds(ws[0])
    requires forall w, e, w' :: holds(w) && WorldStep(cfg, pl, k, w, e, w') ==> holds(w')
    ensures holds(ws[n])
  {
    if n > 0 {
      Along(cfg, pl, k, ws, es, n - 1, holds);
      StepOfRun(cfg, pl, k, ws, es, n - 1);
    }
  }

  /** The same, when something else is known of every point of the run. */
  lemma {:induction false} AlongWhere(cfg: Config, pl: Pipeline, k: nat, ws: seq<World>, es: seq<Event>, n: nat,
                                      given: World -> bool, holds: World -> bool)
    requires WorldRun(cfg, pl, k, ws, es) && n <= |es| && holds(ws[0])
    requires forall m :: 0 <= m <= n ==> given(ws[m])
    requires forall w, e, w' :: given(w) && holds(w) && WorldStep(cfg, pl, k, w, e, w') ==> holds(w')
    ensures holds(ws[n])
  {
    if n > 0 {
      AlongWhere(cfg, pl, k, ws, es, n - 1, given, holds);
      StepOfRun(cfg, pl, k, ws, es, n - 1);
    }
  }

  /** Every point of every run satisfies the joint invariant. */
  lemma WorldRunKeeps(cfg: Config, pl: Pipeline, k: nat, ws: seq<World>, es: seq<Event>, n: nat)
    requires cfg.Sound() && pl.Separate() && WorldRun(cfg, pl, k, ws, es) && n <= |es|
    requires WorldInv(cfg, pl, k, ws[0])
    ensures WorldInv(cfg, pl, k, ws[n])
  {
    var holds := (w: World) => WorldInv(cfg, pl, k, w);
    forall w, e, w' | holds(w) && WorldStep(cfg, pl, k, w, e, w') ensures holds(w') {
      WorldStepKeeps(cfg, pl, k, w, e, w');
    }
    Along(cfg, pl, k, ws, es, n, holds);
  }

  /** A run of the world from the moment the chain is queued. */
  ghost predicate Runs(cfg: Config, pl: Pipeline, k: nat, ws: seq<World>, es: seq<Event>) {
    && cfg.Sound() && pl.Separate()
    && WorldRun(cfg, pl, k, ws, es) && Fresh(pl, ws[0].disk)
    && exists issue, now :: Queued(cfg, pl, k, issue, now, ws[0])
  }

  lemma RunsKeepInv(cfg: Config, pl: Pipeline, k: nat, ws: seq<World>, es: seq<Event>, n: nat)
    requires Runs(cfg, pl, k, ws, es) && n <= |es|
    ensures WorldInv(cfg, pl, k, ws[n])
  {
    var issue, now :| Queued(cfg, pl, k, issue, now, ws[0]);
    QueuedIsInv(cfg, pl, k, issue, now, ws[0]);
    WorldRunKeeps(cfg, pl, k, ws, es, n);
  }

  lemma {:induction false} StartIsRemembered(cfg: Config, pl: Pipeline, k: nat, ws: seq<World>, es: seq<Event>, n: nat)
    requires WorldRun(cfg, pl, k, ws, es) && n <= |es|
    ensures ws[n].start == ws[0].start
  {
    if n > 0 {
      StartIsRemembered(cfg, pl, k, ws, es, n - 1);
      assert WorldStep(cfg, pl, k, ws[n - 1], es[n - 1], ws[n]);
    }
  }

  ghost predicate Finished(w: World, k: nat) {
    k < |w.sys.chains| && |w.sys.chains[k].won| == |w.sys.chains[k].ids|
  }

  lemma AwaitsInside(cfg: Config, s: Sys, k: nat, id: nat)
    requires Inv(cfg, s) && k < |s.chains| && AwaitsAt(s, k, id)
    ensures |s.chains[k].won| < |s.chains[k].ids|
  {
    assert RowOK(s, id);
  }

  lemma FinishedIsDone(cfg: Config, pl: Pipeline, k: nat, w: World)
    requires WorldInv(cfg, pl, k, w) && Finished(w, k)
    ensures w.done == |pl.Works()|
  {
    var c := w.sys.chains[k];
    assert ChainOK(w.sys, k);
    if InStep(w.sys, k, w.done) && w.done != |c.won| {
      var id :| AwaitsAt(w.sys, k, id);
      AwaitsInside(cfg, w.sys, k, id);
    }
  }

  lemma FinishedStage(cfg: Config, pl: Pipeline, k: nat, w: World)
    requires WorldInv(cfg, pl, k, w) && Finished(w, k)
    ensures StageOf(pl, |pl.Works()|, w)
  {
    FinishedIsDone(cfg, pl, k, w);
  }

  // ---------------------------------------------------------------- the upload chain

  /** At every point of every run, every uploaded file other than dot files and Thumbs.db is in the upload, WIP,
      workflow or backup directory, unchanged. */
  lemma UploadLosesNoOriginal(cfg: Config, pl: Pipeline, k: nat, ws: seq<World>, es: seq<Event>, n: nat, f: Path)
    requires pl.Upload? && Runs(cfg, pl, k, ws, es) && n <= |es|
    requires f in ws[0].disk && pl.location < f
    requires Name(f) != "" ==> Name(f)[0] != '.' && Lower(Name(f)) != "thumbs.db"
    ensures exists dir :: dir in [pl.location, pl.WorkWip(), pl.WorkDir(), pl.BackupDir()]
              && dir + f[|pl.location|..] in ws[n].disk && ws[n].disk[dir + f[|pl.location|..]] == ws[0].disk[f]
  {
    var w := ws[n];
    RunsKeepInv(cfg, pl, k, ws, es, n);
    StartIsRemembered(cfg, pl, k, ws, es, n);
    UploadChain.OriginalsAreSomewhere(pl, w.done, w.issue, w.disk, w.start, w.mark, f);
  }

  /** From the moment page splitting has succeeded, every page is in one of the directories on the way to page
      review; `mark` is the disk at that moment. */
  lemma UploadLosesNoPage(cfg: Config, pl: Pipeline, k: nat, ws: seq<World>, es: seq<Event>, n: nat, f: Path)
    requires pl.Upload? && Runs(cfg, pl, k, ws, es) && n <= |es|
    requires 7 <= ws[n].done && f in ws[n].mark && pl.WorkWip() <= f
    ensures exists dir :: dir in [pl.WorkWip(), pl.WorkDir(), pl.ReviewWip(), pl.ReviewDir()]
              && dir + f[|pl.WorkWip()|..] in ws[n].disk && ws[n].disk[dir + f[|pl.WorkWip()|..]] == ws[n].mark[f]
  {
    var w := ws[n];
    RunsKeepInv(cfg, pl, k, ws, es, n);
    UploadChain.PagesAreSomewhere(pl, w.done, w.issue, w.disk, w.start, w.mark, f);
  }

  /** `mark` is what it is said to be: the disk right after page splitting succeeded. */
  lemma MarkIsTheSplit(cfg: Config, pl: Pipeline, k: nat, ws: seq<World>, es: seq<Event>, n: nat)
    requires pl.Upload? && Runs(cfg, pl, k, ws, es) && n < |es|
    ensures ws[n + 1].mark == if ws[n].done == 6 && ws[n + 1].done == 7 then ws[n + 1].disk else ws[n].mark
  {
    RunsKeepInv(cfg, pl, k, ws, es, n);
    assert WorldStep(cfg, pl, k, ws[n], es[n], ws[n + 1]);
    if Performs(ws[n].sys, k, es[n]) {
      TryIsAtFrontier(cfg, pl, ws[n].sys, k, ws[n].done, es[n].r);
    }
  }

  /** Page splitting starts on a directory without dot files and Thumbs.db, and the originals are saved from it. */
  lemma UploadIsCleaned(cfg: Config, pl: Pipeline, k: nat, ws: seq<World>, es: seq<Event>, n: nat)
    requires pl.Upload? && Runs(cfg, pl, k, ws, es) && n <= |es| && 6 <= ws[n].done <= 7
    ensures forall x: string ::
      pl.WorkDir() + [x] in ws[n].disk && x != "" && (x[0] == '.' || Lower(x) == "thumbs.db") ==>
          ws[n].disk[pl.WorkDir() + [x]].Directory?
  {
    RunsKeepInv(cfg, pl, k, ws, es, n);
  }

  /** When the chain has finished, the pages, one at least, are in page review, the originals in the backup, nothing
      else is left and the issue row names both. */
  lemma UploadCompletes(cfg: Config, pl: Pipeline, k: nat, ws: seq<World>, es: seq<Event>, n: nat)
    requires pl.Upload? && Runs(cfg, pl, k, ws, es) && n <= |es| && Finished(ws[n], k)
    ensures var w := ws[n];
            && w.issue.location == pl.ReviewDir() && w.issue.backup == pl.BackupDir()
            && w.issue.step == WSAwaitingPageReview && !Absent(w.disk, w.issue.location)
            && Held(Every, w.disk, w.issue.location, w.mark, pl.WorkWip())
            && Held(NotFraggable, w.disk, w.issue.backup, ws[0].disk, pl.location)
            && Absent(w.disk, pl.location) && Absent(w.disk, pl.WorkDir())
            && Absent(w.disk, pl.WorkWip()) && Absent(w.disk, pl.ReviewWip())
  {
    var w := ws[n];
    RunsKeepInv(cfg, pl, k, ws, es, n);
    StartIsRemembered(cfg, pl, k, ws, es, n);
    FinishedStage(cfg, pl, k, w);
    UploadChain.Complete(pl, w.issue, w.disk, w.start, w.mark);
  }

  // ---------------------------------------------------------------- the derivatives chain

  /** While renumbering is the next step, the directory is as it was cleaned: no failed try has renamed anything. */
  ghost predicate Untorn(pl: Pipeline, w: World)
    requires pl.Derive?
  {
    w.done == 6 ==> SameUnder(w.disk, w.mark, pl.WorkDir())
  }

  ghost predicate UntornUpTo(pl: Pipeline, ws: seq<World>, n: nat)
    requires pl.Derive? && n < |ws|
  {
    forall m :: 0 <= m <= n ==> Untorn(pl, ws[m])
  }

  /** Once a directory that could be renumbered is, its pages have their numbers, and every file is there. */
  ghost predicate UntornNumbers(pl: Pipeline, w: World)
    requires pl.Derive?
  {
    7 <= w.done && Renumberable(w.mark, pl.WorkDir()) ==> DeriveChain.Renumbered(w.mark, w.disk, pl.WorkDir(), true)
  }

  lemma UntornTry(pl: Pipeline, w: World, w': World, ok: bool)
    requires pl.Derive? && w.done < |pl.Works()| && StageOf(pl, w.done, w) && Untorn(pl, w) && UntornNumbers(pl, w)
    requires Effect(pl.Works()[w.done], w.issue, w.disk, w'.issue, w'.disk, ok)
    requires w'.mark == Marked(pl, w.done, ok, w'.disk, w.mark) && w'.done == if ok then w.done + 1 else w.done
    ensures UntornNumbers(pl, w')
  {
    DeriveChain.StepHasNumber(pl, w.done);
    if 6 <= w.done && Renumberable(w.mark, pl.WorkDir()) {
      DeriveChain.UntornStep(pl, w.done, w.issue, w.disk, w'.issue, w'.disk, ok, w.start, w.mark);
    }
  }

  lemma UntornStep(cfg: Config, pl: Pipeline, k: nat, w: World, e: Event, w': World)
    requires pl.Derive? && WorldInv(cfg, pl, k, w) && WorldStep(cfg, pl, k, w, e, w') && Untorn(pl, w)
          && UntornNumbers(pl, w)
    ensures UntornNumbers(pl, w')
  {
    if Performs(w.sys, k, e) {
      TryIsAtFrontier(cfg, pl, w.sys, k, w.done, e.r);
      UntornTry(pl, w, w', Succeeds(e));
    } else if 7 <= w.done && Renumberable(w.mark, pl.WorkDir()) {
      assert pl.Dirs()[1] == pl.WorkDir();
      DeriveChain.RenumberedWhereSame(w.mark, w.disk, w'.disk, pl.WorkDir(), true);
    }
  }

  lemma UntornRunRenumbers(cfg: Config, pl: Pipeline, k: nat, ws: seq<World>, es: seq<Event>, n: nat)
    requires pl.Derive? && Runs(cfg, pl, k, ws, es) && n <= |es| && UntornUpTo(pl, ws, n)
    ensures UntornNumbers(pl, ws[n])
  {
    var given := (w: World) => WorldInv(cfg, pl, k, w) && Untorn(pl, w);
    var holds := (w: World) => UntornNumbers(pl, w);
    forall m | 0 <= m <= n ensures given(ws[m]) {
      RunsKeepInv(cfg, pl, k, ws, es, m);
      assert Untorn(pl, ws[m]);
    }
    forall w, e, w' | given(w) && holds(w) && WorldStep(cfg, pl, k, w, e, w') ensures holds(w') {
      UntornStep(cfg, pl, k, w, e, w');
    }
    AlongWhere(cfg, pl, k, ws, es, n, given, holds);
  }

  /** No number of failed tries on the cleaned directory can replace a file; or no failed try renamed anything, and a
      run on the cleaned directory replaces none. */
  ghost predicate RenumbersSafely(pl: Pipeline, ws: seq<World>, n: nat)
    requires pl.Derive? && n < |ws|
  {
    || (6 <= ws[n].done ==> Resumable(ws[n].mark, pl.WorkDir()))
    || (UntornUpTo(pl, ws, n) && (7 <= ws[n].done ==> Renumberable(ws[n].mark, pl.WorkDir())))
  }

  /** No failed try renamed anything, or it was all the same to the next one. */
  ghost predicate KeepsPairs(pl: Pipeline, ws: seq<World>, n: nat)
    requires pl.Derive? && n < |ws|
  {
    UntornUpTo(pl, ws, n) || SettledDir(ws[n].mark, pl.WorkDir())
  }

  lemma SafelyNumbered(cfg: Config, pl: Pipeline, k: nat, ws: seq<World>, es: seq<Event>, n: nat)
    requires pl.Derive? && Runs(cfg, pl, k, ws, es) && n <= |es| && RenumbersSafely(pl, ws, n) && 7 <= ws[n].done
    ensures DeriveChain.Renumbered(ws[n].mark, ws[n].disk, pl.WorkDir(), KeepsPairs(pl, ws, n))
  {
    RunsKeepInv(cfg, pl, k, ws, es, n);
    if UntornUpTo(pl, ws, n) {
      if Resumable(ws[n].mark, pl.WorkDir()) {
        ResumableIsRenumberable(ws[n].mark, pl.WorkDir());
      }
      UntornRunRenumbers(cfg, pl, k, ws, es, n);
    }
  }

  lemma SafelyRenamed(cfg: Config, pl: Pipeline, k: nat, ws: seq<World>, es: seq<Event>, n: nat)
    requires pl.Derive? && Runs(cfg, pl, k, ws, es) && n <= |es| && RenumbersSafely(pl, ws, n) && 6 <= ws[n].done
    ensures FilesRenamed(ws[n].mark, ws[n].disk, pl.WorkDir())
  {
    var w := ws[n];
    var dir := pl.WorkDir();
    RunsKeepInv(cfg, pl, k, ws, es, n);
    if 7 <= w.done {
      SafelyNumbered(cfg, pl, k, ws, es, n);
    } else if Resumable(w.mark, dir) {
      TrackedIsRenamed(w.mark, w.disk, dir, SettledDir(w.mark, dir));
    } else {
      assert Untorn(pl, w);
      NothingRenamedYet(w.mark, dir);
      TrackedWhereSame(w.mark, w.mark, w.disk, dir, true);
      TrackedIsRenamed(w.mark, w.disk, dir, true);
    }
  }

  /** `mark` is what it is said to be: the disk right after CleanFiles succeeded. */
  lemma MarkIsTheCleaned(cfg: Config, pl: Pipeline, k: nat, ws: seq<World>, es: seq<Event>, n: nat)
    requires pl.Derive? && Runs(cfg, pl, k, ws, es) && n < |es|
    ensures ws[n + 1].mark == if ws[n].done == 5 && ws[n + 1].done == 6 then ws[n + 1].disk else ws[n].mark
  {
    RunsKeepInv(cfg, pl, k, ws, es, n);
    assert WorldStep(cfg, pl, k, ws[n], es[n], ws[n + 1]);
    if Performs(ws[n].sys, k, es[n]) {
      TryIsAtFrontier(cfg, pl, ws[n].sys, k, ws[n].done, es[n].r);
    }
  }

  /** When renumbering is safe, no file CleanFiles would keep is lost or merged with another, derivatives aside, and
      from the cleaning on all of them are in the issue's recorded location. */
  lemma DeriveLosesNothing(cfg: Config, pl: Pipeline, k: nat, ws: seq<World>, es: seq<Event>, n: nat)
    returns (dir: Path)
    requires pl.Derive? && Runs(cfg, pl, k, ws, es) && n <= |es| && RenumbersSafely(pl, ws, n)
    ensures dir in {pl.location, pl.WorkWip(), pl.WorkDir()} && (5 <= ws[n].done ==> dir == ws[n].issue.location)
    ensures DeriveChain.AllThere(ws[0].disk, pl.location, ws[n].disk, dir)
  {
    var w := ws[n];
    RunsKeepInv(cfg, pl, k, ws, es, n);
    StartIsRemembered(cfg, pl, k, ws, es, n);
    dir := DeriveChain.FilesDir(pl, w.done);
    if 6 <= w.done {
      SafelyRenamed(cfg, pl, k, ws, es, n);
    }
    DeriveChain.FilesAreSomewhere(pl, w.done, w.issue, w.disk, w.start, w.mark);
  }

  /** When the chain has finished and renumbering was safe, the workflow directory has every file that came, the scans
      of the cleaned directory being called by four-digit numbers from 1 on, in page order.  Files share a number
      exactly when they shared a prefix, unless a failed try got between them. */
  lemma DeriveCompletes(cfg: Config, pl: Pipeline, k: nat, ws: seq<World>, es: seq<Event>, n: nat)
    requires pl.Derive? && Runs(cfg, pl, k, ws, es) && n <= |es| && Finished(ws[n], k) && RenumbersSafely(pl, ws, n)
    ensures var w := ws[n];
            && w.issue.location == pl.WorkDir() && w.issue.step == WSReadyForMetadataEntry
            && PagesNumbered(w.mark, w.disk, w.issue.location, KeepsPairs(pl, ws, n))
            && (forall y: string :: w.issue.location + [y] in w.disk && IsScan(y) ==> |Prefix(y)| == 4)
            && NoneFraggable(w.mark, w.issue.location)
            && Held(NotFraggable, w.mark, w.issue.location, ws[0].disk, pl.location)
            && DeriveChain.AllThere(ws[0].disk, pl.location, w.disk, w.issue.location)
            && DerivativesMade(w.disk, w.issue.location)
            && Absent(w.disk, pl.location) && Absent(w.disk, pl.WorkWip())
  {
    var w := ws[n];
    var dir := pl.WorkDir();
    RunsKeepInv(cfg, pl, k, ws, es, n);
    StartIsRemembered(cfg, pl, k, ws, es, n);
    FinishedStage(cfg, pl, k, w);
    FinishedIsDone(cfg, pl, k, w);
    SafelyNumbered(cfg, pl, k, ws, es, n);
    DeriveChain.FilesAreSomewhere(pl, w.done, w.issue, w.disk, w.start, w.mark);
    forall y: string | dir + [y] in w.disk && IsScan(y) ensures |Prefix(y)| == 4 {
      FourDigitNames(w.mark, w.disk, dir, KeepsPairs(pl, ws, n), y);
    }
  }

  // ---------------------------------------------------------------- removal and finalisation

  /** Every file of a removed issue is on disk at every point, and once content was moved it is in exactly one of
      the content and derivatives directories. */
  lemma RemovalLosesNothing(cfg: Config, pl: Pipeline, k: nat, ws: seq<World>, es: seq<Event>, n: nat, f: Path)
    requires pl.Remove? && Runs(cfg, pl, k, ws, es) && n <= |es|
    requires f in ws[0].disk && pl.location <= f && RemovalChain.Kept(pl).Keeps(f[|pl.location|..])
    ensures var d, c := ws[n].disk, ws[0].disk[f];
            var r := f[|pl.location|..];
            || (f in d && d[f] == c && ws[n].done == 0)
            || (exists parent :: parent in [pl.ErrorWip(), pl.ErrorDir()]
                 && var a, b := parent + ["content"] + r, parent + ["derivatives"] + r;
                    (a in d && d[a] == c && b !in d) || (b in d && d[b] == c && a !in d))
  {
    var w := ws[n];
    var m := RemovalChain.Index(pl, w.done);
    RunsKeepInv(cfg, pl, k, ws, es, n);
    StartIsRemembered(cfg, pl, k, ws, es, n);
    RemovalChain.FilesAreSomewhere(pl, m, w.issue, w.disk, w.start, f);
    var parents := [pl.ErrorWip(), pl.ErrorDir()];
    assert parents[0] in parents && parents[1] in parents;
  }

  /** In a removal, no backup file is gone from the backup directory before the tar beside the content has it. */
  lemma RemovalKeepsBackups(cfg: Config, pl: Pipeline, k: nat, ws: seq<World>, es: seq<Event>, n: nat, f: Path)
    requires pl.Remove? && pl.backup != [] && Runs(cfg, pl, k, ws, es) && n <= |es|
    requires f in ws[0].disk && pl.backup < f
    ensures || (f in ws[n].disk && ws[n].disk[f] == ws[0].disk[f])
            || InTar(ws[n].disk, Tarfile(pl.Content()), f, pl.backup, ws[0].disk[f])
            || InTar(ws[n].disk, Tarfile(RemovalChain.FinalContent(pl)), f, pl.backup, ws[0].disk[f])
  {
    var w := ws[n];
    RunsKeepInv(cfg, pl, k, ws, es, n);
    StartIsRemembered(cfg, pl, k, ws, es, n);
    RemovalChain.BackupIsSomewhere(pl, RemovalChain.Index(pl, w.done), w.issue, w.disk, w.start, f);
  }

  /** The archive at `tar` holds file f of the backup directory. */
  predicate InTar(d: Disk, tar: Path, f: Path, backup: Path, c: Content) {
    && tar in d && d[tar].Archive?
    && |f| == |backup| + 1 && backup < f
    && "original/" + f[|backup|] in d[tar].members && d[tar].members["original/" + f[|backup|]] == c
  }

  /** In a finalisation, no backup file is gone from the backup directory before the tar in the issue's recorded
      location has it. */
  lemma FinalizeKeepsBackups(cfg: Config, pl: Pipeline, k: nat, ws: seq<World>, es: seq<Event>, n: nat, f: Path)
    requires pl.Finalize? && pl.backup != [] && Runs(cfg, pl, k, ws, es) && n <= |es|
    requires f in ws[0].disk && pl.backup < f
    ensures || (f in ws[n].disk && ws[n].disk[f] == ws[0].disk[f])
            || InTar(ws[n].disk, Tarfile(ws[n].issue.location), f, pl.backup, ws[0].disk[f])
  {
    var w := ws[n];
    RunsKeepInv(cfg, pl, k, ws, es, n);
    StartIsRemembered(cfg, pl, k, ws, es, n);
    FinalizeChain.BackupIsSomewhere(pl, FinalizeChain.Index(pl, w.done), w.issue, w.disk, w.start, f);
  }

  /** The files a removal writes itself. */
  predicate Overwritten(r: Path) {
    r == ["actions.txt"] || r == ["original.tar"]
  }

  /** METS, ALTO and JP2 files are among the derivatives, all others in the content. */
  predicate SortedInto(d: Disk, content: Path, derivatives: Path, r: Path, c: Content)
    requires r != []
  {
    var isDerivative := Ext(r[0]) == ".xml" || Ext(r[0]) == ".jp2";
    var here, there := if isDerivative then derivatives else content, if isDerivative then content else derivatives;
    here + r in d && d[here + r] == c && there + r !in d
  }

  lemma PlaceAtTheEnd(pl: Pipeline, d: Disk, start: Disk, f: Path)
    requires pl.Remove? && f in start && pl.location < f && !Overwritten(f[|pl.location|..])
    requires RemovalChain.Sorted(RemovalChain.Kept(pl), d, RemovalChain.FinalContent(pl),
                                 RemovalChain.FinalDerivatives(pl), start, pl.location)
    ensures SortedInto(d, RemovalChain.FinalContent(pl), RemovalChain.FinalDerivatives(pl), f[|pl.location|..],
                       start[f])
  {
    var r := f[|pl.location|..];
    assert |r| == 1 ==> r == [r[0]];
    assert RemovalChain.Kept(pl).Keeps(r);
  }

  /** When a removal has finished, the issue is ignored, its row names no directory, and its files, its action log and
      its archived originals are under the error directory. */
  lemma RemovalCompletes(cfg: Config, pl: Pipeline, k: nat, ws: seq<World>, es: seq<Event>, n: nat)
    requires pl.Remove? && Runs(cfg, pl, k, ws, es) && n <= |es| && Finished(ws[n], k)
    ensures var w := ws[n];
            var content, derivatives := pl.ErrorDir() + ["content"], pl.ErrorDir() + ["derivatives"];
            && w.issue.ignored && w.issue.location == [] && w.issue.backup == []
            && w.issue.step == WSUnfixableMetadataError
            && (forall f <- ws[0].disk | pl.location < f && !Overwritten(f[|pl.location|..]) ::
                  SortedInto(w.disk, content, derivatives, f[|pl.location|..], ws[0].disk[f]))
            && content + ["actions.txt"] in w.disk && w.disk[content + ["actions.txt"]].Bytes?
            && Absent(w.disk, pl.location) && Absent(w.disk, pl.ErrorWip())
            && (pl.backup != [] ==> Absent(w.disk, pl.backup) && content + ["original.tar"] in w.disk
                                    && ArchiveHolds(w.disk[content + ["original.tar"]], ws[0].disk, pl.backup))
  {
    RunsKeepInv(cfg, pl, k, ws, es, n);
    StartIsRemembered(cfg, pl, k, ws, es, n);
    FinishedStage(cfg, pl, k, ws[n]);
    RemovalChain.Complete(pl, ws[n].issue, ws[n].disk, ws[n].start);
    forall f <- ws[0].disk | pl.location < f && !Overwritten(f[|pl.location|..])
      ensures SortedInto(ws[n].disk, RemovalChain.FinalContent(pl), RemovalChain.FinalDerivatives(pl),
                         f[|pl.location|..], ws[0].disk[f])
    {
      PlaceAtTheEnd(pl, ws[n].disk, ws[0].disk, f);
    }
  }

  /** When a finalisation has finished, the METS XML is in the issue's directory, the originals are in the tar beside it
      and no longer in the backup, and the issue can be batched. */
  lemma FinalizeCompletes(cfg: Config, pl: Pipeline, k: nat, ws: seq<World>, es: seq<Event>, n: nat)
    requires pl.Finalize? && Runs(cfg, pl, k, ws, es) && n <= |es| && Finished(ws[n], k)
    ensures var w := ws[n];
            && w.issue.location == pl.location && w.issue.backup == [] && w.issue.step == WSReadyForBatching
            && MetsFile(w.issue) in w.disk && w.disk[MetsFile(w.issue)].Bytes?
            && Held(FinalizeChain.Kept(pl), w.disk, w.issue.location, ws[0].disk, pl.location)
            && (pl.backup != [] ==> Absent(w.disk, pl.backup) && Tarfile(w.issue.location) in w.disk
                                    && ArchiveHolds(w.disk[Tarfile(w.issue.location)], ws[0].disk, pl.backup))
  {
    RunsKeepInv(cfg, pl, k, ws, es, n);
    StartIsRemembered(cfg, pl, k, ws, es, n);
    FinishedStage(cfg, pl, k, ws[n]);
    FinalizeChain.Complete(pl, ws[n].issue, ws[n].disk, ws[n].start);
  }

  // ---------------------------------------------------------------- location coherence

  /** Jobs that read or write files through the issue's recorded location. */
  predicate UsesLocation(work: Work) {
    work.PageSplit? || work.RenumberPages? || work.MakeDerivatives? || work.MoveDerivatives? || work.WriteActionLog?
    || work.ArchiveBackups? || work.BuildMETS?
  }

  /** The recorded location is the directory the chain put the issue's files in, and they are there. */
  ghost predicate LocationHoldsFiles(pl: Pipeline, w: World) {
    match pl
    case Upload(_, _, _, _, _) =>
      w.issue.location == pl.WorkDir() && Held(NotFraggable, w.disk, w.issue.location, w.start, pl.location)
    case Derive(_, _, _) =>
      w.issue.location == pl.WorkDir() && DeriveChain.AllThere(w.start, pl.location, w.disk, w.issue.location)
    case Finalize(_, _, _) =>
      w.issue.location == pl.location && Held(FinalizeChain.Kept(pl), w.disk, w.issue.location, w.start, pl.location)
    case Remove(_, _, _, _) =>
      && w.issue.location == pl.Content()
      && RemovalChain.InOne(RemovalChain.Kept(pl), w.disk, w.issue.location, pl.Derivatives(), w.start, pl.location)
  }

  lemma UploadUsesLocation(pl: Pipeline, p: nat)
    requires pl.Upload? && p < 17 && UsesLocation(UploadChain.WorkNo(pl, p))
    ensures p == 6
  {
  }

  lemma UploadLocation(pl: Pipeline, p: nat, w: World)
    requires pl.Upload? && p < 17 && UsesLocation(UploadChain.WorkNo(pl, p))
    requires UploadChain.Stage(pl, p, w.issue, w.disk, w.start, w.mark)
    ensures LocationHoldsFiles(pl, w)
  {
    UploadUsesLocation(pl, p);
  }

  lemma DeriveLocation(pl: Pipeline, p: nat, w: World)
    requires pl.Derive? && p < 10 && UsesLocation(DeriveChain.WorkNo(pl, p))
    requires DeriveChain.Stage(pl, p, w.issue, w.disk, w.start, w.mark)
    requires 6 <= p ==> FilesRenamed(w.mark, w.disk, pl.WorkDir())
    ensures LocationHoldsFiles(pl, w)
  {
    assert p == 6 || p == 7;
    DeriveChain.FilesAreSomewhere(pl, p, w.issue, w.disk, w.start, w.mark);
  }

  lemma RemovalLocation(pl: Pipeline, m: nat, w: World)
    requires pl.Remove? && m < 13 && UsesLocation(RemovalChain.WorkNo(pl, m))
    requires RemovalChain.Stage(pl, m, w.issue, w.disk, w.start)
    ensures LocationHoldsFiles(pl, w)
  {
    assert m == 3 || m == 4 || m == 5;
  }

  lemma StageLocation(pl: Pipeline, p: nat, w: World)
    requires p < |pl.Works()| && UsesLocation(pl.Works()[p]) && StageOf(pl, p, w)
    requires pl.Derive? && 6 <= p ==> FilesRenamed(w.mark, w.disk, pl.WorkDir())
    ensures LocationHoldsFiles(pl, w)
  {
    match pl
    case Upload(_, _, _, _, _) =>
      UploadChain.StepHasNumber(pl, p);
      UploadLocation(pl, p, w);
    case Derive(_, _, _) =>
      DeriveChain.StepHasNumber(pl, p);
      DeriveLocation(pl, p, w);
    case Finalize(_, _, _) =>
    case Remove(_, _, _, _) =>
      RemovalChain.StepHasNumber(pl, p);
      RemovalLocation(pl, RemovalChain.Index(pl, p), w);
  }

  /** While a job that works in the issue's recorded location runs, that location is where the files are, although
      the row is stale between a delete and the job that writes the new location.  In the derivatives chain this needs
      renumbering to be safe. */
  lemma LocationIsRight(cfg: Config, pl: Pipeline, k: nat, ws: seq<World>, es: seq<Event>, n: nat, r: nat)
    requires Runs(cfg, pl, k, ws, es) && n <= |es|
    requires var s := ws[n].sys;
             && r < |s.runners| && s.runners[r].Working? && s.runners[r].id in s.home
                  && s.home[s.runners[r].id].chain == k
             && UsesLocation(s.runners[r].copy.work)
    requires pl.Derive? ==> RenumbersSafely(pl, ws, n)
    ensures LocationHoldsFiles(pl, ws[n])
  {
    var w := ws[n];
    RunsKeepInv(cfg, pl, k, ws, es, n);
    TryIsAtFrontier(cfg, pl, w.sys, k, w.done, r);
    if pl.Derive? && 6 <= w.done {
      SafelyRenamed(cfg, pl, k, ws, es, n);
    }
    StageLocation(pl, w.done, w);
  }

  // ---------------------------------------------------------------- a failure that retries cannot mend

  /** The next job is the one that refuses an output directory that exists: page splitting, or moving derivatives. */
  predicate AtOutput(pl: Pipeline, w: World) {
    (pl.Upload? && w.done == 6) || (pl.Remove? && w.done == 3)
  }

  function OutputDir(pl: Pipeline): Path
    requires pl.Upload? || pl.Remove?
  {
    if pl.Upload? then pl.WorkWip() else pl.Derivatives()
  }

  /** A try of that job has left its output directory behind, with files or without. */
  ghost predicate Blocked(pl: Pipeline, w: World) {
    AtOutput(pl, w) && !Absent(w.disk, OutputDir(pl))
  }

  lemma StillOccupied(d: Disk, d': Disk, dir: Path)
    requires !Absent(d, dir) && SameUnder(d, d', dir)
    ensures !Absent(d', dir)
  {
  }

  lemma OutputWork(pl: Pipeline, w: World)
    requires AtOutput(pl, w)
    ensures w.done < |pl.Works()|
    ensures pl.Works()[w.done] == if pl.Upload? then PageSplit(pl.WorkWip()) else MoveDerivatives(pl.Derivatives())
  {
    if pl.Remove? {
      RemovalChain.StepHasNumber(pl, 3);
    } else {
      UploadChain.StepHasNumber(pl, 6);
    }
  }

  /** A try of the job can succeed exactly when its output directory does not exist. */
  lemma TrySucceedsExactly(pl: Pipeline, w: World)
    requires AtOutput(pl, w) && w.done < |pl.Works()|
    ensures (exists d' :: Effect(pl.Works()[w.done], w.issue, w.disk, w.issue, d', true)) <==>
          Absent(w.disk, OutputDir(pl))
  {
    OutputWork(pl, w);
    var work := pl.Works()[w.done];
    if Absent(w.disk, OutputDir(pl)) {
      if pl.Upload? {
        SplitCanSucceed(w.disk, pl.WorkWip());
        assert Effect(work, w.issue, w.disk, w.issue, w.disk[pl.WorkWip() := Directory], true);
      } else {
        MoveCanSucceed(w.disk, w.issue.location, pl.Derivatives());
        assert Effect(work, w.issue, w.disk, w.issue, DerivativesOut(w.disk, w.issue.location, pl.Derivatives()), true);
      }
    }
  }

  /** A try on an output directory that exists fails and changes nothing. */
  lemma BlockedTry(pl: Pipeline, w: World, w': World, ok: bool)
    requires Blocked(pl, w) && w.done < |pl.Works()|
    requires Effect(pl.Works()[w.done], w.issue, w.disk, w'.issue, w'.disk, ok)
    ensures !ok && w'.disk == w.disk
  {
    OutputWork(pl, w);
  }

  lemma BlockedElsewhere(pl: Pipeline, w: World, w': World)
    requires Blocked(pl, w) && w'.done == w.done && DirsSame(pl, w.disk, w'.disk)
    ensures Blocked(pl, w')
  {
    if pl.Upload? {
      assert pl.Dirs()[2] == pl.WorkWip();
      StillOccupied(w.disk, w'.disk, pl.WorkWip());
    } else {
      assert pl.Dirs()[1] == pl.ErrorWip();
      SameUnderChild(w.disk, w'.disk, pl.ErrorWip(), "derivatives");
      StillOccupied(w.disk, w'.disk, pl.Derivatives());
    }
  }

  lemma BlockedStep(cfg: Config, pl: Pipeline, k: nat, w: World, e: Event, w': World)
    requires WorldInv(cfg, pl, k, w) && WorldStep(cfg, pl, k, w, e, w') && Blocked(pl, w)
    ensures Blocked(pl, w') && w'.done == w.done
  {
    if Performs(w.sys, k, e) {
      TryIsAtFrontier(cfg, pl, w.sys, k, w.done, e.r);
      BlockedTry(pl, w, w', Succeeds(e));
    } else {
      BlockedElsewhere(pl, w, w');
    }
  }

  /** No retry, no requeue and nothing else that leaves the chain's directories alone gets a blocked chain any further.
      */
  lemma BlockedStays(cfg: Config, pl: Pipeline, k: nat, ws: seq<World>, es: seq<Event>, n: nat)
    requires cfg.Sound() && pl.Separate() && WorldRun(cfg, pl, k, ws, es) && n <= |es|
    requires WorldInv(cfg, pl, k, ws[0]) && Blocked(pl, ws[0])
    ensures Blocked(pl, ws[n]) && ws[n].done == ws[0].done
  {
    var done := ws[0].done;
    var holds := (w: World) => WorldInv(cfg, pl, k, w) && Blocked(pl, w) && w.done == done;
    forall w, e, w' | holds(w) && WorldStep(cfg, pl, k, w, e, w') ensures holds(w') {
      WorldStepKeeps(cfg, pl, k, w, e, w');
      BlockedStep(cfg, pl, k, w, e, w');
    }
    Along(cfg, pl, k, ws, es, n, holds);
  }

  /** The world after runner r's try of the chain's next job has succeeded, leaving disk d'. */
  ghost function AfterSuccess(cfg: Config, pl: Pipeline, w: World, r: nat, d': Disk): World
    requires |cfg.types| == |w.sys.runners| && Enabled(cfg, w.sys, Return(r, true))
  {
    World(Apply(cfg, w.sys, Return(r, true)), w.issue, d', w.start, Marked(pl, w.done, true, d', w.mark), w.done + 1)
  }

  lemma SuccessAtFrontier(cfg: Config, pl: Pipeline, k: nat, w: World, r: nat, work: Work, d': Disk)
    requires |cfg.types| == |w.sys.runners| && Enabled(cfg, w.sys, Return(r, true))
    requires Performs(w.sys, k, Return(r, true)) && w.sys.home[w.sys.runners[r].id].pos == w.done
    requires w.sys.runners[r].copy.work == work && Effect(work, w.issue, w.disk, w.issue, d', true)
    ensures WorldStep(cfg, pl, k, w, Return(r, true), AfterSuccess(cfg, pl, w, r, d'))
  {
  }

  lemma SuccessIsAStep(cfg: Config, pl: Pipeline, k: nat, w: World, r: nat, d': Disk)
    requires WorldInv(cfg, pl, k, w) && r < |w.sys.runners| && w.sys.runners[r].Working?
    requires w.sys.runners[r].id in w.sys.home && w.sys.home[w.sys.runners[r].id].chain == k
    requires w.done < |pl.Works()| && Effect(pl.Works()[w.done], w.issue, w.disk, w.issue, d', true)
    ensures WorldStep(cfg, pl, k, w, Return(r, true), AfterSuccess(cfg, pl, w, r, d'))
  {
    TryIsAtFrontier(cfg, pl, w.sys, k, w.done, r);
    SuccessAtFrontier(cfg, pl, k, w, r, pl.Works()[w.done], d');
  }

  lemma PastTheOutput(cfg: Config, pl: Pipeline, k: nat, w: World, r: nat) returns (ws: seq<World>, es: seq<Event>)
    requires WorldInv(cfg, pl, k, w) && AtOutput(pl, w) && Absent(w.disk, OutputDir(pl))
    requires r < |w.sys.runners| && w.sys.runners[r].Working?
    requires w.sys.runners[r].id in w.sys.home && w.sys.home[w.sys.runners[r].id].chain == k
    ensures WorldRun(cfg, pl, k, ws, es) && ws[0] == w && ws[|es|].done == w.done + 1
  {
    OutputWork(pl, w);
    TrySucceedsExactly(pl, w);
    var d' :| Effect(pl.Works()[w.done], w.issue, w.disk, w.issue, d', true);
    SuccessIsAStep(cfg, pl, k, w, r, d');
    ws, es := [w, AfterSuccess(cfg, pl, w, r, d')], [Return(r, true)];
  }

  /** While a try of page splitting or of moving derivatives is under way, the chain can ever get past that job exactly
      when its output directory does not exist; otherwise somebody has to remove the directory. */
  lemma PastTheOutputExactly(cfg: Config, pl: Pipeline, k: nat, w: World, r: nat)
    requires cfg.Sound() && pl.Separate() && WorldInv(cfg, pl, k, w) && AtOutput(pl, w)
    requires r < |w.sys.runners| && w.sys.runners[r].Working?
    requires w.sys.runners[r].id in w.sys.home && w.sys.home[w.sys.runners[r].id].chain == k
    ensures (exists ws: seq<World>, es: seq<Event> ::
          WorldRun(cfg, pl, k, ws, es) && ws[0] == w && w.done < ws[|es|].done) <==> Absent(w.disk, OutputDir(pl))
  {
    if Absent(w.disk, OutputDir(pl)) {
      var ws, es := PastTheOutput(cfg, pl, k, w, r);
      assert WorldRun(cfg, pl, k, ws, es) && ws[0] == w && w.done < ws[|es|].done;
    } else {
      forall ws: seq<World>, es: seq<Event> | WorldRun(cfg, pl, k, ws, es) && ws[0] == w
        ensures ws[|es|].done == w.done
      {
        BlockedStays(cfg, pl, k, ws, es, |es|);
      }
    }
  }

  lemma BlockedIsUnfinished(cfg: Config, pl: Pipeline, k: nat, w: World)
    requires WorldInv(cfg, pl, k, w) && Blocked(pl, w)
    ensures !Finished(w, k)
  {
    assert ChainOK(w.sys, k);
  }

  /** Once a failed try has left its output directory behind, the chain never finishes. */
  lemma PartialOutputBlocksTheChain(cfg: Config, pl: Pipeline, k: nat, ws: seq<World>, es: seq<Event>, n: nat)
    requires cfg.Sound() && pl.Separate() && WorldRun(cfg, pl, k, ws, es) && n <= |es|
    requires WorldInv(cfg, pl, k, ws[0]) && Blocked(pl, ws[0])
    ensures Blocked(pl, ws[n]) && ws[n].done == ws[0].done && !Finished(ws[n], k)
  {
    BlockedStays(cfg, pl, k, ws, es, n);
    WorldRunKeeps(cfg, pl, k, ws, es, n);
    BlockedIsUnfinished(cfg, pl, k, ws[n]);
  }

  // ---------------------------------------------------------------- which dead jobs a purge finds

  /** The positions at which a dead job shows up among the issue's jobs: not where directories are copied, removed,
      renamed or cleaned. */
  predicate ShowsAt(pl: Pipeline, p: nat) {
    match pl
    case Upload(_, _, _, _, _) => p in {0, 4, 6, 9, 14, 15, 16}
    case Derive(_, _, _) => p in {0, 4, 6, 7, 8, 9}
    case Finalize(_, backup, _) => backup == [] || p != 2
    case Remove(_, backup, _, _) => p !in if backup == [] then {0, 1, 5} else {0, 1, 6, 8}
  }

  predicate DirectoryJob(work: Work) {
    work.SyncDir? || work.KillDir? || work.RenameDir? || work.CleanFiles?
  }

  lemma ShownWork(work: Work, issue: nat, now: int)
    ensures OfIssue(Prepare(work, issue, now), issue) <==> !DirectoryJob(work)
  {
  }

  lemma UploadShows(pl: Pipeline, p: nat)
    requires pl.Upload? && p < 17
    ensures DirectoryJob(UploadChain.WorkNo(pl, p)) <==> !ShowsAt(pl, p)
  {
  }

  lemma RemovalShows(pl: Pipeline, p: nat)
    requires pl.Remove? && RemovalChain.Index(pl, p) < 13
    ensures DirectoryJob(RemovalChain.WorkNo(pl, RemovalChain.Index(pl, p))) <==> !ShowsAt(pl, p)
  {
  }

  lemma ShownJobs(pl: Pipeline, issue: nat, now: int, p: nat)
    requires p < |pl.Works()|
    ensures OfIssue(ChainJobs(pl, issue, now)[p], issue) <==> ShowsAt(pl, p)
  {
    ShownWork(pl.Works()[p], issue, now);
    match pl
    case Upload(_, _, _, _, _) =>
      UploadChain.StepHasNumber(pl, p);
      UploadShows(pl, p);
    case Derive(_, _, _) =>
      DeriveChain.StepHasNumber(pl, p);
    case Finalize(_, _, _) =>
      FinalizeChain.StepHasNumber(pl, p);
    case Remove(_, _, _, _) =>
      RemovalChain.StepHasNumber(pl, p);
      RemovalShows(pl, p);
  }

  /** An issue whose chain has died can be purged exactly when it is in no batch and the chain died at one of those
      positions; its other chains must be over. */
  lemma ChainPurgeableExactly(cfg: Config, pl: Pipeline, s: Sys, issue: nat, batch: nat, now: int, id: nat)
    requires Inv(cfg, s) && id in s.table.rows && s.table.rows[id].status == Failed
    requires s.home[id].chain < |s.chains| && s.chains[s.home[id].chain].jobs == ChainJobs(pl, issue, now)
    requires forall a <- s.table.rows | OfIssue(s.table.rows[a], issue) ::
      JobPurges.Pursuable(s.table.rows[a].status) ==> s.home[a].chain == s.home[id].chain
    ensures Purgeable(s.table, issue, batch) <==> batch == 0 && ShowsAt(pl, s.home[id].pos)
  {
    assert RowOK(s, id);
    JobPurges.PurgeableExactly(cfg, s, issue, batch, id);
    ShownJobs(pl, issue, now, s.home[id].pos);
  }
}
