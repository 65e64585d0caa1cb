/** The exact conditions of RemovalSafety, for a removal run by the protocol: with its jobs table, runners that stop,
    retries, requeues and purges. */
module RemovalRuns {
  import opened JobModel
  import opened FileTree
  import opened DiskModel
  import opened Pipelines
  import opened JobProtocol
  import opened JobWorld
  import ChainRuns
  import JobGuarantees
  import RemovalChain
  import RemovalSafety
  import WorldTheorems

  type Point = ChainRuns.Point

  /** Where the chain is by itself. */
  function At(w: World): Point {
    ChainRuns.Point(w.done, w.issue, w.disk)
  }

  /** A run from the moment the removal is queued, on any disk. */
  ghost predicate Begins(cfg: Config, pl: Pipeline, k: nat, ws: seq<World>, es: seq<Event>) {
    WorldRun(cfg, pl, k, ws, es) && exists issue, now :: Queued(cfg, pl, k, issue, now, ws[0])
  }

  // ---------------------------------------------------------------- what a run keeps

  lemma KeptElsewhere(pl: Pipeline, names: set<string>, n: nat, i: Issue, d: Disk, d': Disk, start: Disk)
    requires pl.Remove? && RemovalSafety.KeptAt(pl, names, n, i, d, start) && DirsSame(pl, d, d')
    ensures RemovalSafety.KeptAt(pl, names, n, i, d', start)
  {
    var ds := pl.Dirs();
    assert ds[0] == pl.location && ds[1] == pl.ErrorWip() && ds[2] == pl.ErrorDir();
    assert pl.backup != [] ==> ds[3] == pl.backup;
    SameUnderChild(d, d', pl.ErrorWip(), "content");
    SameUnderChild(d, d', pl.ErrorWip(), "derivatives");
    SameUnderChild(d, d', pl.ErrorDir(), "content");
    SameUnderChild(d, d', pl.ErrorDir(), "derivatives");
    KeptWhereSame(pl, names, n, i, d, d', start);
  }

  lemma PlacedWhereSame(flt: Filter, d: Disk, d': Disk, a: Path, b: Path, ref: Disk, base: Path)
    requires RemovalSafety.Placed(flt, d, a, b, ref, base) && SameUnder(d, d', a) && SameUnder(d, d', b)
    ensures RemovalSafety.Placed(flt, d', a, b, ref, base)
  {
    forall f <- ref | base <= f && flt.Keeps(f[|base|..])
      ensures a <= a + f[|base|..] && b <= b + f[|base|..]
    {
    }
  }

  lemma KeptWhereSame(pl: Pipeline, names: set<string>, n: nat, i: Issue, d: Disk, d': Disk, start: Disk)
    requires pl.Remove? && RemovalSafety.KeptAt(pl, names, n, i, d, start)
    requires SameUnder(d, d', pl.location) && SameUnder(d, d', pl.Content()) && SameUnder(d, d', pl.Derivatives())
    requires SameUnder(d, d', RemovalChain.FinalContent(pl)) && SameUnder(d, d', RemovalChain.FinalDerivatives(pl))
    requires pl.backup != [] ==> SameUnder(d, d', pl.backup)
    ensures RemovalSafety.KeptAt(pl, names, n, i, d', start)
  {
    if n == 0 {
      HeldWhereSame(Without(names), d, d', pl.location, start, pl.location);
    } else if n == 1 {
      HeldWhereSame(Without(names), d, d', pl.Content(), start, pl.location);
    } else if n <= 8 {
      PlacedWhereSame(Without(names), d, d', pl.Content(), pl.Derivatives(), start, pl.location);
    } else {
      PlacedWhereSame(Without(names), d, d', RemovalChain.FinalContent(pl), RemovalChain.FinalDerivatives(pl), start,
          pl.location);
    }
    if pl.backup != [] && n <= 5 {
      HeldWhereSame(Every, d, d', pl.backup, start, pl.backup);
    }
  }

  /** What the world keeps of the files whose names are not in `names`. */
  ghost predicate KeptInv(cfg: Config, pl: Pipeline, k: nat, names: set<string>, start: Disk, w: World)
    requires pl.Remove?
  {
    LinkInv(cfg, pl, k, w) && RemovalSafety.KeptAt(pl, names, RemovalChain.Index(pl, w.done), w.issue, w.disk, start)
  }

  lemma KeptInvStep(cfg: Config, pl: Pipeline, k: nat, names: set<string>, start: Disk, w: World, e: Event, w': World)
    requires cfg.Sound() && RemovalSafety.Configured(pl) && !Nested(pl.location, pl.Content())
    requires RemovalSafety.Harmless(pl, names, start)
    requires KeptInv(cfg, pl, k, names, start, w) && WorldStep(cfg, pl, k, w, e, w')
    ensures KeptInv(cfg, pl, k, names, start, w')
  {
    LinkStepKeeps(cfg, pl, k, w, e, w');
    if Performs(w.sys, k, e) {
      assert ChainRuns.Try(pl.Works(), At(w), At(w'));
      RemovalSafety.KeptByTry(pl, names, At(w), At(w'), start);
    } else {
      KeptElsewhere(pl, names, RemovalChain.Index(pl, w.done), w.issue, w.disk, w'.disk, start);
    }
  }

  lemma KeptInvAtStart(cfg: Config, pl: Pipeline, k: nat, names: set<string>, w: World, issue: nat, now: int)
    requires cfg.Sound() && RemovalSafety.Configured(pl) && Queued(cfg, pl, k, issue, now, w)
    requires RemovalSafety.Harmless(pl, names, w.disk)
    ensures KeptInv(cfg, pl, k, names, w.disk, w)
  {
    WorldTheorems.QueuedIsLinked(cfg, pl, k, issue, now, w);
    RemovalSafety.KeptAtStart(pl, names, w.issue, w.disk);
  }

  lemma RunKeeps(cfg: Config, pl: Pipeline, k: nat, names: set<string>, ws: seq<World>, es: seq<Event>, n: nat)
    requires cfg.Sound() && RemovalSafety.Configured(pl) && !Nested(pl.location, pl.Content())
    requires Begins(cfg, pl, k, ws, es) && n <= |es| && RemovalSafety.Harmless(pl, names, ws[0].disk)
    ensures KeptInv(cfg, pl, k, names, ws[0].disk, ws[n])
  {
    var start := ws[0].disk;
    var holds := (w: World) => KeptInv(cfg, pl, k, names, start, w);
    var issue, now :| Queued(cfg, pl, k, issue, now, ws[0]);
    KeptInvAtStart(cfg, pl, k, names, ws[0], issue, now);
    forall w, e, w' | holds(w) && WorldStep(cfg, pl, k, w, e, w') ensures holds(w') {
      KeptInvStep(cfg, pl, k, names, start, w, e, w');
    }
    WorldTheorems.Along(cfg, pl, k, ws, es, n, holds);
  }

  // ---------------------------------------------------------------- successes in a row

  predicate Watches(cfg: Config, t: JobType) {
    exists r :: 0 <= r < |cfg.types| && t in cfg.types[r]
  }

  /** Every job type is watched by some runner. */
  ghost predicate Watched(cfg: Config) {
    forall t: JobType :: Watches(cfg, t)
  }

  /** Only runner r is at work, if any, and `id` is a record at chain k's frontier. */
  ghost predicate Alone(cfg: Config, pl: Pipeline, k: nat, s: Sys, r: nat, id: nat) {
    && Inv(cfg, s)
    && k < |s.chains| && IsChain(pl, s.chains[k])
    && r < |s.runners| && (forall q :: 0 <= q < |s.runners| && q != r ==> s.runners[q].Idle?)
    && id in s.table.rows && id in s.home && s.home[id] == Slot(k, |s.chains[k].won|)
  }

  /** Nobody is at work, and the record waits for runner r. */
  ghost predicate Waits(cfg: Config, pl: Pipeline, k: nat, s: Sys, r: nat, id: nat) {
    && Alone(cfg, pl, k, s, r, id) && s.runners[r].Idle?
    && Runnable(s.table.rows[id], cfg.types[r], s.table.rows[id].runAt)
  }

  /** Events of runners that leave the disk and the issue alone. */
  predicate Quiet(e: Event) {
    e.Select? || e.Take? || e.Pop? || e.SaveSuccess? || e.FindNext? || e.SaveNext?
  }

  predicate AllQuiet(events: seq<Event>) {
    forall e <- events :: Quiet(e)
  }

  lemma QuietStep(cfg: Config, pl: Pipeline, k: nat, w: World, e: Event)
    requires cfg.Sound() && Inv(cfg, w.sys) && Enabled(cfg, w.sys, e) && Quiet(e)
    ensures WorldStep(cfg, pl, k, w, e, w.(sys := Apply(cfg, w.sys, e))) && Inv(cfg, Apply(cfg, w.sys, e))
  {
    StepKeepsExactly(cfg, w.sys, e);
  }

  lemma OneMoreStep(cfg: Config, pl: Pipeline, k: nat, ws: seq<World>, es: seq<Event>, e: Event, w: World)
    requires WorldRun(cfg, pl, k, ws, es) && WorldStep(cfg, pl, k, ws[|es|], e, w)
    ensures WorldRun(cfg, pl, k, ws + [w], es + [e])
  {
    var longer, events := ws + [w], es + [e];
    forall n | 0 <= n < |events| ensures WorldStep(cfg, pl, k, longer[n], events[n], longer[n + 1]) {
      if n < |es| {
        assert es[n] == events[n];
      }
    }
  }

  /** The run goes on with quiet events. */
  lemma {:induction false} QuietRun(cfg: Config, pl: Pipeline, k: nat, ws: seq<World>, es: seq<Event>,
          events: seq<Event>)
    returns (ws': seq<World>, es': seq<Event>)
    requires cfg.Sound() && WorldRun(cfg, pl, k, ws, es)
    requires Inv(cfg, ws[|es|].sys) && Run(cfg, ws[|es|].sys, events) && AllQuiet(events)
    ensures WorldRun(cfg, pl, k, ws', es') && ws'[0] == ws[0]
    ensures ws'[|es'|] == ws[|es|].(sys := After(cfg, ws[|es|].sys, events)) && Inv(cfg, ws'[|es'|].sys)
    decreases |events|
  {
    if events == [] {
      ws', es' := ws, es;
    } else {
      var w := ws[|es|];
      var w1 := w.(sys := Apply(cfg, w.sys, events[0]));
      assert Quiet(events[0]);
      QuietStep(cfg, pl, k, w, events[0]);
      OneMoreStep(cfg, pl, k, ws, es, events[0], w1);
      assert forall e <- events[1..] :: e in events;
      ws', es' := QuietRun(cfg, pl, k, ws + [w1], es + [events[0]], events[1..]);
    }
  }

  function TakeEvents(cfg: Config, r: nat, id: nat, now: int): seq<Event> {
    if cfg.atomicPop then [Pop(r, id, now)] else [Select(r, id, now), Take(r, now)]
  }

  /** A pop in one piece or in two. */
  lemma TakeRuns(cfg: Config, s: Sys, r: nat, id: nat, now: int)
    requires |cfg.types| == |s.runners| && r < |s.runners| && s.runners[r].Idle?
    requires id in s.table.rows && Runnable(s.table.rows[id], cfg.types[r], now)
    ensures Run(cfg, s, TakeEvents(cfg, r, id, now))
    ensures After(cfg, s, TakeEvents(cfg, r, id, now)) == Taken(s, r, id, s.table.rows[id], now)
  {
    if cfg.atomicPop {
      RunStep(cfg, s, Pop(r, id, now), []);
      assert TakeEvents(cfg, r, id, now) == [Pop(r, id, now)] + [];
    } else {
      var s1 := Apply(cfg, s, Select(r, id, now));
      RunStep(cfg, s1, Take(r, now), []);
      RunStep(cfg, s, Select(r, id, now), [Take(r, now)] + []);
      assert TakeEvents(cfg, r, id, now) == [Select(r, id, now)] + ([Take(r, now)] + []);
      assert s.runners[r := Selected(id, s.table.rows[id])][r := Working(id, Started(s.table.rows[id], now))]
          == s.runners[r := Working(id, Started(s.table.rows[id], now))];
    }
  }

  lemma TakenAlone(cfg: Config, pl: Pipeline, k: nat, s: Sys, r: nat, id: nat, now: int)
    requires Alone(cfg, pl, k, s, r, id) && Inv(cfg, Taken(s, r, id, s.table.rows[id], now))
    ensures Alone(cfg, pl, k, Taken(s, r, id, s.table.rows[id], now), r, id)
    ensures Taken(s, r, id, s.table.rows[id], now).chains[k].won == s.chains[k].won
  {
  }

  /** The runner takes the job that waits. */
  lemma TakeNext(cfg: Config, pl: Pipeline, k: nat, ws: seq<World>, es: seq<Event>, r: nat, id: nat)
    returns (ws': seq<World>, es': seq<Event>)
    requires cfg.Sound() && WorldRun(cfg, pl, k, ws, es) && Waits(cfg, pl, k, ws[|es|].sys, r, id)
    ensures WorldRun(cfg, pl, k, ws', es') && ws'[0] == ws[0] && At(ws'[|es'|]) == At(ws[|es|])
    ensures Alone(cfg, pl, k, ws'[|es'|].sys, r, id) && ws'[|es'|].sys.runners[r].Working?
          && ws'[|es'|].sys.runners[r].id == id
    ensures ws'[|es'|].sys.chains[k].won == ws[|es|].sys.chains[k].won
  {
    var s := ws[|es|].sys;
    var now := s.table.rows[id].runAt;
    TakeRuns(cfg, s, r, id, now);
    ws', es' := QuietRun(cfg, pl, k, ws, es, TakeEvents(cfg, r, id, now));
    TakenAlone(cfg, pl, k, s, r, id, now);
  }

  /** The world after runner r has done its job as the chain by itself would. */
  ghost function Worked(cfg: Config, w: World, r: nat, p: Point): World
    requires |cfg.types| == |w.sys.runners| && Enabled(cfg, w.sys, Return(r, true))
  {
    World(Apply(cfg, w.sys, Return(r, true)), p.issue, p.disk, w.start, w.mark, p.pos)
  }

  lemma WorkNext(cfg: Config, pl: Pipeline, k: nat, w: World, r: nat, id: nat, p: Point)
    requires cfg.Sound() && pl.Remove? && Alone(cfg, pl, k, w.sys, r, id)
    requires w.sys.runners[r].Working? && w.sys.runners[r].id == id && w.done == |w.sys.chains[k].won|
    requires ChainRuns.Try(pl.Works(), At(w), p) && p.pos == w.done + 1
    ensures WorldStep(cfg, pl, k, w, Return(r, true), Worked(cfg, w, r, p))
    ensures Alone(cfg, pl, k, Worked(cfg, w, r, p).sys, r, id)
  {
    assert LocalOK(cfg, w.sys, r) && RowOK(w.sys, id);
    StepKeepsExactly(cfg, w.sys, Return(r, true));
  }

  /** When the success is saved, the next job of the chain waits. */
  lemma NextWaits(cfg: Config, pl: Pipeline, k: nat, s: Sys, r: nat, id: nat) returns (next: nat)
    requires Alone(cfg, pl, k, s, r, id) && s.runners[r].Done? && s.runners[r].ok && s.runners[r].id == id
    requires |s.chains[k].won| + 1 < |pl.Works()|
    ensures Run(cfg, s, JobGuarantees.SuccessEvents(s, r, 0))
    ensures var s' := After(cfg, s, JobGuarantees.SuccessEvents(s, r, 0));
            && k < |s'.chains| && s'.chains[k].jobs == s.chains[k].jobs && |s'.chains[k].won| == |s.chains[k].won| + 1
            && s'.runners == s.runners[r := Idle]
            && next in s'.table.rows && s'.table.rows[next].status == Pending
            && next in s'.home && s'.home[next] == Slot(k, |s'.chains[k].won|)
  {
    assert LocalOK(cfg, s, r) && RowOK(s, id) && ChainOK(s, k);
    next := s.chains[k].ids[|s.chains[k].won| + 1];
    assert RowOK(s, next);
    JobGuarantees.UninterruptedSuccess(cfg, s, r, 0);
  }

  lemma SuccessIsQuiet(s: Sys, r: nat)
    requires r < |s.runners| && s.runners[r].Done?
    ensures AllQuiet(JobGuarantees.SuccessEvents(s, r, 0))
  {
  }

  /** Nobody is at work, and the chain's next job waits. */
  ghost predicate Poised(cfg: Config, pl: Pipeline, k: nat, w: World) {
    && k < |w.sys.chains| && w.done == |w.sys.chains[k].won|
    && exists r, id :: Waits(cfg, pl, k, w.sys, r, id)
  }

  lemma IdleIsPoised(cfg: Config, pl: Pipeline, k: nat, w: World, id: nat)
    requires Watched(cfg) && Inv(cfg, w.sys) && k < |w.sys.chains| && IsChain(pl, w.sys.chains[k])
    requires w.done == |w.sys.chains[k].won| && forall q :: 0 <= q < |w.sys.runners| ==> w.sys.runners[q].Idle?
    requires id in w.sys.table.rows && id in w.sys.home && w.sys.home[id] == Slot(k, w.done)
    requires w.sys.table.rows[id].status == Pending
    ensures Poised(cfg, pl, k, w)
  {
    assert Watches(cfg, w.sys.table.rows[id].work.Type());
    var r :| 0 <= r < |cfg.types| && w.sys.table.rows[id].work.Type() in cfg.types[r];
    assert Waits(cfg, pl, k, w.sys, r, id);
  }

  /** One job of the chain, from waiting to done. */
  lemma DoNext(cfg: Config, pl: Pipeline, k: nat, ws: seq<World>, es: seq<Event>, p: Point)
    returns (ws': seq<World>, es': seq<Event>, r: nat, id: nat)
    requires cfg.Sound() && pl.Remove? && WorldRun(cfg, pl, k, ws, es) && Poised(cfg, pl, k, ws[|es|])
    requires ChainRuns.Try(pl.Works(), At(ws[|es|]), p) && p.pos == ws[|es|].done + 1
    ensures WorldRun(cfg, pl, k, ws', es') && ws'[0] == ws[0] && At(ws'[|es'|]) == p
    ensures var s := ws'[|es'|].sys;
            Alone(cfg, pl, k, s, r, id) && s.runners[r].Done? && s.runners[r].ok && s.runners[r].id == id
    ensures p.pos == |ws'[|es'|].sys.chains[k].won| + 1
  {
    r, id :| Waits(cfg, pl, k, ws[|es|].sys, r, id);
    ws', es' := TakeNext(cfg, pl, k, ws, es, r, id);
    var w := ws'[|es'|];
    WorkNext(cfg, pl, k, w, r, id, p);
    OneMoreStep(cfg, pl, k, ws', es', Return(r, true), Worked(cfg, w, r, p));
    ws', es' := ws' + [Worked(cfg, w, r, p)], es' + [Return(r, true)];
  }

  /** And on to the next one. */
  lemma GoOn(cfg: Config, pl: Pipeline, k: nat, ws: seq<World>, es: seq<Event>, r: nat, id: nat)
    returns (ws': seq<World>, es': seq<Event>)
    requires cfg.Sound() && Watched(cfg) && WorldRun(cfg, pl, k, ws, es) && Alone(cfg, pl, k, ws[|es|].sys, r, id)
    requires var s := ws[|es|].sys;
             s.runners[r].Done? && s.runners[r].ok && s.runners[r].id == id && ws[|es|].done == |s.chains[k].won| + 1
    requires ws[|es|].done < |pl.Works()|
    ensures WorldRun(cfg, pl, k, ws', es') && ws'[0] == ws[0] && At(ws'[|es'|]) == At(ws[|es|])
    ensures Poised(cfg, pl, k, ws'[|es'|])
  {
    var s := ws[|es|].sys;
    var next := NextWaits(cfg, pl, k, s, r, id);
    SuccessIsQuiet(s, r);
    ws', es' := QuietRun(cfg, pl, k, ws, es, JobGuarantees.SuccessEvents(s, r, 0));
    IdleIsPoised(cfg, pl, k, ws'[|es'|], next);
  }

  // ---------------------------------------------------------------- runs without failures, run by the protocol

  lemma ChainIsPrepared(pl: Pipeline)
    ensures AllPrepared(ChainJobs(pl, 0, 0)) && |ChainJobs(pl, 0, 0)| == |pl.Works()|
  {
  }

  /** A removal just queued by an empty system. */
  ghost function JustQueued(cfg: Config, pl: Pipeline, i: Issue, d: Disk): World {
    World(AddChain(Start(cfg), ChainJobs(pl, 0, 0)), i, d, d, d, 0)
  }

  lemma JustQueuedIsInv(cfg: Config, pl: Pipeline, i: Issue, d: Disk)
    requires cfg.Sound()
    ensures AllPrepared(ChainJobs(pl, 0, 0)) && Inv(cfg, Start(cfg)) && Inv(cfg, JustQueued(cfg, pl, i, d).sys)
  {
    StartIsInv(cfg);
    ChainIsPrepared(pl);
    StepKeepsExactly(cfg, Start(cfg), QueueChain(ChainJobs(pl, 0, 0)));
  }

  /** The first job of the chain waits. */
  lemma FirstWaits(pl: Pipeline, s: Sys)
    requires 0 < |pl.Works()| && 0 < s.table.nextID
    ensures var jobs, id := ChainJobs(pl, 0, 0), ChainID(s.table.nextID, |pl.Works()|, 0);
            && |jobs| == |pl.Works()| && id in AddChain(s, jobs).table.rows
                 && AddChain(s, jobs).table.rows[id].status == Pending
            && id in AddChain(s, jobs).home && AddChain(s, jobs).home[id] == Slot(|s.chains|, 0)
  {
    QueueSerialLinksChain(s.table, ChainJobs(pl, 0, 0), 0);
  }

  lemma JustQueuedIsQueued(cfg: Config, pl: Pipeline, i: Issue, d: Disk)
    requires cfg.Sound() && pl.Remove? && i.backup == pl.backup
    ensures Queued(cfg, pl, 0, 0, 0, JustQueued(cfg, pl, i, d))
  {
    JustQueuedIsInv(cfg, pl, i, d);
    assert Queues(cfg, Start(cfg), QueueChain(ChainJobs(pl, 0, 0)), ChainJobs(pl, 0, 0));
  }

  /** Where an empty system stands once the chain is queued. */
  lemma JustQueuedChain(cfg: Config, pl: Pipeline)
    ensures var s := AddChain(Start(cfg), ChainJobs(pl, 0, 0));
            && |s.chains| == 1 && s.chains[0].won == [] && IsChain(pl, s.chains[0])
            && forall q :: 0 <= q < |s.runners| ==> s.runners[q].Idle?
  {
    var s := AddChain(Start(cfg), ChainJobs(pl, 0, 0));
    WorldTheorems.JobsAreTheChain(pl, 0, 0, s.chains[0]);
  }

  lemma JustQueuedWaits(cfg: Config, pl: Pipeline, i: Issue, d: Disk)
    requires cfg.Sound() && Watched(cfg) && pl.Remove?
    ensures Poised(cfg, pl, 0, JustQueued(cfg, pl, i, d))
  {
    JustQueuedIsInv(cfg, pl, i, d);
    FirstWaits(pl, Start(cfg));
    JustQueuedChain(cfg, pl);
    IdleIsPoised(cfg, pl, 0, JustQueued(cfg, pl, i, d), ChainID(1, |pl.Works()|, 0));
  }

  ghost predicate NoneFails(ps: seq<Point>) {
    forall n :: 0 <= n < |ps| ==> ps[n].pos == n
  }

  lemma {:induction false} PosAtMost(works: seq<Work>, ps: seq<Point>, n: nat)
    requires ChainRuns.TryRun(works, ps) && ps[0].pos == 0 && n < |ps|
    ensures ps[n].pos <= n
  {
    if n > 0 {
      PosAtMost(works, ps, n - 1);
      assert ChainRuns.TryAt(works, ps, n - 1);
    }
  }

  lemma {:induction false} PosAtLeast(works: seq<Work>, ps: seq<Point>, n: nat)
    requires ChainRuns.TryRun(works, ps) && n < |ps| && ps[|ps| - 1].pos == |ps| - 1
    ensures n <= ps[n].pos
    decreases |ps| - n
  {
    if n < |ps| - 1 {
      PosAtLeast(works, ps, n + 1);
      assert ChainRuns.TryAt(works, ps, n);
    }
  }

  /** A run that comes as far as it has tries has no failed one. */
  lemma NoneFailed(works: seq<Work>, ps: seq<Point>)
    requires ChainRuns.TryRun(works, ps) && ps[0].pos == 0 && ps[|ps| - 1].pos == |ps| - 1
    ensures NoneFails(ps)
  {
    forall n | 0 <= n < |ps| ensures ps[n].pos == n {
      PosAtMost(works, ps, n);
      PosAtLeast(works, ps, n);
    }
  }

  /** The protocol can bring the chain to point n of the run, with the next job waiting. */
  lemma {:induction false} ReachPoint(cfg: Config, pl: Pipeline, i: Issue, d: Disk, ps: seq<Point>, n: nat)
    returns (ws: seq<World>, es: seq<Event>)
    requires cfg.Sound() && Watched(cfg) && pl.Remove? && i.backup == pl.backup
    requires ChainRuns.TryRun(pl.Works(), ps) && NoneFails(ps) && ps[0] == ChainRuns.Point(0, i, d)
    requires n < |ps| && n < |pl.Works()|
    ensures WorldRun(cfg, pl, 0, ws, es) && ws[0] == JustQueued(cfg, pl, i, d)
    ensures At(ws[|es|]) == ps[n] && Poised(cfg, pl, 0, ws[|es|])
  {
    if n == 0 {
      JustQueuedWaits(cfg, pl, i, d);
      ws, es := [JustQueued(cfg, pl, i, d)], [];
    } else {
      ws, es := ReachPoint(cfg, pl, i, d, ps, n - 1);
      assert ChainRuns.TryAt(pl.Works(), ps, n - 1);
      var r, id;
      ws, es, r, id := DoNext(cfg, pl, 0, ws, es, ps[n]);
      ws, es := GoOn(cfg, pl, 0, ws, es, r, id);
    }
  }

  /** What a run of the chain without failures loses, a run of the protocol loses. */
  lemma LostInRun(cfg: Config, pl: Pipeline, i: Issue, d: Disk, ps: seq<Point>, f: Path)
    returns (ws: seq<World>, es: seq<Event>)
    requires cfg.Sound() && Watched(cfg) && pl.Remove? && i.backup == pl.backup
    requires RemovalSafety.Loses(pl, i, d, ps, f)
    ensures Begins(cfg, pl, 0, ws, es) && ws[0].disk == d && !RemovalSafety.Somewhere(pl, At(ws[|es|]), d, f)
  {
    var n := |ps| - 2;
    NoneFailed(pl.Works(), ps);
    assert ChainRuns.TryAt(pl.Works(), ps, n);
    ws, es := ReachPoint(cfg, pl, i, d, ps, n);
    var r, id;
    ws, es, r, id := DoNext(cfg, pl, 0, ws, es, ps[n + 1]);
    JustQueuedIsQueued(cfg, pl, i, d);
  }

  // ---------------------------------------------------------------- exactly when a removal loses nothing

  /** File f of the issue is somewhere, unchanged. */
  ghost predicate SparedAt(pl: Pipeline, w: World, start: Disk, f: Path)
    requires pl.Remove?
  {
    f in start && pl.location <= f ==> RemovalSafety.Somewhere(pl, At(w), start, f)
  }

  /** In every run on every disk, every file that the chain does not itself write is somewhere at every point. */
  ghost predicate SparesInRuns(cfg: Config, pl: Pipeline)
    requires pl.Remove?
  {
    forall k: nat, ws: seq<World>, es: seq<Event>, n: nat, f: Path
      {:trigger Begins(cfg, pl, k, ws, es), SparedAt(pl, ws[n], ws[0].disk, f)}
      | Begins(cfg, pl, k, ws, es) && n <= |es| && pl.location <= f && RemovalChain.Kept(pl).Keeps(f[|pl.location|..])
      :: SparedAt(pl, ws[n], ws[0].disk, f)
  }

  /** The same of every file, on one disk. */
  ghost predicate KeepsAllInRuns(cfg: Config, pl: Pipeline, d: Disk)
    requires pl.Remove?
  {
    forall k: nat, ws: seq<World>, es: seq<Event>, n: nat, f: Path
      {:trigger Begins(cfg, pl, k, ws, es), SparedAt(pl, ws[n], d, f)}
      | Begins(cfg, pl, k, ws, es) && ws[0].disk == d && n <= |es| && pl.location < f :: SparedAt(pl, ws[n], d, f)
  }

  lemma KeptIsSpared(cfg: Config, pl: Pipeline, k: nat, names: set<string>, ws: seq<World>, es: seq<Event>, n: nat,
          f: Path)
    requires cfg.Sound() && RemovalSafety.Configured(pl) && !Nested(pl.location, pl.Content())
    requires Begins(cfg, pl, k, ws, es) && n <= |es| && RemovalSafety.Harmless(pl, names, ws[0].disk)
    requires pl.location <= f && Without(names).Keeps(f[|pl.location|..])
    ensures SparedAt(pl, ws[n], ws[0].disk, f)
  {
    RunKeeps(cfg, pl, k, names, ws, es, n);
    if f in ws[0].disk {
      RemovalSafety.KeptIsSomewhere(pl, names, At(ws[n]), ws[0].disk, f);
    }
  }

  /** Under every interleaving, on every disk, a removal keeps the issue's files, its own names aside: exactly when the
      issue's location and the removal's content directory do not contain each other. */
  lemma RemovalSparesExactly(cfg: Config, pl: Pipeline)
    requires cfg.Sound() && Watched(cfg) && RemovalSafety.Configured(pl)
    ensures SparesInRuns(cfg, pl) <==> !Nested(pl.location, pl.Content())
  {
    if Nested(pl.location, pl.Content()) {
      var i := Issue(pl.location, pl.backup, WSUnfixableMetadataError, false, "");
      var d, ps, f := RemovalSafety.NestedLoses(pl, i);
      var ws, es := LostInRun(cfg, pl, i, d, ps, f);
      assert !SparedAt(pl, ws[|es|], ws[0].disk, f);
    } else {
      forall k: nat, ws: seq<World>, es: seq<Event>, n: nat, f: Path
        | Begins(cfg, pl, k, ws, es) && n <= |es| && pl.location <= f && RemovalChain.Kept(pl).Keeps(f[|pl.location|..])
        ensures SparedAt(pl, ws[n], ws[0].disk, f)
      {
        KeptIsSpared(cfg, pl, k, RemovalChain.Kept(pl).names, ws, es, n, f);
      }
    }
  }

  lemma UnusedIsHarmless(pl: Pipeline, d: Disk, f: Path)
    requires pl.Remove? && !RemovalSafety.LosesToLog(pl, d) && !RemovalSafety.LosesToTar(pl, d) && f in d
          && pl.location < f
    ensures RemovalSafety.Harmless(pl, RemovalSafety.Unused(pl, d), d)
    ensures Without(RemovalSafety.Unused(pl, d)).Keeps(f[|pl.location|..])
  {
    var r := f[|pl.location|..];
    assert f == pl.location + r && r != [];
    assert |r| == 1 ==> r == [r[0]];
  }

  lemma OwnNamesKept(cfg: Config, pl: Pipeline, d: Disk)
    requires cfg.Sound() && RemovalSafety.Configured(pl) && !Nested(pl.location, pl.Content())
    requires !RemovalSafety.LosesToLog(pl, d) && !RemovalSafety.LosesToTar(pl, d)
    ensures KeepsAllInRuns(cfg, pl, d)
  {
    forall k: nat, ws: seq<World>, es: seq<Event>, n: nat, f: Path
      | Begins(cfg, pl, k, ws, es) && ws[0].disk == d && n <= |es| && pl.location < f
      ensures SparedAt(pl, ws[n], d, f)
    {
      if f in d {
        UnusedIsHarmless(pl, d, f);
        KeptIsSpared(cfg, pl, k, RemovalSafety.Unused(pl, d), ws, es, n, f);
      }
    }
  }

  lemma LosesInRuns(cfg: Config, pl: Pipeline, i: Issue, d: Disk, ps: seq<Point>, f: Path)
    requires cfg.Sound() && Watched(cfg) && pl.Remove? && i.backup == pl.backup && RemovalSafety.Loses(pl, i, d, ps, f)
    ensures !KeepsAllInRuns(cfg, pl, d)
  {
    var ws, es := LostInRun(cfg, pl, i, d, ps, f);
    assert !SparedAt(pl, ws[|es|], d, f);
  }

  /** With directories apart and a working directory of its own, a removal keeps every file of the issue under every
      interleaving, whatever the log says: exactly when none has a name the chain writes itself. */
  lemma OwnNamesExactly(cfg: Config, pl: Pipeline, d: Disk)
    requires cfg.Sound() && Watched(cfg) && RemovalSafety.Configured(pl) && pl.Separate() && Absent(d, pl.ErrorWip())
    ensures KeepsAllInRuns(cfg, pl, d) <==> !RemovalSafety.LosesToLog(pl, d) && !RemovalSafety.LosesToTar(pl, d)
  {
    var i := Issue(pl.location, pl.backup, WSUnfixableMetadataError, false, "");
    if RemovalSafety.LosesToLog(pl, d) {
      var ps := RemovalSafety.LogLoses(pl, i, d);
      LosesInRuns(cfg, pl, i, d, ps, RemovalSafety.LogName(pl));
    } else if RemovalSafety.LosesToTar(pl, d) {
      var ps := RemovalSafety.TarLoses(pl, i, d);
      LosesInRuns(cfg, pl, i, d, ps, RemovalSafety.TarName(pl));
    } else {
      RemovalChain.Apart(pl);
      OwnNamesKept(cfg, pl, d);
    }
  }
}
