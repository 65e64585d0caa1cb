/** A job chain run by the protocol on a real disk.  The chain's jobs do their work when they return, completely
    or in part, or when their runner stops in the middle; anything else on the disk may change at any time. */
module JobWorld {
  import opened JobModel
  import opened FileTree
  import opened DiskModel
  import opened Pipelines
  import opened JobProtocol
  import opened JobOrigins
  import UploadChain
  import DeriveChain
  import FinalizeChain
  import RemovalChain

  /** The protocol's state, the issue row and the disk; with history: the disk before the chain, the disk at the
      chain's landmark (pages split, directory cleaned), and how many steps have done their work. */
  datatype World = World(sys: Sys, issue: Issue, disk: Disk, start: Disk, mark: Disk, done: nat)

  ghost predicate StageOf(pl: Pipeline, p: nat, w: World) {
    match pl
    case Upload(_, _, _, _, _) => UploadChain.Stage(pl, p, w.issue, w.disk, w.start, w.mark)
    case Derive(_, _, _) => DeriveChain.Stage(pl, p, w.issue, w.disk, w.start, w.mark)
    case Finalize(_, _, _) => FinalizeChain.Stage(pl, FinalizeChain.Index(pl, p), w.issue, w.disk, w.start)
    case Remove(_, _, _, _) => RemovalChain.Stage(pl, RemovalChain.Index(pl, p), w.issue, w.disk, w.start)
  }

  /** What must be so when the chain is queued. */
  predicate Ready(pl: Pipeline, i: Issue) {
    match pl
    case Upload(_, _, _, _, _) => true
    case Derive(_, _, _) => true
    case Finalize(location, backup, dateEdition) => i.location == location && i.backup == backup
        && i.dateEdition == dateEdition
    case Remove(_, backup, _, _) => i.backup == backup
  }

  /** No earlier removal has left its working directory. */
  predicate Fresh(pl: Pipeline, d: Disk) {
    pl.Remove? ==> Absent(d, pl.ErrorWip())
  }

  function Marked(pl: Pipeline, p: nat, ok: bool, d': Disk, mark: Disk): Disk {
    match pl
    case Upload(_, _, _, _, _) => UploadChain.SplitAfter(p, ok, d', mark)
    case Derive(_, _, _) => DeriveChain.CleanedAfter(p, ok, d', mark)
    case _ => mark
  }

  lemma StageAtStart(pl: Pipeline, w: World)
    requires Ready(pl, w.issue) && Fresh(pl, w.disk) && w.start == w.disk == w.mark
    ensures StageOf(pl, 0, w)
  {
    match pl
    case Upload(_, _, _, _, _) => UploadChain.StageAtStart(pl, w.issue, w.disk);
    case Derive(_, _, _) => DeriveChain.StageAtStart(pl, w.issue, w.disk);
    case Finalize(_, _, _) => FinalizeChain.StageAtStart(pl, w.issue, w.disk);
    case Remove(_, _, _, _) => RemovalChain.StageAtStart(pl, w.issue, w.disk);
  }

  /** A try of the step at position p, in a chain that brings an issue in. */
  lemma IncomingStep(pl: Pipeline, p: nat, w: World, w': World, ok: bool)
    requires (pl.Upload? || pl.Derive?) && pl.Separate() && p < |pl.Works()| && StageOf(pl, p, w)
    requires Effect(pl.Works()[p], w.issue, w.disk, w'.issue, w'.disk, ok)
    requires w'.start == w.start && w'.mark == Marked(pl, p, ok, w'.disk, w.mark)
    ensures StageOf(pl, if ok then p + 1 else p, w')
  {
    if pl.Upload? {
      UploadChain.Step(pl, p, w.issue, w.disk, w'.issue, w'.disk, ok, w.start, w.mark);
    } else {
      DeriveChain.Step(pl, p, w.issue, w.disk, w'.issue, w'.disk, ok, w.start, w.mark);
    }
  }

  /** A try of the step at position p. */
  lemma StageStep(pl: Pipeline, p: nat, w: World, w': World, ok: bool)
    requires pl.Separate() && p < |pl.Works()| && StageOf(pl, p, w) && w'.start == w.start
    requires Effect(pl.Works()[p], w.issue, w.disk, w'.issue, w'.disk, ok)
    requires w'.mark == Marked(pl, p, ok, w'.disk, w.mark)
    ensures StageOf(pl, if ok then p + 1 else p, w')
  {
    if pl.Finalize? {
      FinalizeChain.Step(pl, p, w.issue, w.disk, w'.issue, w'.disk, ok, w.start);
    } else if pl.Remove? {
      RemovalChain.Step(pl, p, w.issue, w.disk, w'.issue, w'.disk, ok, w.start);
    } else {
      IncomingStep(pl, p, w, w', ok);
    }
  }

  ghost predicate DirsSame(pl: Pipeline, d: Disk, d': Disk) {
    forall n :: 0 <= n < |pl.Dirs()| ==> SameUnder(d, d', pl.Dirs()[n])
  }

  lemma StageElsewhere(pl: Pipeline, p: nat, w: World, w': World)
    requires StageOf(pl, p, w) && w'.start == w.start && w'.mark == w.mark && w'.issue == w.issue
    requires DirsSame(pl, w.disk, w'.disk)
    ensures StageOf(pl, p, w')
  {
    match pl
    case Upload(_, _, _, _, _) => UploadChain.Elsewhere(pl, p, w.issue, w.disk, w'.disk, w.start, w.mark);
    case Derive(_, _, _) => DeriveChain.Elsewhere(pl, p, w.issue, w.disk, w'.disk, w.start, w.mark);
    case Finalize(_, _, _) => FinalizeChain.Elsewhere(pl, FinalizeChain.Index(pl, p), w.issue, w.disk, w'.disk,
        w.start);
    case Remove(_, _, _, _) => RemovalChain.Elsewhere(pl, RemovalChain.Index(pl, p), w.issue, w.disk, w'.disk, w.start);
  }

  // ---------------------------------------------------------------- steps of the world

  /** The event ends a try of one of chain k's jobs: the job returns, or its runner stops while it runs. */
  predicate Performs(s: Sys, k: nat, e: Event) {
    && (e.Return? || e.Stop?)
    && e.r < |s.runners|
    && s.runners[e.r].Working?
    && s.runners[e.r].id in s.home
    && s.home[s.runners[e.r].id].chain == k
  }

  predicate Succeeds(e: Event) {
    e.Return? && e.ok
  }

  ghost predicate WorldStep(cfg: Config, pl: Pipeline, k: nat, w: World, e: Event, w': World) {
    && |cfg.types| == |w.sys.runners|
    && Enabled(cfg, w.sys, e)
    && Safe(cfg, w.sys, e)
    && w'.sys == Apply(cfg, w.sys, e)
    && w'.start == w.start
    && if Performs(w.sys, k, e) then
         var l := w.sys.runners[e.r];
         var p := w.sys.home[l.id].pos;
         && Effect(l.copy.work, w.issue, w.disk, w'.issue, w'.disk, Succeeds(e))
         && w'.mark == Marked(pl, p, Succeeds(e), w'.disk, w.mark)
         && w'.done == if Succeeds(e) then p + 1 else w.done
       else
         && w'.issue == w.issue && w'.mark == w.mark && w'.done == w.done
         && DirsSame(pl, w.disk, w'.disk)
  }

  ghost predicate WorldRun(cfg: Config, pl: Pipeline, k: nat, ws: seq<World>, es: seq<Event>) {
    && |ws| == |es| + 1
    && forall n {:trigger es[n]} :: 0 <= n < |es| ==> WorldStep(cfg, pl, k, ws[n], es[n], ws[n + 1])
  }

  /** The event queues the jobs: an upload or a workflow action does, or a purge whose write is safe. */
  ghost predicate Queues(cfg: Config, s: Sys, e: Event, jobs: seq<Job>) {
    && |cfg.types| == |s.runners| && Enabled(cfg, s, e) && Safe(cfg, s, e)
    && (e == QueueChain(jobs) || (e.SavePurge? && e.jobs == jobs))
  }

  /** The moment a chain's jobs are queued. */
  ghost predicate Queued(cfg: Config, pl: Pipeline, k: nat, issue: nat, now: int, w: World) {
    && Ready(pl, w.issue)
    && w.start == w.disk == w.mark
    && w.done == 0
    && exists s, e :: Inv(cfg, s) && Origins(s) && k == |s.chains| && Queues(cfg, s, e, ChainJobs(pl, issue, now))
         && w.sys == Apply(cfg, s, e)
  }

  // ---------------------------------------------------------------- how far the work and the records are apart

  /** No runner has a chain k job whose success is still to be saved. */
  ghost predicate NoneDone(s: Sys, k: nat) {
    forall r :: 0 <= r < |s.runners| && s.runners[r].Done? && s.runners[r].ok && s.runners[r].id in s.home ==>
      s.home[s.runners[r].id].chain != k
  }

  /** The record at chain k's frontier is in process, its work is done, and at most its runner knows. */
  ghost predicate AwaitsAt(s: Sys, k: nat, id: nat)
    requires k < |s.chains|
  {
    && id in s.table.rows && id in s.home
    && s.home[id] == Slot(k, |s.chains[k].won|)
    && s.table.rows[id].status == InProcess
    && forall r :: 0 <= r < |s.runners| && s.runners[r].Holds(id) ==> s.runners[r].Done? && s.runners[r].ok
  }

  ghost predicate Awaits(s: Sys, k: nat)
    requires k < |s.chains|
  {
    exists id :: AwaitsAt(s, k, id)
  }

  /** The work is at most one step ahead of what the table says. */
  ghost predicate InStep(s: Sys, k: nat, done: nat)
    requires k < |s.chains|
  {
    if done == |s.chains[k].won| then NoneDone(s, k) else done == |s.chains[k].won| + 1 && Awaits(s, k)
  }

  /** That, or a purge has cancelled the record whose work was done, and the chain is cut off. */
  ghost predicate Linked(s: Sys, k: nat, done: nat)
    requires k < |s.chains|
  {
    InStep(s, k, done) || (done == |s.chains[k].won| + 1 && CutOff(s, k))
  }

  ghost predicate IsChain(pl: Pipeline, c: Chain) {
    |c.jobs| == |pl.Works()| && forall p :: 0 <= p < |c.jobs| ==> c.jobs[p].work == pl.Works()[p]
  }

  /** The protocol's invariant, and the link between records and work. */
  ghost predicate LinkInv(cfg: Config, pl: Pipeline, k: nat, w: World) {
    && Inv(cfg, w.sys)
    && Origins(w.sys)
    && k < |w.sys.chains|
    && IsChain(pl, w.sys.chains[k])
    && Linked(w.sys, k, w.done)
  }

  ghost predicate WorldInv(cfg: Config, pl: Pipeline, k: nat, w: World) {
    LinkInv(cfg, pl, k, w) && StageOf(pl, w.done, w)
  }

  // ---------------------------------------------------------------- the link is kept

  ghost predicate SameFrontier(s: Sys, s': Sys, k: nat) {
    && |s'.runners| == |s.runners|
    && k < |s.chains| && k < |s'.chains| && s'.chains[k].won == s.chains[k].won
    && (forall id <- s.home :: id in s'.home && s'.home[id] == s.home[id])
  }

  /** In process records of chain k stay in process. */
  ghost predicate InProcessKept(s: Sys, s': Sys, k: nat) {
    forall id <- s.table.rows :: id in s.home && s.home[id].chain == k && s.table.rows[id].status == InProcess ==>
      id in s'.table.rows && s'.table.rows[id].status == InProcess
  }

  /** A runner's new memory cannot upset the link. */
  ghost predicate Harmless(s: Sys, k: nat, done: nat, l: Local)
    requires k < |s.chains|
  {
    || l.Idle? || l.Finished? || l.FoundNext?
    || (l.id in s.home && s.home[l.id].chain != k)
    || (done == |s.chains[k].won| && l.id in s.home && !(l.Done? && l.ok))
  }

  lemma LinkKept(cfg: Config, s: Sys, s': Sys, k: nat, done: nat)
    requires Sane(cfg, s) && k < |s.chains| && InStep(s, k, done)
    requires SameFrontier(s, s', k) && (done != |s.chains[k].won| ==> InProcessKept(s, s', k))
    requires forall r :: 0 <= r < |s.runners| ==> s'.runners[r] == s.runners[r] || Harmless(s, k, done, s'.runners[r])
    ensures InStep(s', k, done)
  {
    if done == |s.chains[k].won| {
      forall r | 0 <= r < |s'.runners| && s'.runners[r].Done? && s'.runners[r].ok && s'.runners[r].id in s'.home
        ensures s'.home[s'.runners[r].id].chain != k
      {
        assert LocalOK(cfg, s, r);
      }
    } else {
      var id :| AwaitsAt(s, k, id);
      assert AwaitsAt(s', k, id);
    }
  }

  /** While a success awaits saving, chain k has no other begun record. */
  lemma NothingElseBegun(cfg: Config, s: Sys, k: nat, id: nat)
    requires Inv(cfg, s) && k < |s.chains| && Awaits(s, k)
    requires id in s.table.rows && id in s.home && s.home[id].chain == k
    requires s.table.rows[id].status == Pending || s.table.rows[id].status == InProcess
          || s.table.rows[id].status == Failed
    ensures AwaitsAt(s, k, id)
  {
    var a :| AwaitsAt(s, k, a);
    assert RowOK(s, id);
    assert Live(s, a) && Live(s, id);
  }

  /** A record of chain k that can be taken, retried or requeued: no success awaits saving. */
  lemma Unspent(cfg: Config, s: Sys, k: nat, done: nat, id: nat)
    requires Inv(cfg, s) && k < |s.chains| && InStep(s, k, done)
    requires id in s.table.rows && id in s.home && s.home[id].chain == k
    requires s.table.rows[id].status == Pending || s.table.rows[id].status == InProcess
          || s.table.rows[id].status == Failed
    requires s.table.rows[id].status != InProcess
             || exists r :: 0 <= r < |s.runners| && s.runners[r].Holds(id) && !(s.runners[r].Done? && s.runners[r].ok)
    ensures done == |s.chains[k].won| == s.home[id].pos
  {
    assert RowOK(s, id);
    if done != |s.chains[k].won| {
      NothingElseBegun(cfg, s, k, id);
    }
  }

  lemma TakenLink(cfg: Config, s: Sys, k: nat, done: nat, r: nat, id: nat, now: int)
    requires Inv(cfg, s) && k < |s.chains| && InStep(s, k, done)
    requires r < |s.runners| && id in s.table.rows && s.table.rows[id].status == Pending
    ensures InStep(Taken(s, r, id, s.table.rows[id], now), k, done)
  {
    if s.home[id].chain == k {
      Unspent(cfg, s, k, done, id);
    }
    LinkKept(cfg, s, Taken(s, r, id, s.table.rows[id], now), k, done);
  }

  lemma SelectLink(cfg: Config, s: Sys, k: nat, done: nat, r: nat, id: nat, now: int)
    requires Inv(cfg, s) && k < |s.chains| && InStep(s, k, done) && Enabled(cfg, s, Select(r, id, now))
    ensures InStep(Apply(cfg, s, Select(r, id, now)), k, done)
  {
    if s.home[id].chain == k {
      Unspent(cfg, s, k, done, id);
    }
    LinkKept(cfg, s, Apply(cfg, s, Select(r, id, now)), k, done);
  }

  lemma TakeLink(cfg: Config, s: Sys, k: nat, done: nat, r: nat, now: int)
    requires Inv(cfg, s) && k < |s.chains| && InStep(s, k, done) && Enabled(cfg, s, Take(r, now))
    ensures InStep(Apply(cfg, s, Take(r, now)), k, done)
  {
    assert LocalOK(cfg, s, r);
    TakenLink(cfg, s, k, done, r, s.runners[r].id, now);
  }

  /** A job of another chain returns. */
  lemma OtherReturnLink(cfg: Config, s: Sys, k: nat, done: nat, r: nat, ok: bool)
    requires Inv(cfg, s) && k < |s.chains| && InStep(s, k, done) && Enabled(cfg, s, Return(r, ok))
    requires !Performs(s, k, Return(r, ok))
    ensures InStep(Apply(cfg, s, Return(r, ok)), k, done)
  {
    assert LocalOK(cfg, s, r);
    LinkKept(cfg, s, Apply(cfg, s, Return(r, ok)), k, done);
  }

  /** A try of the chain's own job is under way: it is the job at the frontier, and its work is not done yet. */
  lemma TryIsAtFrontier(cfg: Config, pl: Pipeline, s: Sys, k: nat, done: nat, r: nat)
    requires Inv(cfg, s) && k < |s.chains| && Linked(s, k, done) && IsChain(pl, s.chains[k])
    requires r < |s.runners| && s.runners[r].Working? && s.runners[r].id in s.home && s.home[s.runners[r].id].chain == k
    ensures InStep(s, k, done)
    ensures done == |s.chains[k].won| == s.home[s.runners[r].id].pos < |pl.Works()|
    ensures s.runners[r].copy.work == pl.Works()[done]
    ensures s.runners[r].id in s.table.rows && s.table.rows[s.runners[r].id].status == InProcess
  {
    assert LocalOK(cfg, s, r);
    assert s.runners[r].Holds(s.runners[r].id);
    BegunIsAtFrontier(s, s.runners[r].id);
    Unspent(cfg, s, k, done, s.runners[r].id);
    assert RowOK(s, s.runners[r].id);
  }

  lemma SuccessAwaits(cfg: Config, s: Sys, k: nat, r: nat)
    requires Sane(cfg, s) && k < |s.chains| && Enabled(cfg, s, Return(r, true))
    requires var id := s.runners[r].id;
             id in s.table.rows && id in s.home && s.home[id] == Slot(k, |s.chains[k].won|)
                 && s.table.rows[id].status == InProcess
    ensures AwaitsAt(Apply(cfg, s, Return(r, true)), k, s.runners[r].id)
  {
    var id := s.runners[r].id;
    assert s.runners[r].Holds(id);
    forall q | 0 <= q < |s.runners| && q != r ensures !s.runners[q].Holds(id) {
    }
  }

  /** The chain's own job returns. */
  lemma OwnSuccessLink(cfg: Config, pl: Pipeline, s: Sys, k: nat, done: nat, r: nat)
    requires Inv(cfg, s) && k < |s.chains| && InStep(s, k, done) && IsChain(pl, s.chains[k])
    requires Enabled(cfg, s, Return(r, true)) && Performs(s, k, Return(r, true))
    ensures InStep(Apply(cfg, s, Return(r, true)), k, done + 1)
  {
    TryIsAtFrontier(cfg, pl, s, k, done, r);
    SuccessAwaits(cfg, s, k, r);
  }

  lemma OwnFailureLink(cfg: Config, pl: Pipeline, s: Sys, k: nat, done: nat, r: nat)
    requires Inv(cfg, s) && k < |s.chains| && InStep(s, k, done) && IsChain(pl, s.chains[k])
    requires Enabled(cfg, s, Return(r, false)) && Performs(s, k, Return(r, false))
    ensures InStep(Apply(cfg, s, Return(r, false)), k, done)
  {
    TryIsAtFrontier(cfg, pl, s, k, done, r);
    LinkKept(cfg, s, Apply(cfg, s, Return(r, false)), k, done);
  }

  lemma StopLink(cfg: Config, s: Sys, k: nat, done: nat, r: nat)
    requires Inv(cfg, s) && k < |s.chains| && InStep(s, k, done) && r < |s.runners|
    ensures InStep(SetLocal(s, r, Idle), k, done)
  {
    LinkKept(cfg, s, SetLocal(s, r, Idle), k, done);
  }

  /** No runner other than r has a success of chain k to save. */
  lemma OnlyWinner(cfg: Config, s: Sys, k: nat, r: nat, q: nat)
    requires Inv(cfg, s) && r < |s.runners| && q < |s.runners| && q != r
    requires s.runners[r].Done? && s.runners[r].id in s.home && s.home[s.runners[r].id].chain == k
    requires s.runners[q].Done? && s.runners[q].id in s.home
    ensures s.home[s.runners[q].id].chain != k
  {
    var a, b := s.runners[r].id, s.runners[q].id;
    assert LocalOK(cfg, s, r) && LocalOK(cfg, s, q);
    assert s.runners[r].Holds(a) && s.runners[q].Holds(b);
    assert RowOK(s, a) && RowOK(s, b);
    assert Live(s, a) && Live(s, b);
    assert !(s.runners[r].Holds(a) && s.runners[q].Holds(a));
  }

  lemma SaveSuccessLink(cfg: Config, s: Sys, k: nat, done: nat, r: nat, now: int)
    requires Inv(cfg, s) && k < |s.chains| && InStep(s, k, done) && Enabled(cfg, s, SaveSuccess(r, now))
    ensures InStep(Apply(cfg, s, SaveSuccess(r, now)), k, done)
  {
    var id := s.runners[r].id;
    var s' := Apply(cfg, s, SaveSuccess(r, now));
    assert LocalOK(cfg, s, r);
    assert RowOK(s, id);
    if s.home[id].chain == k {
      assert done == |s.chains[k].won| + 1;
      forall q | 0 <= q < |s'.runners| && s'.runners[q].Done? && s'.runners[q].ok && s'.runners[q].id in s'.home
        ensures s'.home[s'.runners[q].id].chain != k
      {
        OnlyWinner(cfg, s, k, r, q);
      }
    } else {
      LinkKept(cfg, s, s', k, done);
    }
  }

  /** A try of a job has failed. */
  lemma FailedLink(cfg: Config, s: Sys, k: nat, done: nat, r: nat)
    requires Inv(cfg, s) && k < |s.chains| && InStep(s, k, done) && r < |s.runners|
    requires s.runners[r].Done? && !s.runners[r].ok && s.runners[r].id in s.home && s.home[s.runners[r].id].chain == k
    ensures done == |s.chains[k].won|
  {
    assert LocalOK(cfg, s, r);
    assert s.runners[r].Holds(s.runners[r].id);
    Unspent(cfg, s, k, done, s.runners[r].id);
  }

  lemma SaveRetryLink(cfg: Config, s: Sys, k: nat, done: nat, r: nat, now: int)
    requires Inv(cfg, s) && k < |s.chains| && InStep(s, k, done) && Enabled(cfg, s, SaveRetry(r, now))
    ensures InStep(Apply(cfg, s, SaveRetry(r, now)), k, done)
  {
    assert LocalOK(cfg, s, r);
    IDsAreBelowNext(s);
    if s.home[s.runners[r].id].chain == k {
      FailedLink(cfg, s, k, done, r);
    }
    LinkKept(cfg, s, Apply(cfg, s, SaveRetry(r, now)), k, done);
  }

  lemma SaveFailedLink(cfg: Config, s: Sys, k: nat, done: nat, r: nat)
    requires Inv(cfg, s) && k < |s.chains| && InStep(s, k, done) && Enabled(cfg, s, SaveFailed(r))
    ensures InStep(Apply(cfg, s, SaveFailed(r)), k, done)
  {
    assert LocalOK(cfg, s, r);
    if s.home[s.runners[r].id].chain == k {
      FailedLink(cfg, s, k, done, r);
    }
    LinkKept(cfg, s, Apply(cfg, s, SaveFailed(r)), k, done);
  }

  lemma NextLink(cfg: Config, s: Sys, k: nat, done: nat, r: nat)
    requires Inv(cfg, s) && k < |s.chains| && InStep(s, k, done) && r < |s.runners|
    ensures Enabled(cfg, s, FindNext(r)) ==> InStep(Apply(cfg, s, FindNext(r)), k, done)
    ensures Enabled(cfg, s, SaveNext(r)) ==> InStep(Apply(cfg, s, SaveNext(r)), k, done)
  {
    assert LocalOK(cfg, s, r);
    if Enabled(cfg, s, FindNext(r)) {
      LinkKept(cfg, s, Apply(cfg, s, FindNext(r)), k, done);
    }
    if Enabled(cfg, s, SaveNext(r)) {
      LinkKept(cfg, s, Apply(cfg, s, SaveNext(r)), k, done);
    }
  }

  lemma OperatorLink(cfg: Config, s: Sys, k: nat, done: nat, o: nat, m: Memory)
    requires k < |s.chains| && InStep(s, k, done) && o < |s.operators|
    ensures InStep(SetOperator(s, o, m), k, done)
  {
    if done != |s.chains[k].won| {
      var id :| AwaitsAt(s, k, id);
      assert AwaitsAt(SetOperator(s, o, m), k, id);
    }
  }

  lemma RenewLink(cfg: Config, s: Sys, k: nat, done: nat, o: nat, now: int)
    requires Inv(cfg, s) && k < |s.chains| && InStep(s, k, done) && Enabled(cfg, s, SaveRenewal(o, now))
    ensures InStep(Apply(cfg, s, SaveRenewal(o, now)), k, done)
  {
    assert OperatorOK(s, o) && s.operators[o].id in s.operators[o].Held();
    IDsAreBelowNext(s);
    LinkKept(cfg, s, Apply(cfg, s, SaveRenewal(o, now)), k, done);
  }

  lemma ClosedLink(cfg: Config, s: Sys, k: nat, done: nat, o: nat, id: nat)
    requires Inv(cfg, s) && k < |s.chains| && InStep(s, k, done) && Enabled(cfg, s, SaveClosed(o, id))
    ensures InStep(Apply(cfg, s, SaveClosed(o, id)), k, done)
  {
    assert OperatorOK(s, o) && id in s.operators[o].Held();
    LinkKept(cfg, s, Apply(cfg, s, SaveClosed(o, id)), k, done);
  }

  lemma AddChainLink(cfg: Config, s: Sys, k: nat, done: nat, jobs: seq<Job>)
    requires Sane(cfg, s) && k < |s.chains| && InStep(s, k, done)
    ensures InStep(AddChain(s, jobs), k, done)
  {
    var s' := AddChain(s, jobs);
    IDsAreBelowNext(s);
    forall id <- s.home ensures s'.home[id] == s.home[id] && s'.table.rows[id] == s.table.rows[id] {
      assert id < s.table.nextID;
    }
    LinkKept(cfg, s, s', k, done);
  }

  /** A purge's write cancels the record whose success awaits saving, or none of the link. */
  lemma CancelLink(cfg: Config, s: Sys, k: nat, done: nat, o: nat)
    requires Inv(cfg, s) && Origins(s) && k < |s.chains| && InStep(s, k, done)
    requires o < |s.operators| && s.operators[o].Purging?
    ensures Linked(CancelCopies(s, s.operators[o].copies), k, done)
  {
    var copies := s.operators[o].copies;
    var s1 := CancelCopies(s, copies);
    if done == |s.chains[k].won| {
      LinkKept(cfg, s, s1, k, done);
    } else {
      var id :| AwaitsAt(s, k, id);
      if id in copies {
        CancelCutsOff(cfg, s, o, id);
      } else {
        assert AwaitsAt(s1, k, id);
      }
    }
  }

  lemma LinkedByPurge(cfg: Config, s: Sys, k: nat, done: nat, o: nat, jobs: seq<Job>)
    requires Sane(cfg, s) && k < |s.chains| && Linked(s, k, done) && o < |s.operators|
    ensures Linked(SetOperator(AddChain(s, jobs), o, Nothing), k, done)
  {
    var s1 := AddChain(s, jobs);
    if InStep(s, k, done) {
      AddChainLink(cfg, s, k, done, jobs);
      OperatorLink(cfg, s1, k, done, o, Nothing);
    } else {
      CutOffByChain(s, jobs, k);
      CutOffByRead(s1, o, Nothing, k);
    }
  }

  lemma PurgeLink(cfg: Config, s: Sys, k: nat, done: nat, o: nat, jobs: seq<Job>)
    requires Inv(cfg, s) && Origins(s) && k < |s.chains| && InStep(s, k, done)
    requires Enabled(cfg, s, SavePurge(o, jobs)) && Safe(cfg, s, SavePurge(o, jobs))
    ensures Linked(Apply(cfg, s, SavePurge(o, jobs)), k, done)
  {
    assert OperatorOK(s, o) && s.operators[o].Held() == s.operators[o].copies;
    CancelKeeps(cfg, s, s.operators[o].copies);
    CancelLink(cfg, s, k, done, o);
    LinkedByPurge(cfg, CancelCopies(s, s.operators[o].copies), k, done, o, jobs);
  }

  /** An event that neither ends a try of one of the chain's jobs nor cancels records leaves the work in step. */
  lemma OtherInStep(cfg: Config, s: Sys, k: nat, done: nat, e: Event)
    requires Inv(cfg, s) && k < |s.chains| && InStep(s, k, done) && Enabled(cfg, s, e)
    requires !e.SavePurge? && !Performs(s, k, e)
    ensures InStep(Apply(cfg, s, e), k, done)
  {
    match e
    case QueueChain(jobs) => AddChainLink(cfg, s, k, done, jobs);
    case Select(r, id, now) => SelectLink(cfg, s, k, done, r, id, now);
    case Take(r, now) => TakeLink(cfg, s, k, done, r, now);
    case Pop(r, id, now) => TakenLink(cfg, s, k, done, r, id, now);
    case Return(r, ok) => OtherReturnLink(cfg, s, k, done, r, ok);
    case SaveSuccess(r, now) => SaveSuccessLink(cfg, s, k, done, r, now);
    case SaveRetry(r, now) => SaveRetryLink(cfg, s, k, done, r, now);
    case SaveFailed(r) => SaveFailedLink(cfg, s, k, done, r);
    case FindNext(r) => NextLink(cfg, s, k, done, r);
    case SaveNext(r) => NextLink(cfg, s, k, done, r);
    case Stop(r) => StopLink(cfg, s, k, done, r);
    case ReadFailed(o, id) => OperatorLink(cfg, s, k, done, o, Requeuing(id, s.table.rows[id]));
    case SaveRenewal(o, now) => RenewLink(cfg, s, k, done, o, now);
    case ReadForUpload(o, issue) => OperatorLink(cfg, s, k, done, o, Closing(FailedJobs(s.table, issue)));
    case SaveClosed(o, id) => ClosedLink(cfg, s, k, done, o, id);
    case ReadForPurge(o, issue, _) => OperatorLink(cfg, s, k, done, o, Purging(Cancellable(s.table, issue)));
    case Leave(o) => OperatorLink(cfg, s, k, done, o, Nothing);
  }

  /** An event that does not end a try of one of the chain's jobs leaves the link as it is. */
  lemma OtherLink(cfg: Config, s: Sys, k: nat, done: nat, e: Event)
    requires Inv(cfg, s) && Origins(s) && k < |s.chains| && Linked(s, k, done)
    requires Enabled(cfg, s, e) && Safe(cfg, s, e) && !Performs(s, k, e)
    ensures Linked(Apply(cfg, s, e), k, done)
  {
    if !InStep(s, k, done) {
      CutOffStays(cfg, s, e, k);
    } else if e.SavePurge? {
      PurgeLink(cfg, s, k, done, e.o, e.jobs);
    } else {
      OtherInStep(cfg, s, k, done, e);
    }
  }

  lemma JobsStay(cfg: Config, s: Sys, e: Event, k: nat)
    requires Inv(cfg, s) && Enabled(cfg, s, e) && k < |s.chains|
    ensures k < |Apply(cfg, s, e).chains| && Apply(cfg, s, e).chains[k].jobs == s.chains[k].jobs
  {
  }

  // ---------------------------------------------------------------- the joint invariant

  lemma OwnLink(cfg: Config, pl: Pipeline, s: Sys, k: nat, done: nat, e: Event)
    requires Inv(cfg, s) && k < |s.chains| && InStep(s, k, done) && IsChain(pl, s.chains[k])
    requires Enabled(cfg, s, e) && Performs(s, k, e)
    ensures k < |Apply(cfg, s, e).chains| && InStep(Apply(cfg, s, e), k, if Succeeds(e) then done + 1 else done)
  {
    match e
    case Return(r, ok) =>
      if ok {
        OwnSuccessLink(cfg, pl, s, k, done, r);
      } else {
        OwnFailureLink(cfg, pl, s, k, done, r);
      }
    case Stop(r) => StopLink(cfg, s, k, done, r);
  }

  /** Every step keeps the link, wherever the directories are. */
  lemma LinkStepKeeps(cfg: Config, pl: Pipeline, k: nat, w: World, e: Event, w': World)
    requires cfg.Sound() && LinkInv(cfg, pl, k, w) && WorldStep(cfg, pl, k, w, e, w')
    ensures LinkInv(cfg, pl, k, w')
    ensures Performs(w.sys, k, e) ==> w.done < |pl.Works()| && w.sys.runners[e.r].copy.work == pl.Works()[w.done]
                                      && w'.done == if Succeeds(e) then w.done + 1 else w.done
  {
    StepKeepsExactly(cfg, w.sys, e);
    StepKeepsOrigins(cfg, w.sys, e);
    JobsStay(cfg, w.sys, e, k);
    if Performs(w.sys, k, e) {
      TryIsAtFrontier(cfg, pl, w.sys, k, w.done, e.r);
      OwnLink(cfg, pl, w.sys, k, w.done, e);
    } else {
      OtherLink(cfg, w.sys, k, w.done, e);
    }
  }

  lemma OwnStageKept(cfg: Config, pl: Pipeline, k: nat, w: World, e: Event, w': World)
    requires pl.Separate() && WorldInv(cfg, pl, k, w) && WorldStep(cfg, pl, k, w, e, w') && Performs(w.sys, k, e)
    ensures StageOf(pl, w'.done, w')
  {
    TryIsAtFrontier(cfg, pl, w.sys, k, w.done, e.r);
    StageStep(pl, w.done, w, w', Succeeds(e));
  }

  /** Every step keeps the joint invariant. */
  lemma WorldStepKeeps(cfg: Config, pl: Pipeline, k: nat, w: World, e: Event, w': World)
    requires cfg.Sound() && pl.Separate() && WorldInv(cfg, pl, k, w) && WorldStep(cfg, pl, k, w, e, w')
    ensures WorldInv(cfg, pl, k, w')
  {
    LinkStepKeeps(cfg, pl, k, w, e, w');
    if Performs(w.sys, k, e) {
      OwnStageKept(cfg, pl, k, w, e, w');
    } else {
      StageElsewhere(pl, w.done, w, w');
    }
  }
}
