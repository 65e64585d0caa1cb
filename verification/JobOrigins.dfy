/** Which record a position of a chain was queued with, and what that tells a purge that cancels it
    (src/models/job.go, src/cmd/purge-dead-issues/main.go). */
module JobOrigins {
  import opened JobModel
  import opened JobProtocol

  /** The record its position was queued with, not a clone of one. */
  ghost predicate Original(s: Sys, id: nat) {
    && id in s.home && s.home[id].chain < |s.chains|
    && var c := s.chains[s.home[id].chain];
    s.home[id].pos < |c.ids| && c.ids[s.home[id].pos] == id
  }

  /** The only record of its position. */
  ghost predicate Sole(s: Sys, id: nat) {
    id in s.home && forall a <- s.home :: s.home[a] == s.home[id] ==> a == id
  }

  predicate Begun(st: Status) {
    st == Pending || st == InProcess
  }

  /** An original that waits for a runner, or is with one, was never cloned. */
  ghost predicate RowFirst(s: Sys, id: nat)
    requires id in s.table.rows
  {
    Original(s, id) && Begun(s.table.rows[id].status) ==> Sole(s, id)
  }

  /** Records remembered as on hold are originals. */
  ghost predicate MemoryFirst(s: Sys, m: Memory) {
    forall id <- m.Held() :: m.Held()[id].status == OnHold ==> Original(s, id)
  }

  ghost predicate Origins(s: Sys) {
    && (forall id {:trigger RowFirst(s, id)} | id in s.table.rows :: RowFirst(s, id))
    && (forall o {:trigger s.operators[o]} | 0 <= o < |s.operators| :: MemoryFirst(s, s.operators[o]))
  }

  lemma StartHasOrigins(cfg: Config)
    ensures Origins(Start(cfg))
  {
  }

  // ---------------------------------------------------------------- events without a new record

  ghost predicate SameHomes(s: Sys, s': Sys) {
    && s'.home == s.home && |s'.chains| == |s.chains|
    && forall k :: 0 <= k < |s.chains| ==> s'.chains[k].ids == s.chains[k].ids
  }

  /** Rows only begin where they are alone. */
  ghost predicate RowsFollow(s: Sys, s': Sys) {
    forall id <- s'.table.rows :: id in s.table.rows &&
      (Begun(s'.table.rows[id].status) ==> Begun(s.table.rows[id].status) || Sole(s, id))
  }

  lemma OriginsFollow(s: Sys, s': Sys)
    requires Origins(s) && SameHomes(s, s') && RowsFollow(s, s') && |s'.operators| == |s.operators|
    requires forall o :: 0 <= o < |s.operators| ==>
        s'.operators[o] == s.operators[o] || MemoryFirst(s, s'.operators[o])
    ensures Origins(s')
  {
    forall id <- s'.table.rows ensures RowFirst(s', id) {
      assert RowFirst(s, id);
    }
    forall o | 0 <= o < |s'.operators| ensures MemoryFirst(s', s'.operators[o]) {
      assert MemoryFirst(s, s.operators[o]);
    }
  }

  lemma TakenOrigins(s: Sys, r: nat, id: nat, copy: Job, now: int)
    requires Origins(s) && r < |s.runners| && id in s.table.rows && s.table.rows[id].status == Pending
    ensures Origins(Taken(s, r, id, copy, now))
  {
    OriginsFollow(s, Taken(s, r, id, copy, now));
  }

  lemma RunnerOrigins(cfg: Config, s: Sys, e: Event)
    requires Sane(cfg, s) && Origins(s) && Enabled(cfg, s, e)
    requires e.Select? || e.Take? || e.Pop? || e.Return? || e.SaveSuccess? || e.SaveFailed? || e.FindNext?
             || e.SaveNext? || e.Stop?
    ensures Origins(Apply(cfg, s, e))
  {
    var r := e.r;
    assert LocalOK(cfg, s, r);
    if e.Take? {
      TakenOrigins(s, r, s.runners[r].id, s.runners[r].copy, e.now);
    } else if e.Pop? {
      TakenOrigins(s, r, e.id, s.table.rows[e.id], e.now);
    } else {
      OriginsFollow(s, Apply(cfg, s, e));
    }
  }

  lemma OnHoldIsOriginal(s: Sys, id: nat)
    requires TableOK(s) && id in s.table.rows && s.table.rows[id].status == OnHold
    ensures Original(s, id)
  {
    assert RowOK(s, id);
  }

  lemma ReadOrigins(s: Sys, o: nat, m: Memory)
    requires Origins(s) && o < |s.operators| && MemoryFirst(s, m)
    ensures Origins(SetOperator(s, o, m))
  {
    OriginsFollow(s, SetOperator(s, o, m));
  }

  lemma ReadForPurgeOrigins(s: Sys, o: nat, issue: nat)
    requires TableOK(s) && Origins(s) && o < |s.operators|
    ensures Origins(SetOperator(s, o, Purging(Cancellable(s.table, issue))))
  {
    var copies := Cancellable(s.table, issue);
    forall id <- copies ensures copies[id].status == OnHold ==> Original(s, id) {
      if copies[id].status == OnHold {
        OnHoldIsOriginal(s, id);
      }
    }
    ReadOrigins(s, o, Purging(copies));
  }

  lemma ClosedOrigins(s: Sys, o: nat, id: nat)
    requires Origins(s) && o < |s.operators| && s.operators[o].Closing? && id in s.operators[o].copies
    requires id in s.table.rows
    ensures var copies := s.operators[o].copies;
            Origins(SetOperator(SetRow(s, id, copies[id].(status := FailedDone)), o, Closing(Forgotten(copies, id))))
  {
    var copies := s.operators[o].copies;
    assert MemoryFirst(s, s.operators[o]);
    OriginsFollow(s, SetOperator(SetRow(s, id, copies[id].(status := FailedDone)), o, Closing(Forgotten(copies, id))));
  }

  lemma CancelOrigins(s: Sys, copies: map<nat, Job>)
    requires Origins(s) && forall id <- copies :: id in s.table.rows
    ensures Origins(CancelCopies(s, copies))
  {
    OriginsFollow(s, CancelCopies(s, copies));
  }

  // ---------------------------------------------------------------- events with new records

  /** The row beside a new clone. */
  lemma ClonedRowFirst(s: Sys, id: nat, copy: Job, clone: Job, a: nat)
    requires TableOK(s) && Origins(s) && id in s.table.rows && Alone(s, id)
    requires a in AddClone(s, id, copy, clone).table.rows
    ensures RowFirst(AddClone(s, id, copy, clone), a)
  {
    var s' := AddClone(s, id, copy, clone);
    IDsAreBelowNext(s);
    assert RowOK(s, id);
    if Original(s', a) && Begun(s'.table.rows[a].status) {
      var at := s'.home[a];
      assert ChainOK(s, at.chain);
      assert a in s.table.rows && a != id;
      assert RowFirst(s, a);
      assert Live(s, a);
    }
  }

  lemma CloneOrigins(s: Sys, id: nat, copy: Job, clone: Job)
    requires TableOK(s) && Origins(s) && id in s.table.rows && Alone(s, id)
    ensures Origins(AddClone(s, id, copy, clone))
  {
    var s' := AddClone(s, id, copy, clone);
    IDsAreBelowNext(s);
    forall a <- s'.table.rows ensures RowFirst(s', a) {
      ClonedRowFirst(s, id, copy, clone, a);
    }
    forall o | 0 <= o < |s'.operators| ensures MemoryFirst(s', s'.operators[o]) {
      assert MemoryFirst(s, s.operators[o]);
    }
  }

  lemma SaveRetryOrigins(cfg: Config, s: Sys, r: nat, now: int)
    requires Sane(cfg, s) && Origins(s) && Enabled(cfg, s, SaveRetry(r, now))
    ensures Origins(Apply(cfg, s, SaveRetry(r, now)))
  {
    var l := s.runners[r];
    assert LocalOK(cfg, s, r);
    assert Live(s, l.id);
    var s1 := AddClone(s, l.id, l.copy, Retried(l.copy, now));
    CloneOrigins(s, l.id, l.copy, Retried(l.copy, now));
    OriginsFollow(s1, SetLocal(s1, r, Idle));
  }

  lemma SaveRenewalOrigins(cfg: Config, s: Sys, o: nat, now: int)
    requires Inv(cfg, s) && Origins(s) && Enabled(cfg, s, SaveRenewal(o, now)) && Safe(cfg, s, SaveRenewal(o, now))
    ensures Origins(Apply(cfg, s, SaveRenewal(o, now)))
  {
    var m := s.operators[o];
    assert OperatorOK(s, o) && m.id in m.Held();
    var s1 := AddClone(s, m.id, m.copy, Renewed(m.copy, now));
    CloneOrigins(s, m.id, m.copy, Renewed(m.copy, now));
    OriginsFollow(s1, CountRenewal(s1, m.id));
    ReadOrigins(CountRenewal(s1, m.id), o, Nothing);
  }

  lemma AddedRowFirst(s: Sys, jobs: seq<Job>, a: nat)
    requires TableOK(s) && Origins(s) && a in AddChain(s, jobs).table.rows
    ensures RowFirst(AddChain(s, jobs), a)
  {
    var s' := AddChain(s, jobs);
    IDsAreBelowNext(s);
    if a in s.table.rows {
      AddedOldRow(s, jobs, a);
      assert RowFirst(s, a) && RowOK(s, a);
    } else {
      forall b <- s.home ensures s'.home[b].chain < |s.chains| {
        assert RowOK(s, b);
        AddedOldRow(s, jobs, b);
      }
    }
  }

  lemma AddChainOrigins(s: Sys, jobs: seq<Job>)
    requires TableOK(s) && Origins(s)
    ensures Origins(AddChain(s, jobs))
  {
    var s' := AddChain(s, jobs);
    forall a <- s'.table.rows ensures RowFirst(s', a) {
      AddedRowFirst(s, jobs, a);
    }
    forall o | 0 <= o < |s'.operators| ensures MemoryFirst(s', s'.operators[o]) {
      assert MemoryFirst(s, s.operators[o]);
      forall id <- s'.operators[o].Held() | s'.operators[o].Held()[id].status == OnHold ensures Original(s', id) {
        IDsAreBelowNext(s);
      }
    }
  }

  lemma SavePurgeOrigins(cfg: Config, s: Sys, o: nat, jobs: seq<Job>)
    requires Inv(cfg, s) && Origins(s) && Enabled(cfg, s, SavePurge(o, jobs)) && Safe(cfg, s, SavePurge(o, jobs))
    ensures Origins(Apply(cfg, s, SavePurge(o, jobs)))
  {
    var copies := s.operators[o].copies;
    var s1 := CancelCopies(s, copies);
    assert OperatorOK(s, o) && s.operators[o].Held() == copies;
    CancelKeeps(cfg, s, copies);
    CancelOrigins(s, copies);
    AddChainOrigins(s1, jobs);
    ReadOrigins(AddChain(s1, jobs), o, Nothing);
  }

  /** Every event whose writes are safe keeps this. */
  lemma StepKeepsOrigins(cfg: Config, s: Sys, e: Event)
    requires Inv(cfg, s) && Origins(s) && Enabled(cfg, s, e) && Safe(cfg, s, e)
    ensures Origins(Apply(cfg, s, e))
  {
    match e
    case QueueChain(jobs) => AddChainOrigins(s, jobs);
    case SaveRetry(r, now) => SaveRetryOrigins(cfg, s, r, now);
    case ReadFailed(o, id) => ReadOrigins(s, o, Requeuing(id, s.table.rows[id]));
    case SaveRenewal(o, now) => SaveRenewalOrigins(cfg, s, o, now);
    case ReadForUpload(o, issue) => ReadOrigins(s, o, Closing(FailedJobs(s.table, issue)));
    case SaveClosed(o, id) =>
      assert OperatorOK(s, o) && id in s.operators[o].Held();
      ClosedOrigins(s, o, id);
    case ReadForPurge(o, issue, _) => ReadForPurgeOrigins(s, o, issue);
    case SavePurge(o, jobs) => SavePurgeOrigins(cfg, s, o, jobs);
    case Leave(o) => ReadOrigins(s, o, Nothing);
    case _ => RunnerOrigins(cfg, s, e);
  }

  /** So it holds at every point of every run in which operators' writes are safe. */
  lemma {:induction false} RunKeepsOrigins(cfg: Config, s: Sys, events: seq<Event>)
    requires cfg.Sound() && Inv(cfg, s) && Origins(s) && Run(cfg, s, events) && Careful(cfg, s, events)
    ensures Inv(cfg, After(cfg, s, events)) && Origins(After(cfg, s, events))
    decreases |events|
  {
    if events != [] {
      StepKeepsExactly(cfg, s, events[0]);
      StepKeepsOrigins(cfg, s, events[0]);
      RunKeepsOrigins(cfg, Apply(cfg, s, events[0]), events[1..]);
    }
  }

  /** In every run from an empty table in which operators' writes are safe, a record that was queued with its chain and
      waits or runs has no clone. */
  lemma BegunOriginalIsSole(cfg: Config, events: seq<Event>, id: nat)
    requires cfg.Sound() && Run(cfg, Start(cfg), events) && Careful(cfg, Start(cfg), events)
    requires var s := After(cfg, Start(cfg), events);
             Original(s, id) && id in s.table.rows && Begun(s.table.rows[id].status)
    ensures Sole(After(cfg, Start(cfg), events), id)
  {
    StartIsInv(cfg);
    StartHasOrigins(cfg);
    RunKeepsOrigins(cfg, Start(cfg), events);
    assert RowFirst(After(cfg, Start(cfg), events), id);
  }

  // ---------------------------------------------------------------- a frontier without a record

  ghost predicate AtFrontier(s: Sys, id: nat, k: nat)
    requires k < |s.chains|
  {
    id in s.home && s.home[id] == Slot(k, |s.chains[k].won|)
  }

  /** Chain k cannot go on: no record of its next position is live, about to be made pending, or read to be requeued. */
  ghost predicate CutOff(s: Sys, k: nat) {
    && k < |s.chains| && |s.chains[k].won| < |s.chains[k].ids|
    && (forall id {:trigger Live(s, id)} | Live(s, id) :: !AtFrontier(s, id, k))
    && (forall r, id :: 0 <= r < |s.runners| && s.runners[r].Activates(id) ==> !AtFrontier(s, id, k))
    && (forall o :: 0 <= o < |s.operators| && s.operators[o].Requeuing? ==> !AtFrontier(s, s.operators[o].id, k))
  }

  /** From s to s', what is at chain k's frontier was there. */
  ghost predicate FrontierKept(s: Sys, s': Sys, k: nat) {
    && k < |s.chains| && k < |s'.chains|
    && s'.chains[k].won == s.chains[k].won && s'.chains[k].ids == s.chains[k].ids
    && |s'.runners| == |s.runners| && |s'.operators| == |s.operators|
    && (forall id <- s'.home :: s'.home[id].chain == k && s'.home[id].pos == |s.chains[k].won| ==>
          id in s.home && s.home[id] == s'.home[id])
  }

  /** It stays cut off, and where it is. */
  ghost predicate StaysCutOff(s: Sys, s': Sys, k: nat) {
    CutOff(s', k) && k < |s.chains| && s'.chains[k].won == s.chains[k].won
  }

  lemma FrontierSame(s: Sys, s': Sys, k: nat, id: nat)
    requires FrontierKept(s, s', k)
    ensures AtFrontier(s', id, k) ==> AtFrontier(s, id, k)
  {
  }

  lemma CutOffFollows(s: Sys, s': Sys, k: nat)
    requires CutOff(s, k) && FrontierKept(s, s', k)
    requires forall id {:trigger Live(s', id)} | Live(s', id) && AtFrontier(s, id, k) :: Live(s, id)
    requires forall r, id :: 0 <= r < |s.runners| && s'.runners[r].Activates(id) ==>
        s.runners[r].Activates(id) || !AtFrontier(s, id, k)
    requires forall o :: 0 <= o < |s.operators| && s'.operators[o].Requeuing? ==>
        s'.operators[o] == s.operators[o] || !AtFrontier(s, s'.operators[o].id, k)
    ensures StaysCutOff(s, s', k)
  {
    forall id: nat ensures AtFrontier(s', id, k) ==> AtFrontier(s, id, k) {
      FrontierSame(s, s', k, id);
    }
  }

  /** A record that waits or runs is at its chain's frontier. */
  lemma BegunIsAtFrontier(s: Sys, id: nat)
    requires TableOK(s) && id in s.table.rows && Begun(s.table.rows[id].status)
    ensures s.home[id].chain < |s.chains| && AtFrontier(s, id, s.home[id].chain) && Live(s, id)
  {
    assert RowOK(s, id);
  }

  /** No runner has a job of a chain that is cut off. */
  lemma CutOffIsIdle(cfg: Config, s: Sys, k: nat, r: nat, id: nat)
    requires Sane(cfg, s) && CutOff(s, k) && r < |s.runners| && s.runners[r].Holds(id)
    ensures id in s.table.rows && s.home[id].chain != k
  {
    assert LocalOK(cfg, s, r);
    BegunIsAtFrontier(s, id);
  }

  /** What a runner has is of another chain, and leads to none of this one. */
  lemma HeldElsewhere(cfg: Config, s: Sys, k: nat, r: nat)
    requires Inv(cfg, s) && CutOff(s, k) && r < |s.runners|
    requires s.runners[r].Selected? || s.runners[r].Working? || s.runners[r].Done?
    ensures var l := s.runners[r];
            && l.id in s.table.rows && s.home[l.id].chain != k
            && (l.copy.queueJobID in s.home ==> s.home[l.copy.queueJobID].chain != k)
  {
    var l := s.runners[r];
    assert l.Holds(l.id);
    CutOffIsIdle(cfg, s, k, r, l.id);
    assert LocalOK(cfg, s, r);
    NextIsInSameChain(s, l.id);
  }

  lemma CutOffBySave(cfg: Config, s: Sys, e: Event, k: nat)
    requires Inv(cfg, s) && CutOff(s, k) && Enabled(cfg, s, e) && (e.SaveSuccess? || e.SaveRetry? || e.SaveFailed?)
    ensures StaysCutOff(s, Apply(cfg, s, e), k)
  {
    HeldElsewhere(cfg, s, k, e.r);
    IDsAreBelowNext(s);
    CutOffFollows(s, Apply(cfg, s, e), k);
  }

  lemma CutOffByTaken(s: Sys, k: nat, r: nat, id: nat, copy: Job, now: int)
    requires TableOK(s) && CutOff(s, k) && r < |s.runners| && id in s.table.rows && s.table.rows[id].status == Pending
    ensures StaysCutOff(s, Taken(s, r, id, copy, now), k)
  {
    BegunIsAtFrontier(s, id);
    CutOffFollows(s, Taken(s, r, id, copy, now), k);
  }

  lemma CutOffByRunner(cfg: Config, s: Sys, e: Event, k: nat)
    requires Inv(cfg, s) && CutOff(s, k) && Enabled(cfg, s, e)
    requires e.Select? || e.Take? || e.Pop? || e.Return? || e.FindNext? || e.SaveNext? || e.Stop?
    ensures StaysCutOff(s, Apply(cfg, s, e), k)
  {
    assert LocalOK(cfg, s, e.r);
    if e.Take? {
      CutOffByTaken(s, k, e.r, s.runners[e.r].id, s.runners[e.r].copy, e.now);
    } else if e.Pop? {
      CutOffByTaken(s, k, e.r, e.id, s.table.rows[e.id], e.now);
    } else {
      CutOffFollows(s, Apply(cfg, s, e), k);
    }
  }

  lemma CutOffByRead(s: Sys, o: nat, m: Memory, k: nat)
    requires CutOff(s, k) && o < |s.operators|
    requires m.Requeuing? ==> m.id in s.table.rows && s.table.rows[m.id].status == Failed
    ensures StaysCutOff(s, SetOperator(s, o, m), k)
  {
    if m.Requeuing? {
      assert m.id in s.home ==> Live(s, m.id);
    }
    CutOffFollows(s, SetOperator(s, o, m), k);
  }

  lemma CutOffByRenewal(cfg: Config, s: Sys, o: nat, now: int, k: nat)
    requires Inv(cfg, s) && CutOff(s, k) && Enabled(cfg, s, SaveRenewal(o, now))
    requires Safe(cfg, s, SaveRenewal(o, now))
    ensures StaysCutOff(s, Apply(cfg, s, SaveRenewal(o, now)), k)
  {
    var m := s.operators[o];
    assert OperatorOK(s, o) && m.id in m.Held();
    IDsAreBelowNext(s);
    CutOffFollows(s, Apply(cfg, s, SaveRenewal(o, now)), k);
  }

  lemma CutOffByClose(s: Sys, copies: map<nat, Job>, k: nat)
    requires CutOff(s, k) && forall id <- copies :: id in s.table.rows
    ensures StaysCutOff(s, CancelCopies(s, copies), k)
  {
    CutOffFollows(s, CancelCopies(s, copies), k);
  }

  lemma CutOffByClosed(s: Sys, o: nat, id: nat, k: nat)
    requires CutOff(s, k) && o < |s.operators| && s.operators[o].Closing? && id in s.operators[o].copies
    ensures var copies := s.operators[o].copies;
            StaysCutOff(s, SetOperator(SetRow(s, id, copies[id].(status := FailedDone)), o,
                Closing(Forgotten(copies, id))), k)
  {
    var copies := s.operators[o].copies;
    CutOffFollows(s, SetOperator(SetRow(s, id, copies[id].(status := FailedDone)), o, Closing(Forgotten(copies, id))),
        k);
  }

  lemma CutOffByChain(s: Sys, jobs: seq<Job>, k: nat)
    requires TableOK(s) && CutOff(s, k)
    ensures StaysCutOff(s, AddChain(s, jobs), k)
  {
    var s' := AddChain(s, jobs);
    IDsAreBelowNext(s);
    forall id <- s.home ensures s'.home[id] == s.home[id] && s'.table.rows[id] == s.table.rows[id] {
      assert id < s.table.nextID;
    }
    CutOffFollows(s, s', k);
  }

  /** A chain that is cut off stays so, and where it is. */
  lemma CutOffStays(cfg: Config, s: Sys, e: Event, k: nat)
    requires Inv(cfg, s) && CutOff(s, k) && Enabled(cfg, s, e) && Safe(cfg, s, e)
    ensures StaysCutOff(s, Apply(cfg, s, e), k)
  {
    match e
    case QueueChain(jobs) => CutOffByChain(s, jobs, k);
    case ReadFailed(o, id) => CutOffByRead(s, o, Requeuing(id, s.table.rows[id]), k);
    case SaveRenewal(o, now) => CutOffByRenewal(cfg, s, o, now, k);
    case ReadForUpload(o, issue) => CutOffByRead(s, o, Closing(FailedJobs(s.table, issue)), k);
    case SaveClosed(o, id) => CutOffByClosed(s, o, id, k);
    case ReadForPurge(o, issue, _) => CutOffByRead(s, o, Purging(Cancellable(s.table, issue)), k);
    case SavePurge(o, jobs) =>
      var copies := s.operators[o].copies;
      assert OperatorOK(s, o) && s.operators[o].Held() == copies;
      CancelKeeps(cfg, s, copies);
      CutOffByClose(s, copies, k);
      CutOffByChain(CancelCopies(s, copies), jobs, k);
      CutOffByRead(AddChain(CancelCopies(s, copies), jobs), o, Nothing, k);
    case Leave(o) => CutOffByRead(s, o, Nothing, k);
    case SaveSuccess(_, _) => CutOffBySave(cfg, s, e, k);
    case SaveRetry(_, _) => CutOffBySave(cfg, s, e, k);
    case SaveFailed(_) => CutOffBySave(cfg, s, e, k);
    case _ => CutOffByRunner(cfg, s, e, k);
  }

  /** Cancelling a record in process that no runner has cuts its chain off: it is the first of its position, so nobody
      has read another to requeue it. */
  lemma CancelCutsOff(cfg: Config, s: Sys, o: nat, id: nat)
    requires Inv(cfg, s) && Origins(s) && o < |s.operators| && s.operators[o].Purging? && id in s.operators[o].copies
    requires id in s.table.rows && s.table.rows[id].status == InProcess
    ensures s.home[id].chain < |s.chains|
    ensures CutOff(CancelCopies(s, s.operators[o].copies), s.home[id].chain)
  {
    var copies := s.operators[o].copies;
    var s', k := CancelCopies(s, copies), s.home[id].chain;
    assert OperatorOK(s, o) && s.operators[o].Held() == copies;
    BegunIsAtFrontier(s, id);
    assert RowOK(s, id) && MemoryFirst(s, s.operators[o]) && RowFirst(s, id);
    assert Sole(s, id);
    forall a | AtFrontier(s', a, k) ensures a == id {
    }
    forall r | 0 <= r < |s.runners| ensures !s'.runners[r].Activates(id) {
      assert LocalOK(cfg, s, r);
    }
    forall p | 0 <= p < |s.operators| && s'.operators[p].Requeuing? ensures s'.operators[p].id != id {
      assert OperatorOK(s, p) && s.operators[p].id in s.operators[p].Held();
    }
  }
}
