/** What a purge does to the chains it cancels (src/cmd/purge-dead-issues/main.go). */
module JobPurges {
  import opened JobModel
  import opened JobProtocol

  /** A job of the chain that waits for a runner, is with one, or could be requeued. */
  predicate Pursuable(st: Status) {
    st == Pending || st == InProcess || st == Failed
  }

  ghost predicate InChain(s: Sys, id: nat, k: nat) {
    id in s.home && s.home[id].chain == k
  }

  /** None of the chain's jobs is waiting, running or failed. */
  ghost predicate Still(s: Sys, k: nat) {
    k < |s.chains| && forall id <- s.table.rows :: InChain(s, id, k) ==> !Pursuable(s.table.rows[id].status)
  }

  /** Runner r has a job of the chain, or is about to activate one. */
  ghost predicate Busy(s: Sys, r: nat, k: nat)
    requires r < |s.runners|
  {
    exists id :: InChain(s, id, k) && (s.runners[r].Holds(id) || s.runners[r].Activates(id))
  }

  /** Operator o has read a job of the chain to requeue it. */
  ghost predicate Revives(s: Sys, o: nat, k: nat)
    requires o < |s.operators|
  {
    s.operators[o].Requeuing? && InChain(s, s.operators[o].id, k)
  }

  /** The job's link does not lead into the chain. */
  ghost predicate LinkOut(s: Sys, j: Job, k: nat) {
    !InChain(s, j.queueJobID, k)
  }

  /** A record of another chain, or a copy of one, that does not lead into chain k. */
  ghost predicate Outside(s: Sys, id: nat, copy: Job, k: nat) {
    id in s.table.rows && id in s.home && s.home[id].chain != k && LinkOut(s, copy, k)
  }

  ghost predicate RunnerOutside(s: Sys, r: nat, k: nat)
    requires r < |s.runners|
  {
    match s.runners[r]
    case Idle => true
    case Selected(id, copy) => Outside(s, id, copy, k)
    case Working(id, copy) => Outside(s, id, copy, k)
    case Done(id, copy, _) => Outside(s, id, copy, k)
    case Finished(copy) => LinkOut(s, copy, k)
    case FoundNext(id, copy) => Outside(s, id, copy, k)
  }

  /** An operator's copies are of other chains, or will be saved as closed. */
  ghost predicate OperatorOutside(s: Sys, o: nat, k: nat)
    requires o < |s.operators|
  {
    match s.operators[o]
    case Nothing => true
    case Requeuing(id, copy) => Outside(s, id, copy, k)
    case Closing(copies) => forall id <- copies ::
        id in s.table.rows && (InChain(s, id, k) || Outside(s, id, copies[id], k))
    case Purging(copies) => forall id <- copies ::
        id in s.table.rows && (InChain(s, id, k) || Outside(s, id, copies[id], k))
  }

  ghost predicate RowOutside(s: Sys, id: nat, k: nat)
    requires id in s.table.rows
  {
    InChain(s, id, k) || LinkOut(s, s.table.rows[id], k)
  }

  /** Nothing anywhere leads back into the chain, except from its own records. */
  ghost predicate Sealed(s: Sys, k: nat) {
    && k < |s.chains|
    && 0 < s.table.nextID && s.table.rows.Keys == s.home.Keys
    && (forall id <- s.home :: 0 < id < s.table.nextID)
    && (forall id {:trigger RowOutside(s, id, k)} | id in s.table.rows :: RowOutside(s, id, k))
    && (forall r {:trigger RunnerOutside(s, r, k)} | 0 <= r < |s.runners| :: RunnerOutside(s, r, k))
    && (forall o {:trigger OperatorOutside(s, o, k)} | 0 <= o < |s.operators| :: OperatorOutside(s, o, k))
  }

  ghost predicate Buried(s: Sys, k: nat) {
    Still(s, k) && Sealed(s, k)
  }

  // ---------------------------------------------------------------- no event digs it up

  /** From s to s', ids keep their place, and new ones are not in chain k. */
  ghost predicate HomesGrow(s: Sys, s': Sys, k: nat) {
    && (forall id <- s.home :: id in s'.home && s'.home[id] == s.home[id])
    && (forall id <- s'.home :: id in s.home || s'.home[id].chain != k)
    && (forall id <- s.table.rows :: id in s'.table.rows)
  }

  lemma RunnerStaysOutside(s: Sys, s': Sys, r: nat, k: nat)
    requires r < |s.runners| == |s'.runners| && s'.runners[r] == s.runners[r]
    requires RunnerOutside(s, r, k) && HomesGrow(s, s', k)
    ensures RunnerOutside(s', r, k)
  {
  }

  lemma OperatorStaysOutside(s: Sys, s': Sys, o: nat, k: nat)
    requires o < |s.operators| == |s'.operators| && s'.operators[o] == s.operators[o]
    requires OperatorOutside(s, o, k) && HomesGrow(s, s', k)
    ensures OperatorOutside(s', o, k)
  {
  }

  /** One row is written by a runner, and the runner's memory may change. */
  lemma BuriedByRunner(s: Sys, s': Sys, r: nat, id: nat, k: nat)
    requires Buried(s, k) && r < |s.runners| && id in s.table.rows
    requires s'.home == s.home && s'.operators == s.operators && s'.table.nextID == s.table.nextID
    requires |s'.runners| == |s.runners| && s'.runners == s.runners[r := s'.runners[r]] && |s'.chains| == |s.chains|
    requires id in s'.table.rows && s'.table.rows == s.table.rows[id := s'.table.rows[id]]
    requires s'.table.rows[id] == s.table.rows[id] || Outside(s, id, s'.table.rows[id], k)
    requires RunnerOutside(s', r, k)
    ensures Buried(s', k)
  {
    forall a <- s'.table.rows ensures RowOutside(s', a, k) {
      assert RowOutside(s, a, k);
    }
    forall q | 0 <= q < |s'.runners| ensures RunnerOutside(s', q, k) {
      if q != r {
        RunnerStaysOutside(s, s', q, k);
      }
    }
    forall o | 0 <= o < |s'.operators| ensures OperatorOutside(s', o, k) {
      OperatorStaysOutside(s, s', o, k);
    }
  }

  lemma BuriedByLocal(s: Sys, r: nat, l: Local, k: nat)
    requires Buried(s, k) && r < |s.runners| && RunnerOutside(SetLocal(s, r, l), r, k)
    ensures Buried(SetLocal(s, r, l), k)
  {
    var s' := SetLocal(s, r, l);
    forall a <- s'.table.rows ensures RowOutside(s', a, k) {
      assert RowOutside(s, a, k);
    }
    forall q | 0 <= q < |s'.runners| ensures RunnerOutside(s', q, k) {
      if q != r {
        RunnerStaysOutside(s, s', q, k);
      }
    }
    forall o | 0 <= o < |s'.operators| ensures OperatorOutside(s', o, k) {
      OperatorStaysOutside(s, s', o, k);
    }
  }

  /** A record of another chain is closed and cloned, by runner r when there is one. */
  lemma BuriedByClone(s: Sys, s': Sys, id: nat, copy: Job, clone: Job, k: nat)
    requires Buried(s, k) && Outside(s, id, copy, k) && clone.queueJobID == copy.queueJobID
    requires s'.table == AddClone(s, id, copy, clone).table && s'.home == AddClone(s, id, copy, clone).home
    requires |s'.chains| == |s.chains| && |s'.runners| == |s.runners| && |s'.operators| == |s.operators|
    requires forall q :: 0 <= q < |s.runners| ==> s'.runners[q] == s.runners[q] || s'.runners[q] == Idle
    requires forall o :: 0 <= o < |s.operators| ==> s'.operators[o] == s.operators[o] || s'.operators[o] == Nothing
    ensures Buried(s', k)
  {
    assert HomesGrow(s, s', k);
    forall a <- s'.table.rows ensures RowOutside(s', a, k) {
      if a in s.table.rows {
        assert RowOutside(s, a, k);
      }
    }
    forall q | 0 <= q < |s'.runners| ensures RunnerOutside(s', q, k) {
      if s'.runners[q] != Idle {
        RunnerStaysOutside(s, s', q, k);
      }
    }
    forall o | 0 <= o < |s'.operators| ensures OperatorOutside(s', o, k) {
      if s'.operators[o] != Nothing {
        OperatorStaysOutside(s, s', o, k);
      }
    }
  }

  lemma NewRowLeadsOut(s: Sys, jobs: seq<Job>, id: nat, k: nat)
    requires k < |s.chains| && s.table.nextID <= id < s.table.nextID + |jobs| && AllPrepared(jobs)
    requires 0 < s.table.nextID && forall a <- s.home :: 0 < a < s.table.nextID
    ensures id in AddChain(s, jobs).table.rows && RowOutside(AddChain(s, jobs), id, k)
  {
    var i := |jobs| - 1 - (id - s.table.nextID);
    assert ChainRowAt(jobs, s.table.nextID, id) == ChainRow(jobs, s.table.nextID, i);
  }

  lemma BuriedByChain(s: Sys, jobs: seq<Job>, k: nat)
    requires Buried(s, k) && AllPrepared(jobs)
    ensures Buried(AddChain(s, jobs), k) && AddChain(s, jobs).chains[k] == s.chains[k]
  {
    var s' := AddChain(s, jobs);
    assert HomesGrow(s, s', k);
    forall a <- s'.table.rows ensures RowOutside(s', a, k) {
      if a in s.table.rows {
        assert RowOutside(s, a, k);
      } else {
        NewRowLeadsOut(s, jobs, a, k);
      }
    }
    forall q | 0 <= q < |s'.runners| ensures RunnerOutside(s', q, k) {
      RunnerStaysOutside(s, s', q, k);
    }
    forall o | 0 <= o < |s'.operators| ensures OperatorOutside(s', o, k) {
      OperatorStaysOutside(s, s', o, k);
    }
  }

  /** Closed copies are saved. */
  lemma BuriedByCancel(s: Sys, copies: map<nat, Job>, k: nat)
    requires Sealed(s, k) && Still(CancelCopies(s, copies), k)
    requires forall id <- copies :: id in s.table.rows && (InChain(s, id, k) || Outside(s, id, copies[id], k))
    ensures Buried(CancelCopies(s, copies), k)
  {
    var s' := CancelCopies(s, copies);
    assert HomesGrow(s, s', k);
    forall a <- s'.table.rows ensures RowOutside(s', a, k) {
      assert RowOutside(s, a, k);
    }
    forall q | 0 <= q < |s'.runners| ensures RunnerOutside(s', q, k) {
      RunnerStaysOutside(s, s', q, k);
    }
    forall o | 0 <= o < |s'.operators| ensures OperatorOutside(s', o, k) {
      OperatorStaysOutside(s, s', o, k);
    }
  }

  lemma BuriedByOperator(s: Sys, o: nat, m: Memory, k: nat)
    requires Buried(s, k) && o < |s.operators| && OperatorOutside(SetOperator(s, o, m), o, k)
    ensures Buried(SetOperator(s, o, m), k)
  {
    var s' := SetOperator(s, o, m);
    forall a <- s'.table.rows ensures RowOutside(s', a, k) {
      assert RowOutside(s, a, k);
    }
    forall q | 0 <= q < |s'.runners| ensures RunnerOutside(s', q, k) {
      RunnerStaysOutside(s, s', q, k);
    }
    forall p | 0 <= p < |s'.operators| ensures OperatorOutside(s', p, k) {
      if p != o {
        OperatorStaysOutside(s, s', p, k);
      }
    }
  }

  lemma BuriedByTaken(s: Sys, r: nat, id: nat, copy: Job, now: int, k: nat)
    requires Buried(s, k) && r < |s.runners| && Outside(s, id, copy, k)
    ensures Buried(Taken(s, r, id, copy, now), k) && Taken(s, r, id, copy, now).chains[k] == s.chains[k]
  {
    BuriedByRunner(s, Taken(s, r, id, copy, now), r, id, k);
  }

  /** No event by a runner touches a buried chain. */
  lemma BuriedByRunnerEvent(cfg: Config, s: Sys, e: Event, k: nat)
    requires |cfg.types| == |s.runners| && Buried(s, k) && Enabled(cfg, s, e)
    requires e.QueueChain? || e.Select? || e.Take? || e.Pop? || e.Return? || e.SaveSuccess? || e.SaveRetry?
          || e.SaveFailed?
             || e.FindNext? || e.SaveNext? || e.Stop?
    ensures Buried(Apply(cfg, s, e), k) && Apply(cfg, s, e).chains[k] == s.chains[k]
  {
    var s' := Apply(cfg, s, e);
    match e
    case QueueChain(jobs) => BuriedByChain(s, jobs, k);
    case Select(r, id, _) =>
      assert RowOutside(s, id, k);
      BuriedByLocal(s, r, Selected(id, s.table.rows[id]), k);
    case Take(r, now) =>
      assert RunnerOutside(s, r, k);
      BuriedByTaken(s, r, s.runners[r].id, s.runners[r].copy, now, k);
    case Pop(r, id, now) =>
      assert RowOutside(s, id, k);
      BuriedByTaken(s, r, id, s.table.rows[id], now, k);
    case Return(r, ok) =>
      assert RunnerOutside(s, r, k);
      BuriedByLocal(s, r, Done(s.runners[r].id, s.runners[r].copy, ok), k);
    case SaveSuccess(r, now) =>
      assert RunnerOutside(s, r, k);
      BuriedByRunner(s, s', r, s.runners[r].id, k);
    case SaveRetry(r, now) =>
      assert RunnerOutside(s, r, k);
      BuriedByClone(s, s', s.runners[r].id, s.runners[r].copy, Retried(s.runners[r].copy, now), k);
    case SaveFailed(r) =>
      assert RunnerOutside(s, r, k);
      BuriedByRunner(s, s', r, s.runners[r].id, k);
    case FindNext(r) =>
      assert RunnerOutside(s, r, k);
      var id := s.runners[r].copy.queueJobID;
      if id in s.table.rows {
        assert RowOutside(s, id, k);
      }
      BuriedByLocal(s, r, if id in s.table.rows then FoundNext(id, s.table.rows[id]) else Idle, k);
    case SaveNext(r) =>
      assert RunnerOutside(s, r, k);
      BuriedByRunner(s, s', r, s.runners[r].id, k);
    case Stop(r) => BuriedByLocal(s, r, Idle, k);
  }

  lemma CopiesOutside(s: Sys, copies: map<nat, Job>, k: nat)
    requires Buried(s, k) && forall id <- copies :: id in s.table.rows && copies[id] == s.table.rows[id]
    ensures forall id <- copies :: InChain(s, id, k) || Outside(s, id, copies[id], k)
  {
    forall id <- copies ensures InChain(s, id, k) || Outside(s, id, copies[id], k) {
      assert RowOutside(s, id, k);
    }
  }

  lemma BuriedByClosed(s: Sys, o: nat, id: nat, k: nat)
    requires Buried(s, k) && o < |s.operators| && s.operators[o].Closing? && id in s.operators[o].copies
    ensures var copies := s.operators[o].copies;
            Buried(SetOperator(SetRow(s, id, copies[id].(status := FailedDone)), o, Closing(Forgotten(copies, id))), k)
  {
    var copies := s.operators[o].copies;
    var s1 := SetOperator(s, o, Closing(Forgotten(copies, id)));
    assert OperatorOutside(s, o, k);
    BuriedByOperator(s, o, Closing(Forgotten(copies, id)), k);
    BuriedByCancel(s1, map[id := copies[id]], k);
    OneCancelled(s1, id, copies[id]);
  }

  lemma BuriedByPurge(s: Sys, o: nat, jobs: seq<Job>, k: nat)
    requires Buried(s, k) && o < |s.operators| && s.operators[o].Purging? && AllPrepared(jobs)
    ensures var s' := SetOperator(AddChain(CancelCopies(s, s.operators[o].copies), jobs), o, Nothing);
            Buried(s', k) && s'.chains[k] == s.chains[k]
  {
    var copies := s.operators[o].copies;
    assert OperatorOutside(s, o, k);
    BuriedByCancel(s, copies, k);
    BuriedByChain(CancelCopies(s, copies), jobs, k);
    BuriedByOperator(AddChain(CancelCopies(s, copies), jobs), o, Nothing, k);
  }

  /** No event by an operator touches a buried chain, except to close its records once more. */
  lemma BuriedByRenewal(cfg: Config, s: Sys, o: nat, now: int, k: nat)
    requires |cfg.types| == |s.runners| && Buried(s, k) && Enabled(cfg, s, SaveRenewal(o, now))
    ensures Buried(Apply(cfg, s, SaveRenewal(o, now)), k) && Apply(cfg, s, SaveRenewal(o, now)).chains[k] == s.chains[k]
  {
    assert OperatorOutside(s, o, k);
    var copy := s.operators[o].copy;
    BuriedByClone(s, Apply(cfg, s, SaveRenewal(o, now)), s.operators[o].id, copy, Renewed(copy, now), k);
  }

  lemma BuriedByOperatorEvent(cfg: Config, s: Sys, e: Event, k: nat)
    requires |cfg.types| == |s.runners| && Buried(s, k) && Enabled(cfg, s, e)
    requires e.ReadFailed? || e.SaveRenewal? || e.ReadForUpload? || e.SaveClosed? || e.ReadForPurge? || e.SavePurge?
          || e.Leave?
    ensures Buried(Apply(cfg, s, e), k) && Apply(cfg, s, e).chains[k] == s.chains[k]
  {
    match e
    case ReadFailed(o, id) =>
      assert RowOutside(s, id, k);
      BuriedByOperator(s, o, Requeuing(id, s.table.rows[id]), k);
    case SaveRenewal(o, now) =>
      BuriedByRenewal(cfg, s, o, now, k);
    case ReadForUpload(o, issue) =>
      CopiesOutside(s, FailedJobs(s.table, issue), k);
      BuriedByOperator(s, o, Closing(FailedJobs(s.table, issue)), k);
    case SaveClosed(o, id) => BuriedByClosed(s, o, id, k);
    case ReadForPurge(o, issue, _) =>
      CopiesOutside(s, Cancellable(s.table, issue), k);
      BuriedByOperator(s, o, Purging(Cancellable(s.table, issue)), k);
    case SavePurge(o, jobs) => BuriedByPurge(s, o, jobs, k);
    case Leave(o) => BuriedByOperator(s, o, Nothing, k);
  }

  /** No event whatsoever, stale writes included, touches a buried chain. */
  lemma BuriedStays(cfg: Config, s: Sys, e: Event, k: nat)
    requires |cfg.types| == |s.runners| && Buried(s, k) && Enabled(cfg, s, e)
    ensures Buried(Apply(cfg, s, e), k) && Apply(cfg, s, e).chains[k] == s.chains[k]
  {
    if e.ReadFailed? || e.SaveRenewal? || e.ReadForUpload? || e.SaveClosed? || e.ReadForPurge? || e.SavePurge?
        || e.Leave? {
      BuriedByOperatorEvent(cfg, s, e, k);
    } else {
      BuriedByRunnerEvent(cfg, s, e, k);
    }
  }

  lemma {:induction false} RunLeavesBuried(cfg: Config, s: Sys, events: seq<Event>, k: nat)
    requires Buried(s, k) && Run(cfg, s, events)
    ensures Buried(After(cfg, s, events), k) && After(cfg, s, events).chains[k] == s.chains[k]
    decreases |events|
  {
    if events != [] {
      BuriedStays(cfg, s, events[0], k);
      RunLeavesBuried(cfg, Apply(cfg, s, events[0]), events[1..], k);
    }
  }

  // ---------------------------------------------------------------- when a purge is final

  /** The chain never has a job waiting, running or failed again, and its history stays as it is. */
  ghost predicate NeverMoves(cfg: Config, s: Sys, k: nat) {
    forall events {:trigger Run(cfg, s, events)} | Run(cfg, s, events) ::
      Still(After(cfg, s, events), k) && k < |s.chains| && After(cfg, s, events).chains[k] == s.chains[k]
  }

  /** Every job of the chain that waits, runs or failed is among those cancelled. */
  ghost predicate AllCancelled(s: Sys, copies: map<nat, Job>, k: nat) {
    forall a <- s.table.rows :: InChain(s, a, k) && Pursuable(s.table.rows[a].status) ==> a in copies
  }

  ghost predicate NoneBusy(s: Sys, k: nat) {
    forall r :: 0 <= r < |s.runners| ==> !Busy(s, r, k)
  }

  ghost predicate NoneRevives(s: Sys, k: nat) {
    forall p :: 0 <= p < |s.operators| ==> !Revives(s, p, k)
  }

  lemma InvIsSealed(cfg: Config, s: Sys, k: nat)
    requires Inv(cfg, s) && k < |s.chains| && NoneBusy(s, k) && NoneRevives(s, k)
    ensures Sealed(s, k)
  {
    IDsAreBelowNext(s);
    forall id <- s.table.rows ensures RowOutside(s, id, k) {
      NextIsInSameChain(s, id);
    }
    forall r | 0 <= r < |s.runners| ensures RunnerOutside(s, r, k) {
      RunnerIsOutside(cfg, s, r, k);
    }
    forall o | 0 <= o < |s.operators| ensures OperatorOutside(s, o, k) {
      OperatorIsOutside(s, o, k);
    }
  }

  lemma RunnerIsOutside(cfg: Config, s: Sys, r: nat, k: nat)
    requires Sane(cfg, s) && r < |s.runners| && !Busy(s, r, k)
    ensures RunnerOutside(s, r, k)
  {
    assert LocalOK(cfg, s, r);
    match s.runners[r]
    case Idle =>
    case Selected(id, _) =>
      assert s.runners[r].Holds(id);
      NextIsInSameChain(s, id);
    case Working(id, _) =>
      assert s.runners[r].Holds(id);
      NextIsInSameChain(s, id);
    case Done(id, _, _) =>
      assert s.runners[r].Holds(id);
      NextIsInSameChain(s, id);
    case Finished(copy) => assert s.runners[r].Activates(copy.queueJobID);
    case FoundNext(id, _) =>
      assert s.runners[r].Activates(id);
      NextIsInSameChain(s, id);
  }

  lemma CopyIsOutside(s: Sys, id: nat, copy: Job, k: nat)
    requires TableOK(s) && CopyOK(s, id, copy)
    ensures InChain(s, id, k) || Outside(s, id, copy, k)
  {
    NextIsInSameChain(s, id);
  }

  lemma OperatorIsOutside(s: Sys, o: nat, k: nat)
    requires TableOK(s) && o < |s.operators| && OperatorOK(s, o) && !Revives(s, o, k)
    ensures OperatorOutside(s, o, k)
  {
    var held := s.operators[o].Held();
    forall id <- held ensures id in s.table.rows && (InChain(s, id, k) || Outside(s, id, held[id], k)) {
      CopyIsOutside(s, id, held[id], k);
    }
    if s.operators[o].Requeuing? {
      assert s.operators[o].id in held;
    }
  }

  /** The state after a purge's write. */
  function Purged(s: Sys, o: nat, jobs: seq<Job>): Sys
    requires o < |s.operators| && s.operators[o].Purging?
  {
    SetOperator(AddChain(CancelCopies(s, s.operators[o].copies), jobs), o, Nothing)
  }

  lemma PurgedIsBuried(cfg: Config, s: Sys, o: nat, jobs: seq<Job>, k: nat)
    requires Inv(cfg, s) && Enabled(cfg, s, SavePurge(o, jobs)) && k < |s.chains|
    requires AllCancelled(s, s.operators[o].copies, k) && NoneBusy(s, k) && NoneRevives(s, k)
    ensures Buried(Purged(s, o, jobs), k)
  {
    var copies := s.operators[o].copies;
    InvIsSealed(cfg, s, k);
    assert OperatorOutside(s, o, k);
    BuriedByCancel(s, copies, k);
    BuriedByChain(CancelCopies(s, copies), jobs, k);
    BuriedByOperator(AddChain(CancelCopies(s, copies), jobs), o, Nothing, k);
  }

  /** What the write leaves as it was. */
  lemma PurgedKeeps(s: Sys, o: nat, jobs: seq<Job>)
    requires TableOK(s) && o < |s.operators| && s.operators[o].Purging?
    requires forall id <- s.operators[o].copies :: id in s.table.rows
    ensures var s' := Purged(s, o, jobs);
            && s'.runners == s.runners && |s'.operators| == |s.operators| && |s.chains| <= |s'.chains|
            && (forall p :: 0 <= p < |s.operators| && p != o ==> s'.operators[p] == s.operators[p])
            && (forall id <- s.table.rows :: id in s'.table.rows && id in s'.home && s'.home[id] == s.home[id])
            && (forall id <- s.table.rows :: id !in s.operators[o].copies ==> s'.table.rows[id] == s.table.rows[id])
  {
    IDsAreBelowNext(s);
    var s1 := CancelCopies(s, s.operators[o].copies);
    forall id <- s.table.rows
      ensures AddChain(s1, jobs).table.rows[id] == s1.table.rows[id] && AddChain(s1, jobs).home[id] == s.home[id]
    {
      assert id < s.table.nextID;
    }
  }

  lemma OneStepMoves(cfg: Config, s: Sys, e: Event, k: nat)
    requires |cfg.types| == |s.runners| && Enabled(cfg, s, e)
    requires |cfg.types| == |Apply(cfg, s, e).runners|
    requires !Still(Apply(cfg, s, e), k) || k >= |s.chains| || Apply(cfg, s, e).chains[k] != s.chains[k]
    ensures !NeverMoves(cfg, s, k)
  {
    RunStep(cfg, s, e, []);
    assert Run(cfg, s, [e] + []);
  }

  lemma TwoStepsMove(cfg: Config, s: Sys, e: Event, f: Event, k: nat)
    requires |cfg.types| == |s.runners| && Enabled(cfg, s, e)
    requires |cfg.types| == |Apply(cfg, s, e).runners| && Enabled(cfg, Apply(cfg, s, e), f)
    requires var s' := Apply(cfg, Apply(cfg, s, e), f);
             |cfg.types| == |s'.runners| && (!Still(s', k)
                 || (k < |s'.chains| && (k >= |s.chains| || s'.chains[k] != s.chains[k])))
    ensures !NeverMoves(cfg, s, k)
  {
    var s1 := Apply(cfg, s, e);
    RunStep(cfg, s1, f, []);
    RunStep(cfg, s, e, [f] + []);
    assert Run(cfg, s, [e] + ([f] + []));
  }

  /** A runner with a record of the chain moves it. */
  lemma HolderMoves(cfg: Config, s: Sys, r: nat, id: nat, k: nat)
    requires |cfg.types| == |s.runners| && r < |s.runners| && s.runners[r].Holds(id) && InChain(s, id, k)
          && k < |s.chains|
    requires id < s.table.nextID
    ensures !NeverMoves(cfg, s, k)
  {
    var l := s.runners[r];
    match l
    case Selected(_, copy) =>
      var s' := Apply(cfg, s, Take(r, 0));
      assert id in s'.table.rows && s'.table.rows[id].status == InProcess && InChain(s', id, k);
      OneStepMoves(cfg, s, Take(r, 0), k);
    case Working(_, copy) =>
      var s' := Apply(cfg, Apply(cfg, s, Return(r, true)), SaveSuccess(r, 0));
      assert |s'.chains[k].won| == |s.chains[k].won| + 1;
      TwoStepsMove(cfg, s, Return(r, true), SaveSuccess(r, 0), k);
    case Done(_, copy, ok) =>
      if ok {
        assert |Apply(cfg, s, SaveSuccess(r, 0)).chains[k].won| == |s.chains[k].won| + 1;
        OneStepMoves(cfg, s, SaveSuccess(r, 0), k);
      } else if copy.retryCount < MAX_RETRIES {
        var s' := Apply(cfg, s, SaveRetry(r, 0));
        assert s'.table.rows[s.table.nextID].status == Pending && InChain(s', s.table.nextID, k);
        OneStepMoves(cfg, s, SaveRetry(r, 0), k);
      } else {
        var s' := Apply(cfg, s, SaveFailed(r));
        assert id in s'.table.rows && s'.table.rows[id].status == Failed && InChain(s', id, k);
        OneStepMoves(cfg, s, SaveFailed(r), k);
      }
  }

  /** A runner about to activate a record of the chain moves it. */
  lemma ActivatorMoves(cfg: Config, s: Sys, r: nat, id: nat, k: nat)
    requires |cfg.types| == |s.runners| && r < |s.runners| && s.runners[r].Activates(id) && InChain(s, id, k)
    requires id in s.table.rows && k < |s.chains|
    ensures !NeverMoves(cfg, s, k)
  {
    if s.runners[r].Finished? {
      var s' := Apply(cfg, Apply(cfg, s, FindNext(r)), SaveNext(r));
      assert id in s'.table.rows && s'.table.rows[id].status == Pending && InChain(s', id, k);
      TwoStepsMove(cfg, s, FindNext(r), SaveNext(r), k);
    } else {
      var s' := Apply(cfg, s, SaveNext(r));
      assert id in s'.table.rows && s'.table.rows[id].status == Pending && InChain(s', id, k);
      OneStepMoves(cfg, s, SaveNext(r), k);
    }
  }

  /** A requeue that has read a record of the chain moves it. */
  lemma ReviverMoves(cfg: Config, s: Sys, p: nat, k: nat)
    requires |cfg.types| == |s.runners| && p < |s.operators| && Revives(s, p, k) && s.operators[p].id < s.table.nextID
    ensures !NeverMoves(cfg, s, k)
  {
    var s' := Apply(cfg, s, SaveRenewal(p, 0));
    assert s'.table.rows[s.table.nextID].status == Pending && InChain(s', s.table.nextID, k);
    OneStepMoves(cfg, s, SaveRenewal(p, 0), k);
  }

  lemma NotStillMoves(cfg: Config, s: Sys, k: nat)
    requires |cfg.types| == |s.runners| && !Still(s, k)
    ensures !NeverMoves(cfg, s, k)
  {
    assert Run(cfg, s, []);
  }

  lemma FinalMeansCancelled(cfg: Config, s: Sys, o: nat, jobs: seq<Job>, k: nat)
    requires Inv(cfg, s) && Enabled(cfg, s, SavePurge(o, jobs)) && k < |s.chains|
          && NeverMoves(cfg, Purged(s, o, jobs), k)
    ensures AllCancelled(s, s.operators[o].copies, k)
  {
    var copies, s' := s.operators[o].copies, Purged(s, o, jobs);
    assert OperatorOK(s, o) && s.operators[o].Held() == copies;
    PurgedKeeps(s, o, jobs);
    forall a <- s.table.rows | InChain(s, a, k) && Pursuable(s.table.rows[a].status) ensures a in copies {
      if a !in copies {
        assert s'.table.rows[a] == s.table.rows[a] && InChain(s', a, k);
        NotStillMoves(cfg, s', k);
      }
    }
  }

  lemma FinalMeansIdle(cfg: Config, s: Sys, o: nat, jobs: seq<Job>, k: nat, r: nat, id: nat)
    requires Inv(cfg, s) && Enabled(cfg, s, SavePurge(o, jobs)) && k < |s.chains| && r < |s.runners|
    requires InChain(s, id, k) && (s.runners[r].Holds(id) || s.runners[r].Activates(id))
    ensures !NeverMoves(cfg, Purged(s, o, jobs), k)
  {
    var s' := Purged(s, o, jobs);
    assert OperatorOK(s, o) && s.operators[o].Held() == s.operators[o].copies;
    PurgedKeeps(s, o, jobs);
    IDsAreBelowNext(s);
    assert InChain(s', id, k);
    if s.runners[r].Holds(id) {
      HolderMoves(cfg, s', r, id, k);
    } else {
      ActivatorMoves(cfg, s', r, id, k);
    }
  }

  lemma StillRevives(s: Sys, o: nat, jobs: seq<Job>, k: nat, p: nat)
    requires TableOK(s) && o < |s.operators| && s.operators[o].Purging? && forall id <- s.operators[o].copies ::
          id in s.table.rows
    requires p < |s.operators| && Revives(s, p, k) && s.operators[p].id in s.table.rows
    ensures var s' := Purged(s, o, jobs); Revives(s', p, k) && s'.operators[p].id < s'.table.nextID
  {
    PurgedKeeps(s, o, jobs);
    IDsAreBelowNext(s);
  }

  lemma FinalMeansUnread(cfg: Config, s: Sys, o: nat, jobs: seq<Job>, k: nat, p: nat)
    requires Inv(cfg, s) && Enabled(cfg, s, SavePurge(o, jobs)) && k < |s.chains| && p < |s.operators|
          && Revives(s, p, k)
    ensures !NeverMoves(cfg, Purged(s, o, jobs), k)
  {
    assert OperatorOK(s, o) && s.operators[o].Held() == s.operators[o].copies;
    assert OperatorOK(s, p) && s.operators[p].id in s.operators[p].Held();
    StillRevives(s, o, jobs, k, p);
    ReviverMoves(cfg, Purged(s, o, jobs), p, k);
  }

  lemma BuriedNeverMoves(cfg: Config, s: Sys, k: nat)
    requires Buried(s, k)
    ensures NeverMoves(cfg, s, k)
  {
    forall events | Run(cfg, s, events)
      ensures Still(After(cfg, s, events), k) && k < |s.chains| && After(cfg, s, events).chains[k] == s.chains[k]
    {
      RunLeavesBuried(cfg, s, events, k);
    }
  }

  /** After a purge's write no job of a chain is ever pursued again, whatever runners and operators do, exactly when
      every job of it that waited, ran or had failed was cancelled by it, no runner had or was about to activate a job
      of it, and no operator had read one of its jobs to requeue it. */
  lemma PurgeIsFinalExactly(cfg: Config, s: Sys, o: nat, jobs: seq<Job>, k: nat)
    requires Inv(cfg, s) && Enabled(cfg, s, SavePurge(o, jobs)) && k < |s.chains|
    ensures NeverMoves(cfg, Apply(cfg, s, SavePurge(o, jobs)), k)
       <==> AllCancelled(s, s.operators[o].copies, k) && NoneBusy(s, k) && NoneRevives(s, k)
  {
    var s' := Purged(s, o, jobs);
    if NeverMoves(cfg, s', k) {
      FinalMeansCancelled(cfg, s, o, jobs, k);
      forall r | 0 <= r < |s.runners| ensures !Busy(s, r, k) {
        if Busy(s, r, k) {
          var id :| InChain(s, id, k) && (s.runners[r].Holds(id) || s.runners[r].Activates(id));
          FinalMeansIdle(cfg, s, o, jobs, k, r, id);
        }
      }
      forall p | 0 <= p < |s.operators| ensures !Revives(s, p, k) {
        if Revives(s, p, k) {
          FinalMeansUnread(cfg, s, o, jobs, k, p);
        }
      }
    }
    if AllCancelled(s, s.operators[o].copies, k) && NoneBusy(s, k) && NoneRevives(s, k) {
      PurgedIsBuried(cfg, s, o, jobs, k);
      BuriedNeverMoves(cfg, s', k);
    }
  }

  /** A failed record that has not been requeued is all there is to cancel in its chain. */
  lemma FailedIsAll(cfg: Config, s: Sys, id: nat)
    requires Inv(cfg, s) && id in s.table.rows && s.table.rows[id].status == Failed
    ensures forall a <- s.table.rows :: InChain(s, a, s.home[id].chain) && Pursuable(s.table.rows[a].status) ==> a == id
    ensures NoneBusy(s, s.home[id].chain)
  {
    var k := s.home[id].chain;
    assert RowOK(s, id) && Live(s, id);
    forall a <- s.table.rows | InChain(s, a, k) && Pursuable(s.table.rows[a].status) ensures a == id {
      assert RowOK(s, a) && Live(s, a);
    }
    forall r, a | 0 <= r < |s.runners| && InChain(s, a, k)
      ensures !s.runners[r].Holds(a) && !s.runners[r].Activates(a)
    {
      assert LocalOK(cfg, s, r);
      NotActivated(cfg, s, id, r);
    }
  }

  /** A purge that cancels the failed record of a chain before anybody requeues it is final exactly when no operator has
      read a record of the chain to requeue it. */
  lemma PurgeIsFinal(cfg: Config, s: Sys, o: nat, jobs: seq<Job>, id: nat)
    requires Inv(cfg, s) && Enabled(cfg, s, SavePurge(o, jobs)) && id in s.operators[o].copies
    requires id in s.table.rows && s.table.rows[id].status == Failed
    ensures NeverMoves(cfg, Apply(cfg, s, SavePurge(o, jobs)), s.home[id].chain) <==> NoneRevives(s, s.home[id].chain)
  {
    assert RowOK(s, id);
    FailedIsAll(cfg, s, id);
    PurgeIsFinalExactly(cfg, s, o, jobs, s.home[id].chain);
  }

  /** An issue all of whose jobs still to be pursued are in the chain of a failed record can be purged exactly when it
      is not in a batch and the failed record is tied to it: directory jobs are not. */
  lemma PurgeableExactly(cfg: Config, s: Sys, issue: nat, batch: nat, id: nat)
    requires Inv(cfg, s) && id in s.table.rows && s.table.rows[id].status == Failed
    requires forall a <- s.table.rows ::
      OfIssue(s.table.rows[a], issue) && Pursuable(s.table.rows[a].status) ==> s.home[a].chain == s.home[id].chain
    ensures Purgeable(s.table, issue, batch) <==> batch == 0 && OfIssue(s.table.rows[id], issue)
  {
    FailedIsAll(cfg, s, id);
    forall a <- s.table.rows | OfIssue(s.table.rows[a], issue) && Pursuable(s.table.rows[a].status) ensures a == id {
      assert InChain(s, a, s.home[id].chain);
    }
  }
}
