/** When retried and requeued jobs may run, under every interleaving (src/models/job.go). */
module JobTimes {
  import opened JobModel
  import opened JobProtocol

  predicate RunnerDue(l: Local, id: nat, due: int) {
    l.Selected? || l.Working? || l.Done? || l.FoundNext? ==> l.id == id ==> l.copy.runAt == due
  }

  predicate OperatorDue(m: Memory, id: nat, due: int) {
    id in m.Held() ==> m.Held()[id].runAt == due
  }

  /** The record is to run from `due` on, and so say all copies of it. */
  ghost predicate DueAt(s: Sys, id: nat, due: int) {
    && id < s.table.nextID && id in s.table.rows && s.table.rows[id].runAt == due
    && (forall r :: 0 <= r < |s.runners| ==> RunnerDue(s.runners[r], id, due))
    && (forall o :: 0 <= o < |s.operators| ==> OperatorDue(s.operators[o], id, due))
  }

  lemma DueStaysByRunner(cfg: Config, s: Sys, e: Event, id: nat, due: int)
    requires |cfg.types| == |s.runners| && Enabled(cfg, s, e) && DueAt(s, id, due)
    requires e.Select? || e.Take? || e.Pop? || e.Return? || e.SaveSuccess? || e.SaveRetry? || e.SaveFailed?
             || e.FindNext? || e.SaveNext? || e.Stop?
    ensures DueAt(Apply(cfg, s, e), id, due)
  {
    assert RunnerDue(s.runners[e.r], id, due);
  }

  lemma DueStaysByOperator(cfg: Config, s: Sys, e: Event, id: nat, due: int)
    requires |cfg.types| == |s.runners| && Enabled(cfg, s, e) && DueAt(s, id, due)
    requires e.ReadFailed? || e.SaveRenewal? || e.ReadForUpload? || e.SaveClosed? || e.ReadForPurge? || e.SavePurge?
             || e.Leave?
    ensures DueAt(Apply(cfg, s, e), id, due)
  {
    assert OperatorDue(s.operators[e.o], id, due);
  }

  /** No write changes when a record may run. */
  lemma DueStays(cfg: Config, s: Sys, e: Event, id: nat, due: int)
    requires |cfg.types| == |s.runners| && Enabled(cfg, s, e) && DueAt(s, id, due)
    ensures DueAt(Apply(cfg, s, e), id, due)
  {
    match e
    case QueueChain(_) =>
    case ReadFailed(_, _) => DueStaysByOperator(cfg, s, e, id, due);
    case SaveRenewal(_, _) => DueStaysByOperator(cfg, s, e, id, due);
    case ReadForUpload(_, _) => DueStaysByOperator(cfg, s, e, id, due);
    case SaveClosed(_, _) => DueStaysByOperator(cfg, s, e, id, due);
    case ReadForPurge(_, _, _) => DueStaysByOperator(cfg, s, e, id, due);
    case SavePurge(_, _) => DueStaysByOperator(cfg, s, e, id, due);
    case Leave(_) => DueStaysByOperator(cfg, s, e, id, due);
    case _ => DueStaysByRunner(cfg, s, e, id, due);
  }

  /** Runner q takes the record, or reads it to take it, at or after the time. */
  predicate TakesLate(e: Event, q: nat, id: nat, due: int) {
    (e.Select? || e.Pop?) && e.r == q && e.id == id && due <= e.now
  }

  lemma HoldsAfterOne(cfg: Config, s: Sys, e: Event, q: nat, id: nat, due: int)
    requires |cfg.types| == |s.runners| && Enabled(cfg, s, e) && DueAt(s, id, due)
    requires q < |Apply(cfg, s, e).runners| && Apply(cfg, s, e).runners[q].Holds(id)
    ensures q < |s.runners| && (s.runners[q].Holds(id) || TakesLate(e, q, id, due))
  {
  }

  /** Whoever has the record by the end of a run took it late enough. */
  lemma {:induction false} HeldLate(cfg: Config, s: Sys, events: seq<Event>, q: nat, id: nat, due: int)
    requires Run(cfg, s, events) && DueAt(s, id, due)
    requires q < |After(cfg, s, events).runners| && After(cfg, s, events).runners[q].Holds(id)
    ensures (q < |s.runners| && s.runners[q].Holds(id))
            || exists n :: 0 <= n < |events| && TakesLate(events[n], q, id, due)
    decreases |events|
  {
    if events != [] {
      var s' := Apply(cfg, s, events[0]);
      DueStays(cfg, s, events[0], id, due);
      HeldLate(cfg, s', events[1..], q, id, due);
      if q < |s'.runners| && s'.runners[q].Holds(id) {
        HoldsAfterOne(cfg, s, events[0], q, id, due);
      } else {
        var n :| 0 <= n < |events[1..]| && TakesLate(events[1..][n], q, id, due);
        assert events[n + 1] == events[1..][n];
      }
    }
  }

  lemma {:induction false} DueAfterRun(cfg: Config, s: Sys, events: seq<Event>, id: nat, due: int)
    requires Run(cfg, s, events) && DueAt(s, id, due)
    ensures DueAt(After(cfg, s, events), id, due)
    decreases |events|
  {
    if events != [] {
      DueStays(cfg, s, events[0], id, due);
      DueAfterRun(cfg, Apply(cfg, s, events[0]), events[1..], id, due);
    }
  }

  /** Nobody remembers a record that is not there yet. */
  lemma NoneHasNext(cfg: Config, s: Sys)
    requires Inv(cfg, s)
    ensures forall r, id :: 0 <= r < |s.runners| && (s.runners[r].Holds(id) || s.runners[r].Activates(id)) ==>
      id != s.table.nextID
    ensures forall o :: 0 <= o < |s.operators| ==> s.table.nextID !in s.operators[o].Held()
  {
    IDsAreBelowNext(s);
    forall r, id | 0 <= r < |s.runners| && (s.runners[r].Holds(id) || s.runners[r].Activates(id))
      ensures id != s.table.nextID
    {
      assert LocalOK(cfg, s, r);
    }
    forall o | 0 <= o < |s.operators| ensures s.table.nextID !in s.operators[o].Held() {
      assert OperatorOK(s, o);
    }
  }

  lemma RetryIsDue(cfg: Config, s: Sys, r: nat, t: int)
    requires Inv(cfg, s) && Enabled(cfg, s, SaveRetry(r, t))
    ensures DueAt(Apply(cfg, s, SaveRetry(r, t)), s.table.nextID, t + Wait(s.runners[r].copy.retryCount))
    ensures forall q :: 0 <= q < |s.runners| ==> !Apply(cfg, s, SaveRetry(r, t)).runners[q].Holds(s.table.nextID)
  {
    var l, s' := s.runners[r], Apply(cfg, s, SaveRetry(r, t));
    assert LocalOK(cfg, s, r) && l.Holds(l.id);
    NoneHasNext(cfg, s);
    DelayIsWait(l.copy.retryCount);
    forall q | 0 <= q < |s.runners| ensures RunnerDue(s'.runners[q], s.table.nextID, t + Wait(l.copy.retryCount)) {
      assert q != r ==> s'.runners[q] == s.runners[q];
      assert s.runners[q].FoundNext? ==> s.runners[q].Activates(s.runners[q].id);
      assert s.runners[q].Selected? || s.runners[q].Working? || s.runners[q].Done? ==>
          s.runners[q].Holds(s.runners[q].id);
    }
  }

  /** After a failed try at time t of a job retried k times, in every run, as long as the new job waits: an idle runner
      of its type can take it, or read it to take it, exactly from 2^(k + 4) seconds after t on, or from a day after. */
  lemma RetryWaitsExactly(cfg: Config, s: Sys, r: nat, t: int, events: seq<Event>, q: nat, now: int)
    requires Inv(cfg, s) && Enabled(cfg, s, SaveRetry(r, t)) && Run(cfg, Apply(cfg, s, SaveRetry(r, t)), events)
    requires var w := After(cfg, Apply(cfg, s, SaveRetry(r, t)), events);
             && |w.runners| == |cfg.types| && q < |w.runners| && w.runners[q].Idle?
             && s.table.nextID in w.table.rows && w.table.rows[s.table.nextID].status == Pending
             && w.table.rows[s.table.nextID].work.Type() in cfg.types[q]
    ensures var w, due := After(cfg, Apply(cfg, s, SaveRetry(r, t)), events), t + Wait(s.runners[r].copy.retryCount);
            && (cfg.atomicPop ==> (Enabled(cfg, w, Pop(q, s.table.nextID, now)) <==> due <= now))
            && (!cfg.atomicPop ==> (Enabled(cfg, w, Select(q, s.table.nextID, now)) <==> due <= now))
  {
    RetryIsDue(cfg, s, r, t);
    DueAfterRun(cfg, Apply(cfg, s, SaveRetry(r, t)), events, s.table.nextID, t + Wait(s.runners[r].copy.retryCount));
  }

  /** So any runner that has the new job, at any point of any run, took it then or later. */
  lemma RetryTakenLate(cfg: Config, s: Sys, r: nat, t: int, events: seq<Event>, q: nat)
    requires Inv(cfg, s) && Enabled(cfg, s, SaveRetry(r, t)) && Run(cfg, Apply(cfg, s, SaveRetry(r, t)), events)
    requires var w := After(cfg, Apply(cfg, s, SaveRetry(r, t)), events);
             q < |w.runners| && w.runners[q].Holds(s.table.nextID)
    ensures exists n :: 0 <= n < |events|
              && TakesLate(events[n], q, s.table.nextID, t + Wait(s.runners[r].copy.retryCount))
  {
    RetryIsDue(cfg, s, r, t);
    HeldLate(cfg, Apply(cfg, s, SaveRetry(r, t)), events, q, s.table.nextID, t + Wait(s.runners[r].copy.retryCount));
  }

  lemma RenewalIsDue(cfg: Config, s: Sys, o: nat, t: int)
    requires Inv(cfg, s) && Enabled(cfg, s, SaveRenewal(o, t))
    ensures DueAt(Apply(cfg, s, SaveRenewal(o, t)), s.table.nextID, t)
    ensures Apply(cfg, s, SaveRenewal(o, t)).table.rows[s.table.nextID].retryCount == 0
  {
    var m, s' := s.operators[o], Apply(cfg, s, SaveRenewal(o, t));
    assert OperatorOK(s, o) && m.id in m.Held();
    NoneHasNext(cfg, s);
    forall q | 0 <= q < |s'.runners| ensures RunnerDue(s'.runners[q], s.table.nextID, t) {
      assert s.runners[q].FoundNext? ==> s.runners[q].Activates(s.runners[q].id);
      assert s.runners[q].Selected? || s.runners[q].Working? || s.runners[q].Done? ==>
          s.runners[q].Holds(s.runners[q].id);
    }
  }

  /** A requeued job has all its retries again, and may be taken from then on. */
  lemma RequeuedWaitsExactly(cfg: Config, s: Sys, o: nat, t: int, events: seq<Event>, q: nat, now: int)
    requires Inv(cfg, s) && Enabled(cfg, s, SaveRenewal(o, t)) && Run(cfg, Apply(cfg, s, SaveRenewal(o, t)), events)
    requires var w := After(cfg, Apply(cfg, s, SaveRenewal(o, t)), events);
             && |w.runners| == |cfg.types| && q < |w.runners| && w.runners[q].Idle?
             && s.table.nextID in w.table.rows && w.table.rows[s.table.nextID].status == Pending
             && w.table.rows[s.table.nextID].work.Type() in cfg.types[q]
    ensures Apply(cfg, s, SaveRenewal(o, t)).table.rows[s.table.nextID].retryCount == 0
    ensures var w := After(cfg, Apply(cfg, s, SaveRenewal(o, t)), events);
            && (cfg.atomicPop ==> (Enabled(cfg, w, Pop(q, s.table.nextID, now)) <==> t <= now))
            && (!cfg.atomicPop ==> (Enabled(cfg, w, Select(q, s.table.nextID, now)) <==> t <= now))
  {
    RenewalIsDue(cfg, s, o, t);
    DueAfterRun(cfg, Apply(cfg, s, SaveRenewal(o, t)), events, s.table.nextID, t);
  }
}
