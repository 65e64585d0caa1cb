/** What holds in every run of the job queue in which operators do not write over what has changed since they read it
    (src/jobs/runner.go, src/models/job.go, src/cmd/run-jobs/main.go). */
module JobGuarantees {
  import opened JobModel
  import opened JobProtocol

  // ---------------------------------------------------------------- what every run guarantees

  predicate Begun(st: Status) {
    st == Pending || st == InProcess || st == Failed || st == Successful
  }

  /** Exactly one record of this position succeeded; all its others are closed. */
  ghost predicate WonAt(s: Sys, at: Slot)
    requires s.table.rows.Keys == s.home.Keys
  {
    exists w <- s.table.rows ::
      && s.home[w] == at
      && s.table.rows[w].status == Successful
      && forall a <- s.table.rows :: s.home[a] == at && a != w ==> s.table.rows[a].status == FailedDone
  }

  /** Before position f every job succeeded once; at f at most one record is not closed and none succeeded;
      after f there is only the record queued at the start, on hold or cancelled. */
  ghost predicate FrontierAt(s: Sys, k: nat, f: nat)
    requires k < |s.chains| && s.table.rows.Keys == s.home.Keys
  {
    var c := s.chains[k];
    && f <= |c.ids|
    && (forall p :: 0 <= p < f ==> WonAt(s, Slot(k, p)))
    && (forall a, b :: a in s.table.rows && b in s.table.rows && s.home[a] == s.home[b] == Slot(k, f) && a != b ==>
          s.table.rows[a].status == FailedDone || s.table.rows[b].status == FailedDone)
    && (forall a <- s.table.rows :: s.home[a] == Slot(k, f) ==> s.table.rows[a].status != Successful)
    && (forall a <- s.table.rows :: s.home[a].chain == k && s.home[a].pos > f ==>
          s.home[a].pos < |c.ids| && a == c.ids[s.home[a].pos]
              && (s.table.rows[a].status == OnHold || s.table.rows[a].status == FailedDone))
  }

  lemma InvGivesFrontier(cfg: Config, s: Sys, k: nat)
    requires Inv(cfg, s) && k < |s.chains|
    ensures FrontierAt(s, k, |s.chains[k].won|)
  {
    var c := s.chains[k];
    assert ChainOK(s, k);
    forall p | 0 <= p < |c.won| ensures WonAt(s, Slot(k, p)) {
      assert s.home[c.won[p]] == Slot(k, p);
    }
    forall a <- s.table.rows | s.home[a].chain == k && s.home[a].pos >= |c.won|
      ensures s.home[a].pos == |c.won| ==> s.table.rows[a].status != Successful
      ensures s.home[a].pos > |c.won| ==>
        s.home[a].pos < |c.ids| && a == c.ids[s.home[a].pos]
            && (s.table.rows[a].status == OnHold || s.table.rows[a].status == FailedDone)
    {
      assert RowOK(s, a);
    }
  }

  /** Under every interleaving, every chain has a frontier. */
  lemma SerialExecution(cfg: Config, events: seq<Event>, k: nat)
    requires cfg.Sound() && Run(cfg, Start(cfg), events) && Careful(cfg, Start(cfg), events)
    requires k < |After(cfg, Start(cfg), events).chains|
    ensures var s := After(cfg, Start(cfg), events);
            s.table.rows.Keys == s.home.Keys && FrontierAt(s, k, |s.chains[k].won|)
  {
    StartIsInv(cfg);
    RunKeeps(cfg, Start(cfg), events);
    InvGivesFrontier(cfg, After(cfg, Start(cfg), events), k);
  }

  /** The runners and operators of watchall. */
  function WatchAll(operators: nat): Config {
    Config(WATCH_ALL, false, operators)
  }

  /** The four runners of watchall need no transaction around a pop: their job types do not overlap. */
  lemma WatchAllIsSerial(operators: nat, events: seq<Event>, k: nat)
    requires var cfg := WatchAll(operators); Run(cfg, Start(cfg), events) && Careful(cfg, Start(cfg), events)
    requires var cfg := WatchAll(operators); k < |After(cfg, Start(cfg), events).chains|
    ensures var cfg := WatchAll(operators);
            var s := After(cfg, Start(cfg), events);
            s.table.rows.Keys == s.home.Keys && FrontierAt(s, k, |s.chains[k].won|)
  {
    WatchAllCoversEveryTypeOnce(TSyncDir);
    SerialExecution(WatchAll(operators), events, k);
  }

  /** Under every interleaving, no job is begun before all its predecessors succeeded. */
  lemma NoEarlyStart(cfg: Config, events: seq<Event>, id: nat, p: nat)
    requires cfg.Sound() && Run(cfg, Start(cfg), events) && Careful(cfg, Start(cfg), events)
    requires var s := After(cfg, Start(cfg), events);
             id in s.table.rows && id in s.home && Begun(s.table.rows[id].status) && p < s.home[id].pos
    ensures var s := After(cfg, Start(cfg), events);
            s.table.rows.Keys == s.home.Keys && WonAt(s, Slot(s.home[id].chain, p))
  {
    StartIsInv(cfg);
    RunKeeps(cfg, Start(cfg), events);
    var s := After(cfg, Start(cfg), events);
    assert RowOK(s, id);
    InvGivesFrontier(cfg, s, s.home[id].chain);
  }

  /** Under every interleaving, no two runners are on the same record, and a runner's copy is the row it will
      overwrite. */
  lemma RunnersAreExclusive(cfg: Config, events: seq<Event>, a: nat, b: nat, id: nat)
    requires cfg.Sound() && Run(cfg, Start(cfg), events) && Careful(cfg, Start(cfg), events)
    requires var s := After(cfg, Start(cfg), events);
             a < b < |s.runners| && s.runners[a].Holds(id)
    ensures var s := After(cfg, Start(cfg), events);
            !s.runners[b].Holds(id) && id in s.table.rows && s.runners[a].copy == s.table.rows[id]
  {
    StartIsInv(cfg);
    RunKeeps(cfg, Start(cfg), events);
    assert LocalOK(cfg, After(cfg, Start(cfg), events), a);
  }

  /** When pops are not transactions, two runners that share any job type can be on one record at once. */
  lemma SharedTypeRunsTwice(cfg: Config, a: nat, b: nat, work: Work)
    requires !cfg.atomicPop && a < b < |cfg.types| && work.Type() in cfg.types[a] && work.Type() in cfg.types[b]
    ensures var events := [QueueChain([NewJob(work, 0)]), Select(a, 1, 0), Select(b, 1, 0), Take(a, 0), Take(b, 0)];
            && Run(cfg, Start(cfg), events)
            && var s := After(cfg, Start(cfg), events);
            && |s.runners| == |cfg.types|
            && s.runners[a].Holds(1)
            && s.runners[b].Holds(1)
  {
    var jobs := [NewJob(work, 0)];
    var s0 := Start(cfg);
    var s1 := Apply(cfg, s0, QueueChain(jobs));
    assert s1.table.rows[1] == jobs[0] by {
      assert ChainRowAt(jobs, 1, 1) == jobs[0];
    }
    var s2 := SetLocal(s1, a, Selected(1, jobs[0]));
    var s3 := SetLocal(s2, b, Selected(1, jobs[0]));
    assert Enabled(cfg, s3, Take(a, 0));
    var s4 := Apply(cfg, s3, Take(a, 0));
    assert s4.runners[b] == Selected(1, jobs[0]);
    var s5 := Apply(cfg, s4, Take(b, 0));
    var e4 := [Take(b, 0)];
    var e3 := [Take(a, 0)] + e4;
    var e2 := [Select(b, 1, 0)] + e3;
    var e1 := [Select(a, 1, 0)] + e2;
    var events := [QueueChain(jobs)] + e1;
    assert e4 == [Take(b, 0)] + [];
    RunStep(cfg, s4, Take(b, 0), []);
    RunStep(cfg, s3, Take(a, 0), e4);
    RunStep(cfg, s2, Select(b, 1, 0), e3);
    RunStep(cfg, s1, Select(a, 1, 0), e2);
    RunStep(cfg, s0, QueueChain(jobs), e1);
    assert events == [QueueChain(jobs), Select(a, 1, 0), Select(b, 1, 0), Take(a, 0), Take(b, 0)];
    assert After(cfg, s0, events) == s5;
  }

  /** A requeue's write, however long after its read, leaves one live record at the job's position exactly when no
      record other than the one it read is live there. */
  lemma StaleRequeueExactly(cfg: Config, s: Sys, o: nat, now: int)
    requires Inv(cfg, s) && Enabled(cfg, s, SaveRenewal(o, now))
    ensures OneLive(Apply(cfg, s, SaveRenewal(o, now)))
       <==> forall a :: Live(s, a) && s.operators[o].id in s.home && s.home[a] == s.home[s.operators[o].id] ==>
           a == s.operators[o].id
    ensures Inv(cfg, Apply(cfg, s, SaveRenewal(o, now))) <==> OneLive(Apply(cfg, s, SaveRenewal(o, now)))
  {
    var m := s.operators[o];
    var s' := Apply(cfg, s, SaveRenewal(o, now));
    assert OperatorOK(s, o) && m.id in m.Held();
    assert CopyOK(s, m.id, m.copy);
    StepKeepsRenewal(cfg, s, o, now);
    if !Alone(s, m.id) {
      var a :| Live(s, a) && s.home[a] == s.home[m.id] && a != m.id;
      IDsAreBelowNext(s);
      assert Live(s', a) && Live(s', s.table.nextID) && s'.home[a] == s'.home[s.table.nextID];
    }
  }

  lemma StepKeepsRenewal(cfg: Config, s: Sys, o: nat, now: int)
    requires Inv(cfg, s) && Enabled(cfg, s, SaveRenewal(o, now))
    ensures Inv(cfg, Apply(cfg, s, SaveRenewal(o, now))) <==> Safe(cfg, s, SaveRenewal(o, now))
  {
    RenewalStep(cfg, s, o, now);
  }

  /** Two operators who both read a failed record: after the first write, the second would make two live records. */
  lemma SecondRequeueDoubles(cfg: Config, s: Sys, o: nat, p: nat, now: int, later: int)
    requires Inv(cfg, s) && Enabled(cfg, s, SaveRenewal(o, now)) && Enabled(cfg, s, SaveRenewal(p, later))
    requires o != p && s.operators[o].id == s.operators[p].id && Safe(cfg, s, SaveRenewal(o, now))
    ensures var s1 := Apply(cfg, s, SaveRenewal(o, now));
            && Inv(cfg, s1) && Enabled(cfg, s1, SaveRenewal(p, later))
            && !OneLive(Apply(cfg, s1, SaveRenewal(p, later)))
  {
    var id := s.operators[o].id;
    var s1 := Apply(cfg, s, SaveRenewal(o, now));
    assert OperatorOK(s, o) && id in s.operators[o].Held();
    assert CopyOK(s, id, s.operators[o].copy);
    RenewalStep(cfg, s, o, now);
    IDsAreBelowNext(s);
    assert Live(s1, s.table.nextID) && s1.home[s.table.nextID] == s1.home[id];
    StaleRequeueExactly(cfg, s1, p, later);
  }

  /** The events from saving a success to activating the next job. */
  function SuccessEvents(s: Sys, r: nat, now: int): seq<Event>
    requires r < |s.runners| && s.runners[r].Done?
  {
    var next := s.runners[r].copy.queueJobID;
    if next == 0 then [SaveSuccess(r, now)]
    else if next in s.table.rows then [SaveSuccess(r, now), FindNext(r), SaveNext(r)]
    else [SaveSuccess(r, now), FindNext(r)]
  }

  /** When nothing comes between them, the separate writes of a success are the runner's HandleSuccess. */
  lemma UninterruptedSuccess(cfg: Config, s: Sys, r: nat, now: int)
    requires Inv(cfg, s) && Enabled(cfg, s, SaveSuccess(r, now))
    ensures Run(cfg, s, SuccessEvents(s, r, now))
    ensures After(cfg, s, SuccessEvents(s, r, now)).table.rows
          == Succeeded(s.table.rows, s.runners[r].id, s.runners[r].copy, now)
    ensures After(cfg, s, SuccessEvents(s, r, now)).runners == s.runners[r := Idle]
    ensures After(cfg, s, SuccessEvents(s, r, now)).chains == CountWin(s, s.runners[r].id).chains
    ensures After(cfg, s, SuccessEvents(s, r, now)).home == s.home
  {
    assert LocalOK(cfg, s, r);
    IDsAreBelowNext(s);
    if s.runners[r].copy.queueJobID == 0 {
      RunStep(cfg, s, SaveSuccess(r, now), []);
      assert SuccessEvents(s, r, now) == [SaveSuccess(r, now)] + [];
    } else {
      SuccessorReached(cfg, s, s.runners[r].id, now);
      SuccessWithNext(cfg, s, r, now);
    }
  }

  lemma SuccessWithNext(cfg: Config, s: Sys, r: nat, now: int)
    requires |cfg.types| == |s.runners| && Enabled(cfg, s, SaveSuccess(r, now))
    requires s.runners[r].copy.queueJobID != 0 && s.runners[r].copy.queueJobID in s.table.rows
    ensures Run(cfg, s, SuccessEvents(s, r, now))
    ensures After(cfg, s, SuccessEvents(s, r, now)).table.rows
          == Succeeded(s.table.rows, s.runners[r].id, s.runners[r].copy, now)
    ensures After(cfg, s, SuccessEvents(s, r, now)).runners == s.runners[r := Idle]
    ensures After(cfg, s, SuccessEvents(s, r, now)).chains == CountWin(s, s.runners[r].id).chains
    ensures After(cfg, s, SuccessEvents(s, r, now)).home == s.home
  {
    var s1 := Apply(cfg, s, SaveSuccess(r, now));
    var s2 := Apply(cfg, s1, FindNext(r));
    RunStep(cfg, s2, SaveNext(r), []);
    RunStep(cfg, s1, FindNext(r), [SaveNext(r)] + []);
    RunStep(cfg, s, SaveSuccess(r, now), [FindNext(r)] + ([SaveNext(r)] + []));
    assert SuccessEvents(s, r, now) == [SaveSuccess(r, now)] + ([FindNext(r)] + ([SaveNext(r)] + []));
  }

  // ---------------------------------------------------------------- bounded tries

  function BegunTries(st: Status): nat {
    if st == InProcess || st == Failed then 1 else 0
  }

  ghost predicate TriesOK(s: Sys, k: nat)
    requires k < |s.chains|
  {
    var c := s.chains[k];
    var at := Slot(k, |c.won|);
    var base := (MAX_RETRIES + 1) * (|c.won| + c.renewals);
    && c.tries <= base + (if |c.won| < |c.ids| then MAX_RETRIES + 1 else 0)
    && (forall id <- s.table.rows :: id in s.home && s.home[id] == at && s.table.rows[id].status != FailedDone ==>
          c.tries <= base + s.table.rows[id].retryCount + BegunTries(s.table.rows[id].status))
    && (forall r, id :: 0 <= r < |s.runners| && id in s.home && s.home[id] == at && s.runners[r].Activates(id) ==>
         c.tries <= base)
  }

  lemma TriesKeptBySelect(cfg: Config, s: Sys, r: nat, id: nat, now: int, k: nat)
    requires k < |s.chains| && TriesOK(s, k) && |cfg.types| == |s.runners| && Enabled(cfg, s, Select(r, id, now))
    ensures TriesOK(Apply(cfg, s, Select(r, id, now)), k)
  {
  }

  lemma TriesKeptByReturn(cfg: Config, s: Sys, r: nat, ok: bool, k: nat)
    requires k < |s.chains| && TriesOK(s, k) && |cfg.types| == |s.runners| && Enabled(cfg, s, Return(r, ok))
    ensures TriesOK(Apply(cfg, s, Return(r, ok)), k)
  {
  }

  lemma TriesKeptByStop(cfg: Config, s: Sys, r: nat, k: nat)
    requires k < |s.chains| && TriesOK(s, k) && r < |s.runners|
    ensures TriesOK(SetLocal(s, r, Idle), k)
  {
  }

  lemma TriesKeptByFindNext(cfg: Config, s: Sys, r: nat, k: nat)
    requires k < |s.chains| && TriesOK(s, k) && |cfg.types| == |s.runners| && Enabled(cfg, s, FindNext(r))
    ensures TriesOK(Apply(cfg, s, FindNext(r)), k)
  {
    assert s.runners[r].Activates(s.runners[r].copy.queueJobID);
  }

  /** Row `id` changes to `j`; the record's own bound still holds. */
  lemma TriesKeptByRow(s: Sys, r: nat, id: nat, j: Job, k: nat)
    requires k < |s.chains| && TriesOK(s, k) && r < |s.runners|
    requires id in s.home && s.home[id] == Slot(k, |s.chains[k].won|) && j.status != FailedDone ==>
      s.chains[k].tries <= (MAX_RETRIES + 1) * (|s.chains[k].won| + s.chains[k].renewals) + j.retryCount
          + BegunTries(j.status)
    ensures TriesOK(SetLocal(SetRow(s, id, j), r, Idle), k)
  {
  }

  lemma TriesKeptByTaken(s: Sys, r: nat, id: nat, now: int, k: nat)
    requires TableOK(s) && id in s.table.rows && s.table.rows[id].status == Pending && r < |s.runners|
    requires k < |s.chains| && TriesOK(s, k)
    requires forall q, n :: 0 <= q < |s.runners| && n in s.home && s.home[n] == s.home[id] ==>
          !s.runners[q].Activates(n)
    ensures TriesOK(Taken(s, r, id, s.table.rows[id], now), k)
  {
    assert RowOK(s, id);
  }

  lemma TriesKeptByCloneRow(s: Sys, r: nat, id: nat, clone: Job, k: nat)
    requires k < |s.chains| && TriesOK(s, k) && r < |s.runners| && id in s.table.rows && id in s.home
    requires s.table.nextID !in s.home
    requires s.table.rows[id].status == InProcess && clone.status == Pending
          && clone.retryCount == s.table.rows[id].retryCount + 1
    requires forall q :: 0 <= q < |s.runners| ==> !s.runners[q].Activates(s.table.nextID)
    ensures TriesOK(SetLocal(AddClone(s, id, s.table.rows[id], clone), r, Idle), k)
  {
  }

  lemma NextIDNotActivated(cfg: Config, s: Sys)
    requires Inv(cfg, s)
    ensures s.table.nextID !in s.home
    ensures forall q :: 0 <= q < |s.runners| ==> !s.runners[q].Activates(s.table.nextID)
  {
    IDsAreBelowNext(s);
    forall q | 0 <= q < |s.runners| ensures !s.runners[q].Activates(s.table.nextID) {
      assert LocalOK(cfg, s, q);
    }
  }

  lemma TriesKeptByClone(cfg: Config, s: Sys, r: nat, now: int, k: nat)
    requires Inv(cfg, s) && Enabled(cfg, s, SaveRetry(r, now)) && k < |s.chains| && TriesOK(s, k)
    ensures TriesOK(Apply(cfg, s, SaveRetry(r, now)), k)
  {
    NextIDNotActivated(cfg, s);
    assert LocalOK(cfg, s, r);
    TriesKeptByCloneRow(s, r, s.runners[r].id, Retried(s.runners[r].copy, now), k);
  }

  /** A requeue raises the bound by a whole set of tries. */
  lemma TriesKeptByRenewedRow(s: Sys, id: nat, copy: Job, clone: Job, k: nat)
    requires k < |s.chains| && TriesOK(s, k) && AtHome(s, id) && s.table.nextID !in s.home
    requires clone.status == Pending && clone.retryCount == 0
    requires s.home[id].pos == |s.chains[s.home[id].chain].won| < |s.chains[s.home[id].chain].ids|
    requires forall q :: 0 <= q < |s.runners| ==> !s.runners[q].Activates(s.table.nextID)
    ensures TriesOK(CountRenewal(AddClone(s, id, copy, clone), id), k)
  {
  }

  lemma TriesKeptByRenewal(cfg: Config, s: Sys, o: nat, now: int, k: nat)
    requires Inv(cfg, s) && Enabled(cfg, s, SaveRenewal(o, now)) && Safe(cfg, s, SaveRenewal(o, now)) && k < |s.chains|
          && TriesOK(s, k)
    ensures TriesOK(Apply(cfg, s, SaveRenewal(o, now)), k)
  {
    var m := s.operators[o];
    var s1 := CountRenewal(AddClone(s, m.id, m.copy, Renewed(m.copy, now)), m.id);
    NextIDNotActivated(cfg, s);
    assert OperatorOK(s, o) && m.id in m.Held();
    assert CopyOK(s, m.id, m.copy);
    assert RowOK(s, m.id);
    AloneIsAtFrontier(s, m.id);
    TriesKeptByRenewedRow(s, m.id, m.copy, Renewed(m.copy, now), k);
    TriesKeptByOperator(s1, o, Nothing, k);
  }

  lemma TriesKeptByOperator(s: Sys, o: nat, m: Memory, k: nat)
    requires k < |s.chains| && TriesOK(s, k) && o < |s.operators|
    ensures TriesOK(SetOperator(s, o, m), k)
  {
  }

  lemma TriesKeptByCancel(s: Sys, copies: map<nat, Job>, k: nat)
    requires k < |s.chains| && TriesOK(s, k) && forall id <- copies :: id in s.table.rows
    ensures TriesOK(CancelCopies(s, copies), k)
  {
  }

  lemma TriesKeptByPurge(cfg: Config, s: Sys, o: nat, jobs: seq<Job>, k: nat)
    requires Inv(cfg, s) && Enabled(cfg, s, SavePurge(o, jobs)) && Safe(cfg, s, SavePurge(o, jobs))
    requires k < |s.chains| + 1 && (k < |s.chains| ==> TriesOK(s, k))
    ensures TriesOK(Apply(cfg, s, SavePurge(o, jobs)), k)
  {
    var copies := s.operators[o].copies;
    var s1 := CancelCopies(s, copies);
    assert OperatorOK(s, o) && s.operators[o].Held() == copies;
    CancelKeeps(cfg, s, copies);
    if k < |s.chains| {
      TriesKeptByCancel(s, copies, k);
    }
    TriesKeptByNewChain(s1, jobs, k);
    TriesKeptByOperator(AddChain(s1, jobs), o, Nothing, k);
  }

  lemma TriesKeptByClosed(cfg: Config, s: Sys, o: nat, id: nat, k: nat)
    requires Inv(cfg, s) && Enabled(cfg, s, SaveClosed(o, id)) && k < |s.chains| && TriesOK(s, k)
    ensures TriesOK(Apply(cfg, s, SaveClosed(o, id)), k)
  {
    var copies := s.operators[o].copies;
    assert OperatorOK(s, o) && s.operators[o].Held() == copies;
    TriesKeptByCancel(s, map[id := copies[id]], k);
    OneCancelled(s, id, copies[id]);
    TriesKeptByOperator(SetRow(s, id, copies[id].(status := FailedDone)), o, Closing(Forgotten(copies, id)), k);
  }

  lemma TriesKeptByNewChain(s: Sys, jobs: seq<Job>, k: nat)
    requires TableOK(s) && k < |s.chains| + 1 && (k < |s.chains| ==> TriesOK(s, k))
    ensures TriesOK(AddChain(s, jobs), k)
  {
    IDsAreBelowNext(s);
  }

  lemma TriesBelowBase(s: Sys, k: nat)
    requires k < |s.chains| && s.chains[k].tries <= (MAX_RETRIES + 1) * (|s.chains[k].won| + s.chains[k].renewals)
    ensures TriesOK(s, k)
  {
  }

  lemma TriesKeptBySameWin(s: Sys, r: nat, id: nat, now: int, l: Local, k: nat)
    requires k < |s.chains| && TriesOK(s, k) && r < |s.runners| && id in s.table.rows
    requires s.table.rows[id].status == InProcess && s.table.rows[id].retryCount <= MAX_RETRIES
    requires id in s.home && s.home[id] == Slot(k, |s.chains[k].won|)
    ensures TriesOK(CountWin(SetLocal(SetRow(s, id, Completed(s.table.rows[id], now)), r, l), id), k)
  {
    TriesBelowBase(CountWin(SetLocal(SetRow(s, id, Completed(s.table.rows[id], now)), r, l), id), k);
  }

  lemma TriesKeptByWin(cfg: Config, s: Sys, r: nat, now: int, k: nat)
    requires Inv(cfg, s) && Enabled(cfg, s, SaveSuccess(r, now)) && k < |s.chains| && TriesOK(s, k)
    ensures TriesOK(Apply(cfg, s, SaveSuccess(r, now)), k)
  {
    var id := s.runners[r].id;
    assert LocalOK(cfg, s, r);
    assert RowOK(s, id);
    if s.home[id].chain == k {
      TriesKeptBySameWin(s, r, id, now, if s.table.rows[id].queueJobID == 0 then Idle
          else Finished(Completed(s.table.rows[id], now)), k);
    } else {
      NextIsInSameChain(s, id);
      TriesKeptByOtherWin(s, r, id, s.runners[r].copy, now, k);
    }
  }

  lemma TriesKeptByOtherWin(s: Sys, r: nat, id: nat, copy: Job, now: int, k: nat)
    requires k < |s.chains| && TriesOK(s, k) && r < |s.runners|
    requires id in s.home && s.home[id].chain < |s.chains| && s.home[id].chain != k
    requires copy.queueJobID in s.home ==> s.home[copy.queueJobID].chain != k
    ensures TriesOK(CountWin(SetLocal(SetRow(s, id, Completed(copy, now)), r, Idle), id), k)
    ensures TriesOK(CountWin(SetLocal(SetRow(s, id, Completed(copy, now)), r, Finished(Completed(copy, now))), id), k)
  {
  }

  /** Every event keeps the bound on tries of every chain. */
  lemma TriesKept(cfg: Config, s: Sys, e: Event, k: nat)
    requires cfg.Sound() && Inv(cfg, s) && Enabled(cfg, s, e) && Safe(cfg, s, e)
    requires k < |Apply(cfg, s, e).chains| && (k < |s.chains| ==> TriesOK(s, k))
    ensures TriesOK(Apply(cfg, s, e), k)
  {
    match e
    case QueueChain(jobs) => TriesKeptByNewChain(s, jobs, k);
    case Select(r, id, now) => TriesKeptBySelect(cfg, s, r, id, now, k);
    case Take(r, now) => TriesKeptByTake(cfg, s, r, now, k);
    case Pop(r, id, now) => TriesKeptByPop(cfg, s, r, id, now, k);
    case Return(r, ok) => TriesKeptByReturn(cfg, s, r, ok, k);
    case SaveSuccess(r, now) => TriesKeptByWin(cfg, s, r, now, k);
    case SaveRetry(r, now) => TriesKeptByClone(cfg, s, r, now, k);
    case SaveFailed(r) => TriesKeptBySaveFailed(cfg, s, r, k);
    case FindNext(r) => TriesKeptByFindNext(cfg, s, r, k);
    case SaveNext(r) => TriesKeptBySaveNext(cfg, s, r, k);
    case Stop(r) => TriesKeptByStop(cfg, s, r, k);
    case ReadFailed(o, id) => TriesKeptByOperator(s, o, Requeuing(id, s.table.rows[id]), k);
    case SaveRenewal(o, now) => TriesKeptByRenewal(cfg, s, o, now, k);
    case ReadForUpload(o, issue) => TriesKeptByOperator(s, o, Closing(FailedJobs(s.table, issue)), k);
    case SaveClosed(o, id) => TriesKeptByClosed(cfg, s, o, id, k);
    case ReadForPurge(o, issue, _) => TriesKeptByOperator(s, o, Purging(Cancellable(s.table, issue)), k);
    case SavePurge(o, jobs) => TriesKeptByPurge(cfg, s, o, jobs, k);
    case Leave(o) => TriesKeptByOperator(s, o, Nothing, k);
  }

  lemma TriesKeptByTake(cfg: Config, s: Sys, r: nat, now: int, k: nat)
    requires Inv(cfg, s) && Enabled(cfg, s, Take(r, now)) && k < |s.chains| && TriesOK(s, k)
    ensures TriesOK(Apply(cfg, s, Take(r, now)), k)
  {
    assert LocalOK(cfg, s, r);
    PopIsNotActivated(cfg, s, s.runners[r].id);
    TriesKeptByTaken(s, r, s.runners[r].id, now, k);
  }

  lemma TriesKeptByPop(cfg: Config, s: Sys, r: nat, id: nat, now: int, k: nat)
    requires Inv(cfg, s) && Enabled(cfg, s, Pop(r, id, now)) && k < |s.chains| && TriesOK(s, k)
    ensures TriesOK(Apply(cfg, s, Pop(r, id, now)), k)
  {
    PopIsNotActivated(cfg, s, id);
    TriesKeptByTaken(s, r, id, now, k);
  }

  lemma TriesKeptBySaveFailed(cfg: Config, s: Sys, r: nat, k: nat)
    requires Inv(cfg, s) && Enabled(cfg, s, SaveFailed(r)) && k < |s.chains| && TriesOK(s, k)
    ensures TriesOK(Apply(cfg, s, SaveFailed(r)), k)
  {
    assert LocalOK(cfg, s, r);
    TriesKeptByRow(s, r, s.runners[r].id, s.runners[r].copy.(status := Failed), k);
  }

  lemma TriesKeptBySaveNext(cfg: Config, s: Sys, r: nat, k: nat)
    requires Inv(cfg, s) && Enabled(cfg, s, SaveNext(r)) && k < |s.chains| && TriesOK(s, k)
    ensures TriesOK(Apply(cfg, s, SaveNext(r)), k)
  {
    assert LocalOK(cfg, s, r) && s.runners[r].Activates(s.runners[r].id);
    TriesKeptByRow(s, r, s.runners[r].id, s.runners[r].copy.(status := Pending), k);
  }

  lemma PopIsNotActivated(cfg: Config, s: Sys, id: nat)
    requires Inv(cfg, s) && id in s.table.rows && s.table.rows[id].status == Pending
    ensures forall q, n :: 0 <= q < |s.runners| && n in s.home && s.home[n] == s.home[id] ==> !s.runners[q].Activates(n)
  {
    forall q, n | 0 <= q < |s.runners| && n in s.home && s.home[n] == s.home[id] ensures !s.runners[q].Activates(n) {
      NotActivated(cfg, s, id, q);
    }
  }

  lemma {:induction false} RunTriesKept(cfg: Config, s: Sys, events: seq<Event>)
    requires cfg.Sound() && Inv(cfg, s) && Run(cfg, s, events) && Careful(cfg, s, events)
    requires forall k :: 0 <= k < |s.chains| ==> TriesOK(s, k)
    ensures forall k :: 0 <= k < |After(cfg, s, events).chains| ==> TriesOK(After(cfg, s, events), k)
    decreases |events|
  {
    if events != [] {
      var s' := Apply(cfg, s, events[0]);
      StepKeepsExactly(cfg, s, events[0]);
      forall k | 0 <= k < |s'.chains| ensures TriesOK(s', k) {
        TriesKept(cfg, s, events[0], k);
      }
      RunTriesKept(cfg, s', events[1..]);
    }
  }

  /** A chain of n jobs is tried at most 26 times per job and per operator requeue. */
  lemma BoundedTries(cfg: Config, events: seq<Event>, k: nat)
    requires cfg.Sound() && Run(cfg, Start(cfg), events) && Careful(cfg, Start(cfg), events)
    requires k < |After(cfg, Start(cfg), events).chains|
    ensures var c := After(cfg, Start(cfg), events).chains[k];
            c.tries <= 26 * (|c.ids| + c.renewals)
  {
    StartIsInv(cfg);
    RunKeeps(cfg, Start(cfg), events);
    RunTriesKept(cfg, Start(cfg), events);
    var s := After(cfg, Start(cfg), events);
    assert ChainOK(s, k) && TriesOK(s, k);
  }
}
