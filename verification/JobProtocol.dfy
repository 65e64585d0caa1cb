/** The job queue as a protocol between any number of runners and operators.  Each event is one database
    write, one database read, or one return from a job's Process; runs are arbitrary interleavings of them
    (src/jobs/runner.go, src/models/job.go, src/cmd/purge-dead-issues/main.go, src/uploads/queue.go). */
module JobProtocol {
  import opened JobModel

  /** One runner's private memory.  A copy is the whole record, and saving it writes every column. */
  datatype Local =
    | Idle
    | Selected(id: nat, copy: Job)          // pop has read the row, not yet saved it as in-process
    | Working(id: nat, copy: Job)           // Process is running
    | Done(id: nat, copy: Job, ok: bool)    // Process has returned
    | Finished(copy: Job)                   // success is saved, the next job is not yet read
    | FoundNext(id: nat, copy: Job)         // the next job is read, not yet saved as pending
  {
    /** The job this runner is about to run, is running, or has just run. */
    predicate Holds(job: nat) {
      (Selected? || Working? || Done?) && id == job
    }

    /** The job this runner is about to mark pending. */
    predicate Activates(job: nat) {
      match this
      case Finished(copy) => copy.queueJobID == job
      case FoundNext(id, _) => id == job
      case _ => false
    }
  }

  /** Where a record belongs: which chain, and which position in it.  The code does not store this. */
  datatype Slot = Slot(chain: nat, pos: nat)

  /** A chain as it was queued, with its history: the ids that succeeded, in order; how many times one of its
      jobs was taken by a runner; how many times an operator requeued one. */
  datatype Chain = Chain(ids: seq<nat>, jobs: seq<Job>, won: seq<nat>, tries: nat, renewals: nat)
  {
    function NextID(pos: nat): nat {
      if pos + 1 < |ids| then ids[pos + 1] else 0
    }
  }

  /** What a person at a command line, or the upload page, has read and not yet written: the failed job to requeue, the
      failed jobs of an issue to close, or the failed and waiting jobs of an issue to cancel. */
  datatype Memory =
    | Nothing
    | Requeuing(id: nat, copy: Job)
    | Closing(copies: map<nat, Job>)
    | Purging(copies: map<nat, Job>)
  {
    function Held(): map<nat, Job> {
      match this
      case Nothing => map[]
      case Requeuing(id, copy) => map[id := copy]
      case Closing(copies) => copies
      case Purging(copies) => copies
    }
  }

  datatype Sys = Sys(table: Table, runners: seq<Local>, operators: seq<Memory>, home: map<nat, Slot>,
      chains: seq<Chain>)

  /** The job types of each runner, whether a pop's read and write are one transaction, and the number of operators. */
  datatype Config = Config(types: seq<set<JobType>>, atomicPop: bool, operators: nat)
  {
    predicate Sound() {
      atomicPop || PairwiseDisjoint(types)
    }
  }

  datatype Event =
    | QueueChain(jobs: seq<Job>)
    | Select(r: nat, id: nat, now: int)
    | Take(r: nat, now: int)
    | Pop(r: nat, id: nat, now: int)
    | Return(r: nat, ok: bool)
    | SaveSuccess(r: nat, now: int)
    | SaveRetry(r: nat, now: int)
    | SaveFailed(r: nat)
    | FindNext(r: nat)
    | SaveNext(r: nat)
    | Stop(r: nat)
    | ReadFailed(o: nat, id: nat)
    | SaveRenewal(o: nat, now: int)
    | ReadForUpload(o: nat, issue: nat)
    | SaveClosed(o: nat, id: nat)
    | ReadForPurge(o: nat, issue: nat, batch: nat)
    | SavePurge(o: nat, jobs: seq<Job>)
    | Leave(o: nat)

  // ---------------------------------------------------------------- events

  predicate OfIssue(j: Job, issue: nat) {
    j.target == IssueTarget(issue)
  }

  /** purgeIssue refuses an issue in a batch, one with unfinished jobs, and one with no dead job. */
  ghost predicate Purgeable(t: Table, issue: nat, batch: nat) {
    && batch == 0
    && (forall id <- t.rows :: OfIssue(t.rows[id], issue) ==>
         t.rows[id].status != Pending && t.rows[id].status != InProcess)
    && (exists id <- t.rows :: OfIssue(t.rows[id], issue) && t.rows[id].status == Failed)
  }

  function FailedJobs(t: Table, issue: nat): map<nat, Job> {
    map id <- t.rows | OfIssue(t.rows[id], issue) && t.rows[id].status == Failed :: t.rows[id]
  }

  function Cancellable(t: Table, issue: nat): map<nat, Job> {
    map id <- t.rows | OfIssue(t.rows[id], issue) && (t.rows[id].status == Failed || t.rows[id].status == OnHold) ::
        t.rows[id]
  }

  function Closed(copies: map<nat, Job>): map<nat, Job> {
    map id <- copies :: copies[id].(status := FailedDone)
  }

  function Forgotten(copies: map<nat, Job>, id: nat): map<nat, Job> {
    copies - {id}
  }

  /** The copies are saved as closed, whatever the rows are by now. */
  function CancelCopies(s: Sys, copies: map<nat, Job>): Sys {
    s.(table := s.table.(rows := s.table.rows + Closed(copies)))
  }

  function SetOperator(s: Sys, o: nat, m: Memory): Sys
    requires o < |s.operators|
  {
    s.(operators := s.operators[o := m])
  }

  predicate AllPrepared(jobs: seq<Job>) {
    forall j <- jobs :: Prepared(j)
  }

  ghost predicate Enabled(cfg: Config, s: Sys, e: Event)
    requires |cfg.types| == |s.runners|
  {
    match e
    case QueueChain(jobs) => AllPrepared(jobs)
    case Select(r, id, now) =>
      !cfg.atomicPop && r < |s.runners| && s.runners[r].Idle? && id in s.table.rows
          && Runnable(s.table.rows[id], cfg.types[r], now)
    case Take(r, _) => r < |s.runners| && s.runners[r].Selected?
    case Pop(r, id, now) =>
      cfg.atomicPop && r < |s.runners| && s.runners[r].Idle? && id in s.table.rows
          && Runnable(s.table.rows[id], cfg.types[r], now)
    case Return(r, _) => r < |s.runners| && s.runners[r].Working?
    case SaveSuccess(r, _) => r < |s.runners| && s.runners[r].Done? && s.runners[r].ok
    case SaveRetry(r, _) => r < |s.runners| && s.runners[r].Done? && !s.runners[r].ok
        && s.runners[r].copy.retryCount < MAX_RETRIES
    case SaveFailed(r) => r < |s.runners| && s.runners[r].Done? && !s.runners[r].ok
        && s.runners[r].copy.retryCount >= MAX_RETRIES
    case FindNext(r) => r < |s.runners| && s.runners[r].Finished?
    case SaveNext(r) => r < |s.runners| && s.runners[r].FoundNext?
    case Stop(r) => r < |s.runners|
    case ReadFailed(o, id) => o < |s.operators| && id in s.table.rows && s.table.rows[id].status == Failed
    case SaveRenewal(o, _) => o < |s.operators| && s.operators[o].Requeuing?
    case ReadForUpload(o, _) => o < |s.operators|
    case SaveClosed(o, id) => o < |s.operators| && s.operators[o].Closing? && id in s.operators[o].copies
    case ReadForPurge(o, issue, batch) => o < |s.operators| && Purgeable(s.table, issue, batch)
    case SavePurge(o, jobs) => o < |s.operators| && s.operators[o].Purging? && AllPrepared(jobs)
    case Leave(o) => o < |s.operators|
  }

  function SetLocal(s: Sys, r: nat, l: Local): Sys
    requires r < |s.runners|
  {
    s.(runners := s.runners[r := l])
  }

  function SetRow(s: Sys, id: nat, j: Job): Sys {
    s.(table := Put(s.table, id, j))
  }

  /** Close row `id` with `copy` and add `clone` at the same place of the same chain. */
  function AddClone(s: Sys, id: nat, copy: Job, clone: Job): Sys {
    s.(table := CloseAndClone(s.table, id, copy, clone),
       home := if id in s.home then s.home[s.table.nextID := s.home[id]] else s.home)
  }

  function ChainIDs(firstID: nat, n: nat): seq<nat> {
    seq(n, i requires 0 <= i < n => ChainID(firstID, n, i))
  }

  function NewSlot(chain: nat, firstID: nat, n: nat, id: nat): Slot
    requires firstID <= id < firstID + n
  {
    Slot(chain, n - 1 - (id - firstID))
  }

  function NewHomes(chain: nat, firstID: nat, n: nat): map<nat, Slot> {
    map id | firstID <= id < firstID + n :: NewSlot(chain, firstID, n, id)
  }

  function AddChain(s: Sys, jobs: seq<Job>): Sys {
    s.(table := QueueSerialTable(s.table, jobs),
       home := s.home + NewHomes(|s.chains|, s.table.nextID, |jobs|),
       chains := s.chains + [Chain(ChainIDs(s.table.nextID, |jobs|), jobs, [], 0, 0)])
  }

  function CountTry(s: Sys, id: nat): Sys {
    if id in s.home && s.home[id].chain < |s.chains| then
      var k := s.home[id].chain;
      s.(chains := s.chains[k := s.chains[k].(tries := s.chains[k].tries + 1)])
    else s
  }

  function CountWin(s: Sys, id: nat): Sys {
    if id in s.home && s.home[id].chain < |s.chains| then
      var k := s.home[id].chain;
      s.(chains := s.chains[k := s.chains[k].(won := s.chains[k].won + [id])])
    else s
  }

  function CountRenewal(s: Sys, id: nat): Sys {
    if id in s.home && s.home[id].chain < |s.chains| then
      var k := s.home[id].chain;
      s.(chains := s.chains[k := s.chains[k].(renewals := s.chains[k].renewals + 1)])
    else s
  }

  function Taken(s: Sys, r: nat, id: nat, copy: Job, now: int): Sys
    requires r < |s.runners|
  {
    CountTry(SetLocal(SetRow(s, id, Started(copy, now)), r, Working(id, Started(copy, now))), id)
  }

  ghost function Apply(cfg: Config, s: Sys, e: Event): Sys
    requires |cfg.types| == |s.runners| && Enabled(cfg, s, e)
  {
    match e
    case QueueChain(jobs) => AddChain(s, jobs)
    case Select(r, id, _) => SetLocal(s, r, Selected(id, s.table.rows[id]))
    case Take(r, now) => Taken(s, r, s.runners[r].id, s.runners[r].copy, now)
    case Pop(r, id, now) => Taken(s, r, id, s.table.rows[id], now)
    case Return(r, ok) => SetLocal(s, r, Done(s.runners[r].id, s.runners[r].copy, ok))
    case SaveSuccess(r, now) =>
      var l := s.runners[r];
      var next := if l.copy.queueJobID == 0 then Idle else Finished(Completed(l.copy, now));
      CountWin(SetLocal(SetRow(s, l.id, Completed(l.copy, now)), r, next), l.id)
    case SaveRetry(r, now) =>
      var l := s.runners[r];
      SetLocal(AddClone(s, l.id, l.copy, Retried(l.copy, now)), r, Idle)
    case SaveFailed(r) =>
      var l := s.runners[r];
      SetLocal(SetRow(s, l.id, l.copy.(status := Failed)), r, Idle)
    case FindNext(r) =>
      var id := s.runners[r].copy.queueJobID;
      SetLocal(s, r, if id in s.table.rows then FoundNext(id, s.table.rows[id]) else Idle)
    case SaveNext(r) =>
      var l := s.runners[r];
      SetLocal(SetRow(s, l.id, l.copy.(status := Pending)), r, Idle)
    case Stop(r) => SetLocal(s, r, Idle)
    case ReadFailed(o, id) => SetOperator(s, o, Requeuing(id, s.table.rows[id]))
    case SaveRenewal(o, now) =>
      var m := s.operators[o];
      SetOperator(CountRenewal(AddClone(s, m.id, m.copy, Renewed(m.copy, now)), m.id), o, Nothing)
    case ReadForUpload(o, issue) => SetOperator(s, o, Closing(FailedJobs(s.table, issue)))
    case SaveClosed(o, id) =>
      var copies := s.operators[o].copies;
      SetOperator(SetRow(s, id, copies[id].(status := FailedDone)), o, Closing(Forgotten(copies, id)))
    case ReadForPurge(o, issue, _) => SetOperator(s, o, Purging(Cancellable(s.table, issue)))
    case SavePurge(o, jobs) => SetOperator(AddChain(CancelCopies(s, s.operators[o].copies), jobs), o, Nothing)
    case Leave(o) => SetOperator(s, o, Nothing)
  }

  /** The events of a run can happen one after the other. */
  ghost predicate Run(cfg: Config, s: Sys, events: seq<Event>)
    decreases |events|
  {
    && |cfg.types| == |s.runners|
    && (events == [] || (Enabled(cfg, s, events[0]) && Run(cfg, Apply(cfg, s, events[0]), events[1..])))
  }

  ghost function After(cfg: Config, s: Sys, events: seq<Event>): Sys
    requires Run(cfg, s, events)
    decreases |events|
  {
    if events == [] then s else After(cfg, Apply(cfg, s, events[0]), events[1..])
  }

  /** An empty jobs table, idle runners and idle operators. */
  function Start(cfg: Config): Sys {
    Sys(Table(map[], 1), seq(|cfg.types|, i => Idle), seq(cfg.operators, i => Nothing), map[], [])
  }

  // ---------------------------------------------------------------- invariant

  ghost predicate RowOK(s: Sys, id: nat)
    requires id in s.table.rows && id in s.home
  {
    var j := s.table.rows[id];
    var at := s.home[id];
    && 0 < id < s.table.nextID
    && at.chain < |s.chains|
    && var c := s.chains[at.chain];
    && at.pos < |c.ids| == |c.jobs|
    && j.work == c.jobs[at.pos].work
    && j.target == c.jobs[at.pos].target
    && j.queueJobID == c.NextID(at.pos)
    && j.retryCount <= MAX_RETRIES
    && (at.pos < |c.won| ==> j.status == Successful || j.status == FailedDone)
    && (at.pos == |c.won| ==> j.status != Successful)
    && (at.pos > |c.won| ==> id == c.ids[at.pos] && (j.status == OnHold || j.status == FailedDone))
    && (j.status == OnHold ==> id == c.ids[at.pos])
  }

  ghost predicate ChainOK(s: Sys, k: nat)
    requires k < |s.chains|
  {
    var c := s.chains[k];
    && |c.won| <= |c.ids| == |c.jobs|
    && (forall p :: 0 <= p < |c.ids| ==> c.ids[p] in s.home && s.home[c.ids[p]] == Slot(k, p))
    && (forall p :: 0 <= p < |c.won| ==>
          c.won[p] in s.home && s.home[c.won[p]] == Slot(k, p) && c.won[p] in s.table.rows
              && s.table.rows[c.won[p]].status == Successful)
  }

  /** A record that is not closed. */
  ghost predicate Live(s: Sys, id: nat) {
    id in s.table.rows && id in s.home && s.table.rows[id].status != FailedDone
  }

  ghost predicate OneLive(s: Sys) {
    forall a, b :: Live(s, a) && Live(s, b) && s.home[a] == s.home[b] ==> a == b
  }

  ghost predicate TableOK(s: Sys) {
    && 0 < s.table.nextID
    && s.table.rows.Keys == s.home.Keys
    && (forall id {:trigger RowOK(s, id)} | id in s.table.rows :: RowOK(s, id))
    && (forall k {:trigger ChainOK(s, k)} | 0 <= k < |s.chains| :: ChainOK(s, k))
    && OneLive(s)
  }

  /** `id` is the untouched first record of the position its chain has just reached. */
  ghost predicate Reached(s: Sys, id: nat) {
    && id in s.table.rows && id in s.home
    && var at := s.home[id];
    && at.chain < |s.chains|
    && at.pos == |s.chains[at.chain].won|
    && (s.table.rows[id].status == OnHold || s.table.rows[id].status == FailedDone)
    && (forall a <- s.home :: s.home[a] == at ==> a == id)
  }

  ghost predicate LocalOK(cfg: Config, s: Sys, r: nat)
    requires r < |s.runners| == |cfg.types|
  {
    match s.runners[r]
    case Idle => true
    case Selected(id, copy) =>
      !cfg.atomicPop && id in s.table.rows && s.table.rows[id] == copy && copy.status == Pending
          && copy.work.Type() in cfg.types[r]
    case Working(id, copy) => id in s.table.rows && s.table.rows[id] == copy && copy.status == InProcess
    case Done(id, copy, _) => id in s.table.rows && s.table.rows[id] == copy && copy.status == InProcess
    case Finished(copy) => Reached(s, copy.queueJobID)
    case FoundNext(id, copy) => Reached(s, id) && s.table.rows[id].(status := Pending) == copy.(status := Pending)
  }

  ghost predicate Exclusive(s: Sys) {
    forall a, b, id :: 0 <= a < b < |s.runners| ==>
      && !(s.runners[a].Holds(id) && s.runners[b].Holds(id))
      && !(s.runners[a].Activates(id) && s.runners[b].Activates(id))
  }

  ghost predicate RunnersOK(cfg: Config, s: Sys)
    requires |s.runners| == |cfg.types|
  {
    && (forall r {:trigger LocalOK(cfg, s, r)} | 0 <= r < |s.runners| :: LocalOK(cfg, s, r))
    && Exclusive(s)
  }

  ghost predicate Sane(cfg: Config, s: Sys) {
    |s.runners| == |cfg.types| && TableOK(s) && RunnersOK(cfg, s)
  }

  // ---------------------------------------------------------------- what operators remember

  /** Columns no write to a row ever changes. */
  predicate SameJob(a: Job, b: Job) {
    a.work == b.work && a.target == b.target && a.queueJobID == b.queueJobID && a.retryCount == b.retryCount
  }

  ghost predicate Activated(s: Sys, id: nat) {
    exists r :: 0 <= r < |s.runners| && s.runners[r].Activates(id)
  }

  ghost predicate AtHome(s: Sys, id: nat) {
    id in s.table.rows && id in s.home && s.home[id].chain < |s.chains|
  }

  /** A record that failed, closed since or not: it will never run again. */
  ghost predicate Spent(s: Sys, id: nat) {
    && AtHome(s, id)
    && (s.table.rows[id].status == Failed || s.table.rows[id].status == FailedDone)
    && s.home[id].pos <= |s.chains[s.home[id].chain].won|
    && !Activated(s, id)
  }

  /** A record that is on hold, or lies ahead of its chain's frontier, or is about to be made pending. */
  ghost predicate Untouched(s: Sys, id: nat) {
    && AtHome(s, id)
    && (s.table.rows[id].status == OnHold || s.home[id].pos > |s.chains[s.home[id].chain].won| || Activated(s, id))
  }

  /** A remembered copy, and the row by now. */
  ghost predicate CopyOK(s: Sys, id: nat, copy: Job) {
    && AtHome(s, id)
    && SameJob(copy, s.table.rows[id])
    && (copy.status == Failed || copy.status == OnHold)
    && (copy.status == Failed ==> Spent(s, id))
    && (copy.status == OnHold && Untouched(s, id) ==> s.table.rows[id].(status := OnHold) == copy)
  }

  ghost predicate OperatorOK(s: Sys, o: nat)
    requires o < |s.operators|
  {
    var m := s.operators[o];
    && (forall id <- m.Held() :: CopyOK(s, id, m.Held()[id]))
    && (m.Requeuing? ==> m.copy.status == Failed)
    && (m.Closing? ==> forall id <- m.copies :: m.copies[id].status == Failed)
  }

  ghost predicate OperatorsOK(s: Sys) {
    forall o {:trigger OperatorOK(s, o)} | 0 <= o < |s.operators| :: OperatorOK(s, o)
  }

  ghost predicate Inv(cfg: Config, s: Sys) {
    Sane(cfg, s) && OperatorsOK(s)
  }

  lemma StartIsInv(cfg: Config)
    ensures Inv(cfg, Start(cfg))
  {
  }

  // ---------------------------------------------------------------- the table part is kept

  lemma IDsAreBelowNext(s: Sys)
    requires TableOK(s)
    ensures forall id <- s.table.rows :: 0 < id < s.table.nextID
  {
    forall id <- s.table.rows ensures 0 < id < s.table.nextID {
      assert RowOK(s, id);
    }
  }

  lemma ChangedRow(s: Sys, id: nat, j: Job, k: nat)
    requires id in s.table.rows && id in s.home && RowOK(s, id)
    requires k in s.table.rows && k in s.home && RowOK(s, k)
    requires s.home[id].pos == |s.chains[s.home[id].chain].won|
    requires j.work == s.table.rows[id].work && j.target == s.table.rows[id].target
    requires j.queueJobID == s.table.rows[id].queueJobID && j.retryCount <= MAX_RETRIES
    requires j.status != Successful && j.status != OnHold
    ensures RowOK(SetRow(s, id, j), k)
  {
  }

  lemma ChangedChain(s: Sys, id: nat, j: Job, k: nat)
    requires id in s.table.rows && s.table.rows[id].status != Successful
    requires k < |s.chains| && ChainOK(s, k)
    ensures ChainOK(SetRow(s, id, j), k)
  {
  }

  lemma ChangedOneLive(s: Sys, id: nat, j: Job)
    requires OneLive(s) && id in s.table.rows && s.table.rows.Keys == s.home.Keys
    requires j.status == FailedDone || s.table.rows[id].status != FailedDone || Reached(s, id)
    ensures OneLive(SetRow(s, id, j))
  {
    var s' := SetRow(s, id, j);
    forall a, b | Live(s', a) && Live(s', b) && s'.home[a] == s'.home[b] ensures a == b {
      assert a != id ==> Live(s, a);
      assert b != id ==> Live(s, b);
      assert s.table.rows[id].status != FailedDone ==> Live(s, id);
    }
  }

  /** Changing one row at its chain's frontier keeps the table part. */
  lemma RowChangeKept(s: Sys, id: nat, j: Job)
    requires TableOK(s) && id in s.table.rows && RowOK(s, id)
    requires s.home[id].pos == |s.chains[s.home[id].chain].won|
    requires j.work == s.table.rows[id].work && j.target == s.table.rows[id].target
    requires j.queueJobID == s.table.rows[id].queueJobID && j.retryCount <= MAX_RETRIES
    requires j.status != Successful && j.status != OnHold
    requires j.status == FailedDone || s.table.rows[id].status != FailedDone || Reached(s, id)
    ensures TableOK(SetRow(s, id, j))
  {
    var s' := SetRow(s, id, j);
    assert RowOK(s, id);
    forall k <- s'.table.rows ensures RowOK(s', k) {
      ChangedRow(s, id, j, k);
    }
    forall k | 0 <= k < |s'.chains| ensures ChainOK(s', k) {
      ChangedChain(s, id, j, k);
    }
    ChangedOneLive(s, id, j);
  }

  lemma ClonedRow(s: Sys, id: nat, copy: Job, clone: Job, k: nat)
    requires 0 < s.table.nextID && id in s.table.rows && id in s.home && RowOK(s, id)
    requires s.home[id].pos == |s.chains[s.home[id].chain].won| && SameJob(copy, s.table.rows[id])
    requires clone.work == copy.work && clone.target == copy.target
    requires clone.queueJobID == copy.queueJobID && clone.retryCount <= MAX_RETRIES
    requires clone.status == Pending
    requires k == s.table.nextID || (k in s.table.rows && k in s.home && RowOK(s, k))
    ensures k in AddClone(s, id, copy, clone).table.rows && k in AddClone(s, id, copy, clone).home
    ensures RowOK(AddClone(s, id, copy, clone), k)
  {
  }

  lemma ClonedChain(s: Sys, id: nat, copy: Job, clone: Job, k: nat)
    requires id in s.table.rows && s.table.rows[id].status != Successful
    requires s.table.nextID !in s.table.rows && s.table.nextID !in s.home
    requires k < |s.chains| && ChainOK(s, k)
    ensures ChainOK(AddClone(s, id, copy, clone), k)
  {
  }

  /** No other record of the same position is live. */
  ghost predicate Alone(s: Sys, id: nat)
    requires id in s.home
  {
    forall a {:trigger Live(s, a)} | Live(s, a) && s.home[a] == s.home[id] :: a == id
  }

  lemma ClonedOneLive(s: Sys, id: nat, copy: Job, clone: Job)
    requires OneLive(s) && id in s.table.rows && id in s.home && Alone(s, id) && s.table.nextID !in s.table.rows
          && s.table.nextID !in s.home
    ensures OneLive(AddClone(s, id, copy, clone))
  {
    var s' := AddClone(s, id, copy, clone);
    forall a, b | Live(s', a) && Live(s', b) && s'.home[a] == s'.home[b] ensures a == b {
      assert a != s.table.nextID ==> Live(s, a) && a != id;
      assert b != s.table.nextID ==> Live(s, b) && b != id;
    }
  }

  /** With no other live record at its position, a begun record is at its chain's frontier. */
  lemma AloneIsAtFrontier(s: Sys, id: nat)
    requires TableOK(s) && id in s.table.rows && s.table.rows[id].status != Successful && Alone(s, id)
    requires s.home[id].chain < |s.chains| && s.home[id].pos <= |s.chains[s.home[id].chain].won|
    ensures s.home[id].pos == |s.chains[s.home[id].chain].won|
  {
    var c := s.chains[s.home[id].chain];
    assert ChainOK(s, s.home[id].chain);
    if s.home[id].pos < |c.won| {
      assert Live(s, c.won[s.home[id].pos]);
    }
  }

  /** Closing a begun record with a copy of it, and adding a clone, keeps the table part when no other record of its
      position is live. */
  lemma CloneKept(s: Sys, id: nat, copy: Job, clone: Job)
    requires TableOK(s) && id in s.table.rows && RowOK(s, id) && Alone(s, id)
    requires s.table.rows[id].status != Successful && s.home[id].pos <= |s.chains[s.home[id].chain].won|
    requires SameJob(copy, s.table.rows[id])
    requires clone.work == copy.work && clone.target == copy.target
    requires clone.queueJobID == copy.queueJobID && clone.retryCount <= MAX_RETRIES
    requires clone.status == Pending
    ensures TableOK(AddClone(s, id, copy, clone))
  {
    var s' := AddClone(s, id, copy, clone);
    AloneIsAtFrontier(s, id);
    IDsAreBelowNext(s);
    forall k <- s'.table.rows ensures RowOK(s', k) {
      ClonedRow(s, id, copy, clone, k);
    }
    forall k | 0 <= k < |s'.chains| ensures ChainOK(s', k) {
      ClonedChain(s, id, copy, clone, k);
    }
    ClonedOneLive(s, id, copy, clone);
  }

  function Won(s: Sys, id: nat, now: int): Sys
    requires id in s.table.rows
  {
    CountWin(SetRow(s, id, Completed(s.table.rows[id], now)), id)
  }

  lemma WonRow(s: Sys, id: nat, now: int, k: nat)
    requires id in s.table.rows && id in s.home && RowOK(s, id) && s.table.rows[id].status == InProcess
    requires k in s.table.rows && k in s.home && RowOK(s, k)
    requires k != id && s.home[k] == s.home[id] ==> s.table.rows[k].status == FailedDone
    ensures RowOK(Won(s, id, now), k)
  {
  }

  lemma WonChain(s: Sys, id: nat, now: int, k: nat)
    requires id in s.table.rows && id in s.home && RowOK(s, id) && s.table.rows[id].status == InProcess
    requires k < |s.chains| && ChainOK(s, k)
    ensures ChainOK(Won(s, id, now), k)
  {
    assert s.home[id].pos == |s.chains[s.home[id].chain].won|;
  }

  lemma WonOneLive(s: Sys, id: nat, now: int)
    requires OneLive(s) && Live(s, id)
    ensures OneLive(Won(s, id, now))
  {
    var s' := Won(s, id, now);
    forall a, b | Live(s', a) && Live(s', b) && s'.home[a] == s'.home[b] ensures a == b {
      assert Live(s, a) && Live(s, b);
    }
  }

  /** Recording the success of a record that was in process moves its chain's frontier one position on. */
  lemma WonKept(s: Sys, id: nat, now: int)
    requires TableOK(s) && id in s.table.rows && s.table.rows[id].status == InProcess
    ensures TableOK(Won(s, id, now))
  {
    var s' := Won(s, id, now);
    assert RowOK(s, id);
    forall k <- s'.table.rows ensures RowOK(s', k) {
      assert Live(s, id) && (s.table.rows[k].status != FailedDone ==> Live(s, k));
      WonRow(s, id, now, k);
    }
    forall k | 0 <= k < |s'.chains| ensures ChainOK(s', k) {
      WonChain(s, id, now, k);
    }
    WonOneLive(s, id, now);
  }

  lemma CountedRow(s: Sys, id: nat, k: nat)
    requires k in s.table.rows && k in s.home && RowOK(s, k)
    ensures RowOK(CountTry(s, id), k) && RowOK(CountRenewal(s, id), k)
  {
  }

  lemma CountedChain(s: Sys, id: nat, k: nat)
    requires k < |s.chains| && ChainOK(s, k)
    ensures ChainOK(CountTry(s, id), k) && ChainOK(CountRenewal(s, id), k)
  {
  }

  lemma SameLive(s: Sys, s': Sys)
    requires OneLive(s) && s'.table == s.table && s'.home == s.home
    ensures OneLive(s')
  {
    forall a, b | Live(s', a) && Live(s', b) && s'.home[a] == s'.home[b] ensures a == b {
      assert Live(s, a) && Live(s, b);
    }
  }

  lemma CountersKept(s: Sys, id: nat)
    requires TableOK(s)
    ensures TableOK(CountTry(s, id)) && TableOK(CountRenewal(s, id))
  {
    var t, w := CountTry(s, id), CountRenewal(s, id);
    forall k <- s.table.rows ensures RowOK(t, k) && RowOK(w, k) {
      CountedRow(s, id, k);
    }
    forall k | 0 <= k < |s.chains| ensures ChainOK(t, k) && ChainOK(w, k) {
      CountedChain(s, id, k);
    }
    SameLive(s, t);
    SameLive(s, w);
  }

  /** None of the copies belongs to a record that has succeeded since. */
  ghost predicate NoneSucceeded(s: Sys, copies: map<nat, Job>) {
    forall id <- copies :: id in s.table.rows && SameJob(copies[id], s.table.rows[id])
        && s.table.rows[id].status != Successful
  }

  lemma CancelledRow(s: Sys, copies: map<nat, Job>, k: nat)
    requires k in s.table.rows && k in s.home && RowOK(s, k) && NoneSucceeded(s, copies)
    ensures RowOK(CancelCopies(s, copies), k)
  {
  }

  lemma CancelledChain(s: Sys, copies: map<nat, Job>, k: nat)
    requires k < |s.chains| && ChainOK(s, k) && NoneSucceeded(s, copies)
    ensures ChainOK(CancelCopies(s, copies), k)
  {
  }

  lemma CancelKept(s: Sys, copies: map<nat, Job>)
    requires TableOK(s) && NoneSucceeded(s, copies)
    ensures TableOK(CancelCopies(s, copies))
  {
    var s' := CancelCopies(s, copies);
    forall k <- s'.table.rows ensures RowOK(s', k) {
      CancelledRow(s, copies, k);
    }
    forall k | 0 <= k < |s'.chains| ensures ChainOK(s', k) {
      CancelledChain(s, copies, k);
    }
    forall a, b | Live(s', a) && Live(s', b) && s'.home[a] == s'.home[b] ensures a == b {
      assert Live(s, a) && Live(s, b);
    }
  }

  lemma AddedOldRow(s: Sys, jobs: seq<Job>, k: nat)
    requires k in s.table.rows && k in s.home && RowOK(s, k)
    ensures k in AddChain(s, jobs).table.rows && k in AddChain(s, jobs).home && RowOK(AddChain(s, jobs), k)
    ensures AddChain(s, jobs).table.rows[k] == s.table.rows[k] && AddChain(s, jobs).home[k] == s.home[k]
  {
  }

  lemma AddedNewRow(s: Sys, jobs: seq<Job>, i: nat)
    requires 0 < s.table.nextID && AllPrepared(jobs) && i < |jobs|
    ensures var s' := AddChain(s, jobs);
            var id := ChainID(s.table.nextID, |jobs|, i);
            id in s'.table.rows && id in s'.home && s'.home[id] == Slot(|s.chains|, i) && RowOK(s', id)
  {
    var id := ChainID(s.table.nextID, |jobs|, i);
    assert NewSlot(|s.chains|, s.table.nextID, |jobs|, id) == Slot(|s.chains|, i);
    assert ChainRowAt(jobs, s.table.nextID, id) == ChainRow(jobs, s.table.nextID, i);
    assert Prepared(jobs[i]);
  }

  lemma AddedOldChain(s: Sys, jobs: seq<Job>, k: nat)
    requires k < |s.chains| && ChainOK(s, k)
    requires forall id <- s.home :: id < s.table.nextID
    requires s.table.rows.Keys == s.home.Keys
    ensures ChainOK(AddChain(s, jobs), k)
  {
    var s' := AddChain(s, jobs);
    forall id <- s.home ensures s'.home[id] == s.home[id] && s'.table.rows[id] == s.table.rows[id] {
      assert id < s.table.nextID;
    }
  }

  lemma AddChainKept(s: Sys, jobs: seq<Job>)
    requires TableOK(s) && AllPrepared(jobs)
    ensures TableOK(AddChain(s, jobs))
  {
    var s' := AddChain(s, jobs);
    var n, first := |jobs|, s.table.nextID;
    IDsAreBelowNext(s);
    forall id <- s'.table.rows ensures RowOK(s', id) {
      if id in s.table.rows {
        AddedOldRow(s, jobs, id);
      } else {
        AddedNewRow(s, jobs, n - 1 - (id - first));
      }
    }
    forall k | 0 <= k < |s'.chains| ensures ChainOK(s', k) {
      if k < |s.chains| {
        AddedOldChain(s, jobs, k);
      } else {
        forall p | 0 <= p < n ensures s'.chains[k].ids[p] in s'.home && s'.home[s'.chains[k].ids[p]] == Slot(k, p) {
          AddedNewRow(s, jobs, p);
        }
      }
    }
    AddedOneLive(s, jobs);
  }

  lemma AddedOneLive(s: Sys, jobs: seq<Job>)
    requires TableOK(s)
    ensures OneLive(AddChain(s, jobs))
  {
    var s' := AddChain(s, jobs);
    IDsAreBelowNext(s);
    forall a, b | Live(s', a) && Live(s', b) && s'.home[a] == s'.home[b] ensures a == b {
      if a in s.home {
        AddedOldRow(s, jobs, a);
        assert Live(s, a);
      }
      if b in s.home {
        AddedOldRow(s, jobs, b);
        assert Live(s, b);
      }
    }
  }

  // ---------------------------------------------------------------- the runners' part is kept

  lemma LocalKeptByRowChange(cfg: Config, s: Sys, id: nat, j: Job, q: nat)
    requires q < |s.runners| == |cfg.types| && LocalOK(cfg, s, q)
    requires !s.runners[q].Holds(id) && !s.runners[q].Activates(id)
    ensures LocalOK(cfg, SetRow(s, id, j), q)
  {
  }

  /** A started record rules out that a runner is about to activate its position. */
  lemma NotActivated(cfg: Config, s: Sys, id: nat, q: nat)
    requires q < |s.runners| == |cfg.types| && LocalOK(cfg, s, q)
    requires id in s.table.rows && id in s.home
    requires s.table.rows[id].status != OnHold && s.table.rows[id].status != FailedDone
    ensures forall n: nat :: s.runners[q].Activates(n) ==> n in s.home && s.home[n] != s.home[id]
  {
    forall n: nat | s.runners[q].Activates(n) ensures n in s.home && s.home[n] != s.home[id] {
      assert Reached(s, n);
    }
  }

  lemma LocalKeptByClone(cfg: Config, s: Sys, id: nat, copy: Job, clone: Job, q: nat)
    requires Sane(cfg, s) && q < |s.runners| && id in s.table.rows
    requires !s.runners[q].Holds(id)
    requires forall n: nat :: s.runners[q].Activates(n) ==> n in s.home && s.home[n] != s.home[id]
    ensures LocalOK(cfg, AddClone(s, id, copy, clone), q)
  {
    IDsAreBelowNext(s);
    assert LocalOK(cfg, s, q);
  }

  lemma LocalKeptByWin(cfg: Config, s: Sys, id: nat, now: int, q: nat)
    requires Sane(cfg, s) && q < |s.runners| && id in s.table.rows && s.table.rows[id].status == InProcess
    requires !s.runners[q].Holds(id)
    ensures LocalOK(cfg, Won(s, id, now), q)
  {
    assert LocalOK(cfg, s, q);
    assert RowOK(s, id);
    NotActivated(cfg, s, id, q);
  }

  /** Once a record has succeeded, its successor is reached and no runner is activating it yet. */
  lemma SuccessorReached(cfg: Config, s: Sys, id: nat, now: int)
    requires Sane(cfg, s) && id in s.table.rows && s.table.rows[id].status == InProcess
    requires s.table.rows[id].queueJobID != 0
    ensures Reached(Won(s, id, now), s.table.rows[id].queueJobID)
    ensures s.table.rows[id].queueJobID in s.home && s.home[s.table.rows[id].queueJobID].pos == s.home[id].pos + 1
    ensures s.home[s.table.rows[id].queueJobID].chain == s.home[id].chain
    ensures forall q :: 0 <= q < |s.runners| ==> !s.runners[q].Activates(s.table.rows[id].queueJobID)
  {
    var next := s.table.rows[id].queueJobID;
    var at := s.home[id];
    assert RowOK(s, id);
    assert ChainOK(s, at.chain);
    assert next in s.home && s.home[next] == Slot(at.chain, at.pos + 1);
    assert RowOK(s, next);
    forall a <- s.home | s.home[a] == s.home[next] ensures a == next {
      assert RowOK(s, a);
    }
    forall q | 0 <= q < |s.runners| ensures !s.runners[q].Activates(next) {
      assert LocalOK(cfg, s, q);
    }
  }

  lemma LocalKeptByCounters(cfg: Config, s: Sys, id: nat, q: nat)
    requires q < |s.runners| == |cfg.types| && LocalOK(cfg, s, q)
    ensures LocalOK(cfg, CountTry(s, id), q) && LocalOK(cfg, CountRenewal(s, id), q)
  {
  }

  lemma LocalKeptByCancel(cfg: Config, s: Sys, copies: map<nat, Job>, q: nat)
    requires q < |s.runners| == |cfg.types| && LocalOK(cfg, s, q)
    requires forall id <- copies :: CopyOK(s, id, copies[id]) && !s.runners[q].Holds(id)
    ensures LocalOK(cfg, CancelCopies(s, copies), q)
  {
    forall id <- copies | s.runners[q].Activates(id)
      ensures copies[id].status == OnHold && s.table.rows[id].(status := OnHold) == copies[id]
    {
      assert Activated(s, id);
    }
  }

  lemma LocalKeptByNewChain(cfg: Config, s: Sys, jobs: seq<Job>, q: nat)
    requires Sane(cfg, s) && q < |s.runners|
    ensures LocalOK(cfg, AddChain(s, jobs), q)
  {
    assert LocalOK(cfg, s, q);
    IDsAreBelowNext(s);
    var s' := AddChain(s, jobs);
    forall id <- s.table.rows ensures s'.table.rows[id] == s.table.rows[id] && s'.home[id] == s.home[id] {
      assert id < s.table.nextID;
    }
    forall id <- s'.home | id !in s.home ensures s'.home[id].chain == |s.chains| {
    }
    forall id | Reached(s, id) ensures Reached(s', id) {
      assert RowOK(s, id);
    }
  }

  /** Replacing runner r's memory keeps the runners' part when the others keep theirs and the new one does not clash. */
  lemma ReplaceLocal(cfg: Config, s: Sys, s': Sys, r: nat)
    requires |s.runners| == |cfg.types| == |s'.runners| && r < |s.runners| && Exclusive(s)
    requires s'.runners == s.runners[r := s'.runners[r]]
    requires forall q :: 0 <= q < |s.runners| ==> LocalOK(cfg, s', q)
    requires forall q, id :: 0 <= q < |s.runners| && q != r && s'.runners[r].Holds(id) ==> !s.runners[q].Holds(id)
    requires forall q, id :: 0 <= q < |s.runners| && q != r && s'.runners[r].Activates(id) ==>
          !s.runners[q].Activates(id)
    ensures RunnersOK(cfg, s')
  {
  }

  /** Runner r writes row `id`, which no other runner is concerned with. */
  lemma RowStepRunners(cfg: Config, s: Sys, r: nat, id: nat, j: Job, l: Local)
    requires |s.runners| == |cfg.types| && RunnersOK(cfg, s) && r < |s.runners|
    requires forall q :: 0 <= q < |s.runners| && q != r ==> !s.runners[q].Holds(id) && !s.runners[q].Activates(id)
    requires LocalOK(cfg, SetLocal(SetRow(s, id, j), r, l), r)
    requires l == Idle || l == Working(id, j)
    ensures RunnersOK(cfg, SetLocal(SetRow(s, id, j), r, l))
  {
    var s' := SetLocal(SetRow(s, id, j), r, l);
    forall q | 0 <= q < |s.runners| ensures LocalOK(cfg, s', q) {
      if q != r {
        LocalKeptByRowChange(cfg, s, id, j, q);
      }
    }
    ReplaceLocal(cfg, s, s', r);
  }

  /** The runner holding a started record is the only one concerned with it. */
  lemma OnlyHolder(cfg: Config, s: Sys, r: nat, id: nat)
    requires Sane(cfg, s) && r < |s.runners| && s.runners[r].Holds(id)
    ensures id in s.table.rows && id in s.home && RowOK(s, id) && s.home[id].pos == |s.chains[s.home[id].chain].won|
    ensures forall q :: 0 <= q < |s.runners| && q != r ==> !s.runners[q].Holds(id) && !s.runners[q].Activates(id)
  {
    assert LocalOK(cfg, s, r);
    assert RowOK(s, id);
    forall q | 0 <= q < |s.runners| && q != r ensures !s.runners[q].Holds(id) && !s.runners[q].Activates(id) {
      NotActivated(cfg, s, id, q);
    }
  }

  // ---------------------------------------------------------------- each event keeps the invariant

  lemma SelectKeeps(cfg: Config, s: Sys, r: nat, id: nat, now: int)
    requires cfg.Sound() && Sane(cfg, s) && Enabled(cfg, s, Select(r, id, now))
    ensures Sane(cfg, Apply(cfg, s, Select(r, id, now)))
  {
    var s' := Apply(cfg, s, Select(r, id, now));
    forall q | 0 <= q < |s.runners| ensures LocalOK(cfg, s', q) {
      assert LocalOK(cfg, s, q);
    }
    forall q | 0 <= q < |s.runners| && q != r ensures !s.runners[q].Holds(id) {
      assert LocalOK(cfg, s, q);
      assert cfg.types[q] !! cfg.types[r];
    }
    ReplaceLocal(cfg, s, s', r);
    LocalsDoNotMatter(s, s');
  }

  /** The save half of a pop, for a record no other runner holds. */
  lemma TakenKeeps(cfg: Config, s: Sys, r: nat, id: nat, now: int)
    requires Sane(cfg, s) && r < |s.runners|
    requires id in s.table.rows && s.table.rows[id].status == Pending
    requires forall q :: 0 <= q < |s.runners| && q != r ==> !s.runners[q].Holds(id)
    ensures Sane(cfg, Taken(s, r, id, s.table.rows[id], now))
  {
    var j := Started(s.table.rows[id], now);
    var s1 := SetLocal(SetRow(s, id, j), r, Working(id, j));
    assert RowOK(s, id);
    forall q | 0 <= q < |s.runners| ensures !s.runners[q].Activates(id) {
      NotActivated(cfg, s, id, q);
    }
    RowStepRunners(cfg, s, r, id, j, Working(id, j));
    RowChangeKept(s, id, j);
    LocalsDoNotMatter(SetRow(s, id, j), s1);
    CountTryKeeps(cfg, s1, id);
  }

  lemma CountTryKeeps(cfg: Config, s: Sys, id: nat)
    requires Sane(cfg, s)
    ensures Sane(cfg, CountTry(s, id))
  {
    CountersKept(s, id);
    forall q | 0 <= q < |s.runners| ensures LocalOK(cfg, CountTry(s, id), q) {
      LocalKeptByCounters(cfg, s, id, q);
    }
  }

  lemma CountRenewalKeeps(cfg: Config, s: Sys, id: nat)
    requires Sane(cfg, s)
    ensures Sane(cfg, CountRenewal(s, id))
  {
    CountersKept(s, id);
    forall q | 0 <= q < |s.runners| ensures LocalOK(cfg, CountRenewal(s, id), q) {
      LocalKeptByCounters(cfg, s, id, q);
    }
  }

  /** A record is closed and cloned by runner r. */
  lemma CloneRunners(cfg: Config, s: Sys, r: nat, id: nat, clone: Job)
    requires Sane(cfg, s) && id in s.table.rows && r < |s.runners|
    requires s.table.rows[id].status == InProcess
    requires forall q :: 0 <= q < |s.runners| && q != r ==> !s.runners[q].Holds(id)
    ensures RunnersOK(cfg, SetLocal(AddClone(s, id, s.table.rows[id], clone), r, Idle))
  {
    var s1 := AddClone(s, id, s.table.rows[id], clone);
    var s' := SetLocal(s1, r, Idle);
    forall q | 0 <= q < |s.runners| ensures LocalOK(cfg, s', q) {
      if q != r {
        NotActivated(cfg, s, id, q);
        LocalKeptByClone(cfg, s, id, s.table.rows[id], clone, q);
      }
    }
    ReplaceLocal(cfg, s, s', r);
  }

  /** The table part does not mention the runners. */
  lemma LocalsDoNotMatter(s: Sys, s': Sys)
    requires TableOK(s) && s'.table == s.table && s'.home == s.home && s'.chains == s.chains
    ensures TableOK(s')
  {
    forall k <- s.table.rows ensures RowOK(s', k) { assert RowOK(s, k); }
    forall k | 0 <= k < |s.chains| ensures ChainOK(s', k) { assert ChainOK(s, k); }
    SameLive(s, s');
  }

  lemma TakeKeeps(cfg: Config, s: Sys, r: nat, now: int)
    requires Sane(cfg, s) && Enabled(cfg, s, Take(r, now))
    ensures Sane(cfg, Apply(cfg, s, Take(r, now)))
  {
    assert LocalOK(cfg, s, r);
    assert s.runners[r].Holds(s.runners[r].id);
    TakenKeeps(cfg, s, r, s.runners[r].id, now);
  }

  lemma PopKeeps(cfg: Config, s: Sys, r: nat, id: nat, now: int)
    requires Sane(cfg, s) && Enabled(cfg, s, Pop(r, id, now))
    ensures Sane(cfg, Apply(cfg, s, Pop(r, id, now)))
  {
    forall q | 0 <= q < |s.runners| ensures !s.runners[q].Holds(id) {
      assert LocalOK(cfg, s, q);
    }
    TakenKeeps(cfg, s, r, id, now);
  }

  lemma ReturnKeeps(cfg: Config, s: Sys, r: nat, ok: bool)
    requires Sane(cfg, s) && Enabled(cfg, s, Return(r, ok))
    ensures Sane(cfg, Apply(cfg, s, Return(r, ok)))
  {
    var s' := Apply(cfg, s, Return(r, ok));
    var id := s.runners[r].id;
    assert s.runners[r].Holds(id);
    forall q | 0 <= q < |s.runners| ensures LocalOK(cfg, s', q) {
      assert LocalOK(cfg, s, q);
    }
    ReplaceLocal(cfg, s, s', r);
    LocalsDoNotMatter(s, s');
  }

  lemma SaveSuccessTable(cfg: Config, s: Sys, r: nat, now: int)
    requires TableOK(s) && r < |s.runners| && |cfg.types| == |s.runners| && Enabled(cfg, s, SaveSuccess(r, now))
    requires s.runners[r].id in s.table.rows && s.table.rows[s.runners[r].id] == s.runners[r].copy
          && s.runners[r].copy.status == InProcess
    ensures TableOK(Apply(cfg, s, SaveSuccess(r, now)))
  {
    var id := s.runners[r].id;
    WonKept(s, id, now);
    LocalsDoNotMatter(Won(s, id, now), Apply(cfg, s, SaveSuccess(r, now)));
  }

  lemma SaveSuccessKeeps(cfg: Config, s: Sys, r: nat, now: int)
    requires Sane(cfg, s) && Enabled(cfg, s, SaveSuccess(r, now))
    ensures Sane(cfg, Apply(cfg, s, SaveSuccess(r, now)))
  {
    assert LocalOK(cfg, s, r);
    SaveSuccessTable(cfg, s, r, now);
    SaveSuccessRunners(cfg, s, r, now);
  }

  lemma SaveSuccessRunners(cfg: Config, s: Sys, r: nat, now: int)
    requires Sane(cfg, s) && Enabled(cfg, s, SaveSuccess(r, now))
    ensures RunnersOK(cfg, Apply(cfg, s, SaveSuccess(r, now)))
  {
    var id := s.runners[r].id;
    var s' := Apply(cfg, s, SaveSuccess(r, now));
    assert LocalOK(cfg, s, r);
    assert s.runners[r].Holds(id);
    OnlyHolder(cfg, s, r, id);
    if s.table.rows[id].queueJobID != 0 {
      SuccessorReached(cfg, s, id, now);
    }
    forall q | 0 <= q < |s.runners| ensures LocalOK(cfg, s', q) {
      if q != r {
        LocalKeptByWin(cfg, s, id, now, q);
      }
    }
    ReplaceLocal(cfg, s, s', r);
  }

  lemma SaveRetryKeeps(cfg: Config, s: Sys, r: nat, now: int)
    requires Sane(cfg, s) && Enabled(cfg, s, SaveRetry(r, now))
    ensures Sane(cfg, Apply(cfg, s, SaveRetry(r, now)))
  {
    var id := s.runners[r].id;
    var clone := Retried(s.runners[r].copy, now);
    assert LocalOK(cfg, s, r);
    assert s.runners[r].Holds(id);
    OnlyHolder(cfg, s, r, id);
    assert RowOK(s, id) && Live(s, id);
    CloneKept(s, id, s.table.rows[id], clone);
    CloneRunners(cfg, s, r, id, clone);
    LocalsDoNotMatter(AddClone(s, id, s.table.rows[id], clone), Apply(cfg, s, SaveRetry(r, now)));
  }

  lemma SaveFailedKeeps(cfg: Config, s: Sys, r: nat)
    requires Sane(cfg, s) && Enabled(cfg, s, SaveFailed(r))
    ensures Sane(cfg, Apply(cfg, s, SaveFailed(r)))
  {
    var id := s.runners[r].id;
    var j := s.runners[r].copy.(status := Failed);
    assert LocalOK(cfg, s, r);
    assert s.runners[r].Holds(id);
    OnlyHolder(cfg, s, r, id);
    RowChangeKept(s, id, j);
    RowStepRunners(cfg, s, r, id, j, Idle);
    LocalsDoNotMatter(SetRow(s, id, j), Apply(cfg, s, SaveFailed(r)));
  }

  lemma FindNextKeeps(cfg: Config, s: Sys, r: nat)
    requires Sane(cfg, s) && Enabled(cfg, s, FindNext(r))
    ensures Sane(cfg, Apply(cfg, s, FindNext(r)))
  {
    var s' := Apply(cfg, s, FindNext(r));
    var id := s.runners[r].copy.queueJobID;
    assert s.runners[r].Activates(id);
    forall q | 0 <= q < |s.runners| ensures LocalOK(cfg, s', q) {
      assert LocalOK(cfg, s, q);
    }
    ReplaceLocal(cfg, s, s', r);
    LocalsDoNotMatter(s, s');
  }

  lemma SaveNextKeeps(cfg: Config, s: Sys, r: nat)
    requires Sane(cfg, s) && Enabled(cfg, s, SaveNext(r))
    ensures Sane(cfg, Apply(cfg, s, SaveNext(r)))
  {
    var id := s.runners[r].id;
    var j := s.runners[r].copy.(status := Pending);
    assert LocalOK(cfg, s, r) && RowOK(s, id);
    assert s.runners[r].Activates(id);
    assert j == s.table.rows[id].(status := Pending);
    forall q | 0 <= q < |s.runners| && q != r ensures !s.runners[q].Holds(id) && !s.runners[q].Activates(id) {
      assert LocalOK(cfg, s, q);
    }
    RowChangeKept(s, id, j);
    RowStepRunners(cfg, s, r, id, j, Idle);
    LocalsDoNotMatter(SetRow(s, id, j), Apply(cfg, s, SaveNext(r)));
  }

  lemma StopKeeps(cfg: Config, s: Sys, r: nat)
    requires Sane(cfg, s) && r < |s.runners|
    ensures Sane(cfg, SetLocal(s, r, Idle))
  {
    var s' := SetLocal(s, r, Idle);
    forall q | 0 <= q < |s.runners| ensures LocalOK(cfg, s', q) {
      assert LocalOK(cfg, s, q);
    }
    ReplaceLocal(cfg, s, s', r);
    LocalsDoNotMatter(s, s');
  }

  /** A requeue's write, for a record at whose position nothing else is live. */
  lemma RenewKeeps(cfg: Config, s: Sys, id: nat, copy: Job, now: int)
    requires Sane(cfg, s) && CopyOK(s, id, copy) && copy.status == Failed && Alone(s, id)
    ensures Sane(cfg, CountRenewal(AddClone(s, id, copy, Renewed(copy, now)), id))
  {
    var clone := Renewed(copy, now);
    var s1 := AddClone(s, id, copy, clone);
    assert RowOK(s, id);
    CloneKept(s, id, copy, clone);
    forall q | 0 <= q < |s.runners| ensures LocalOK(cfg, s1, q) {
      SpentIsFree(cfg, s, id, q);
      LocalKeptByClone(cfg, s, id, copy, clone, q);
    }
    CountRenewalKeeps(cfg, s1, id);
  }

  /** No runner is concerned with a record that failed. */
  lemma SpentIsFree(cfg: Config, s: Sys, id: nat, q: nat)
    requires q < |s.runners| == |cfg.types| && LocalOK(cfg, s, q) && Spent(s, id)
    ensures !s.runners[q].Holds(id) && !s.runners[q].Activates(id)
    ensures forall n: nat :: s.runners[q].Activates(n) ==> n in s.home && s.home[n] != s.home[id]
  {
    assert !Activated(s, id);
    forall n: nat | s.runners[q].Activates(n) ensures n in s.home && s.home[n] != s.home[id] {
      assert Reached(s, n);
    }
  }

  lemma CloseFailedTable(s: Sys, id: nat, copy: Job)
    requires TableOK(s) && CopyOK(s, id, copy) && copy.status == Failed
    ensures TableOK(SetRow(s, id, copy.(status := FailedDone)))
  {
    CancelKept(s, map[id := copy]);
    OneCancelled(s, id, copy);
  }

  lemma CloseFailedKeeps(cfg: Config, s: Sys, id: nat, copy: Job)
    requires Sane(cfg, s) && CopyOK(s, id, copy) && copy.status == Failed
    ensures Sane(cfg, SetRow(s, id, copy.(status := FailedDone)))
  {
    var j := copy.(status := FailedDone);
    forall q | 0 <= q < |s.runners| ensures LocalOK(cfg, SetRow(s, id, j), q) {
      assert LocalOK(cfg, s, q);
      SpentIsFree(cfg, s, id, q);
      LocalKeptByRowChange(cfg, s, id, j, q);
    }
    CloseFailedTable(s, id, copy);
  }

  lemma AddChainKeeps(cfg: Config, s: Sys, jobs: seq<Job>)
    requires Sane(cfg, s) && AllPrepared(jobs)
    ensures Sane(cfg, AddChain(s, jobs))
  {
    AddChainKept(s, jobs);
    forall q | 0 <= q < |s.runners| ensures LocalOK(cfg, AddChain(s, jobs), q) {
      LocalKeptByNewChain(cfg, s, jobs, q);
    }
  }

  /** A purge's write, when none of the records is held by a runner or has succeeded since it was read. */
  lemma CancelKeeps(cfg: Config, s: Sys, copies: map<nat, Job>)
    requires Sane(cfg, s) && (forall id <- copies :: CopyOK(s, id, copies[id])) && NoneSucceeded(s, copies)
    requires forall q, id :: 0 <= q < |s.runners| && id in copies ==> !s.runners[q].Holds(id)
    ensures Sane(cfg, CancelCopies(s, copies))
  {
    CancelKept(s, copies);
    forall q | 0 <= q < |s.runners| ensures LocalOK(cfg, CancelCopies(s, copies), q) {
      assert LocalOK(cfg, s, q);
      LocalKeptByCancel(cfg, s, copies, q);
    }
  }

  // ---------------------------------------------------------------- what operators remember stays right

  ghost predicate AdvancesAt(s: Sys, s': Sys, id: nat)
    requires id in s.table.rows && id in s.home
  {
    && AtHome(s', id) && s'.home[id] == s.home[id]
    && SameJob(s.table.rows[id], s'.table.rows[id])
    && (Spent(s, id) ==> Spent(s', id))
    && (Untouched(s', id) ==>
          Untouched(s, id) && s'.table.rows[id].(status := OnHold) == s.table.rows[id].(status := OnHold))
  }

  /** Records that failed never run again, and records not yet touched keep their columns. */
  ghost predicate Advances(s: Sys, s': Sys)
    requires s.table.rows.Keys == s.home.Keys
  {
    forall id {:trigger AdvancesAt(s, s', id)} | id in s.table.rows :: AdvancesAt(s, s', id)
  }

  lemma CopyStaysOK(s: Sys, s': Sys, id: nat, copy: Job)
    requires s.table.rows.Keys == s.home.Keys && CopyOK(s, id, copy) && AdvancesAt(s, s', id)
    ensures CopyOK(s', id, copy)
  {
  }

  /** Operators who have not read anything new are still right. */
  lemma OperatorsStayOK(s: Sys, s': Sys)
    requires s.table.rows.Keys == s.home.Keys && OperatorsOK(s) && Advances(s, s') && |s'.operators| == |s.operators|
    requires forall o :: 0 <= o < |s.operators| ==>
      s'.operators[o] == s.operators[o] || s'.operators[o] == Nothing
      || (s.operators[o].Closing? && s'.operators[o].Closing?
          && forall id <- s'.operators[o].copies ::
               id in s.operators[o].copies && s'.operators[o].copies[id] == s.operators[o].copies[id])
    ensures OperatorsOK(s')
  {
    forall o | 0 <= o < |s'.operators| ensures OperatorOK(s', o) {
      assert OperatorOK(s, o);
      forall id <- s'.operators[o].Held() ensures CopyOK(s', id, s'.operators[o].Held()[id]) {
        assert CopyOK(s, id, s.operators[o].Held()[id]);
        assert AdvancesAt(s, s', id);
        CopyStaysOK(s, s', id, s.operators[o].Held()[id]);
      }
    }
  }

  lemma SameTableAdvances(s: Sys, s': Sys)
    requires TableOK(s) && s'.table == s.table && s'.home == s.home && s'.chains == s.chains
          && |s'.runners| == |s.runners|
    requires forall r, id :: 0 <= r < |s.runners| && s'.runners[r].Activates(id) ==> s.runners[r].Activates(id)
    ensures Advances(s, s')
  {
    forall id <- s.table.rows ensures AdvancesAt(s, s', id) {
      assert RowOK(s, id);
      assert Activated(s', id) ==> Activated(s, id);
    }
  }

  /** A runner, or a reader, that changes no row. */
  lemma LocalAdvances(cfg: Config, s: Sys, e: Event)
    requires Sane(cfg, s) && Enabled(cfg, s, e)
    requires e.Select? || e.Return? || e.FindNext? || e.Stop? || e.ReadFailed? || e.ReadForUpload? || e.ReadForPurge?
          || e.Leave?
    ensures Advances(s, Apply(cfg, s, e))
  {
    SameTableAdvances(s, Apply(cfg, s, e));
  }

  /** A begun, unfinished record is neither spent nor untouched. */
  lemma RunningIsTouched(cfg: Config, s: Sys, id: nat)
    requires Sane(cfg, s) && id in s.table.rows
          && (s.table.rows[id].status == Pending || s.table.rows[id].status == InProcess)
    ensures AtHome(s, id) && s.home[id].pos == |s.chains[s.home[id].chain].won|
    ensures !Spent(s, id) && !Untouched(s, id) && !Activated(s, id)
  {
    assert RowOK(s, id);
    forall r | 0 <= r < |s.runners| ensures !s.runners[r].Activates(id) {
      assert LocalOK(cfg, s, r);
      NotActivated(cfg, s, id, r);
    }
  }

  /** The row of a begun record changes, and nothing else that matters here. */
  lemma RowAdvances(cfg: Config, s: Sys, s': Sys, id: nat)
    requires Sane(cfg, s) && id in s.table.rows
          && (s.table.rows[id].status == Pending || s.table.rows[id].status == InProcess)
    requires id in s'.table.rows && SameJob(s.table.rows[id], s'.table.rows[id]) && s'.table.rows[id].status != OnHold
    requires forall k <- s.table.rows :: k != id ==> k in s'.table.rows && s'.table.rows[k] == s.table.rows[k]
    requires forall k <- s.home :: k in s'.home && s'.home[k] == s.home[k]
    requires |s'.chains| == |s.chains| && forall k :: 0 <= k < |s.chains| ==> s'.chains[k].won == s.chains[k].won
    requires |s'.runners| == |s.runners|
    requires forall r, n :: 0 <= r < |s.runners| && s'.runners[r].Activates(n) ==> s.runners[r].Activates(n)
    ensures Advances(s, s')
  {
    RunningIsTouched(cfg, s, id);
    forall k <- s.table.rows ensures AdvancesAt(s, s', k) {
      assert RowOK(s, k);
      assert Activated(s', k) ==> Activated(s, k);
    }
  }

  lemma TakenAdvances(cfg: Config, s: Sys, r: nat, id: nat, now: int)
    requires Sane(cfg, s) && r < |s.runners| && id in s.table.rows && s.table.rows[id].status == Pending
    ensures Advances(s, Taken(s, r, id, s.table.rows[id], now))
  {
    RowAdvances(cfg, s, Taken(s, r, id, s.table.rows[id], now), id);
  }

  lemma SaveSuccessAdvances(cfg: Config, s: Sys, r: nat, now: int)
    requires Sane(cfg, s) && Enabled(cfg, s, SaveSuccess(r, now))
    ensures Advances(s, Apply(cfg, s, SaveSuccess(r, now)))
  {
    var s' := Apply(cfg, s, SaveSuccess(r, now));
    var id := s.runners[r].id;
    var next := s.runners[r].copy.queueJobID;
    assert LocalOK(cfg, s, r);
    RunningIsTouched(cfg, s, id);
    if next != 0 {
      SuccessorReached(cfg, s, id, now);
    }
    forall k <- s.table.rows ensures AdvancesAt(s, s', k) {
      assert RowOK(s, k);
      WonAdvancesAt(s, r, id, now, next, k);
    }
  }

  lemma WonAdvancesAt(s: Sys, r: nat, id: nat, now: int, next: nat, k: nat)
    requires r < |s.runners| && id in s.table.rows && AtHome(s, id) && s.table.rows[id].status == InProcess
    requires next == s.table.rows[id].queueJobID && !Activated(s, id)
    requires s.home[id].pos == |s.chains[s.home[id].chain].won|
    requires next != 0 ==>
               next in s.home && s.home[next].chain == s.home[id].chain && s.home[next].pos == s.home[id].pos + 1
    requires k in s.table.rows && AtHome(s, k)
    ensures AdvancesAt(s, CountWin(SetLocal(SetRow(s, id, Completed(s.table.rows[id], now)), r,
                           if next == 0 then Idle else Finished(Completed(s.table.rows[id], now))), id), k)
  {
    var s' := CountWin(SetLocal(SetRow(s, id, Completed(s.table.rows[id], now)), r,
                       if next == 0 then Idle else Finished(Completed(s.table.rows[id], now))), id);
    assert Activated(s', k) ==> Activated(s, k) || (next != 0 && k == next);
  }

  lemma SaveRetryAdvances(cfg: Config, s: Sys, r: nat, now: int)
    requires Sane(cfg, s) && Enabled(cfg, s, SaveRetry(r, now))
    ensures Advances(s, Apply(cfg, s, SaveRetry(r, now)))
  {
    assert LocalOK(cfg, s, r);
    IDsAreBelowNext(s);
    RowAdvances(cfg, s, Apply(cfg, s, SaveRetry(r, now)), s.runners[r].id);
  }

  lemma SaveFailedAdvances(cfg: Config, s: Sys, r: nat)
    requires Sane(cfg, s) && Enabled(cfg, s, SaveFailed(r))
    ensures Advances(s, Apply(cfg, s, SaveFailed(r)))
  {
    assert LocalOK(cfg, s, r);
    RowAdvances(cfg, s, Apply(cfg, s, SaveFailed(r)), s.runners[r].id);
  }

  lemma SaveNextAdvances(cfg: Config, s: Sys, r: nat)
    requires Sane(cfg, s) && Enabled(cfg, s, SaveNext(r))
    ensures Advances(s, Apply(cfg, s, SaveNext(r)))
  {
    var s' := Apply(cfg, s, SaveNext(r));
    var id := s.runners[r].id;
    assert LocalOK(cfg, s, r) && Reached(s, id);
    assert s.runners[r].Activates(id);
    assert Activated(s, id);
    forall q | 0 <= q < |s'.runners| && q != r ensures !s'.runners[q].Activates(id) {
    }
    forall k <- s.table.rows ensures AdvancesAt(s, s', k) {
      assert RowOK(s, k);
      assert Activated(s', k) ==> Activated(s, k);
    }
  }

  lemma NewChainAdvances(s: Sys, jobs: seq<Job>)
    requires TableOK(s)
    ensures Advances(s, AddChain(s, jobs))
  {
    IDsAreBelowNext(s);
    forall id <- s.table.rows ensures AdvancesAt(s, AddChain(s, jobs), id) {
      AddedOldRow(s, jobs, id);
      assert RowOK(s, id);
      assert Activated(AddChain(s, jobs), id) == Activated(s, id);
    }
  }

  lemma RenewAdvances(s: Sys, id: nat, copy: Job, now: int)
    requires TableOK(s) && CopyOK(s, id, copy) && copy.status == Failed
    ensures Advances(s, CountRenewal(AddClone(s, id, copy, Renewed(copy, now)), id))
  {
    var s' := CountRenewal(AddClone(s, id, copy, Renewed(copy, now)), id);
    IDsAreBelowNext(s);
    forall k <- s.table.rows ensures AdvancesAt(s, s', k) {
      assert RowOK(s, k);
      assert Activated(s', k) == Activated(s, k);
    }
  }

  lemma CancelAdvances(s: Sys, copies: map<nat, Job>)
    requires TableOK(s) && forall id <- copies :: CopyOK(s, id, copies[id])
    ensures Advances(s, CancelCopies(s, copies))
  {
    var s' := CancelCopies(s, copies);
    forall k <- s.table.rows ensures AdvancesAt(s, s', k) {
      assert RowOK(s, k);
      assert Activated(s', k) == Activated(s, k);
      if k in copies {
        assert CopyOK(s, k, copies[k]);
      }
    }
  }

  lemma AdvancesTwice(s: Sys, s1: Sys, s2: Sys)
    requires s.table.rows.Keys == s.home.Keys && s1.table.rows.Keys == s1.home.Keys && Advances(s, s1)
          && Advances(s1, s2)
    ensures Advances(s, s2)
  {
    forall id <- s.table.rows ensures AdvancesAt(s, s2, id) {
      assert AdvancesAt(s, s1, id) && AdvancesAt(s1, s2, id);
    }
  }

  lemma NextIsInSameChain(s: Sys, id: nat)
    requires TableOK(s) && id in s.table.rows
    ensures s.table.rows[id].queueJobID in s.home ==> s.home[s.table.rows[id].queueJobID].chain == s.home[id].chain
  {
    var next := s.table.rows[id].queueJobID;
    assert RowOK(s, id);
    assert ChainOK(s, s.home[id].chain);
    if next in s.home {
      assert RowOK(s, next);
      assert next > 0;
    }
  }

  lemma RunStep(cfg: Config, s: Sys, e: Event, rest: seq<Event>)
    requires |cfg.types| == |s.runners| && Enabled(cfg, s, e) && Run(cfg, Apply(cfg, s, e), rest)
    ensures Run(cfg, s, [e] + rest) && After(cfg, s, [e] + rest) == After(cfg, Apply(cfg, s, e), rest)
  {
    assert ([e] + rest)[1..] == rest;
  }

  // ---------------------------------------------------------------- stale writes

  /** An operator's write that finds nothing else live at the record's position; a purge's write that finds none of the
      records it cancels with a runner, or successful. */
  ghost predicate Safe(cfg: Config, s: Sys, e: Event)
    requires |cfg.types| == |s.runners| && Enabled(cfg, s, e)
  {
    match e
    case SaveRenewal(o, _) => s.operators[o].id in s.home && Alone(s, s.operators[o].id)
    case SavePurge(o, _) =>
      forall id <- s.operators[o].copies ::
        && (id in s.table.rows ==> s.table.rows[id].status != Successful)
        && forall r :: 0 <= r < |s.runners| ==> !s.runners[r].Holds(id)
    case _ => true
  }

  lemma RenewalStep(cfg: Config, s: Sys, o: nat, now: int)
    requires Inv(cfg, s) && Enabled(cfg, s, SaveRenewal(o, now))
    ensures Safe(cfg, s, SaveRenewal(o, now)) <==> Inv(cfg, Apply(cfg, s, SaveRenewal(o, now)))
  {
    var m := s.operators[o];
    var s' := Apply(cfg, s, SaveRenewal(o, now));
    assert OperatorOK(s, o) && m.id in m.Held();
    assert CopyOK(s, m.id, m.copy);
    if Alone(s, m.id) {
      RenewKeeps(cfg, s, m.id, m.copy, now);
      RenewAdvances(s, m.id, m.copy, now);
      SameOperatorsElsewhere(cfg, CountRenewal(AddClone(s, m.id, m.copy, Renewed(m.copy, now)), m.id), o, Nothing);
      SetOperatorAdvances(s, CountRenewal(AddClone(s, m.id, m.copy, Renewed(m.copy, now)), m.id), o, Nothing);
      OperatorsStayOK(s, s');
    } else {
      var a :| Live(s, a) && s.home[a] == s.home[m.id] && a != m.id;
      IDsAreBelowNext(s);
      assert Live(s', a) && Live(s', s.table.nextID) && s'.home[a] == s'.home[s.table.nextID];
      assert !OneLive(s');
    }
  }

  lemma SameOperatorsElsewhere(cfg: Config, s: Sys, o: nat, m: Memory)
    requires Sane(cfg, s) && o < |s.operators|
    ensures Sane(cfg, SetOperator(s, o, m))
  {
    LocalsDoNotMatter(s, SetOperator(s, o, m));
    forall r | 0 <= r < |s.runners| ensures LocalOK(cfg, SetOperator(s, o, m), r) {
      assert LocalOK(cfg, s, r);
    }
  }

  lemma SetOperatorAdvances(s: Sys, s1: Sys, o: nat, m: Memory)
    requires s.table.rows.Keys == s.home.Keys && Advances(s, s1) && o < |s1.operators|
    ensures Advances(s, SetOperator(s1, o, m))
  {
    forall id <- s.table.rows ensures AdvancesAt(s, SetOperator(s1, o, m), id) {
      assert AdvancesAt(s, s1, id);
      assert Activated(SetOperator(s1, o, m), id) == Activated(s1, id);
    }
  }

  lemma PurgeSafeStep(cfg: Config, s: Sys, o: nat, jobs: seq<Job>)
    requires Inv(cfg, s) && Enabled(cfg, s, SavePurge(o, jobs)) && Safe(cfg, s, SavePurge(o, jobs))
    ensures Inv(cfg, Apply(cfg, s, SavePurge(o, jobs)))
  {
    var copies := s.operators[o].copies;
    var s1 := CancelCopies(s, copies);
    var s2 := AddChain(s1, jobs);
    assert OperatorOK(s, o) && s.operators[o].Held() == copies;
    CancelKeeps(cfg, s, copies);
    CancelAdvances(s, copies);
    AddChainKeeps(cfg, s1, jobs);
    NewChainAdvances(s1, jobs);
    AdvancesTwice(s, s1, s2);
    SameOperatorsElsewhere(cfg, s2, o, Nothing);
    SetOperatorAdvances(s, s2, o, Nothing);
    OperatorsStayOK(s, SetOperator(s2, o, Nothing));
  }

  /** What a purge's write does to the rows it cancels, and to chains. */
  lemma PurgeWrites(s: Sys, copies: map<nat, Job>, jobs: seq<Job>, id: nat)
    requires TableOK(s) && id in copies && id in s.table.rows
    ensures var s2 := AddChain(CancelCopies(s, copies), jobs);
            id in s2.table.rows && s2.table.rows[id] == copies[id].(status := FailedDone)
            && s2.home[id] == s.home[id] && forall k :: 0 <= k < |s.chains| ==> s2.chains[k] == s.chains[k]
  {
    IDsAreBelowNext(s);
  }

  lemma ClosingASuccess(s: Sys, s': Sys, id: nat)
    requires TableOK(s) && id in s.table.rows && s.table.rows[id].status == Successful
    requires id in s'.table.rows && s'.table.rows[id].status == FailedDone
    requires |s'.chains| >= |s.chains| && forall k :: 0 <= k < |s.chains| ==> s'.chains[k] == s.chains[k]
    ensures !TableOK(s')
  {
    var at := s.home[id];
    assert RowOK(s, id);
    assert ChainOK(s, at.chain);
    assert Live(s, id) && Live(s, s.chains[at.chain].won[at.pos]);
    assert !ChainOK(s', at.chain);
  }

  /** Closing a record that has succeeded, or that a runner holds. */
  lemma PurgeUnsafeStep(cfg: Config, s: Sys, o: nat, jobs: seq<Job>)
    requires Inv(cfg, s) && Enabled(cfg, s, SavePurge(o, jobs)) && !Safe(cfg, s, SavePurge(o, jobs))
    ensures !Sane(cfg, Apply(cfg, s, SavePurge(o, jobs)))
  {
    var copies := s.operators[o].copies;
    var s' := Apply(cfg, s, SavePurge(o, jobs));
    var id :| id in copies && ((id in s.table.rows && s.table.rows[id].status == Successful)
                               || exists r :: 0 <= r < |s.runners| && s.runners[r].Holds(id));
    assert OperatorOK(s, o) && id in s.operators[o].Held();
    PurgeWrites(s, copies, jobs, id);
    if s.table.rows[id].status == Successful {
      ClosingASuccess(s, s', id);
    } else {
      var r :| 0 <= r < |s.runners| && s.runners[r].Holds(id);
      ClosingAHeldRecord(cfg, s, s', id, r);
    }
  }

  lemma ClosingAHeldRecord(cfg: Config, s: Sys, s': Sys, id: nat, r: nat)
    requires |s.runners| == |cfg.types| && r < |s.runners| && LocalOK(cfg, s, r) && s.runners[r].Holds(id)
    requires s'.runners == s.runners && id in s'.table.rows && s'.table.rows[id].status == FailedDone
    ensures !Sane(cfg, s')
  {
    assert !LocalOK(cfg, s', r);
  }

  /** The read half of an operator's action: what is remembered is what the table says. */
  lemma ReadStep(cfg: Config, s: Sys, o: nat, m: Memory)
    requires Inv(cfg, s) && o < |s.operators|
    requires forall id <- m.Held() :: id in s.table.rows && m.Held()[id] == s.table.rows[id]
    requires forall id <- m.Held() ::
          s.table.rows[id].status == Failed || (m.Purging? && s.table.rows[id].status == OnHold)
    ensures Inv(cfg, SetOperator(s, o, m))
  {
    var s' := SetOperator(s, o, m);
    SameOperatorsElsewhere(cfg, s, o, m);
    SameTableAdvances(s, s');
    forall p | 0 <= p < |s'.operators| ensures OperatorOK(s', p) {
      if p != o {
        assert OperatorOK(s, p);
        forall id <- s.operators[p].Held() ensures CopyOK(s', id, s.operators[p].Held()[id]) {
          assert CopyOK(s, id, s.operators[p].Held()[id]);
          assert AdvancesAt(s, s', id);
          CopyStaysOK(s, s', id, s.operators[p].Held()[id]);
        }
      } else {
        forall id <- m.Held() ensures CopyOK(s', id, m.Held()[id]) {
          assert RowOK(s, id);
          if s.table.rows[id].status == Failed {
            forall r | 0 <= r < |s.runners| ensures !s.runners[r].Activates(id) {
              assert LocalOK(cfg, s, r);
              NotActivated(cfg, s, id, r);
            }
          }
        }
        assert m.Requeuing? ==> m.id in m.Held() && m.Held()[m.id] == m.copy;
      }
    }
  }

  lemma OneCancelled(s: Sys, id: nat, copy: Job)
    ensures CancelCopies(s, map[id := copy]) == SetRow(s, id, copy.(status := FailedDone))
  {
    assert CancelCopies(s, map[id := copy]).table.rows == SetRow(s, id, copy.(status := FailedDone)).table.rows;
  }

  lemma ClosedWrite(cfg: Config, s: Sys, id: nat, copy: Job)
    requires Sane(cfg, s) && CopyOK(s, id, copy) && copy.status == Failed
    ensures Sane(cfg, SetRow(s, id, copy.(status := FailedDone)))
          && Advances(s, SetRow(s, id, copy.(status := FailedDone)))
  {
    CloseFailedKeeps(cfg, s, id, copy);
    CancelAdvances(s, map[id := copy]);
    OneCancelled(s, id, copy);
  }

  lemma ClosedStep(cfg: Config, s: Sys, o: nat, id: nat)
    requires Inv(cfg, s) && Enabled(cfg, s, SaveClosed(o, id))
    ensures Inv(cfg, Apply(cfg, s, SaveClosed(o, id)))
  {
    var copies := s.operators[o].copies;
    var s1 := SetRow(s, id, copies[id].(status := FailedDone));
    assert OperatorOK(s, o) && s.operators[o].Held() == copies;
    ClosedWrite(cfg, s, id, copies[id]);
    SameOperatorsElsewhere(cfg, s1, o, Closing(Forgotten(copies, id)));
    SetOperatorAdvances(s, s1, o, Closing(Forgotten(copies, id)));
    OperatorsStayOK(s, SetOperator(s1, o, Closing(Forgotten(copies, id))));
  }

  /** A runner's event, or a new chain. */
  lemma RunnerStep(cfg: Config, s: Sys, e: Event)
    requires cfg.Sound() && Inv(cfg, s) && Enabled(cfg, s, e)
    requires e.QueueChain? || e.Select? || e.Take? || e.Pop? || e.Return? || e.SaveSuccess? || e.SaveRetry?
          || e.SaveFailed?
             || e.FindNext? || e.SaveNext? || e.Stop?
    ensures Inv(cfg, Apply(cfg, s, e))
  {
    match e {
      case QueueChain(jobs) =>
        AddChainKeeps(cfg, s, jobs);
        NewChainAdvances(s, jobs);
      case Select(r, id, now) =>
        SelectKeeps(cfg, s, r, id, now);
        LocalAdvances(cfg, s, e);
      case Take(r, now) =>
        TakeKeeps(cfg, s, r, now);
        assert LocalOK(cfg, s, r);
        TakenAdvances(cfg, s, r, s.runners[r].id, now);
      case Pop(r, id, now) =>
        PopKeeps(cfg, s, r, id, now);
        TakenAdvances(cfg, s, r, id, now);
      case Return(r, ok) =>
        ReturnKeeps(cfg, s, r, ok);
        LocalAdvances(cfg, s, e);
      case SaveSuccess(r, now) =>
        SaveSuccessKeeps(cfg, s, r, now);
        SaveSuccessAdvances(cfg, s, r, now);
      case SaveRetry(r, now) =>
        SaveRetryKeeps(cfg, s, r, now);
        SaveRetryAdvances(cfg, s, r, now);
      case SaveFailed(r) =>
        SaveFailedKeeps(cfg, s, r);
        SaveFailedAdvances(cfg, s, r);
      case FindNext(r) =>
        FindNextKeeps(cfg, s, r);
        LocalAdvances(cfg, s, e);
      case SaveNext(r) =>
        SaveNextKeeps(cfg, s, r);
        SaveNextAdvances(cfg, s, r);
      case Stop(r) =>
        StopKeeps(cfg, s, r);
        LocalAdvances(cfg, s, e);
    }
    OperatorsStayOK(s, Apply(cfg, s, e));
  }

  /** An event keeps the invariant exactly when it is not an unsafe write of an operator. */
  lemma StepKeepsExactly(cfg: Config, s: Sys, e: Event)
    requires cfg.Sound() && Inv(cfg, s) && Enabled(cfg, s, e)
    ensures Inv(cfg, Apply(cfg, s, e)) <==> Safe(cfg, s, e)
  {
    match e
    case ReadFailed(o, id) => ReadStep(cfg, s, o, Requeuing(id, s.table.rows[id]));
    case SaveRenewal(o, now) => RenewalStep(cfg, s, o, now);
    case ReadForUpload(o, issue) => ReadStep(cfg, s, o, Closing(FailedJobs(s.table, issue)));
    case SaveClosed(o, id) => ClosedStep(cfg, s, o, id);
    case ReadForPurge(o, issue, _) => ReadStep(cfg, s, o, Purging(Cancellable(s.table, issue)));
    case SavePurge(o, jobs) =>
      if Safe(cfg, s, e) {
        PurgeSafeStep(cfg, s, o, jobs);
      } else {
        PurgeUnsafeStep(cfg, s, o, jobs);
      }
    case Leave(o) => ReadStep(cfg, s, o, Nothing);
    case _ => RunnerStep(cfg, s, e);
  }

  /** Every write of an operator in the run is safe. */
  ghost predicate Careful(cfg: Config, s: Sys, events: seq<Event>)
    requires Run(cfg, s, events)
    decreases |events|
  {
    events == [] || (Safe(cfg, s, events[0]) && Careful(cfg, Apply(cfg, s, events[0]), events[1..]))
  }

  ghost predicate InvThroughout(cfg: Config, s: Sys, events: seq<Event>)
    requires Run(cfg, s, events)
    decreases |events|
  {
    Inv(cfg, s) && (events == [] || InvThroughout(cfg, Apply(cfg, s, events[0]), events[1..]))
  }

  /** The invariant holds at every point of a run exactly when every write of an operator in it is safe. */
  lemma {:induction false} RunKeepsExactly(cfg: Config, s: Sys, events: seq<Event>)
    requires cfg.Sound() && Inv(cfg, s) && Run(cfg, s, events)
    ensures InvThroughout(cfg, s, events) <==> Careful(cfg, s, events)
    decreases |events|
  {
    if events != [] {
      StepKeepsExactly(cfg, s, events[0]);
      if Safe(cfg, s, events[0]) {
        RunKeepsExactly(cfg, Apply(cfg, s, events[0]), events[1..]);
      } else {
        assert !Inv(cfg, Apply(cfg, s, events[0]));
      }
    }
  }

  lemma {:induction false} RunKeeps(cfg: Config, s: Sys, events: seq<Event>)
    requires cfg.Sound() && Inv(cfg, s) && Run(cfg, s, events) && Careful(cfg, s, events)
    ensures Inv(cfg, After(cfg, s, events))
    decreases |events|
  {
    if events != [] {
      StepKeepsExactly(cfg, s, events[0]);
      RunKeeps(cfg, Apply(cfg, s, events[0]), events[1..]);
    }
  }
}
