/** The jobs table, the in-memory job record, and the database writes the job code makes
    (src/models/job.go, src/jobs/queue.go).  Every table operation has a pure form on `Table`;
    the class `JobTable` performs it in place. */
module JobModel {
  import opened Words

  /** A directory path as its list of components; the empty path stands for "". */
  type Path = seq<string>

  datatype WorkflowStep =
    | WSNil | WSSFTP | WSScan | WSAwaitingProcessing | WSAwaitingPageReview | WSReadyForMetadataEntry
    | WSAwaitingMetadataReview | WSUnfixableMetadataError | WSReadyForMETSXML | WSReadyForBatching | WSInProduction

  datatype JobType =
    | TSetIssueWS | TSetIssueBackupLoc | TSetIssueLocation | TIgnoreIssue | TSetBatchStatus | TPageSplit
    | TMakeDerivatives | TMoveDerivatives | TBuildMETS | TArchiveBackups | TSetBatchLocation
    | TCreateBatchStructure | TMakeBatchXML | TWriteActionLog | TWriteBagitManifest | TSyncDir | TKillDir
    | TRenameDir | TCleanFiles | TRenumberPages | TIssueAction

  /** A job's type together with its decoded arguments. */
  datatype Work =
    | SetIssueWS(step: WorkflowStep)
    | SetIssueBackupLoc(loc: Path)
    | SetIssueLocation(loc: Path)
    | IgnoreIssue
    | SetBatchStatus(batchStatus: string)
    | PageSplit(loc: Path)
    | MakeDerivatives(forced: bool)
    | MoveDerivatives(loc: Path)
    | BuildMETS(forced: bool)
    | ArchiveBackups
    | SetBatchLocation(loc: Path)
    | CreateBatchStructure(loc: Path)
    | MakeBatchXML
    | WriteActionLog
    | WriteBagitManifest
    | SyncDir(src: Path, dest: Path)
    | KillDir(loc: Path)
    | RenameDir(src: Path, dest: Path)
    | CleanFiles(loc: Path)
    | RenumberPages
    | IssueAction(message: string)
  {
    function Type(): JobType {
      match this
      case SetIssueWS(_) => TSetIssueWS
      case SetIssueBackupLoc(_) => TSetIssueBackupLoc
      case SetIssueLocation(_) => TSetIssueLocation
      case IgnoreIssue => TIgnoreIssue
      case SetBatchStatus(_) => TSetBatchStatus
      case PageSplit(_) => TPageSplit
      case MakeDerivatives(_) => TMakeDerivatives
      case MoveDerivatives(_) => TMoveDerivatives
      case BuildMETS(_) => TBuildMETS
      case ArchiveBackups => TArchiveBackups
      case SetBatchLocation(_) => TSetBatchLocation
      case CreateBatchStructure(_) => TCreateBatchStructure
      case MakeBatchXML => TMakeBatchXML
      case WriteActionLog => TWriteActionLog
      case WriteBagitManifest => TWriteBagitManifest
      case SyncDir(_, _) => TSyncDir
      case KillDir(_) => TKillDir
      case RenameDir(_, _) => TRenameDir
      case CleanFiles(_) => TCleanFiles
      case RenumberPages => TRenumberPages
      case IssueAction(_) => TIssueAction
    }
  }

  datatype Target = NoTarget | IssueTarget(id: nat) | BatchTarget(id: nat)

  datatype Status = OnHold | Pending | InProcess | Successful | Failed | FailedDone

  /** One row of the jobs table, without its id.  `queueJobID == 0` means no next job. */
  datatype Job = Job(
    work: Work, target: Target, status: Status, retryCount: nat,
    runAt: int, createdAt: int, startedAt: int, completedAt: int, queueJobID: nat)

  function NewJob(work: Work, now: int): Job {
    Job(work, NoTarget, Pending, 0, now, now, 0, 0, 0)
  }

  function IssueJob(work: Work, issueID: nat, now: int): Job {
    NewJob(work, now).(target := IssueTarget(issueID))
  }

  /** A job as the builders hand it to QueueSerial: pending, never tried, not yet linked. */
  predicate Prepared(j: Job) {
    j.status == Pending && j.retryCount == 0 && j.queueJobID == 0
  }

  const MAX_RETRIES: nat := 25

  // ---------------------------------------------------------------- retry delay

  const SECOND: int := 1_000_000_000
  const MAX_DELAY: int := 24 * 60 * 60 * SECOND

  function Pow2(n: nat): nat {
    if n == 0 then 1 else 2 * Pow2(n - 1)
  }

  /** The delay before try number `retryCount`, as the code computes it on a 64-bit duration. */
  function Delay(retryCount: nat): int {
    var delay := Wrap64(SECOND * Pow2(retryCount + 3));
    if delay > MAX_DELAY then MAX_DELAY else delay
  }

  lemma {:induction false} Pow2Monotone(a: nat, b: nat)
    requires a <= b
    ensures 0 < Pow2(a) <= Pow2(b)
  {
    if a < b {
      Pow2Monotone(a, b - 1);
    } else if a > 0 {
      Pow2Monotone(a - 1, b - 1);
    }
  }

  lemma Pow2Of28()
    ensures Pow2(28) == 0x1000_0000
  {
    assert Pow2(4) == 16;
    assert Pow2(8) == 256;
    assert Pow2(12) == 4096;
    assert Pow2(16) == 65536;
    assert Pow2(20) == 0x10_0000;
    assert Pow2(24) == 0x100_0000;
  }

  /** No retry count a job can reach overflows the shift: the delay is the capped power of two. */
  lemma BackoffIsCappedDoubling(retryCount: nat)
    requires retryCount <= MAX_RETRIES
    ensures Delay(retryCount) == if SECOND * Pow2(retryCount + 3) <= MAX_DELAY then SECOND * Pow2(retryCount + 3)
          else MAX_DELAY
    ensures 0 < Delay(retryCount) <= MAX_DELAY
  {
    Pow2Monotone(retryCount + 3, 28);
    Pow2Of28();
    assert 0 < SECOND * Pow2(retryCount + 3) < TWO_63;
  }

  /** How long the retry of a job that was retried `retryCount` times waits: 2^(retryCount + 4) seconds, or a day. */
  function Wait(retryCount: nat): int {
    SECOND * if Pow2(retryCount + 4) <= 86_400 then Pow2(retryCount + 4) else 86_400
  }

  lemma DelayIsWait(retryCount: nat)
    requires retryCount < MAX_RETRIES
    ensures Delay(retryCount + 1) == Wait(retryCount)
  {
    BackoffIsCappedDoubling(retryCount + 1);
  }

  /** Later retries never wait less than earlier ones. */
  lemma BackoffNeverShrinks(a: nat, b: nat)
    requires a <= b <= MAX_RETRIES
    ensures Delay(a) <= Delay(b)
  {
    BackoffIsCappedDoubling(a);
    BackoffIsCappedDoubling(b);
    Pow2Monotone(a + 3, b + 3);
  }

  // ---------------------------------------------------------------- pure table operations

  datatype Table = Table(rows: map<nat, Job>, nextID: nat)

  function Insert(t: Table, j: Job): Table {
    Table(t.rows[t.nextID := j], t.nextID + 1)
  }

  function Put(t: Table, id: nat, j: Job): Table {
    t.(rows := t.rows[id := j])
  }

  /** A record as it is when it is inserted: the database sets the time of creation, the others are not written. */
  function Cloned(j: Job, now: int): Job {
    j.(createdAt := now, startedAt := 0, completedAt := 0)
  }

  function Retried(j: Job, now: int): Job {
    Cloned(j, now).(status := Pending, retryCount := j.retryCount + 1, runAt := now + Delay(j.retryCount + 1))
  }

  function Renewed(j: Job, now: int): Job {
    Cloned(j, now).(status := Pending, retryCount := 0, runAt := now)
  }

  /** Close `id` with the in-memory copy and queue a replacement, in one transaction. */
  function CloseAndClone(t: Table, id: nat, copy: Job, clone: Job): Table {
    Put(Insert(t, clone), id, copy.(status := FailedDone))
  }

  /** Where QueueSerialOp puts jobs[i]: the last job is saved first. */
  function ChainID(firstID: nat, n: nat, i: nat): nat
    requires i < n
  {
    firstID + (n - 1 - i)
  }

  /** jobs[i] as QueueSerialOp saves it. */
  function ChainRow(jobs: seq<Job>, firstID: nat, i: nat): Job
    requires i < |jobs|
  {
    jobs[i].(queueJobID := if i + 1 < |jobs| then ChainID(firstID, |jobs|, i + 1) else 0,
             status := if i == 0 then jobs[i].status else OnHold)
  }

  /** The record of the chain that is saved under `id`. */
  function ChainRowAt(jobs: seq<Job>, firstID: nat, id: nat): Job
    requires firstID <= id < firstID + |jobs|
  {
    ChainRow(jobs, firstID, |jobs| - 1 - (id - firstID))
  }

  /** The rows QueueSerialOp has saved when the jobs from index `from` on are done. */
  function ChainRows(jobs: seq<Job>, firstID: nat, from: nat): map<nat, Job>
    requires from <= |jobs|
  {
    map id | firstID <= id < firstID + (|jobs| - from) :: ChainRowAt(jobs, firstID, id)
  }

  lemma ChainRowsGrow(base: map<nat, Job>, jobs: seq<Job>, firstID: nat, i: nat)
    requires i < |jobs|
    ensures base + ChainRows(jobs, firstID, i)
         == (base + ChainRows(jobs, firstID, i + 1))[firstID + (|jobs| - i - 1) := ChainRow(jobs, firstID, i)]
  {
    assert ChainRowAt(jobs, firstID, firstID + (|jobs| - i - 1)) == ChainRow(jobs, firstID, i);
  }

  function QueueSerialTable(t: Table, jobs: seq<Job>): Table {
    Table(t.rows + ChainRows(jobs, t.nextID, 0), t.nextID + |jobs|)
  }

  predicate Runnable(j: Job, types: set<JobType>, now: int) {
    j.status == Pending && j.runAt <= now && j.work.Type() in types
  }

  function Started(j: Job, now: int): Job {
    j.(status := InProcess, startedAt := now)
  }

  function Completed(j: Job, now: int): Job {
    j.(status := Successful, completedAt := now)
  }

  /** The next job made pending, whatever its status was; a missing row changes nothing. */
  function Activated(rows: map<nat, Job>, id: nat): map<nat, Job> {
    if id in rows then rows[id := rows[id].(status := Pending)] else rows
  }

  /** A success saved and the next job activated. */
  function Succeeded(rows: map<nat, Job>, id: nat, copy: Job, now: int): map<nat, Job> {
    Activated(rows[id := Completed(copy, now)], copy.queueJobID)
  }

  /** What a pop hands to its runner. */
  datatype Popped = NoJob | PoppedJob(id: nat, copy: Job)

  /** The saved chain is linked front to back, and only its first job can run. */
  lemma QueueSerialLinksChain(t: Table, jobs: seq<Job>, i: nat)
    requires i < |jobs|
    ensures var q := QueueSerialTable(t, jobs);
            var id := ChainID(t.nextID, |jobs|, i);
            && id in q.rows
            && q.rows[id].work == jobs[i].work
            && q.rows[id].target == jobs[i].target
            && q.rows[id].status == (if i == 0 then jobs[0].status else OnHold)
            && q.rows[id].queueJobID == (if i + 1 < |jobs| then ChainID(t.nextID, |jobs|, i + 1) else 0)
  {
    var id := ChainID(t.nextID, |jobs|, i);
    assert ChainRowAt(jobs, t.nextID, id) == ChainRow(jobs, t.nextID, i);
  }

  // ---------------------------------------------------------------- the table in place

  class JobTable {
    var rows: map<nat, Job>
    var nextID: nat

    constructor ()
      ensures rows == map[] && nextID == 1
    {
      rows, nextID := map[], 1;
    }

    ghost predicate Valid()
      reads this
    {
      0 < nextID && forall id <- rows :: 0 < id < nextID
    }

    ghost function View(): Table
      reads this
    {
      Table(rows, nextID)
    }

    /** Save a record that has no id yet. */
    method SaveNew(j: Job) returns (id: nat)
      requires Valid()
      modifies this
      ensures Valid() && id == old(nextID) && View() == Insert(old(View()), j)
    {
      id := nextID;
      rows := rows[id := j];
      nextID := nextID + 1;
    }

    /** Save a record over its row; every column is written. */
    method Save(id: nat, j: Job)
      requires Valid() && id in rows
      modifies `rows
      ensures Valid() && View() == Put(old(View()), id, j)
    {
      rows := rows[id := j];
    }

    /** The oldest runnable job of the given types is marked in-process; none found leaves the table alone. */
    method PopNextPendingJob(types: set<JobType>, now: int) returns (popped: Popped)
      requires Valid()
      modifies `rows
      ensures Valid()
      ensures popped.PoppedJob? <==> exists k <- old(rows) :: Runnable(old(rows)[k], types, now)
      ensures popped.NoJob? ==> rows == old(rows)
      ensures popped.PoppedJob? ==>
        && popped.id in old(rows)
        && Runnable(old(rows)[popped.id], types, now)
        && popped.copy == Started(old(rows)[popped.id], now)
        && View() == Put(old(View()), popped.id, popped.copy)
        && forall k <- old(rows) :: Runnable(old(rows)[k], types, now) ==>
             old(rows)[popped.id].createdAt <= old(rows)[k].createdAt
    {
      var left := rows.Keys;
      popped := NoJob;
      while left != {}
        invariant left <= rows.Keys && rows == old(rows)
        invariant popped.PoppedJob? <==> exists k <- rows.Keys - left :: Runnable(rows[k], types, now)
        invariant popped.PoppedJob? ==>
              popped.id in rows && popped.copy == rows[popped.id] && Runnable(popped.copy, types, now)
        invariant popped.PoppedJob? ==> forall k <- rows.Keys - left :: Runnable(rows[k], types, now) ==>
              popped.copy.createdAt <= rows[k].createdAt
        decreases |left|
      {
        var k :| k in left;
        left := left - {k};
        if Runnable(rows[k], types, now) && (popped.NoJob? || rows[k].createdAt < popped.copy.createdAt) {
          popped := PoppedJob(k, rows[k]);
        }
      }
      if popped.PoppedJob? {
        popped := PoppedJob(popped.id, Started(popped.copy, now));
        rows := rows[popped.id := popped.copy];
      }
    }

    /** Close the job and queue its next try. */
    method FailAndRetry(id: nat, copy: Job, now: int) returns (cloneID: nat)
      requires Valid() && id in rows
      modifies this
      ensures Valid() && cloneID == old(nextID)
      ensures View() == CloseAndClone(old(View()), id, copy, Retried(copy, now))
      ensures copy.retryCount < MAX_RETRIES ==>
        var clone := rows[cloneID];
        && clone.status == Pending && clone.retryCount == copy.retryCount + 1
        && clone.createdAt == now && clone.runAt == now + Wait(copy.retryCount)
        && clone.work == copy.work && clone.target == copy.target && clone.queueJobID == copy.queueJobID
    {
      if copy.retryCount < MAX_RETRIES {
        DelayIsWait(copy.retryCount);
      }
      cloneID := SaveNew(Retried(copy, now));
      Save(id, copy.(status := FailedDone));
    }

    /** Replace a dead job by a fresh one; refused unless the job failed for good. */
    method RenewDeadJob(id: nat, copy: Job, now: int) returns (ok: bool)
      requires Valid() && id in rows
      modifies this
      ensures Valid() && (ok <==> copy.status == Failed)
      ensures View() == if ok then CloseAndClone(old(View()), id, copy, Renewed(copy, now)) else old(View())
      ensures ok ==>
        var clone := rows[old(nextID)];
        && clone.status == Pending && clone.retryCount == 0 && clone.createdAt == clone.runAt == now
        && clone.work == copy.work && clone.target == copy.target && clone.queueJobID == copy.queueJobID
    {
      ok := copy.status == Failed;
      if ok {
        var _ := SaveNew(Renewed(copy, now));
        Save(id, copy.(status := FailedDone));
      }
    }

    /** Save the jobs last to first, each linked to the one saved before it. */
    method QueueSerial(jobs: seq<Job>)
      requires Valid()
      modifies this
      ensures Valid() && View() == QueueSerialTable(old(View()), jobs)
    {
      var lastJobID := 0;
      var i := |jobs|;
      ghost var first := nextID;
      while i > 0
        invariant 0 <= i <= |jobs|
        invariant Valid()
        invariant nextID == first + (|jobs| - i)
        invariant lastJobID == if i == |jobs| then 0 else ChainID(first, |jobs|, i)
        invariant rows == old(rows) + ChainRows(jobs, first, i)
      {
        i := i - 1;
        var j := jobs[i].(queueJobID := lastJobID);
        if i != 0 {
          j := j.(status := OnHold);
        }
        ChainRowsGrow(old(rows), jobs, first, i);
        lastJobID := SaveNew(j);
      }
    }
  }

  /** What a runner does with a job record in memory once Process has returned (src/jobs/runner.go). */
  class Runner {
    const db: JobTable

    constructor (db: JobTable)
      ensures this.db == db
    {
      this.db := db;
    }

    /** Mark the next job pending; a missing row is only logged. */
    method QueueNextJob(copy: Job)
      requires db.Valid()
      modifies db`rows
      ensures db.Valid() && db.rows == Activated(old(db.rows), copy.queueJobID)
    {
      var qid := copy.queueJobID;
      if qid == 0 || qid !in db.rows {
        return;
      }
      db.Save(qid, db.rows[qid].(status := Pending));
    }

    method HandleSuccess(id: nat, copy: Job, now: int)
      requires db.Valid() && id in db.rows
      modifies db`rows
      ensures db.Valid() && db.rows == Succeeded(old(db.rows), id, copy, now)
    {
      db.Save(id, Completed(copy, now));
      QueueNextJob(copy);
    }

    /** A failed try is cloned for another try until the retries are used up. */
    method AttemptRetry(id: nat, copy: Job, now: int)
      requires db.Valid() && id in db.rows
      modifies db
      ensures db.Valid()
      ensures db.View() == if copy.retryCount < MAX_RETRIES
                           then CloseAndClone(old(db.View()), id, copy, Retried(copy, now))
                           else Put(old(db.View()), id, copy.(status := Failed))
    {
      if copy.retryCount >= MAX_RETRIES {
        db.Save(id, copy.(status := Failed));
        return;
      }
      var _ := db.FailAndRetry(id, copy, now);
    }
  }

  // ---------------------------------------------------------------- when a retried job is handed out

  /** After a failed try that can be repeated: no pop before 2^(count + 4) seconds, or a day, have passed hands out the
      new job; from then on a pop for its type hands it out, or one that was not created later. */
  method RetryThenPop(runner: Runner, id: nat, copy: Job, now: int, types: set<JobType>, later: int)
    returns (popped: Popped)
    requires runner.db.Valid() && id in runner.db.rows && copy.retryCount < 25
    modifies runner.db
    ensures later < now + Wait(copy.retryCount) ==> popped.NoJob? || popped.id != old(runner.db.nextID)
    ensures now + Wait(copy.retryCount) <= later && copy.work.Type() in types ==>
      popped.PoppedJob? && (popped.id == old(runner.db.nextID) || popped.copy.createdAt <= now)
  {
    DelayIsWait(copy.retryCount);
    ghost var clone := runner.db.nextID;
    runner.AttemptRetry(id, copy, now);
    assert runner.db.rows[clone] == Retried(copy, now);
    popped := runner.db.PopNextPendingJob(types, later);
  }

  // ---------------------------------------------------------------- job types per runner

  /** The job types `watchall` gives to its four runners (src/cmd/run-jobs/main.go). */
  const WATCH_ALL: seq<set<JobType>> := [
    {TArchiveBackups, TMoveDerivatives, TSyncDir, TKillDir, TWriteBagitManifest},
    {TPageSplit, TMakeDerivatives},
    {TBuildMETS, TCreateBatchStructure, TMakeBatchXML, TRenameDir, TCleanFiles, TWriteActionLog, TRenumberPages},
    {TSetIssueWS, TSetIssueBackupLoc, TSetIssueLocation, TIgnoreIssue, TSetBatchStatus, TSetBatchLocation, TIssueAction}
  ]

  predicate PairwiseDisjoint(types: seq<set<JobType>>) {
    forall i, j :: 0 <= i < j < |types| ==> types[i] !! types[j]
  }

  /** Every job type is watched by exactly one of the runners. */
  lemma WatchAllCoversEveryTypeOnce(t: JobType)
    ensures PairwiseDisjoint(WATCH_ALL)
    ensures exists i :: 0 <= i < |WATCH_ALL| && t in WATCH_ALL[i]
  {
    assert t in WATCH_ALL[0] || t in WATCH_ALL[1] || t in WATCH_ALL[2] || t in WATCH_ALL[3];
  }
}
