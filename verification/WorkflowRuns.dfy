/** The life of an issue: what curators, reviewers, managers, the batch fixer and queued jobs do to its workflow row,
    in any order (src/cmd/server/internal/workflowhandler, src/cmd/batch-fixer, src/cmd/run-jobs/page_scanner.go,
    src/cmd/purge-dead-issues/main.go, src/jobs/queue.go). */
module WorkflowRuns {
  import opened JobModel
  import opened Pipelines
  import opened Workflow

  /** The steps a queued chain will still set, in order. */
  type Writes = seq<WorkflowStep>

  /** The issue row, and the chains queued for the issue that still have a step to set.  A chain carries the steps it
      was queued with: they do not depend on what happens to the row in the meantime. */
  datatype Flow = Flow(row: State, queued: seq<Writes>)

  // ---------------------------------------------------------------- what the chains set

  const UPLOAD: Writes := [WSAwaitingProcessing, WSAwaitingPageReview]
  const DERIVE: Writes := [WSAwaitingProcessing, WSReadyForMetadataEntry]
  const FINALIZE: Writes := [WSReadyForBatching]
  const REMOVE: Writes := [WSUnfixableMetadataError]

  /** The chain that rebuilds derivatives and METS of an issue found in the given step. */
  function RebuildWorks(current: WorkflowStep): seq<Work> {
    [SetIssueWS(WSAwaitingProcessing), MakeDerivatives(true), BuildMETS(true), SetIssueWS(current),
     IssueAction("Force-regenerated issue derivatives")]
  }

  function Rebuild(current: WorkflowStep): Writes {
    [WSAwaitingProcessing, current]
  }

  function StepsSet(works: seq<Work>): Writes {
    if works == [] then []
    else if works[0].SetIssueWS? then [works[0].step] + StepsSet(works[1..])
    else StepsSet(works[1..])
  }

  lemma {:induction false} StepsSetJoin(a: seq<Work>, b: seq<Work>)
    ensures StepsSet(a + b) == StepsSet(a) + StepsSet(b)
  {
    if a == [] {
      assert a + b == b;
    } else {
      StepsSetJoin(a[1..], b);
      assert (a + b)[1..] == a[1..] + b;
    }
  }

  lemma {:induction false} NoStepSet(works: seq<Work>)
    requires forall k :: 0 <= k < |works| ==> !works[k].SetIssueWS?
    ensures StepsSet(works) == []
  {
    if works != [] {
      NoStepSet(works[1..]);
    }
  }

  /** A first step, others that set none, and a last step before the final action. */
  lemma FirstAndLast(works: seq<Work>, n: nat)
    requires 3 <= n == |works| && works[0].SetIssueWS? && works[n - 2].SetIssueWS? && !works[n - 1].SetIssueWS?
    requires forall k :: 0 < k < n - 2 ==> !works[k].SetIssueWS?
    ensures StepsSet(works) == [works[0].step, works[n - 2].step]
  {
    var middle, last := works[1..n - 2], works[n - 2..];
    NoStepSet(middle);
    NoStepSet(last[1..]);
    StepsSetJoin(middle, last);
    assert works[1..] == middle + last;
  }

  lemma OnlyLast(works: seq<Work>, n: nat)
    requires 2 <= n == |works| && works[n - 2].SetIssueWS? && !works[n - 1].SetIssueWS?
    requires forall k :: 0 <= k < n - 2 ==> !works[k].SetIssueWS?
    ensures StepsSet(works) == [works[n - 2].step]
  {
    var front, last := works[..n - 2], works[n - 2..];
    NoStepSet(front);
    NoStepSet(last[1..]);
    StepsSetJoin(front, last);
    assert works == front + last;
  }

  /** The steps that the queued job chains set. */
  lemma ChainsSet(pl: Pipeline, current: WorkflowStep)
    ensures StepsSet(pl.Works()) ==
            match pl
            case Upload(_, _, _, _, _) => UPLOAD
            case Derive(_, _, _) => DERIVE
            case Finalize(_, _, _) => FINALIZE
            case Remove(_, _, _, _) => REMOVE
    ensures StepsSet(RebuildWorks(current)) == Rebuild(current)
  {
    var works := pl.Works();
    FirstAndLast(RebuildWorks(current), 5);
    if pl.Upload? {
      UploadSteps(pl);
    } else if pl.Derive? {
      FirstAndLast(works, 10);
    } else {
      OnlyLast(works, |works|);
    }
  }

  lemma UploadSteps(pl: Pipeline)
    requires pl.Upload?
    ensures StepsSet(pl.Works()) == UPLOAD
  {
    FirstAndLast(pl.Works(), 17);
  }

  // ---------------------------------------------------------------- runs

  /** What people, commands and queued jobs do.  JobStep(k) is the k-th queued chain setting its next step. */
  datatype Event =
    | Claim(u: User, now: nat)
    | Unclaim(u: User, now: nat)
    | Queue(u: User, now: nat)
    | Report(u: User, now: nat)
    | Approve(u: User, now: nat)
    | Reject(u: User, now: nat)
    | ReturnForCuration(u: User, desk: int, now: nat)
    | ReturnForReview(u: User, desk: int, now: nat)
    | Remove(u: User, now: nat)
    | RemoveFromPageReview
    | PageReviewDone
    | Purge
    | JobStep(k: nat)
    | AddToBatch
    | DropBatch
    | FixerReport
    | FixerReject(now: nat)
    | QueueRebuild

  predicate Enabled(f: Flow, e: Event) {
    var s := f.row;
    match e
    case Claim(u, now) => u.id > 0 && MayClaim(u, s, now)
    case Unclaim(u, now) => Owns(u, s, now)
    case Queue(u, now) => MayEnter(u, s, now)
    case Report(u, now) => MayEnter(u, s, now)
    case Approve(u, now) => MayReview(u, s, now)
    case Reject(u, now) => MayReview(u, s, now)
    case ReturnForCuration(u, _, now) => MayReviewUnfixable(u, s, now)
    case ReturnForReview(u, _, now) => MayReviewUnfixable(u, s, now)
    case Remove(u, now) => MayReviewUnfixable(u, s, now)
    case RemoveFromPageReview => s.step == WSAwaitingPageReview
    case PageReviewDone => s.step == WSAwaitingPageReview
    case Purge => s.step == WSAwaitingProcessing && !s.inBatch && f.queued != []
    case JobStep(k) => k < |f.queued| && f.queued[k] != []
    case AddToBatch => s.step == WSReadyForBatching && !s.inBatch
    case DropBatch => s.inBatch
    case FixerReport => s.inBatch
    case FixerReject(_) => s.inBatch
    case QueueRebuild => s.inBatch
  }

  /** The row alone. */
  function RowAfter(f: Flow, e: Event): State
    requires Enabled(f, e)
  {
    var s := f.row;
    match e
    case Claim(u, now) => Claimed(s, u.id, now)
    case Unclaim(_, _) => Unclaimed(s)
    case Queue(u, now) => Queued(s, u.id, now)
    case Report(_, _) => Reported(s)
    case Approve(u, _) => Approved(s, u.id, ReviewOwnMetadata in u.may)
    case Reject(u, now) => Rejected(s, u.id, now)
    case ReturnForCuration(_, desk, now) => Returned(s, WSReadyForMetadataEntry, desk, now)
    case ReturnForReview(_, desk, now) => Returned(s, WSAwaitingMetadataReview, desk, now)
    case Remove(_, _) => Removing(s)
    case RemoveFromPageReview => Removing(s)
    case PageReviewDone => s.(step := WSAwaitingProcessing)
    case Purge => s
    case JobStep(k) => s.(step := f.queued[k][0])
    case AddToBatch => s.(inBatch := true)
    case DropBatch => s.(inBatch := false)
    case FixerReport => Reported(s.(inBatch := false))
    case FixerReject(now) => Rejected(s.(inBatch := false), SYSTEM_USER, now)
    case QueueRebuild => s
  }

  /** The queued chains after the k-th has set a step. */
  function Advanced(queued: seq<Writes>, k: nat): seq<Writes>
    requires k < |queued| && queued[k] != []
  {
    if |queued[k]| == 1 then queued[..k] + queued[k + 1..] else queued[k := queued[k][1..]]
  }

  /** The queued chains alone.  A purge cancels what is left of every chain and queues a removal. */
  function QueuedAfter(f: Flow, e: Event): seq<Writes>
    requires Enabled(f, e)
  {
    match e
    case Approve(_, _) => f.queued + [FINALIZE]
    case Remove(_, _) => f.queued + [REMOVE]
    case RemoveFromPageReview => f.queued + [REMOVE]
    case PageReviewDone => f.queued + [DERIVE]
    case Purge => [REMOVE]
    case JobStep(k) => Advanced(f.queued, k)
    case QueueRebuild => f.queued + [Rebuild(f.row.step)]
    case _ => f.queued
  }

  function Apply(f: Flow, e: Event): Flow
    requires Enabled(f, e)
  {
    Flow(RowAfter(f, e), QueuedAfter(f, e))
  }

  predicate Run(f: Flow, events: seq<Event>)
    decreases |events|
  {
    events == [] || (Enabled(f, events[0]) && Run(Apply(f, events[0]), events[1..]))
  }

  function After(f: Flow, events: seq<Event>): Flow
    requires Run(f, events)
    decreases |events|
  {
    if events == [] then f else After(Apply(f, events[0]), events[1..])
  }

  /** A new issue, from the scanner or uploaded. */
  function Start(scanned: bool): Flow {
    Flow(State(WSAwaitingProcessing, 0, 0, 0, 0, 0, false, false), [if scanned then DERIVE else UPLOAD])
  }

  // ---------------------------------------------------------------- what should hold

  /** An issue in an automated step is on nobody's desk; what is ready for METS or for a batch was properly reviewed
      since it was last queued, rejected or reported; an issue that awaits processing has a chain that will move it on.
      */
  predicate Safe(f: Flow) {
    && (Automated(f.row.step) ==> f.row.owner == 0)
    && (f.row.step == WSReadyForMETSXML || f.row.step == WSReadyForBatching ==> f.row.reviewed)
    && (f.row.step == WSAwaitingProcessing ==> f.queued != [])
  }

  /** The batch fixer takes an issue out of its batch only when no chain is queued for it, and rebuilds are queued only
      for issues that are ready for batching. */
  predicate Careful(f: Flow, e: Event) {
    match e
    case FixerReport => f.queued == []
    case FixerReject(_) => f.queued == []
    case QueueRebuild => f.row.step == WSReadyForBatching
    case _ => true
  }

  predicate CarefulRun(f: Flow, events: seq<Event>)
    decreases |events|
  {
    events == [] || (Enabled(f, events[0]) && Careful(f, events[0]) && CarefulRun(Apply(f, events[0]), events[1..]))
  }

  // ---------------------------------------------------------------- what every careful run keeps

  /** Nothing is queued and the issue waits for somebody. */
  predicate Resting(f: Flow) {
    var s := f.row;
    && f.queued == []
    && s.step in {WSAwaitingPageReview, WSReadyForMetadataEntry, WSAwaitingMetadataReview, WSUnfixableMetadataError,
         WSReadyForBatching}
    && (Automated(s.step) ==> s.owner == 0)
    && (s.step == WSReadyForBatching ==> s.reviewed)
    && (s.inBatch ==> s.step == WSReadyForBatching)
  }

  /** One chain other than a rebuild is on its way. */
  predicate Moving(f: Flow) {
    var s := f.row;
    && |f.queued| == 1 && s.owner == 0 && !s.inBatch
    && ((s.step == WSAwaitingProcessing && f.queued[0] in {UPLOAD, UPLOAD[1..], DERIVE, DERIVE[1..], REMOVE})
        || (s.step == WSReadyForMETSXML && f.queued[0] == FINALIZE && s.reviewed))
  }

  predicate Rebuilds(writes: Writes) {
    writes == Rebuild(WSReadyForBatching) || writes == [WSReadyForBatching]
  }

  /** Any number of rebuilds are on their way, each at its own pace. */
  predicate Rebuilding(f: Flow) {
    var s := f.row;
    && f.queued != [] && s.owner == 0 && s.reviewed
    && s.step in {WSAwaitingProcessing, WSReadyForBatching}
    && forall k :: 0 <= k < |f.queued| ==> Rebuilds(f.queued[k])
  }

  predicate Inv(f: Flow) {
    RowOK(f.row) && (Resting(f) || Moving(f) || Rebuilding(f))
  }

  lemma RebuildAdvances(f: Flow, k: nat)
    requires Rebuilding(f) && k < |f.queued|
    ensures Enabled(f, JobStep(k)) && (Resting(Apply(f, JobStep(k))) || Rebuilding(Apply(f, JobStep(k))))
    ensures Apply(f, JobStep(k)).row.owner == f.row.owner && Apply(f, JobStep(k)).row.expires == f.row.expires
  {
    assert Rebuilds(f.queued[k]);
    var after := Advanced(f.queued, k);
    forall j | 0 <= j < |after| ensures Rebuilds(after[j]) {
      if |f.queued[k]| == 1 {
        assert after[j] == if j < k then f.queued[j] else f.queued[j + 1];
      } else if j == k {
        assert after[j] == [WSReadyForBatching];
      }
    }
  }

  lemma JobStepKeeps(f: Flow, k: nat)
    requires Inv(f) && Enabled(f, JobStep(k))
    ensures Inv(Apply(f, JobStep(k)))
  {
    if Rebuilding(f) {
      RebuildAdvances(f, k);
    }
  }

  lemma CarefulStepKeeps(f: Flow, e: Event)
    requires Inv(f) && Enabled(f, e) && Careful(f, e)
    ensures Inv(Apply(f, e))
  {
    if e.JobStep? {
      JobStepKeeps(f, e.k);
    }
  }

  lemma {:induction false} CarefulRunKeeps(f: Flow, events: seq<Event>)
    requires Inv(f) && CarefulRun(f, events)
    ensures Run(f, events) && Inv(After(f, events))
    decreases |events|
  {
    if events != [] {
      CarefulStepKeeps(f, events[0]);
      CarefulRunKeeps(Apply(f, events[0]), events[1..]);
    }
  }

  /** In every careful run, and so whenever neither the batch fixer nor a rebuild comes in, the issue is safe at every
      point; also, the system user owns nothing and a desk and its time go together. */
  lemma WorkflowIsSafe(scanned: bool, events: seq<Event>)
    requires CarefulRun(Start(scanned), events)
    ensures Run(Start(scanned), events)
    ensures var f := After(Start(scanned), events);
            Safe(f) && f.row.owner != SYSTEM_USER && (f.row.owner == 0 <==> f.row.expires == 0)
  {
    CarefulRunKeeps(Start(scanned), events);
  }

  // ---------------------------------------------------------------- exactly when a run stays safe

  /** However carefully things go on from here, they stay safe. */
  ghost predicate StaysSafe(f: Flow) {
    forall events: seq<Event> :: CarefulRun(f, events) ==> Run(f, events) && Safe(After(f, events))
  }

  lemma InvStaysSafe(f: Flow)
    requires Inv(f)
    ensures StaysSafe(f)
  {
    forall events: seq<Event> | CarefulRun(f, events) ensures Run(f, events) && Safe(After(f, events)) {
      CarefulRunKeeps(f, events);
    }
  }

  lemma OneStep(f: Flow, e: Event)
    requires Enabled(f, e) && Careful(f, e) && StaysSafe(f)
    ensures StaysSafe(Apply(f, e))
  {
    forall events: seq<Event> | CarefulRun(Apply(f, e), events)
      ensures Run(Apply(f, e), events) && Safe(After(Apply(f, e), events))
    {
      var longer := [e] + events;
      assert longer[1..] == events;
      assert CarefulRun(f, longer);
      assert Run(f, longer) && After(f, longer) == After(Apply(f, e), events);
    }
  }

  lemma SafeNow(f: Flow)
    requires StaysSafe(f)
    ensures Safe(f)
  {
    assert CarefulRun(f, []);
    assert After(f, []) == f;
  }

  /** A rebuild that comes in after the issue lost its review ends with the issue ready for batching. */
  lemma LateRebuildBreaks(f: Flow)
    requires !f.row.reviewed && f.queued != [] && Rebuilds(f.queued[0])
    ensures !StaysSafe(f)
  {
    if StaysSafe(f) {
      var g := Apply(f, JobStep(0));
      OneStep(f, JobStep(0));
      SafeNow(g);
      if |f.queued[0]| == 2 {
        OneStep(g, JobStep(0));
        SafeNow(Apply(g, JobStep(0)));
      }
      assert false;
    }
  }

  function Left(queued: seq<Writes>): nat {
    if queued == [] then 0 else |queued[0]| + Left(queued[1..])
  }

  /** A chain queued to put the issue back where it is, awaiting processing, ends with nothing to move it on. */
  lemma {:induction false} StrandingBreaks(f: Flow, chains: seq<Writes>)
    requires f.queued == chains + [Rebuild(WSAwaitingProcessing)] && forall k :: 0 <= k < |chains| ==> chains[k] != []
    ensures !StaysSafe(f)
    decreases Left(chains)
  {
    if StaysSafe(f) {
      var g := Apply(f, JobStep(0));
      OneStep(f, JobStep(0));
      if chains == [] {
        assert g.queued == [[WSAwaitingProcessing]];
        OneStep(g, JobStep(0));
        SafeNow(Apply(g, JobStep(0)));
      } else {
        var rest := Advanced(chains, 0);
        assert g.queued == rest + [Rebuild(WSAwaitingProcessing)];
        assert if |chains[0]| == 1 then rest == chains[1..] else rest[1..] == chains[1..];
        StrandingBreaks(g, rest);
      }
      assert false;
    }
  }

  /** After one more event of any kind, careful continuations stay safe exactly when the event was careful. */
  lemma EventIsSafeExactly(f: Flow, e: Event)
    requires Inv(f) && Enabled(f, e)
    ensures StaysSafe(Apply(f, e)) <==> Careful(f, e)
  {
    if Careful(f, e) {
      CarefulStepKeeps(f, e);
      InvStaysSafe(Apply(f, e));
    } else {
      assert Rebuilding(f);
      assert Rebuilds(f.queued[0]);
      if e.QueueRebuild? {
        forall k | 0 <= k < |f.queued| ensures f.queued[k] != [] {
          assert Rebuilds(f.queued[k]);
        }
        StrandingBreaks(Apply(f, e), f.queued);
      } else {
        LateRebuildBreaks(Apply(f, e));
      }
    }
  }

  /** At every point of the run, careful continuations stay safe. */
  ghost predicate SafeThroughout(f: Flow, events: seq<Event>)
    requires Run(f, events)
    decreases |events|
  {
    StaysSafe(f) && (events != [] ==> SafeThroughout(Apply(f, events[0]), events[1..]))
  }

  lemma {:induction false} SafeThroughoutExactly(f: Flow, events: seq<Event>)
    requires Inv(f) && Run(f, events)
    ensures SafeThroughout(f, events) <==> CarefulRun(f, events)
    decreases |events|
  {
    InvStaysSafe(f);
    if events != [] {
      EventIsSafeExactly(f, events[0]);
      if Careful(f, events[0]) {
        CarefulStepKeeps(f, events[0]);
        SafeThroughoutExactly(Apply(f, events[0]), events[1..]);
      }
    }
  }

  /** A run of an issue's life, queued jobs interleaved with everything else in any way, stays safe, now and however
      carefully it goes on, exactly when it is careful. */
  lemma RunIsSafeExactly(scanned: bool, events: seq<Event>)
    requires Run(Start(scanned), events)
    ensures SafeThroughout(Start(scanned), events) <==> CarefulRun(Start(scanned), events)
  {
    SafeThroughoutExactly(Start(scanned), events);
  }

  // ---------------------------------------------------------------- who gets a rejected issue back

  /** Who rejected the issue last: a reviewer, the system user for the batch fixer, nobody. */
  function LastRejecter(events: seq<Event>): int
    decreases |events|
  {
    if events == [] then 0
    else
      var last := events[|events| - 1];
      if last.Reject? then last.u.id
      else if last.FixerReject? then SYSTEM_USER
      else LastRejecter(events[..|events| - 1])
  }

  lemma {:induction false} FrontOfRun(f: Flow, events: seq<Event>)
    requires events != [] && Run(f, events)
    ensures var front, last := events[..|events| - 1], events[|events| - 1];
            Run(f, front) && Enabled(After(f, front), last) && After(f, events) == Apply(After(f, front), last)
    decreases |events|
  {
    if |events| > 1 {
      FrontOfRun(Apply(f, events[0]), events[1..]);
      assert events[1..][..|events| - 2] == events[..|events| - 1][1..];
    }
  }

  lemma {:induction false} RejecterIsRemembered(f: Flow, events: seq<Event>)
    requires Run(f, events) && f.row.rejectedBy == 0
    ensures After(f, events).row.rejectedBy == LastRejecter(events)
    decreases |events|
  {
    if events != [] {
      FrontOfRun(f, events);
      RejecterIsRemembered(f, events[..|events| - 1]);
    }
  }

  /** At any point of any run, metadata that is queued goes to the desk of the reviewer who rejected the issue last;
      to nobody's, if that was the batch fixer or the issue was never rejected. */
  lemma RejectedComesBack(scanned: bool, events: seq<Event>, curator: User, now: nat)
    requires Run(Start(scanned), events) && Enabled(After(Start(scanned), events), Queue(curator, now))
    ensures var q := Apply(After(Start(scanned), events), Queue(curator, now)).row;
            && q.step == WSAwaitingMetadataReview && q.curator == curator.id
            && q.owner == (if LastRejecter(events) > 0 then LastRejecter(events) else 0)
            && (q.owner != 0 ==> IsOwned(q, now))
  {
    RejecterIsRemembered(Start(scanned), events);
  }

  // ---------------------------------------------------------------- whose desk an issue is on

  /** Who queued the metadata last; 0 when nobody has. */
  function LastCurator(events: seq<Event>): int
    decreases |events|
  {
    if events == [] then 0
    else
      var last := events[|events| - 1];
      if last.Queue? then last.u.id else LastCurator(events[..|events| - 1])
  }

  lemma {:induction false} CuratorIsRemembered(f: Flow, events: seq<Event>)
    requires Run(f, events) && f.row.curator == 0
    ensures After(f, events).row.curator == LastCurator(events)
    decreases |events|
  {
    if events != [] {
      FrontOfRun(f, events);
      CuratorIsRemembered(f, events[..|events| - 1]);
    }
  }

  /** Nobody's desk, or somebody's since a time. */
  datatype Desk = Nobodys | DeskOf(owner: int, since: nat)
  {
    /** A desk is kept for a week. */
    predicate Taken(now: nat) {
      DeskOf? && now < since + 604_800
    }

    predicate TakenBy(u: User, now: nat) {
      Taken(now) && owner == u.id
    }
  }

  function GivenTo(id: int, now: nat, otherwise: Desk): Desk {
    if id > 0 then DeskOf(id, now) else otherwise
  }

  /** The desk, as people would tell it from what has happened: a claim puts the issue on one's own desk; a rejection, a
      reviewer's or the batch fixer's, on the desk of whoever entered the metadata; metadata that is queued goes to the
      desk of whoever rejected it last; a manager may name a desk; everything else that ends work on it clears it. */
  function DeskAfter(events: seq<Event>): Desk
    decreases |events|
  {
    if events == [] then Nobodys
    else
      var front := events[..|events| - 1];
      match events[|events| - 1]
      case Claim(u, now) => DeskOf(u.id, now)
      case Unclaim(_, _) => Nobodys
      case Queue(_, now) => GivenTo(LastRejecter(front), now, Nobodys)
      case Report(_, _) => Nobodys
      case Approve(_, _) => Nobodys
      case Reject(_, now) => GivenTo(LastCurator(front), now, DeskAfter(front))
      case ReturnForCuration(_, desk, now) => GivenTo(desk, now, Nobodys)
      case ReturnForReview(_, desk, now) => GivenTo(desk, now, Nobodys)
      case Remove(_, _) => Nobodys
      case RemoveFromPageReview => Nobodys
      case FixerReport => Nobodys
      case FixerReject(now) => GivenTo(LastCurator(front), now, DeskAfter(front))
      case _ => DeskAfter(front)
  }

  predicate OnDesk(s: State, desk: Desk) {
    match desk
    case Nobodys => s.owner == 0 && s.expires == 0
    case DeskOf(owner, since) => s.owner == owner > 0 && s.expires == since + 604_800
  }

  lemma DeskStep(f: Flow, front: seq<Event>, e: Event)
    requires Enabled(f, e) && OnDesk(f.row, DeskAfter(front))
    requires f.row.rejectedBy == LastRejecter(front) && f.row.curator == LastCurator(front)
    ensures OnDesk(Apply(f, e).row, DeskAfter(front + [e]))
  {
    assert (front + [e])[..|front|] == front;
  }

  /** At every point of every run the row says whose desk the issue is on. */
  lemma {:induction false} DeskOverRuns(scanned: bool, events: seq<Event>)
    requires Run(Start(scanned), events)
    ensures OnDesk(After(Start(scanned), events).row, DeskAfter(events))
    decreases |events|
  {
    if events != [] {
      var front, last := events[..|events| - 1], events[|events| - 1];
      FrontOfRun(Start(scanned), events);
      DeskOverRuns(scanned, front);
      RejecterIsRemembered(Start(scanned), front);
      CuratorIsRemembered(Start(scanned), front);
      DeskStep(After(Start(scanned), front), front, last);
      assert events == front + [last];
    }
  }

  /** At any point of any run, who may do what: work on the issue, only from one's own desk and with the privilege for
      its step; claim it, only from a desk that is nobody's any more; and nobody reviews metadata they entered, except
      with the privilege for that. */
  lemma WhoMayAct(scanned: bool, events: seq<Event>, u: User, now: nat)
    requires Run(Start(scanned), events)
    ensures var f, desk := After(Start(scanned), events), DeskAfter(events);
            var notOwn := u.id == LastCurator(events) ==> ReviewOwnMetadata in u.may;
            var mayReview := ReviewIssueMetadata in u.may && notOwn;
            var mine := desk.TakenBy(u, now);
            && (Enabled(f, Unclaim(u, now)) <==> mine)
            && (Enabled(f, Queue(u, now))
                <==> mine && f.row.step == WSReadyForMetadataEntry && EnterIssueMetadata in u.may)
            && (Enabled(f, Report(u, now)) <==> Enabled(f, Queue(u, now)))
            && (Enabled(f, Approve(u, now)) <==> mine && f.row.step == WSAwaitingMetadataReview && mayReview)
            && (Enabled(f, Reject(u, now)) <==> Enabled(f, Approve(u, now)))
            && (Enabled(f, Event.Remove(u, now))
                <==> mine && f.row.step == WSUnfixableMetadataError && ReviewUnfixableIssues in u.may)
            && (Enabled(f, Claim(u, now))
                <==> u.id > 0 && !desk.Taken(now)
                     && ((f.row.step == WSReadyForMetadataEntry && EnterIssueMetadata in u.may)
                         || (f.row.step == WSAwaitingMetadataReview && mayReview)
                         || (f.row.step == WSUnfixableMetadataError && ReviewUnfixableIssues in u.may)))
  {
    DeskOverRuns(scanned, events);
    CuratorIsRemembered(Start(scanned), events);
  }

  /** A rejected issue, by a reviewer or by the batch fixer, is back on the desk of whoever queued its metadata last:
      for seven days only they may enter metadata, and nobody may claim it; after that, anybody permitted may. */
  lemma RejectedLands(scanned: bool, events: seq<Event>, e: Event, u: User, now: nat)
    requires Run(Start(scanned), events) && Enabled(After(Start(scanned), events), e)
    requires (e.Reject? || e.FixerReject?) && LastCurator(events) > 0
    ensures var g := Apply(After(Start(scanned), events), e);
            && g.row.step == WSReadyForMetadataEntry && g.row.owner == LastCurator(events)
            && if now < e.now + 604_800 then
                 && !Enabled(g, Claim(u, now))
                 && (Enabled(g, Queue(u, now)) <==> u.id == LastCurator(events) && EnterIssueMetadata in u.may)
               else
                 && (Enabled(g, Claim(u, now)) <==> u.id > 0 && EnterIssueMetadata in u.may)
                 && !Enabled(g, Queue(u, now))
  {
    var f := After(Start(scanned), events);
    DeskOverRuns(scanned, events);
    RejecterIsRemembered(Start(scanned), events);
    CuratorIsRemembered(Start(scanned), events);
    DeskStep(f, events, e);
    assert (events + [e])[..|events|] == events;
  }

  /** A reviewer who rejects metadata that nobody queued, because a manager had returned the issue for review, keeps the
      issue on their own desk. */
  lemma RejectedWithoutCurator(scanned: bool, events: seq<Event>, u: User, now: nat)
    requires Run(Start(scanned), events) && Enabled(After(Start(scanned), events), Reject(u, now))
    requires LastCurator(events) <= 0
    ensures var f := After(Start(scanned), events);
            var s := Apply(f, Reject(u, now)).row;
            s.step == WSReadyForMetadataEntry && s.owner == u.id && s.expires == f.row.expires
  {
    CuratorIsRemembered(Start(scanned), events);
  }

  /** Who may claim the issue next: after an error was reported, managers; after metadata was queued for the first time,
      or the issue returned for review, reviewers; after it was returned for curation, curators; and nobody, once it was
      approved, sent on from page review, or is to be removed. */
  lemma NextToClaim(scanned: bool, events: seq<Event>, e: Event, u: User, now: nat)
    requires Run(Start(scanned), events) && Enabled(After(Start(scanned), events), e) && u.id > 0
    ensures var claim := Enabled(Apply(After(Start(scanned), events), e), Claim(u, now));
            match e
            case Report(_, _) => claim <==> ReviewUnfixableIssues in u.may
            case FixerReport => claim <==> ReviewUnfixableIssues in u.may
            case Queue(curator, _) => LastRejecter(events) <= 0 ==>
              (claim <==> ReviewIssueMetadata in u.may && (u.id == curator.id ==> ReviewOwnMetadata in u.may))
            case ReturnForReview(_, desk, _) => desk <= 0 ==>
              (claim <==> ReviewIssueMetadata in u.may && (u.id == LastCurator(events) ==> ReviewOwnMetadata in u.may))
            case ReturnForCuration(_, desk, _) => desk <= 0 ==> (claim <==> EnterIssueMetadata in u.may)
            case Approve(_, _) => !claim
            case PageReviewDone => !claim
            case Remove(_, _) => !claim
            case RemoveFromPageReview => !claim
            case _ => true
  {
    DeskOverRuns(scanned, events);
    RejecterIsRemembered(Start(scanned), events);
    CuratorIsRemembered(Start(scanned), events);
  }

  /** Who approved the issue last; 0 when nobody has. */
  function LastApprover(events: seq<Event>): int
    decreases |events|
  {
    if events == [] then 0
    else
      var last := events[|events| - 1];
      if last.Approve? then last.u.id else LastApprover(events[..|events| - 1])
  }

  /** The row remembers them, at every point of every run. */
  lemma {:induction false} ApproverIsRemembered(f: Flow, events: seq<Event>)
    requires Run(f, events) && f.row.reviewer == 0
    ensures After(f, events).row.reviewer == LastApprover(events)
    decreases |events|
  {
    if events != [] {
      FrontOfRun(f, events);
      ApproverIsRemembered(f, events[..|events| - 1]);
    }
  }

  // ---------------------------------------------------------------- who has reviewed an issue

  /** The metadata was approved since it was last queued, rejected or reported, by somebody who had not entered it or
      may review their own. */
  predicate ProperlyReviewed(events: seq<Event>)
    decreases |events|
  {
    events != []
    && var front := events[..|events| - 1];
       match events[|events| - 1]
       case Approve(u, _) => u.id != LastCurator(front) || ReviewOwnMetadata in u.may
       case Queue(_, _) => false
       case Report(_, _) => false
       case Reject(_, _) => false
       case FixerReport => false
       case FixerReject(_) => false
       case _ => ProperlyReviewed(front)
  }

  lemma {:induction false} ReviewIsRemembered(f: Flow, events: seq<Event>)
    requires Run(f, events) && f.row.curator == 0 && !f.row.reviewed
    ensures After(f, events).row.reviewed == ProperlyReviewed(events)
    decreases |events|
  {
    if events != [] {
      FrontOfRun(f, events);
      ReviewIsRemembered(f, events[..|events| - 1]);
      CuratorIsRemembered(f, events[..|events| - 1]);
    }
  }

  /** In every careful run, an issue that is ready for METS or for a batch was properly reviewed. */
  lemma ReadyIsReviewed(scanned: bool, events: seq<Event>)
    requires CarefulRun(Start(scanned), events)
    ensures Run(Start(scanned), events)
    ensures After(Start(scanned), events).row.step in {WSReadyForMETSXML, WSReadyForBatching} ==>
      ProperlyReviewed(events)
  {
    WorkflowIsSafe(scanned, events);
    ReviewIsRemembered(Start(scanned), events);
  }
}
