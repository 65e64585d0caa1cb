/** The curation workflow of an issue: desks, metadata entry, review, unfixable errors, and fixes from a batch
    (src/models/issue.go, src/cmd/server/internal/workflowhandler/can.go, src/cmd/batch-fixer/schema.go). */
module Workflow {
  import opened JobModel

  datatype Privilege = EnterIssueMetadata | ReviewIssueMetadata | ReviewOwnMetadata | ReviewUnfixableIssues

  /** A person; deactivated users and guests have no privileges. */
  datatype User = User(id: int, may: set<Privilege>)

  const SYSTEM_USER := -1
  const DESK_TIME: int := 7 * 24 * 60 * 60

  /** The workflow columns of an issue.  Owner 0 is nobody, time 0 is no time.  `reviewed` is history: since its
      metadata was last queued, rejected or reported, the issue was approved by somebody else than its curator, or by
      somebody allowed to review their own work. */
  datatype State = State(
    step: WorkflowStep, owner: int, expires: int, curator: int, reviewer: int, rejectedBy: int, inBatch: bool,
        reviewed: bool)

  // ---------------------------------------------------------------- what each action does

  /** Nobody's desk is ever the system's. */
  function Claimed(s: State, userID: int, now: nat): State {
    if userID <= 0 then s else s.(owner := userID, expires := now + DESK_TIME)
  }

  function Unclaimed(s: State): State {
    s.(owner := 0, expires := 0)
  }

  function Queued(s: State, curator: int, now: nat): State {
    var t := Unclaimed(s.(step := WSAwaitingMetadataReview, curator := curator, reviewed := false));
    if t.rejectedBy != 0 then Claimed(t, t.rejectedBy, now) else t
  }

  function Approved(s: State, reviewer: int, maySelfReview: bool): State {
    Unclaimed(s).(reviewer := reviewer, step := WSReadyForMETSXML, reviewed := reviewer != s.curator || maySelfReview)
  }

  function Rejected(s: State, reviewer: int, now: nat): State {
    Claimed(s, s.curator, now).(rejectedBy := reviewer, step := WSReadyForMetadataEntry, reviewed := false)
  }

  function Reported(s: State): State {
    Unclaimed(s.(step := WSUnfixableMetadataError, reviewed := false))
  }

  function Returned(s: State, step: WorkflowStep, desk: int, now: nat): State {
    Claimed(Unclaimed(s).(step := step), desk, now)
  }

  function Removing(s: State): State {
    Unclaimed(s).(step := WSAwaitingProcessing)
  }

  /** Steps in which nobody works on the issue at a desk. */
  predicate Automated(step: WorkflowStep) {
    step in {WSAwaitingProcessing, WSAwaitingPageReview, WSReadyForMETSXML, WSReadyForBatching}
  }

  /** What every row should keep: the desk is a person's, with a time, or nobody's, without one; an issue in an
      automated step is on no desk; and what is ready for METS or for a batch was properly reviewed. */
  predicate RowOK(s: State) {
    && s.owner >= 0
    && (s.owner == 0 <==> s.expires == 0)
    && (Automated(s.step) ==> s.owner == 0)
    && (s.step == WSReadyForMETSXML || s.step == WSReadyForBatching ==> s.reviewed)
  }

  /** The issue row in place. */
  class Issue {
    var s: State

    constructor (s: State)
      ensures this.s == s
    {
      this.s := s;
    }

    method Claim(byUserID: int, now: nat)
      modifies this
      ensures s == Claimed(old(s), byUserID, now)
      ensures RowOK(old(s)) ==> (RowOK(s) <==> byUserID <= 0 || !Automated(s.step))
    {
      if byUserID <= 0 {
        return;
      }
      s := s.(owner := byUserID);
      s := s.(expires := now + DESK_TIME);
    }

    method Unclaim()
      modifies this
      ensures s == Unclaimed(old(s))
      ensures RowOK(old(s)) ==> RowOK(s)
    {
      s := s.(owner := 0);
      s := s.(expires := 0);
    }

    method QueueForMetadataReview(curatorID: int, now: nat)
      modifies this
      ensures s == Queued(old(s), curatorID, now)
      ensures RowOK(old(s)) ==> RowOK(s)
    {
      s := s.(step := WSAwaitingMetadataReview);
      s := s.(curator := curatorID, reviewed := false);
      Unclaim();
      if s.rejectedBy != 0 {
        Claim(s.rejectedBy, now);
      }
    }

    /** `maySelfReview` is only noted for the history. */
    method ApproveMetadata(reviewerID: int, maySelfReview: bool)
      modifies this
      ensures s == Approved(old(s), reviewerID, maySelfReview)
      ensures RowOK(old(s)) ==> (RowOK(s) <==> reviewerID != s.curator || maySelfReview)
    {
      Unclaim();
      s := s.(reviewer := reviewerID);
      s := s.(step := WSReadyForMETSXML);
      s := s.(reviewed := reviewerID != s.curator || maySelfReview);
    }

    method RejectMetadata(reviewerID: int, now: nat)
      modifies this
      ensures s == Rejected(old(s), reviewerID, now)
      ensures RowOK(old(s)) ==> RowOK(s)
    {
      Claim(s.curator, now);
      s := s.(rejectedBy := reviewerID, reviewed := false);
      s := s.(step := WSReadyForMetadataEntry);
    }

    method ReportError()
      modifies this
      ensures s == Reported(old(s))
      ensures RowOK(old(s)) ==> RowOK(s)
    {
      s := s.(step := WSUnfixableMetadataError, reviewed := false);
      Unclaim();
    }

    method ReturnFor(step: WorkflowStep, workflowOwnerID: int, now: nat) returns (ok: bool)
      modifies this
      ensures ok <==> old(s).step == WSUnfixableMetadataError
      ensures s == if ok then Returned(old(s), step, workflowOwnerID, now) else old(s)
      ensures RowOK(old(s)) && !Automated(step) ==> RowOK(s)
    {
      if s.step != WSUnfixableMetadataError {
        return false;
      }
      Unclaim();
      s := s.(step := step);
      if workflowOwnerID > 0 {
        Claim(workflowOwnerID, now);
      }
      return true;
    }

    method PrepForRemoval()
      modifies this
      ensures s == Removing(old(s))
      ensures RowOK(old(s)) ==> RowOK(s)
    {
      Unclaim();
      s := s.(step := WSAwaitingProcessing);
    }
  }

  // ---------------------------------------------------------------- who may do what

  predicate IsOwned(s: State, now: nat) {
    s.owner != 0 && now < s.expires
  }

  predicate Owns(u: User, s: State, now: nat) {
    IsOwned(s, now) && s.owner == u.id
  }

  predicate MayClaim(u: User, s: State, now: nat) {
    && !IsOwned(s, now)
    && (s.step == WSReadyForMetadataEntry ==> EnterIssueMetadata in u.may)
    && (s.step == WSAwaitingMetadataReview ==>
         ReviewIssueMetadata in u.may && (s.curator == u.id ==> ReviewOwnMetadata in u.may))
    && (s.step == WSUnfixableMetadataError ==> ReviewUnfixableIssues in u.may)
    && s.step in {WSReadyForMetadataEntry, WSAwaitingMetadataReview, WSUnfixableMetadataError}
  }

  predicate MayEnter(u: User, s: State, now: nat) {
    Owns(u, s, now) && s.step == WSReadyForMetadataEntry && EnterIssueMetadata in u.may
  }

  predicate MayReview(u: User, s: State, now: nat) {
    && Owns(u, s, now) && s.step == WSAwaitingMetadataReview && ReviewIssueMetadata in u.may
    && (s.curator == u.id ==> ReviewOwnMetadata in u.may)
  }

  predicate MayReviewUnfixable(u: User, s: State, now: nat) {
    Owns(u, s, now) && s.step == WSUnfixableMetadataError && ReviewUnfixableIssues in u.may
  }

  datatype Status = OK | BadRequest | Forbidden

  /** The checks as the handlers make them: the answer, the error and the HTTP status. */
  class CanValidation {
    const user: User
    var error: string
    var status: Status

    constructor (user: User)
      ensures this.user == user && error == "" && status == OK
    {
      this.user, error, status := user, "", OK;
    }

    method Deny(message: string, status: Status) returns (ok: bool)
      modifies this
      ensures !ok && error == message && this.status == status
    {
      error, this.status := message, status;
      return false;
    }

    method CheckOwns(s: State, now: nat) returns (ok: bool)
      requires error == "" && status == OK
      modifies this
      ensures ok <==> Owns(user, s, now)
      ensures if ok then error == "" && status == OK else error != "" && status == BadRequest
    {
      if !IsOwned(s, now) {
        ok := Deny("issue must be claimed first", BadRequest);
        return;
      }
      if s.owner != user.id {
        ok := Deny("somebody else owns this issue", BadRequest);
        return;
      }
      return true;
    }

    method Claim(s: State, now: nat) returns (ok: bool)
      requires error == "" && status == OK
      modifies this
      ensures ok <==> MayClaim(user, s, now)
      ensures if ok then error == "" && status == OK else error != "" && status != OK
      ensures IsOwned(s, now) ==> status == BadRequest
    {
      if IsOwned(s, now) {
        ok := Deny("already owned by somebody", BadRequest);
        return;
      }
      match s.step {
        case WSReadyForMetadataEntry =>
          if EnterIssueMetadata !in user.may {
            ok := Deny("insufficient privileges (cannot enter issue metadata)", Forbidden);
            return;
          }
        case WSAwaitingMetadataReview =>
          if ReviewIssueMetadata !in user.may {
            ok := Deny("insufficient privileges (cannot review issue metadata)", Forbidden);
            return;
          }
          if s.curator == user.id && ReviewOwnMetadata !in user.may {
            ok := Deny("author cannot also be reviewer", BadRequest);
            return;
          }
        case WSUnfixableMetadataError =>
          if ReviewUnfixableIssues !in user.may {
            ok := Deny("insufficient privileges (cannot review errored issues)", Forbidden);
            return;
          }
        case _ =>
          ok := Deny("invalid workflow step", BadRequest);
          return;
      }
      return true;
    }

    method EnterMetadata(s: State, now: nat) returns (ok: bool)
      requires error == "" && status == OK
      modifies this
      ensures ok <==> MayEnter(user, s, now)
      ensures if ok then error == "" && status == OK else error != "" && status != OK
      ensures status == Forbidden <==> EnterIssueMetadata !in user.may
    {
      if EnterIssueMetadata !in user.may {
        ok := Deny("insufficient privileges", Forbidden);
        return;
      }
      ok := CheckOwns(s, now);
      if ok && s.step != WSReadyForMetadataEntry {
        ok := Deny("issue not awaiting metadata entry", BadRequest);
      }
    }

    method ReviewMetadata(s: State, now: nat) returns (ok: bool)
      requires error == "" && status == OK
      modifies this
      ensures ok <==> MayReview(user, s, now)
      ensures if ok then error == "" && status == OK else error != "" && status != OK
      ensures status == Forbidden <==> ReviewIssueMetadata !in user.may
    {
      if ReviewIssueMetadata !in user.may {
        ok := Deny("insufficient privileges", Forbidden);
        return;
      }
      ok := CheckOwns(s, now);
      if !ok {
        return;
      }
      if s.step != WSAwaitingMetadataReview {
        ok := Deny("issue not awaiting metadata review", BadRequest);
        return;
      }
      if s.curator == user.id && ReviewOwnMetadata !in user.may {
        ok := Deny("author cannot also be reviewer", BadRequest);
      }
    }

    method ReviewUnfixable(s: State, now: nat) returns (ok: bool)
      requires error == "" && status == OK
      modifies this
      ensures ok <==> MayReviewUnfixable(user, s, now)
      ensures if ok then error == "" && status == OK else error != "" && status != OK
      ensures status == Forbidden <==> ReviewUnfixableIssues !in user.may
    {
      if ReviewUnfixableIssues !in user.may {
        ok := Deny("insufficient privileges (cannot review unfixable issues)", Forbidden);
        return;
      }
      ok := CheckOwns(s, now);
      if ok && s.step != WSUnfixableMetadataError {
        ok := Deny("issue doesn't have unfixable errors reported", BadRequest);
      }
    }
  }

  /** Letting go of a claimed issue puts it back as it was, if nobody's claim was overwritten. */
  lemma UnclaimUndoesClaim(s: State, u: User, t1: nat, t2: nat)
    requires s.owner == 0 && s.expires == 0 && u.id > 0 && MayClaim(u, s, t1) && t2 < t1 + DESK_TIME
    ensures Owns(u, Claimed(s, u.id, t1), t2) && Unclaimed(Claimed(s, u.id, t1)) == s
  {
  }
}
