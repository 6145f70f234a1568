/** The operations on one assignment. Each one reads, checks and writes; a transaction that is refused half-way is
rolled back. Nothing runs in between here, so no version check can fail; `Interleaving` lets others run in between. */
module AssignmentService {
  import opened Domain
  import opened Counting
  import opened Protocol
  import opened Tables
  import opened StepLaws
  import Dispatch = DispatchService
  import Lifecycle = LifecycleService
  import Staffing = StaffingService

  method Accept(db: JobTables, i: nat, g: nat) returns (reply: Reply)
    modifies db
    ensures Outcome(db.State(), reply) == Protocol.Accept(old(db.State()), i, g)
  {
    if |db.assignments| <= i || db.assignments[i].guardian != g {
      return NotFound;
    }
    var row := db.assignments[i];
    if !row.status.Offered? || row.expiresAt < db.now {
      return BadRequest;
    }
    if !db.job.status.SeekingReplacement? && db.job.requested <= Staffed(db.assignments) {
      return BadRequest;
    }
    var saved := db.State();
    var landed := db.TransitionOffered(i, row.version, Accepted);
    assert landed;
    var done, shouldContinue := Staffing.ApplyAcceptStaffingUpdate(db);
    if !done {
      db.Rollback(saved);
      return BadRequest;
    }
    if shouldContinue {
      db.EnqueueDispatch(db.now);
    }
    return Done;
  }

  method Decline(db: JobTables, i: nat, g: nat) returns (reply: Reply)
    modifies db
    ensures Outcome(db.State(), reply) == Protocol.Decline(old(db.State()), i, g)
  {
    if |db.assignments| <= i || db.assignments[i].guardian != g {
      return NotFound;
    }
    if !db.assignments[i].status.Offered? {
      return BadRequest;
    }
    var landed := db.UpdateOptimistic(i, db.assignments[i].version, Declined);
    assert landed;
    if !db.job.status.SeekingReplacement? || !Paused(db.State()) {
      db.EnqueueDispatch(db.now);
    }
    return Done;
  }

  method EnRoute(db: JobTables, i: nat, g: nat) returns (reply: Reply)
    modifies db
    ensures Outcome(db.State(), reply) == Protocol.MarkEnRoute(old(db.State()), i, g)
  {
    if |db.assignments| <= i || db.assignments[i].guardian != g {
      return NotFound;
    }
    if !db.assignments[i].status.Accepted? {
      return BadRequest;
    }
    var landed := db.UpdateOptimistic(i, db.assignments[i].version, AssignmentStatus.EnRoute);
    assert landed;
    return Done;
  }

  method OnSite(db: JobTables, i: nat, g: nat) returns (reply: Reply)
    modifies db
    ensures Outcome(db.State(), reply) == Protocol.ArriveOnSite(old(db.State()), i, g)
  {
    if |db.assignments| <= i || db.assignments[i].guardian != g {
      return NotFound;
    }
    var row := db.assignments[i];
    if !row.status.EnRoute? {
      return BadRequest;
    }
    if row.relieves.Some? && db.job.status.SeekingReplacement? {
      reply := ExecuteReplacementHandoff(db, i);
      return;
    }
    var saved := db.State();
    var landed := db.UpdateOptimistic(i, row.version, AssignmentStatus.OnSite);
    assert landed;
    db.assignments := db.assignments[i := db.assignments[i].(arrivedAt := Some(db.now))];
    var done := Lifecycle.TransitionJobStatus(db, InProgress, {Assigned, PartiallyAssigned});
    if !done {
      db.Rollback(saved);
      return BadRequest;
    }
    return Done;
  }

  /** The departing guardian is completed and the substitute arrives at one and the same instant, or nothing happens. */
  method ExecuteReplacementHandoff(db: JobTables, i: nat) returns (reply: Reply)
    requires i < |db.assignments| && db.assignments[i].status.EnRoute?
    modifies db
    ensures Outcome(db.State(), reply) == Protocol.Handoff(old(db.State()), i)
  {
    var row := db.assignments[i];
    if row.relieves.None? || |db.assignments| <= row.relieves.value {
      return BadRequest;
    }
    var o := row.relieves.value;
    var original := db.assignments[o];
    if !original.status.AwaitingRelief? || original.replacementResolution != Some(ReplacementApproved) {
      return BadRequest;
    }
    var handoffAt := db.now;
    var saved := db.State();
    var completed := db.UpdateOptimistic(o, original.version, AssignmentStatus.Completed);
    assert completed;
    db.assignments := db.assignments[o := db.assignments[o].(completedAt := Some(handoffAt))];
    var arrived := db.UpdateOptimistic(i, row.version, AssignmentStatus.OnSite);
    assert arrived;
    db.assignments := db.assignments[i := db.assignments[i].(arrivedAt := Some(handoffAt))];
    var done := Lifecycle.TransitionJobStatus(db, InProgress, {SeekingReplacement});
    if !done {
      db.Rollback(saved);
      return BadRequest;
    }
    db.job := db.job.(departing := None, failureReason := None);
    return Done;
  }

  method RequestEarlyRelease(db: JobTables, i: nat, g: nat) returns (reply: Reply)
    modifies db
    ensures Outcome(db.State(), reply) == Protocol.RequestEarlyRelease(old(db.State()), i, g)
  {
    if |db.assignments| <= i || db.assignments[i].guardian != g {
      return NotFound;
    }
    var row := db.assignments[i];
    if row.status.ReplacementRequested? || row.status.AwaitingRelief? {
      return BadRequest;
    }
    if !row.status.OnSite? || (row.replacementRequestedAt.Some? && row.replacementResolution.None?) {
      return BadRequest;
    }
    if !db.job.allowEarlyRelease {
      return BadRequest;
    }
    var resolution: Option<EarlyReleaseResolution> := None;
    if !db.job.earlyReleaseNeedsClient {
      resolution := Some(EarlyAutoApproved);
    }
    var landed := db.UpdateOptimistic(i, row.version, EarlyReleaseRequested);
    assert landed;
    db.assignments := db.assignments[i := db.assignments[i].(earlyResolution := resolution)];
    return Done;
  }

  method ApproveEarlyRelease(db: JobTables, i: nat) returns (reply: Reply)
    modifies db
    ensures Outcome(db.State(), reply) == Protocol.ApproveEarlyRelease(old(db.State()), i)
  {
    if |db.assignments| <= i {
      return NotFound;
    }
    if !db.assignments[i].status.EarlyReleaseRequested? {
      return BadRequest;
    }
    if db.assignments[i].earlyResolution.Some? {
      return Done;
    }
    db.assignments := db.assignments[i := db.assignments[i].(earlyResolution := Some(EarlyApproved))];
    return Done;
  }

  method RejectEarlyRelease(db: JobTables, i: nat) returns (reply: Reply)
    modifies db
    ensures Outcome(db.State(), reply) == Protocol.RejectEarlyRelease(old(db.State()), i)
  {
    if |db.assignments| <= i {
      return NotFound;
    }
    if !db.assignments[i].status.EarlyReleaseRequested? {
      return BadRequest;
    }
    var landed := db.UpdateOptimistic(i, db.assignments[i].version, AssignmentStatus.OnSite);
    assert landed;
    db.assignments := db.assignments[i := db.assignments[i].(earlyResolution := Some(EarlyRejected))];
    return Done;
  }

  method AutoApproveEarlyRelease(db: JobTables, i: nat)
    modifies db
    ensures db.State() == Protocol.AutoApproveEarlyRelease(old(db.State()), i)
  {
    if |db.assignments| <= i || !db.assignments[i].status.EarlyReleaseRequested? ||
       db.assignments[i].earlyResolution.Some? {
      return;
    }
    db.assignments := db.assignments[i := db.assignments[i].(earlyResolution := Some(EarlyAutoApproved))];
  }

  method RequestReplacement(db: JobTables, i: nat, g: nat) returns (reply: Reply)
    modifies db
    ensures Outcome(db.State(), reply) == Protocol.RequestReplacement(old(db.State()), i, g)
  {
    if |db.assignments| <= i || db.assignments[i].guardian != g {
      return NotFound;
    }
    if !db.assignments[i].status.OnSite? || !db.job.status.InProgress? {
      return BadRequest;
    }
    var landed := db.UpdateOptimistic(i, db.assignments[i].version, ReplacementRequested);
    assert landed;
    db.assignments :=
      db.assignments[i := db.assignments[i].(replacementRequestedAt := Some(db.now), replacementResolution := None)];
    return Done;
  }

  method DenyReplacement(db: JobTables, i: nat) returns (reply: Reply)
    modifies db
    ensures Outcome(db.State(), reply) == Protocol.DenyReplacement(old(db.State()), i)
  {
    if |db.assignments| <= i {
      return NotFound;
    }
    if !db.assignments[i].status.ReplacementRequested? {
      return BadRequest;
    }
    var landed := db.UpdateOptimistic(i, db.assignments[i].version, AssignmentStatus.OnSite);
    assert landed;
    db.assignments := db.assignments[i := db.assignments[i].(replacementResolution := Some(ReplacementDenied))];
    return Done;
  }

  method ApproveReplacement(db: JobTables, i: nat) returns (reply: Reply)
    modifies db
    ensures Outcome(db.State(), reply) == Protocol.ApproveReplacement(old(db.State()), i)
  {
    if |db.assignments| <= i {
      return NotFound;
    }
    if !db.assignments[i].status.ReplacementRequested? || !db.job.status.InProgress? {
      return BadRequest;
    }
    var landed := db.UpdateOptimistic(i, db.assignments[i].version, AwaitingRelief);
    assert landed;
    db.assignments := db.assignments[i := db.assignments[i].(replacementResolution := Some(ReplacementApproved))];
    var done := Lifecycle.TransitionJobStatus(db, SeekingReplacement, {InProgress});
    assert done;
    db.job :=
      db.job.(departing := Some(i), deadline := Some(db.now + 600_000), failureReason := None, unreachableSince := None);
    reply := Dispatch.RequestReplacementDispatch(db);
  }

  /** The assignment is completed first, for good; whatever the job then says does not undo it. */
  method Complete(db: JobTables, i: nat, g: nat) returns (reply: Reply)
    modifies db
    ensures Outcome(db.State(), reply) == Protocol.Complete(old(db.State()), i, g)
  {
    if |db.assignments| <= i || db.assignments[i].guardian != g {
      return NotFound;
    }
    var row := db.assignments[i];
    if row.status.AwaitingRelief? {
      return BadRequest;
    }
    var fromOnSite := row.status.OnSite?;
    var afterEarlyRelease := row.status.EarlyReleaseRequested? && IsApproved(row.earlyResolution);
    if !fromOnSite && !afterEarlyRelease {
      return BadRequest;
    }
    var landed := db.UpdateOptimistic(i, row.version, AssignmentStatus.Completed);
    assert landed;
    db.assignments := db.assignments[i := db.assignments[i].(completedAt := Some(db.now))];
    assert db.State() == Put(old(db.State()), i, Bump(row, AssignmentStatus.Completed).(completedAt := Some(db.now)));
    var done := Lifecycle.CompleteFromAssignment(db);
    if !done {
      return BadRequest;
    }
    if !db.job.status.AwaitingConfirmation? {
      return Done;
    }
    reply := CreateDraftInvoice(db);
  }

  method CreateDraftInvoice(db: JobTables) returns (reply: Reply)
    modifies db
    ensures Outcome(db.State(), reply) == Protocol.DraftInvoice(old(db.State()))
  {
    if db.invoiceDrafted {
      return Done;
    }
    if forall k :: 0 <= k < |db.assignments| ==> !Billable(db.assignments[k]) {
      return NotFound;
    }
    db.invoiceDrafted := true;
    return Done;
  }

  method ApplyNoShow(db: JobTables, i: nat) returns (reply: Reply)
    modifies db
    ensures Outcome(db.State(), reply) == Protocol.ReportNoShow(old(db.State()), i)
    ensures reply.Done? && db.State() != old(db.State()) ==>
              db.requests ==
              if |Holders(db.assignments)| < db.job.requested && !old(db.job.status).SeekingReplacement?
              then old(db.requests) + [db.now] else old(db.requests)
  {
    if |db.assignments| <= i {
      return NotFound;
    }
    var row := db.assignments[i];
    if row.status.NoShow? {
      return Done;
    }
    if !row.status.Offered? && !row.status.Accepted? && !row.status.EnRoute? {
      return BadRequest;
    }
    var seen := db.job.status;
    var saved := db.State();
    var landed := db.UpdateOptimistic(i, row.version, NoShow);
    assert landed;
    var done := Staffing.ApplyUnfilledSlotRedispatch(db, seen);
    if !done {
      db.Rollback(saved);
      return BadRequest;
    }
    return Done;
  }
}
