/** The commit of a version-checked operation, as it happens when others may have written since the read: what was read
travels in a ticket, a stale version is a conflict, and a refused transaction is rolled back. */
module OptimisticWriter {
  import opened Domain
  import opened Protocol
  import opened Interleaving
  import opened Tables
  import Lifecycle = LifecycleService
  import Staffing = StaffingService

  method React(db: JobTables, t: Ticket) returns (done: bool)
    modifies db
    ensures Attempt(Reaction(old(db.State()), t), old(db.State()), done, db.State())
  {
    if t.op.OpArrive? {
      done := Lifecycle.TransitionJobStatus(db, InProgress, {Assigned, PartiallyAssigned});
    } else if t.op.OpApproveReplacement? {
      done := Lifecycle.TransitionJobStatus(db, SeekingReplacement, {InProgress});
      if done {
        db.job := db.job.(departing := Some(t.i), deadline := Some(db.now + 600_000), failureReason := None,
                          unreachableSince := None);
      }
    } else if t.op.OpHandoff? {
      done := Lifecycle.TransitionJobStatus(db, InProgress, {SeekingReplacement});
      if done {
        db.job := db.job.(departing := None, failureReason := None);
      }
    } else if t.op.OpNoShow? {
      done := Staffing.ApplyUnfilledSlotRedispatch(db, t.job.status);
    } else {
      done := true;
    }
  }

  // The departing guardian's row, completed as the first half of a handoff.
  method CompleteOriginal(db: JobTables, t: Ticket) returns (landed: bool)
    requires t.op.OpHandoff?
    modifies db
    ensures landed <==> t.row.relieves.Some? && t.original.Some? &&
                        Fresh(old(db.State()), t.row.relieves.value, t.original.value)
    ensures db.State() ==
            if !landed then old(db.State())
            else Put(old(db.State()), t.row.relieves.value,
                     Bump(old(db.assignments)[t.row.relieves.value], Completed).(completedAt := Some(old(db.now))))
  {
    if t.row.relieves.None? || t.original.None? || |db.assignments| <= t.row.relieves.value {
      return false;
    }
    var o := t.row.relieves.value;
    landed := db.UpdateOptimistic(o, t.original.value.version, Completed);
    if landed {
      db.assignments := db.assignments[o := db.assignments[o].(completedAt := Some(db.now))];
    }
  }

  method WriteRow(db: JobTables, t: Ticket) returns (landed: bool)
    modifies db
    ensures landed <==> Fresh(old(db.State()), t.i, t.row)
    ensures db.State() ==
            if !landed then old(db.State())
            else Put(old(db.State()), t.i, NewRow(t, old(db.assignments)[t.i], old(db.now)))
  {
    if |db.assignments| <= t.i {
      return false;
    }
    landed := db.UpdateOptimistic(t.i, t.row.version, Target(t.op));
    if !landed {
      return;
    }
    var row := db.assignments[t.i];
    match t.op {
      case OpArrive => row := row.(arrivedAt := Some(db.now));
      case OpHandoff => row := row.(arrivedAt := Some(db.now));
      case OpRequestEarly =>
        row := row.(earlyResolution := if t.job.earlyReleaseNeedsClient then None else Some(EarlyAutoApproved));
      case OpRejectEarly => row := row.(earlyResolution := Some(EarlyRejected));
      case OpRequestReplacement => row := row.(replacementRequestedAt := Some(db.now), replacementResolution := None);
      case OpDenyReplacement => row := row.(replacementResolution := Some(ReplacementDenied));
      case OpApproveReplacement => row := row.(replacementResolution := Some(ReplacementApproved));
      case OpComplete => row := row.(completedAt := Some(db.now));
      case _ =>
    }
    db.assignments := db.assignments[t.i := row];
  }

  /** Commits what was read: all of it lands on unchanged rows, or none of it does. */
  method CommitTicket(db: JobTables, t: Ticket) returns (reply: Reply)
    modifies db
    ensures Outcome(db.State(), reply) == Commit(old(db.State()), t)
  {
    var saved := db.State();
    if t.op.OpHandoff? {
      var completed := CompleteOriginal(db, t);
      if !completed {
        return Conflict;
      }
    }
    var landed := WriteRow(db, t);
    if !landed {
      db.Rollback(saved);
      return Conflict;
    }
    var done := React(db, t);
    if !done {
      db.Rollback(saved);
      return BadRequest;
    }
    return Done;
  }
}
