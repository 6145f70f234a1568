/** The guarded transitions of a job's status. */
module LifecycleService {
  import opened Domain
  import opened Counting
  import opened Protocol
  import opened Tables

  method TransitionJobStatus(db: JobTables, to: JobStatus, allowedFrom: set<JobStatus>) returns (done: bool)
    modifies db
    ensures Attempt(Transition(old(db.State()), to, allowedFrom), old(db.State()), done, db.State())
  {
    if db.job.status == to {
      return true;
    }
    if db.job.status !in allowedFrom {
      return false;
    }
    var oldStatus := db.job.status;
    db.job := db.job.(status := to);
    db.history := db.history + [HistoryEntry(Some(oldStatus), to)];
    return true;
  }

  method TransitionToPartiallyAssigned(db: JobTables) returns (done: bool)
    modifies db
    ensures Attempt(ToPartiallyAssigned(old(db.State())), old(db.State()), done, db.State())
  {
    done := TransitionJobStatus(db, PartiallyAssigned, {Pending, Dispatching, PartiallyAssigned});
  }

  method TransitionToAssigned(db: JobTables) returns (done: bool)
    modifies db
    ensures Attempt(ToAssigned(old(db.State())), old(db.State()), done, db.State())
  {
    done := TransitionJobStatus(db, Assigned, {Pending, Dispatching, PartiallyAssigned, Assigned});
  }

  method RedispatchAfterNoShow(db: JobTables) returns (done: bool)
    modifies db
    ensures Attempt(Redispatch(old(db.State())), old(db.State()), done, db.State())
  {
    done := TransitionJobStatus(db, Dispatching, {Assigned, PartiallyAssigned, InProgress, Dispatching});
    if !done {
      return;
    }
    db.job := db.job.(deadline := Some(db.now + db.cfg.dispatchWindow), failureReason := None, unreachableSince := None);
    db.EnqueueDispatch(db.now);
  }

  /** Once nobody works an ordinary slot any more the job awaits its confirmation. */
  method CompleteFromAssignment(db: JobTables) returns (done: bool)
    modifies db
    ensures Attempt(
              if 0 < Active(old(db.assignments)) then Some(old(db.State())) else ToAwaitingConfirmation(old(db.State())),
              old(db.State()), done, db.State())
  {
    if 0 < Active(db.assignments) {
      return true;
    }
    done := TransitionJobStatus(db, AwaitingConfirmation, {InProgress, Assigned, PartiallyAssigned});
  }

  method ConfirmBilling(db: JobTables) returns (done: bool)
    modifies db
    ensures Attempt(
              Transition(old(db.State()), JobCompleted, {AwaitingConfirmation}), old(db.State()), done, db.State())
  {
    done := TransitionJobStatus(db, JobCompleted, {AwaitingConfirmation});
  }
}
