/** Cancelling and confirming a job, and the whole service as one step after another. */
module JobService {
  import opened Domain
  import opened Counting
  import opened Protocol
  import opened Invariants
  import opened StepLaws
  import opened StepsObey
  import opened Tables
  import Assignments = AssignmentService
  import Dispatch = DispatchService
  import Lifecycle = LifecycleService

  method Cancel(db: JobTables) returns (reply: Reply)
    modifies db
    ensures Outcome(db.State(), reply) == Protocol.Cancel(old(db.State()))
  {
    if db.job.status.JobCompleted? || db.job.status.JobCancelled? || db.job.status.AwaitingConfirmation? {
      return BadRequest;
    }
    var oldStatus := db.job.status;
    Dispatch.ReleaseReplacementPipeline(db);
    Dispatch.ReleaseActiveStaffed(db);
    db.job := db.job.(status := JobCancelled);
    db.history := db.history + [HistoryEntry(Some(oldStatus), JobCancelled)];
    return Done;
  }

  method Confirm(db: JobTables) returns (reply: Reply)
    modifies db
    ensures Outcome(db.State(), reply) == Protocol.Confirm(old(db.State()))
  {
    if db.job.status.JobCompleted? {
      return Done;
    }
    if !db.job.status.AwaitingConfirmation? {
      return BadRequest;
    }
    var done := Lifecycle.ConfirmBilling(db);
    assert done;
    return Done;
  }

  method ProcessAutoConfirm(db: JobTables, invoiceIssuable: bool)
    modifies db
    ensures db.State() == Protocol.AutoConfirm(old(db.State()), invoiceIssuable)
  {
    if !db.job.status.AwaitingConfirmation? {
      return;
    }
    if forall i :: 0 <= i < |db.assignments| ==> !db.assignments[i].status.Completed? {
      return;
    }
    if !db.invoiceDrafted || !invoiceIssuable {
      return;
    }
    var done := Lifecycle.ConfirmBilling(db);
    assert done;
  }

  /** Any operation, called on the rows: it does what the specification says and keeps every invariant. */
  method Perform(db: JobTables, step: Step)
    requires db.Valid()
    modifies db
    ensures db.State() == Apply(old(db.State()), step) && Law(old(db.State()), step, db.State())
    ensures db.Valid()
  {
    StepObeys(db.State(), step);
    StepKeeps(db.State(), step);
    match step {
      case StepTick(ms) => db.now := db.now + ms;
      case StepRequestDispatch => var _ := Dispatch.RequestDispatch(db);
      case StepProcessDispatch(pool) => Dispatch.ProcessDispatch(db, pool);
      case StepRequestReplacementDispatch => var _ := Dispatch.RequestReplacementDispatch(db);
      case StepResumeReplacement => var _ := Dispatch.ResumeReplacementDispatch(db);
      case StepFailOverdue => var _ := Dispatch.FailIfTimedOut(db);
      case StepFailExhausted(pool) => var _ := Dispatch.FailIfPoolExhausted(db, pool);
      case StepAccept(i, g) => var _ := Assignments.Accept(db, i, g);
      case StepDecline(i, g) => var _ := Assignments.Decline(db, i, g);
      case StepExpireOffer(i, pool) => Dispatch.ExpireOffer(db, i, pool);
      case StepMarkEnRoute(i, g) => var _ := Assignments.EnRoute(db, i, g);
      case StepArriveOnSite(i, g) => var _ := Assignments.OnSite(db, i, g);
      case StepRequestEarlyRelease(i, g) => var _ := Assignments.RequestEarlyRelease(db, i, g);
      case StepApproveEarlyRelease(i) => var _ := Assignments.ApproveEarlyRelease(db, i);
      case StepRejectEarlyRelease(i) => var _ := Assignments.RejectEarlyRelease(db, i);
      case StepAutoApproveEarlyRelease(i) => Assignments.AutoApproveEarlyRelease(db, i);
      case StepRequestReplacement(i, g) => var _ := Assignments.RequestReplacement(db, i, g);
      case StepDenyReplacement(i) => var _ := Assignments.DenyReplacement(db, i);
      case StepApproveReplacement(i) => var _ := Assignments.ApproveReplacement(db, i);
      case StepComplete(i, g) => var _ := Assignments.Complete(db, i, g);
      case StepReportNoShow(i) => var _ := Assignments.ApplyNoShow(db, i);
      case StepCancel => var _ := Cancel(db);
      case StepConfirm => var _ := Confirm(db);
      case StepAutoConfirm(issuable) => ProcessAutoConfirm(db, issuable);
    }
  }
}
