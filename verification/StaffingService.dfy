/** What an accept and a no-show do to the job. */
module StaffingService {
  import opened Domain
  import opened Counting
  import opened Protocol
  import opened Tables
  import opened StepLaws
  import opened CallsObey
  import Lifecycle = LifecycleService

  /** Cancels every ordinary offer, raising its version so that no earlier read of it can still be written back. */
  method CancelExcess(db: JobTables) returns (offers: seq<nat>)
    modifies db
    ensures db.State() == CancelExcessOffers(old(db.State()))
    ensures forall i :: i in offers <==> 0 <= i < |old(db.assignments)| && IsPending(old(db.assignments)[i])
  {
    offers := [];
    for i := 0 to |db.assignments|
      invariant db.State() == old(db.State())
      invariant forall k :: k in offers <==> 0 <= k < i && IsPending(db.assignments[k])
    {
      if IsPending(db.assignments[i]) {
        offers := offers + [i];
      }
    }
    if |offers| == 0 {
      assert CancelWhere(db.assignments, IsPending, true) == db.assignments;
      return;
    }
    db.assignments := CancelWhere(db.assignments, IsPending, true);
  }

  /** The refill request the caller sends when `shouldContinue` completes what an accept does to the job. */
  method ApplyAcceptStaffingUpdate(db: JobTables) returns (done: bool, shouldContinue: bool)
    modifies db
    ensures shouldContinue ==> done
    ensures Attempt(AfterAccept(old(db.State())), old(db.State()), done,
                    if shouldContinue then Enqueue(db.State(), db.now) else db.State())
  {
    if db.job.status.SeekingReplacement? {
      return true, false;
    }
    if db.job.requested < Staffed(db.assignments) {
      return false, false;
    }
    if FullyStaffed(db.State()) {
      done := Lifecycle.TransitionToAssigned(db);
      if done {
        var _ := CancelExcess(db);
      }
      return done, false;
    }
    done := Lifecycle.TransitionToPartiallyAssigned(db);
    shouldContinue := done && PendingOffers(db.assignments) < RemainingSlots(db.State());
  }

  /** `seen` is the job's status as the caller read it, before the job was locked. */
  method ApplyUnfilledSlotRedispatch(db: JobTables, seen: JobStatus) returns (done: bool)
    modifies db
    ensures Attempt(AfterNoShow(old(db.State()), seen), old(db.State()), done, db.State())
    ensures done ==>
              && db.assignments == old(db.assignments) && db.job.requested == old(db.job.requested) && db.now == old(db.now)
              && db.requests == if |Holders(db.assignments)| < db.job.requested && !seen.SeekingReplacement?
                                then old(db.requests) + [db.now] else old(db.requests)
  {
    LostGuardianExactly(db.State(), seen);
    if seen.SeekingReplacement? {
      return true;
    }
    if FullyStaffed(db.State()) {
      if !seen.Assigned? && !seen.InProgress? {
        done := Lifecycle.TransitionToAssigned(db);
        return;
      }
      return true;
    }
    if seen.InProgress? {
      db.EnqueueDispatch(db.now);
      return true;
    }
    if seen.Assigned? || seen.PartiallyAssigned? {
      if !seen.PartiallyAssigned? {
        done := Lifecycle.TransitionToPartiallyAssigned(db);
        if !done {
          return;
        }
      }
    } else {
      done := Lifecycle.RedispatchAfterNoShow(db);
      return;
    }
    db.EnqueueDispatch(db.now);
    return true;
  }
}
