/** The laws hold of every call but those that may fail the job.

For each call there is a lemma for the rows and one for the job. Where the call is guarded by more than its own row, a
first lemma says, from the invariants, exactly when it goes through and spells out the state it then leaves (`Arrived`,
`TookOver`, `WithHim`, `WithoutHim`, `Settled`, `Granted`); that this state obeys needs no invariants any more. Two
results here are of calls that have read the job's status some time before: `LostGuardianExactly` and
`GainedGuardianExactly`. */
module CallsObey {
  import opened Domain
  import opened Counting
  import opened Eligibility
  import opened Protocol
  import opened Invariants
  import opened Runs
  import opened StepLaws

  // ---------- steps that write one row ----------

  // The steps that speak of one row.
  predicate OfRow(step: Step, i: nat) {
    || (step.StepAccept? && step.i == i) || (step.StepDecline? && step.i == i)
    || (step.StepMarkEnRoute? && step.i == i) || (step.StepArriveOnSite? && step.i == i)
    || (step.StepRequestEarlyRelease? && step.i == i) || (step.StepApproveEarlyRelease? && step.i == i)
    || (step.StepRejectEarlyRelease? && step.i == i) || (step.StepAutoApproveEarlyRelease? && step.i == i)
    || (step.StepRequestReplacement? && step.i == i) || (step.StepDenyReplacement? && step.i == i)
    || (step.StepApproveReplacement? && step.i == i) || (step.StepComplete? && step.i == i)
    || (step.StepReportNoShow? && step.i == i)
  }

  lemma OtherRowStays(w: World, step: Step, i: nat, k: nat)
    requires OfRow(step, i) && !TakesOver(w, step) && k < |w.assignments| && k != i
    ensures RowLaw(w, step, k, w.assignments[k])
  {
  }

  lemma OneRowLaw(w: World, step: Step, i: nat, t: World)
    requires OfRow(step, i) && !TakesOver(w, step) && |t.assignments| == |w.assignments|
    requires forall k :: 0 <= k < |w.assignments| && k != i ==> t.assignments[k] == w.assignments[k]
    requires i < |w.assignments| ==> RowLaw(w, step, i, t.assignments[i])
    ensures RowsLaw(w, step, t)
  {
    forall k | 0 <= k < |w.assignments| ensures RowLaw(w, step, k, t.assignments[k]) {
      if k != i {
        OtherRowStays(w, step, i, k);
      }
    }
  }

  // The steps that leave the job alone, and ask for no round.
  predicate LeavesJob(step: Step) {
    || step.StepMarkEnRoute? || step.StepRequestEarlyRelease? || step.StepApproveEarlyRelease?
    || step.StepRejectEarlyRelease? || step.StepAutoApproveEarlyRelease? || step.StepRequestReplacement?
    || step.StepDenyReplacement?
  }

  // A job awaiting confirmation has its invoice drafted.
  predicate Drafted(w: World) {
    w.job.status.AwaitingConfirmation? ==> w.invoiceDrafted
  }

  lemma LeftJobLaw(w: World, step: Step, t: World)
    requires Drafted(w) && LeavesJob(step) && t == w.(assignments := t.assignments)
    ensures JobLaw(w, step, t)
  {
    assert w.requests + [] == w.requests && w.history + [] == w.history;
  }

  lemma MarkEnRouteRows(w: World, i: nat, g: nat)
    ensures RowsLaw(w, StepMarkEnRoute(i, g), MarkEnRoute(w, i, g).world)
  {
    OneRowLaw(w, StepMarkEnRoute(i, g), i, MarkEnRoute(w, i, g).world);
  }

  lemma RequestEarlyReleaseRows(w: World, i: nat, g: nat)
    ensures RowsLaw(w, StepRequestEarlyRelease(i, g), RequestEarlyRelease(w, i, g).world)
  {
    OneRowLaw(w, StepRequestEarlyRelease(i, g), i, RequestEarlyRelease(w, i, g).world);
  }

  lemma ApproveEarlyReleaseRows(w: World, i: nat)
    ensures RowsLaw(w, StepApproveEarlyRelease(i), ApproveEarlyRelease(w, i).world)
  {
    OneRowLaw(w, StepApproveEarlyRelease(i), i, ApproveEarlyRelease(w, i).world);
  }

  lemma RejectEarlyReleaseRows(w: World, i: nat)
    ensures RowsLaw(w, StepRejectEarlyRelease(i), RejectEarlyRelease(w, i).world)
  {
    OneRowLaw(w, StepRejectEarlyRelease(i), i, RejectEarlyRelease(w, i).world);
  }

  lemma AutoApproveEarlyReleaseRows(w: World, i: nat)
    ensures RowsLaw(w, StepAutoApproveEarlyRelease(i), AutoApproveEarlyRelease(w, i))
  {
    OneRowLaw(w, StepAutoApproveEarlyRelease(i), i, AutoApproveEarlyRelease(w, i));
  }

  lemma RequestReplacementRows(w: World, i: nat, g: nat)
    ensures RowsLaw(w, StepRequestReplacement(i, g), RequestReplacement(w, i, g).world)
  {
    OneRowLaw(w, StepRequestReplacement(i, g), i, RequestReplacement(w, i, g).world);
  }

  lemma DenyReplacementRows(w: World, i: nat)
    ensures RowsLaw(w, StepDenyReplacement(i), DenyReplacement(w, i).world)
  {
    OneRowLaw(w, StepDenyReplacement(i), i, DenyReplacement(w, i).world);
  }

  lemma LeaverObeys(w: World, step: Step)
    requires Drafted(w) && LeavesJob(step)
    ensures Law(w, step, Apply(w, step))
  {
    LeftJobLaw(w, step, Apply(w, step));
    match step
    case StepMarkEnRoute(i, g) => MarkEnRouteRows(w, i, g);
    case StepRequestEarlyRelease(i, g) => RequestEarlyReleaseRows(w, i, g);
    case StepApproveEarlyRelease(i) => ApproveEarlyReleaseRows(w, i);
    case StepRejectEarlyRelease(i) => RejectEarlyReleaseRows(w, i);
    case StepAutoApproveEarlyRelease(i) => AutoApproveEarlyReleaseRows(w, i);
    case StepRequestReplacement(i, g) => RequestReplacementRows(w, i, g);
    case StepDenyReplacement(i) => DenyReplacementRows(w, i);
  }

  // ---------- declining ----------

  lemma DeclineRows(w: World, i: nat, g: nat)
    ensures RowsLaw(w, StepDecline(i, g), Decline(w, i, g).world)
  {
    OneRowLaw(w, StepDecline(i, g), i, Decline(w, i, g).world);
  }

  lemma DeclineObeys(w: World, i: nat, g: nat)
    requires Drafted(w)
    ensures Law(w, StepDecline(i, g), Decline(w, i, g).world)
  {
    DeclineRows(w, i, g);
    assert w.requests + [] == w.requests && w.history + [] == w.history;
  }

  // ---------- steps that write no row ----------

  predicate WritesNoRow(step: Step) {
    || step.StepTick? || step.StepRequestDispatch? || step.StepRequestReplacementDispatch?
    || step.StepResumeReplacement? || step.StepConfirm? || step.StepAutoConfirm?
  }

  lemma UntouchedRow(w: World, step: Step, k: nat)
    requires WritesNoRow(step) && k < |w.assignments|
    ensures RowLaw(w, step, k, w.assignments[k])
  {
  }

  lemma UntouchedRows(w: World, step: Step, t: World)
    requires WritesNoRow(step) && t.assignments == w.assignments
    ensures RowsLaw(w, step, t)
  {
    forall k | 0 <= k < |w.assignments| ensures RowLaw(w, step, k, t.assignments[k]) {
      UntouchedRow(w, step, k);
    }
  }

  lemma UntouchedStepRows(w: World, step: Step)
    requires WritesNoRow(step)
    ensures RowsLaw(w, step, Apply(w, step))
  {
    UntouchedRows(w, step, Apply(w, step));
  }

  lemma RequestDispatchJob(w: World)
    requires Drafted(w)
    ensures JobLaw(w, StepRequestDispatch, RequestDispatch(w).world)
  {
    assert w.requests + [] == w.requests && w.history + [] == w.history;
  }

  lemma ResumeJob(w: World)
    requires Drafted(w) && ReplacementOk(w.assignments, w.job.status, w.job.departing)
    ensures JobLaw(w, StepResumeReplacement, ResumeReplacement(w).world)
    ensures JobLaw(w, StepRequestReplacementDispatch, RequestReplacementDispatch(w).world)
  {
    assert w.requests + [] == w.requests && w.history + [] == w.history;
  }

  // A job past its work has a completed assignment and its invoice drafted.
  lemma AutoConfirmJob(w: World, issuable: bool)
    requires SettledOk(w.assignments, w.job.status, w.invoiceDrafted)
    ensures JobLaw(w, StepAutoConfirm(issuable), AutoConfirm(w, issuable))
  {
    assert w.requests + [] == w.requests && w.history + [] == w.history;
  }

  lemma ConfirmJob(w: World)
    requires Drafted(w)
    ensures JobLaw(w, StepConfirm, Confirm(w).world)
  {
    assert w.requests + [] == w.requests && w.history + [] == w.history;
  }

  lemma TickJob(w: World, ms: nat)
    requires Drafted(w)
    ensures JobLaw(w, StepTick(ms), w.(now := w.now + ms))
  {
    assert w.requests + [] == w.requests && w.history + [] == w.history;
  }

  // ---------- completing ----------

  lemma CompleteRows(w: World, i: nat, g: nat)
    ensures RowsLaw(w, StepComplete(i, g), Complete(w, i, g).world)
  {
    OneRowLaw(w, StepComplete(i, g), i, Complete(w, i, g).world);
  }

  // Nobody else works a slot.
  lemma LastToFinish(w: World, i: nat, b: Assignment)
    requires i < |w.assignments| && b.status.Completed?
    ensures Active(w.assignments[i := b]) == 0 <==>
            forall k :: 0 <= k < |w.assignments| && k != i ==>
              !HoldsSlot(w.assignments[k]) || w.assignments[k].status.Completed?
  {
    var s := w.assignments;
    CountZero(s[i := b], IsActive);
    assert forall k :: 0 <= k < |s| && k != i ==>
             s[i := b][k] == s[k] && (IsActive(s[k]) <==> HoldsSlot(s[k]) && !s[k].status.Completed?);
  }

  // What the job does when an officer completes.
  function Settled(w: World, last: bool, s: seq<Assignment>): World {
    var w1 := w.(assignments := s);
    if last && w.job.status.InProgress? then
      w1.(job := w.job.(status := AwaitingConfirmation), invoiceDrafted := true,
          history := w.history + [HistoryEntry(Some(w.job.status), AwaitingConfirmation)])
    else w1
  }

  lemma CompleteOutcome(w: World, i: nat, g: nat)
    requires Drafted(w) && NobodyEarly(w.assignments, w.job.status)
    requires i < |w.assignments| ==> RowOk(w.assignments[i], w.now)
    ensures Complete(w, i, g).world ==
            if Finishes(w, StepComplete(i, g)) then
              var s := w.assignments[i := Bump(w.assignments[i], Completed).(completedAt := Some(w.now))];
              Settled(w, Active(s) == 0, s)
            else w
  {
    if i < |w.assignments| {
      var b := Bump(w.assignments[i], Completed).(completedAt := Some(w.now));
      assert Put(w, i, b).assignments[i] == b;
    }
  }

  lemma CompleteJob(w: World, i: nat, g: nat, last: bool, s: seq<Assignment>)
    requires Drafted(w) && Finishes(w, StepComplete(i, g))
    requires last <==> forall k :: 0 <= k < |w.assignments| && k != i ==>
                         !HoldsSlot(w.assignments[k]) || w.assignments[k].status.Completed?
    ensures JobLaw(w, StepComplete(i, g), Settled(w, last, s))
  {
    assert w.requests + [] == w.requests && w.history + [] == w.history;
  }

  lemma CompleteObeys(w: World, i: nat, g: nat)
    requires Drafted(w) && NobodyEarly(w.assignments, w.job.status)
    requires i < |w.assignments| ==> RowOk(w.assignments[i], w.now)
    ensures Law(w, StepComplete(i, g), Complete(w, i, g).world)
  {
    CompleteRows(w, i, g);
    CompleteOutcome(w, i, g);
    if Finishes(w, StepComplete(i, g)) {
      var b := Bump(w.assignments[i], Completed).(completedAt := Some(w.now));
      LastToFinish(w, i, b);
      CompleteJob(w, i, g, Active(w.assignments[i := b]) == 0, w.assignments[i := b]);
    } else {
      RefusedJob(w, StepComplete(i, g));
    }
  }

  // ---------- no-shows ----------

  function Missed(w: World, i: nat): seq<Assignment>
    requires i < |w.assignments|
  {
    w.assignments[i := Bump(w.assignments[i], NoShow)]
  }

  // A no-show is recorded as it should be, or nothing happens.
  lemma NoShowEffect(w: World, i: nat)
    requires Inv(w)
    ensures var t := ReportNoShow(w, i).world;
            if Misses(w, StepReportNoShow(i)) then
              && t.assignments == Missed(w, i) && AfterNoShow(w.(assignments := Missed(w, i)), w.job.status) == Some(t)
              && (Staffed(Missed(w, i)) < w.job.requested || w.job.status.InProgress? || w.job.status.SeekingReplacement?)
            else t == w
  {
    if i < |w.assignments| && !w.assignments[i].status.NoShow? {
      NoShowOnSound(w, i);
      RefusedNoShowChangesNothing(w, i);
      CountUpdate(w.assignments, i, Bump(w.assignments[i], NoShow), IsStaffed);
    }
  }

  lemma NoShowRows(w: World, i: nat, t: World)
    requires t.assignments == if Misses(w, StepReportNoShow(i)) then Missed(w, i) else w.assignments
    ensures RowsLaw(w, StepReportNoShow(i), t)
  {
    OneRowLaw(w, StepReportNoShow(i), i, t);
  }

  // Is a slot left to fill after the no-show?
  predicate LeavesGap(w: World, i: nat)
    requires i < |w.assignments|
  {
    !w.job.status.SeekingReplacement? && Staffed(Missed(w, i)) < w.job.requested
  }

  function WithoutHim(w: World, i: nat): World
    requires i < |w.assignments|
  {
    w.(assignments := Missed(w, i),
       job := if w.job.status.Dispatching? then
                w.job.(deadline := Some(w.now + w.cfg.dispatchWindow), failureReason := None, unreachableSince := None)
              else w.job,
       requests := if LeavesGap(w, i) then w.requests + [w.now] else w.requests)
  }

  lemma NoShowOutcome(w: World, i: nat)
    requires Misses(w, StepReportNoShow(i))
    requires Staffed(Missed(w, i)) < w.job.requested || w.job.status.InProgress? || w.job.status.SeekingReplacement?
    ensures AfterNoShow(w.(assignments := Missed(w, i)), w.job.status) == Some(WithoutHim(w, i))
  {
  }

  lemma GapExactly(w: World, i: nat)
    requires i < |w.assignments|
    ensures Staffed(Missed(w, i)) == |Holders(w.assignments)| - (if HoldsSlot(w.assignments[i]) then 1 else 0)
  {
    CountsAreSizes(w);
    CountUpdate(w.assignments, i, Bump(w.assignments[i], NoShow), IsStaffed);
  }

  lemma NoShowJob(w: World, i: nat)
    requires Drafted(w) && Misses(w, StepReportNoShow(i))
    requires Staffed(Missed(w, i)) == |Holders(w.assignments)| - (if HoldsSlot(w.assignments[i]) then 1 else 0)
    ensures JobLaw(w, StepReportNoShow(i), WithoutHim(w, i))
  {
    assert w.requests + [] == w.requests && w.history + [] == w.history;
  }

  lemma NoShowObeys(w: World, i: nat)
    requires Inv(w)
    ensures Law(w, StepReportNoShow(i), ReportNoShow(w, i).world)
  {
    NoShowEffect(w, i);
    var t := ReportNoShow(w, i).world;
    NoShowRows(w, i, t);
    if Misses(w, StepReportNoShow(i)) {
      NoShowOutcome(w, i);
      GapExactly(w, i);
      NoShowJob(w, i);
    } else {
      RefusedJob(w, StepReportNoShow(i));
    }
  }

  // A call that does not go through leaves the job as it was.
  lemma RefusedJob(w: World, step: Step)
    requires Drafted(w)
    requires || (step.StepReportNoShow? && !Misses(w, step)) || (step.StepAccept? && !Takes(w, step))
             || (step.StepArriveOnSite? && !Arrives(w, step)) || (step.StepApproveReplacement? && !GrantsRelief(w, step))
             || (step.StepExpireOffer? && !Lapses(w, step)) || (step.StepCancel? && !CallsOff(w, step))
             || (step.StepComplete? && !Finishes(w, step))
    ensures JobLaw(w, step, w)
  {
    assert w.requests + [] == w.requests && w.history + [] == w.history;
  }

  /** What losing a guardian does to a job whose status was read earlier, whatever it is by now. A round is asked for exactly
  when the job is short of officers and was not read seeking a replacement; and the move is refused exactly when the job,
  as it is by now, may not make it. */
  lemma LostGuardianExactly(w: World, seen: JobStatus)
    ensures var short := |Holders(w.assignments)| < w.job.requested;
            var now, r := w.job.status, AfterNoShow(w, seen);
            && (r.None? <==>
                  if seen.SeekingReplacement? || seen.InProgress? then false
                  else if !short then !seen.Assigned? && !Looking(now) && !now.Assigned?
                  else if seen.Assigned? then !Looking(now)
                  else !seen.PartiallyAssigned? && !now.PartiallyAssigned? && !now.Dispatching? && !now.Assigned? &&
                       !now.InProgress?)
            && (r.Some? ==>
                  && r.value.assignments == w.assignments
                  && r.value.requests ==
                     (if short && !seen.SeekingReplacement? then w.requests + [w.now] else w.requests))
  {
    CountsAreSizes(w);
  }

  /** What an accept does to a job whose status was read earlier: nothing when it was read seeking a replacement; otherwise it
  is refused when the job is oversold or may not move, and else fills the job, or leaves it short and asks for a round if
  the open offers do not cover what is left. */
  lemma GainedGuardianExactly(w: World, seen: JobStatus)
    ensures var left := w.job.requested - |Holders(w.assignments)|;
            var now, r := w.job.status, AfterAcceptSeen(w, seen);
            && (seen.SeekingReplacement? ==> r == Some(w))
            && (!seen.SeekingReplacement? ==>
                  && (r.None? <==> left < 0 || (!Looking(now) && !(now.Assigned? && left == 0)))
                  && (r.Some? ==>
                        && r.value.job == w.job.(status := if left == 0 then Assigned else PartiallyAssigned)
                        && r.value.requests ==
                           (if |SlotOffers(w.assignments)| < left then w.requests + [w.now] else w.requests)))
  {
    CountsAreSizes(w);
  }

  // ---------- accepting ----------

  function Taken(w: World, i: nat): seq<Assignment>
    requires i < |w.assignments|
  {
    w.assignments[i := Bump(w.assignments[i], Accepted)]
  }

  function WithHim(w: World, i: nat): World
    requires i < |w.assignments|
  {
    var w1 := w.(assignments := Taken(w, i));
    if w.job.status.SeekingReplacement? then w1
    else
      var status := if Staffed(Taken(w, i)) == w.job.requested then Assigned else PartiallyAssigned;
      var refill := 0 < w.job.requested - Staffed(w.assignments) - PendingOffers(w.assignments);
      w1.(job := w.job.(status := status),
          history := if status == w.job.status then w.history else w.history + [HistoryEntry(Some(w.job.status), status)],
          requests := if refill then w.requests + [w.now] else w.requests)
  }

  lemma AcceptCounts(w: World, i: nat)
    requires Inv(w) && i < |w.assignments| && w.assignments[i].status.Offered? && Searching(w.job.status)
    ensures Staffed(Taken(w, i)) == Staffed(w.assignments) + 1 <= w.job.requested
    ensures PendingOffers(Taken(w, i)) == PendingOffers(w.assignments) - 1
  {
    CountUpdate(w.assignments, i, Bump(w.assignments[i], Accepted), IsStaffed);
    CountUpdate(w.assignments, i, Bump(w.assignments[i], Accepted), IsPending);
  }

  lemma NoSurplus(s: seq<Assignment>)
    requires PendingOffers(s) == 0
    ensures CancelWhere(s, IsPending, true) == s
  {
    CountZero(s, IsPending);
  }

  lemma AcceptOutcome(w: World, i: nat)
    requires i < |w.assignments| && (Searching(w.job.status) || w.job.status.SeekingReplacement?)
    requires Searching(w.job.status) ==>
               && Staffed(Taken(w, i)) == Staffed(w.assignments) + 1 <= w.job.requested
               && PendingOffers(Taken(w, i)) == PendingOffers(w.assignments) - 1
               && Staffed(w.assignments) + PendingOffers(w.assignments) <= w.job.requested
    ensures AfterAccept(w.(assignments := Taken(w, i))) == Some(WithHim(w, i))
  {
    if Searching(w.job.status) && Staffed(Taken(w, i)) == w.job.requested {
      NoSurplus(Taken(w, i));
    }
  }

  lemma AcceptEffect(w: World, i: nat, g: nat)
    requires Inv(w)
    ensures Accept(w, i, g).world == if Takes(w, StepAccept(i, g)) then WithHim(w, i) else w
  {
    AcceptOnSound(w, i, g);
    if Takes(w, StepAccept(i, g)) {
      if Searching(w.job.status) {
        AcceptCounts(w, i);
      }
      AcceptOutcome(w, i);
    }
  }

  lemma AcceptRows(w: World, i: nat, g: nat, t: World)
    requires t.assignments == if Takes(w, StepAccept(i, g)) then Taken(w, i) else w.assignments
    ensures RowsLaw(w, StepAccept(i, g), t)
  {
    OneRowLaw(w, StepAccept(i, g), i, t);
  }

  lemma AcceptJob(w: World, i: nat, g: nat)
    requires Takes(w, StepAccept(i, g)) && Drafted(w)
    requires Searching(w.job.status) ==> Staffed(Taken(w, i)) == Staffed(w.assignments) + 1 <= w.job.requested
    ensures JobLaw(w, StepAccept(i, g), WithHim(w, i))
  {
    assert w.requests + [] == w.requests && w.history + [] == w.history;
    CountsAreSizes(w);
  }

  lemma AcceptObeys(w: World, i: nat, g: nat)
    requires Inv(w)
    ensures Law(w, StepAccept(i, g), Accept(w, i, g).world)
  {
    AcceptEffect(w, i, g);
    AcceptRows(w, i, g, Accept(w, i, g).world);
    if Takes(w, StepAccept(i, g)) {
      if Searching(w.job.status) {
        AcceptCounts(w, i);
      }
      AcceptJob(w, i, g);
    } else {
      RefusedJob(w, StepAccept(i, g));
    }
  }

  // ---------- arriving ----------

  function OnTheSpot(a: Assignment, now: int): Assignment {
    Bump(a, OnSite).(arrivedAt := Some(now))
  }

  function Arrived(w: World, i: nat): World
    requires i < |w.assignments|
  {
    w.(assignments := w.assignments[i := OnTheSpot(w.assignments[i], w.now)],
       job := w.job.(status := InProgress),
       history := if w.job.status.InProgress? then w.history
                  else w.history + [HistoryEntry(Some(w.job.status), InProgress)])
  }

  lemma ArriveRows(w: World, i: nat, g: nat, t: World)
    requires !TakesOver(w, StepArriveOnSite(i, g))
    requires t.assignments == if Arrives(w, StepArriveOnSite(i, g)) then Arrived(w, i).assignments else w.assignments
    ensures RowsLaw(w, StepArriveOnSite(i, g), t)
  {
    OneRowLaw(w, StepArriveOnSite(i, g), i, t);
  }

  lemma ArriveJob(w: World, i: nat, g: nat)
    requires Arrives(w, StepArriveOnSite(i, g)) && !TakesOver(w, StepArriveOnSite(i, g))
    ensures JobLaw(w, StepArriveOnSite(i, g), Arrived(w, i))
  {
    assert w.requests + [] == w.requests && w.history + [] == w.history;
  }

  // Both rows of a handoff.
  function TookOver(w: World, i: nat, d: nat): World
    requires i < |w.assignments| && d < |w.assignments|
  {
    var done := Bump(w.assignments[d], Completed).(completedAt := Some(w.now));
    w.(assignments := w.assignments[d := done][i := OnTheSpot(w.assignments[i], w.now)],
       job := w.job.(status := InProgress, departing := None, failureReason := None),
       history := w.history + [HistoryEntry(Some(w.job.status), InProgress)])
  }

  lemma TakeOverRow(w: World, i: nat, g: nat, d: nat, k: nat)
    requires TakesOver(w, StepArriveOnSite(i, g)) && w.job.departing == Some(d) && d < |w.assignments| && d != i
    requires w.assignments[d].status.AwaitingRelief? && k < |w.assignments|
    ensures RowLaw(w, StepArriveOnSite(i, g), k, TookOver(w, i, d).assignments[k])
  {
  }

  lemma TakeOverRows(w: World, i: nat, g: nat, d: nat)
    requires TakesOver(w, StepArriveOnSite(i, g)) && w.job.departing == Some(d) && d < |w.assignments| && d != i
    requires w.assignments[d].status.AwaitingRelief?
    ensures RowsLaw(w, StepArriveOnSite(i, g), TookOver(w, i, d))
  {
    forall k | 0 <= k < |w.assignments|
      ensures RowLaw(w, StepArriveOnSite(i, g), k, TookOver(w, i, d).assignments[k])
    {
      TakeOverRow(w, i, g, d, k);
    }
  }

  lemma TakeOverJob(w: World, i: nat, g: nat, d: nat)
    requires TakesOver(w, StepArriveOnSite(i, g)) && d < |w.assignments|
    ensures JobLaw(w, StepArriveOnSite(i, g), TookOver(w, i, d))
  {
    assert w.requests + [] == w.requests && w.history + [] == w.history;
  }

  // What an arrival does, told by whether it is a handoff.
  lemma ArriveEffect(w: World, i: nat, g: nat)
    requires Inv(w)
    ensures var t := ArriveOnSite(w, i, g).world;
            if TakesOver(w, StepArriveOnSite(i, g)) then
              && w.job.departing.Some? && w.job.departing.value < |w.assignments| && w.job.departing.value != i
              && w.assignments[w.job.departing.value].status.AwaitingRelief?
              && t == TookOver(w, i, w.job.departing.value)
            else t == if Arrives(w, StepArriveOnSite(i, g)) then Arrived(w, i) else w
  {
    if Mine(w, i, g) && w.assignments[i].status.EnRoute? && w.job.status.SeekingReplacement? {
      HandoffKeeps(w, i);
    }
  }

  lemma ArriveObeys(w: World, i: nat, g: nat)
    requires Inv(w)
    ensures Law(w, StepArriveOnSite(i, g), ArriveOnSite(w, i, g).world)
  {
    ArriveEffect(w, i, g);
    if TakesOver(w, StepArriveOnSite(i, g)) {
      TakeOverRows(w, i, g, w.job.departing.value);
      TakeOverJob(w, i, g, w.job.departing.value);
    } else {
      ArriveRows(w, i, g, ArriveOnSite(w, i, g).world);
      if Arrives(w, StepArriveOnSite(i, g)) {
        ArriveJob(w, i, g);
      } else {
        RefusedJob(w, StepArriveOnSite(i, g));
      }
    }
  }

  // ---------- granting relief ----------

  lemma GrantRows(w: World, i: nat)
    ensures RowsLaw(w, StepApproveReplacement(i), ApproveReplacement(w, i).world)
  {
    OneRowLaw(w, StepApproveReplacement(i), i, ApproveReplacement(w, i).world);
  }

  function Granted(w: World, i: nat): World
    requires i < |w.assignments|
  {
    var b := Bump(w.assignments[i], AwaitingRelief).(replacementResolution := Some(ReplacementApproved));
    w.(assignments := w.assignments[i := b], requests := w.requests + [w.now],
       job := w.job.(status := SeekingReplacement, departing := Some(i), deadline := Some(w.now + 600_000),
                     failureReason := None, unreachableSince := None),
       history := w.history + [HistoryEntry(Some(w.job.status), SeekingReplacement)])
  }

  lemma GrantOutcome(w: World, i: nat)
    ensures ApproveReplacement(w, i).world ==
            if GrantsRelief(w, StepApproveReplacement(i)) then Granted(w, i) else w
  {
  }

  lemma GrantJob(w: World, i: nat)
    requires GrantsRelief(w, StepApproveReplacement(i))
    ensures JobLaw(w, StepApproveReplacement(i), Granted(w, i))
  {
  }

  lemma GrantObeys(w: World, i: nat)
    requires Drafted(w)
    ensures Law(w, StepApproveReplacement(i), ApproveReplacement(w, i).world)
  {
    GrantRows(w, i);
    GrantOutcome(w, i);
    if GrantsRelief(w, StepApproveReplacement(i)) {
      GrantJob(w, i);
    } else {
      RefusedJob(w, StepApproveReplacement(i));
    }
  }

  // ---------- calling off ----------

  lemma CancelRow(w: World, k: nat)
    requires ReplacementOk(w.assignments, w.job.status, w.job.departing)
    requires CallsOff(w, StepCancel) && k < |w.assignments|
    ensures k < |Cancel(w).world.assignments| == |w.assignments|
    ensures RowLaw(w, StepCancel, k, Cancel(w).world.assignments[k])
  {
    CancelledRow(w, k);
  }

  lemma CancelJob(w: World)
    requires CallsOff(w, StepCancel)
    ensures JobLaw(w, StepCancel, Cancel(w).world)
  {
    var t := ReleaseActive(ReleaseDeparting(ReleaseSubstitutes(ReleaseOffers(w))));
    assert t == w.(assignments := t.assignments) by {
      assert ReleaseDeparting(ReleaseSubstitutes(ReleaseOffers(w))).job == w.job;
    }
    assert w.requests + [] == w.requests;
  }

  lemma CancelObeys(w: World)
    requires Inv(w)
    ensures Law(w, StepCancel, Cancel(w).world)
  {
    if CallsOff(w, StepCancel) {
      CancelledRows(w);
      CancelJob(w);
    } else {
      RefusedCancelRows(w);
      RefusedJob(w, StepCancel);
    }
  }

  lemma CancelledRows(w: World)
    requires ReplacementOk(w.assignments, w.job.status, w.job.departing) && CallsOff(w, StepCancel)
    ensures RowsLaw(w, StepCancel, Cancel(w).world)
  {
    CancelRowCount(w);
    forall k | 0 <= k < |w.assignments| ensures RowLaw(w, StepCancel, k, Cancel(w).world.assignments[k]) {
      CancelRow(w, k);
    }
  }

  lemma CancelRowCount(w: World)
    ensures |Cancel(w).world.assignments| == |w.assignments|
  {
    assert |ReleaseDeparting(ReleaseSubstitutes(ReleaseOffers(w))).assignments| == |w.assignments|;
  }

  lemma RefusedCancelRows(w: World)
    requires !CallsOff(w, StepCancel)
    ensures RowsLaw(w, StepCancel, w)
  {
  }
}
