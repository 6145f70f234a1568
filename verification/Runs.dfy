/** What holds along every run of the staffing protocol, each operation taken as one atomic step. */
module Runs {
  import opened Domain
  import opened Counting
  import opened Eligibility
  import opened Protocol
  import opened Invariants

  lemma {:induction false} RunInv(ws: seq<World>, steps: seq<Step>, k: nat)
    requires Run(ws, steps) && k < |ws|
    ensures Inv(ws[k])
  {
    if k == 0 {
      InitialInv(ws[0]);
    } else {
      RunInv(ws, steps, k - 1);
      assert Follows(ws, steps, k - 1);
      StepKeeps(ws[k - 1], steps[k - 1]);
    }
  }

  // ---------- slots and counters ----------

  /** A job never has more guardians committed or offered to its slots than it asked for. */
  lemma SlotsNeverOversold(ws: seq<World>, steps: seq<Step>, k: nat)
    requires Run(ws, steps) && k < |ws|
    ensures Staffed(ws[k].assignments) + PendingOffers(ws[k].assignments) <= ws[k].job.requested
  {
    RunInv(ws, steps, k);
  }

  /** The job's status agrees with the count; so a dispatch round never finds a searching job already full. */
  lemma StatusAgreesWithCount(ws: seq<World>, steps: seq<Step>, k: nat)
    requires Run(ws, steps) && k < |ws|
    ensures Searching(ws[k].job.status) ==> Staffed(ws[k].assignments) < ws[k].job.requested
    ensures ws[k].job.status.Assigned? ==> Staffed(ws[k].assignments) == ws[k].job.requested
    ensures Searching(ws[k].job.status) ==> !FullyStaffed(ws[k])
  {
    RunInv(ws, steps, k);
  }

  /** The accept that fills a job finds no surplus offer to cancel: it changes its own assignment only. */
  lemma FillingAcceptFindsNoSurplus(ws: seq<World>, steps: seq<Step>, k: nat, i: nat, g: nat)
    requires Run(ws, steps) && k < |ws| && Accept(ws[k], i, g).reply.Done?
    requires Accept(ws[k], i, g).world.job.status.Assigned?
    ensures var after := Accept(ws[k], i, g).world;
            && Staffed(after.assignments) == after.job.requested
            && after.assignments == ws[k].assignments[i := Bump(ws[k].assignments[i], Accepted)]
  {
    RunInv(ws, steps, k);
    var w := ws[k];
    AcceptKeeps(w, i, g);
    var w1 := Put(w, i, Bump(w.assignments[i], Accepted));
    CountZero(w1.assignments, IsPending);
    assert CancelWhere(w1.assignments, IsPending, true) == w1.assignments;
  }

  /** Exactly when an accept goes through: the offer is live and the caller's, and the job is either seeking a
  replacement or still searching. No offer left over on a job in any other status can be accepted. */
  lemma AcceptExactly(ws: seq<World>, steps: seq<Step>, k: nat, i: nat, g: nat)
    requires Run(ws, steps) && k < |ws|
    ensures Accept(ws[k], i, g).reply.Done? <==>
            && Owned(ws[k], i, g)
            && ws[k].assignments[i].status.Offered?
            && ws[k].now <= ws[k].assignments[i].expiresAt
            && (ws[k].job.status.SeekingReplacement? || Searching(ws[k].job.status))
    ensures !Accept(ws[k], i, g).reply.Done? ==> Accept(ws[k], i, g).world == ws[k]
  {
    RunInv(ws, steps, k);
    AcceptOnSound(ws[k], i, g);
  }

  lemma AcceptOnSound(w: World, i: nat, g: nat)
    requires Inv(w)
    ensures Accept(w, i, g).reply.Done? <==>
            && Owned(w, i, g)
            && w.assignments[i].status.Offered?
            && w.now <= w.assignments[i].expiresAt
            && (w.job.status.SeekingReplacement? || Searching(w.job.status))
    ensures !Accept(w, i, g).reply.Done? ==> Accept(w, i, g).world == w
  {
    if Owned(w, i, g) && w.assignments[i].status.Offered? {
      CountUpdate(w.assignments, i, Bump(w.assignments[i], Accepted), IsStaffed);
    }
  }

  /** Exactly when a no-show can be recorded: the guardian has not arrived, and the job is dispatching, partially
  assigned, in progress or seeking a replacement. On a fully assigned job no no-show is ever recorded: moving the job
  back to partially assigned is refused, and the report is rolled back with it. */
  lemma NoShowExactly(ws: seq<World>, steps: seq<Step>, k: nat, i: nat)
    requires Run(ws, steps) && k < |ws| && i < |ws[k].assignments| && !ws[k].assignments[i].status.NoShow?
    ensures var w := ws[k];
            var a := w.assignments[i].status;
            ReportNoShow(w, i).reply.Done? <==>
              && (a.Offered? || a.Accepted? || a.EnRoute?)
              && (w.job.status.Dispatching? || w.job.status.PartiallyAssigned? || w.job.status.InProgress? ||
                  w.job.status.SeekingReplacement?)
    ensures !ReportNoShow(ws[k], i).reply.Done? ==> ReportNoShow(ws[k], i).world == ws[k]
  {
    RunInv(ws, steps, k);
    NoShowOnSound(ws[k], i);
    RefusedNoShowChangesNothing(ws[k], i);
  }

  lemma NoShowOnSound(w: World, i: nat)
    requires Inv(w) && i < |w.assignments| && !w.assignments[i].status.NoShow?
    ensures var a := w.assignments[i].status;
            ReportNoShow(w, i).reply.Done? <==>
              && (a.Offered? || a.Accepted? || a.EnRoute?)
              && (w.job.status.Dispatching? || w.job.status.PartiallyAssigned? || w.job.status.InProgress? ||
                  w.job.status.SeekingReplacement?)
  {
    CountUpdate(w.assignments, i, Bump(w.assignments[i], NoShow), IsStaffed);
    CountZero(w.assignments, IsPending);
    var row := w.assignments[i];
    assert IsPending(row) || IsSubstitute(row) || !row.status.Offered?;
  }

  lemma RefusedNoShowChangesNothing(w: World, i: nat)
    ensures !ReportNoShow(w, i).reply.Done? ==> ReportNoShow(w, i).world == w
  {
  }

  /** Exactly when a completion is answered with a refusal and yet stands: the last ordinary slot is done with and the
  job is seeking a replacement, or already completed, failed or cancelled. Any other refusal changes nothing. */
  lemma CompletionStandsThoughRefused(ws: seq<World>, steps: seq<Step>, k: nat, i: nat, g: nat)
    requires Run(ws, steps) && k < |ws|
    ensures var w := ws[k];
            var after := Complete(w, i, g);
            !after.reply.Done? && after.world != w <==>
              && Owned(w, i, g)
              && (w.assignments[i].status.OnSite? ||
                  (w.assignments[i].status.EarlyReleaseRequested? && IsApproved(w.assignments[i].earlyResolution)))
              && Active(w.assignments[i := Bump(w.assignments[i], Completed)]) == 0
              && (w.job.status.SeekingReplacement? || w.job.status.JobCompleted? || w.job.status.JobFailed? ||
                  w.job.status.JobCancelled?)
    ensures var after := Complete(ws[k], i, g);
            after.world != ws[k] ==>
              i < |ws[k].assignments| && after.world.assignments[i].status.Completed? &&
              after.world.assignments[i].completedAt == Some(ws[k].now)
  {
    RunInv(ws, steps, k);
    var w := ws[k];
    if Owned(w, i, g) {
      var done := Bump(w.assignments[i], Completed);
      var stamped := done.(completedAt := Some(w.now));
      CountUpdate(w.assignments, i, done, IsActive);
      CountUpdate(w.assignments, i, stamped, IsActive);
      assert RowOk(w.assignments[i], w.now);
      assert w.assignments[i := stamped][i] == stamped;
    }
  }

  /** Offers are counted and numbered 1 to n; substitutes stay within their cap across every pause and resume; and the
  number of offers is bounded by the two caps. */
  lemma CountersExact(ws: seq<World>, steps: seq<Step>, k: nat)
    requires Run(ws, steps) && k < |ws|
    ensures ws[k].job.offersSent == |ws[k].assignments|
    ensures forall i :: 0 <= i < |ws[k].assignments| ==> ws[k].assignments[i].round == i + 1
    ensures Substitutes(ws[k].assignments) <= ws[k].cfg.maxReplacementOffers
    ensures |ws[k].assignments| <=
            ws[k].cfg.maxOffers - 1 + ws[k].cfg.parallelOffers + Substitutes(ws[k].assignments)
  {
    RunInv(ws, steps, k);
  }

  // ---------- replacement ----------

  predicate IsAwaitingRelief(a: Assignment) {
    a.status.AwaitingRelief?
  }

  lemma {:induction false} CountOne(s: seq<Assignment>, d: nat, p: Assignment -> bool)
    requires d < |s| && forall i :: 0 <= i < |s| ==> (p(s[i]) <==> i == d)
    ensures Count(s, p) == 1
  {
    var t := s[..|s| - 1];
    if d == |s| - 1 {
      CountZero(t, p);
    } else {
      CountOne(t, d, p);
    }
  }

  /** A job seeks a replacement exactly when exactly one of its assignments awaits relief, and then that one is the
  departing assignment, approved for relief. Otherwise none does. */
  lemma SeekingExactlyWhenOneAwaitsRelief(ws: seq<World>, steps: seq<Step>, k: nat)
    requires Run(ws, steps) && k < |ws|
    ensures ws[k].job.status.SeekingReplacement? <==> Count(ws[k].assignments, IsAwaitingRelief) == 1
    ensures !ws[k].job.status.SeekingReplacement? <==> Count(ws[k].assignments, IsAwaitingRelief) == 0
    ensures ws[k].job.status.SeekingReplacement? ==>
              && ws[k].job.departing.Some? && ws[k].job.departing.value < |ws[k].assignments|
              && ws[k].assignments[ws[k].job.departing.value].status.AwaitingRelief?
              && ws[k].assignments[ws[k].job.departing.value].replacementResolution == Some(ReplacementApproved)
  {
    RunInv(ws, steps, k);
    var w := ws[k];
    if w.job.status.SeekingReplacement? {
      CountOne(w.assignments, w.job.departing.value, IsAwaitingRelief);
    } else {
      CountZero(w.assignments, IsAwaitingRelief);
    }
  }

  /** The arrival of a substitute while a replacement is sought hands over exactly when it relieves the departing
  guardian: its checks pass, and nothing after them refuses. Both officers' times are then the same instant. */
  lemma HandoffNeverAborts(ws: seq<World>, steps: seq<Step>, k: nat, i: nat, g: nat)
    requires Run(ws, steps) && k < |ws| && Owned(ws[k], i, g)
    requires ws[k].job.status.SeekingReplacement? && ws[k].assignments[i].relieves.Some?
    requires ws[k].assignments[i].status.EnRoute?
    ensures ArriveOnSite(ws[k], i, g).reply.Done? <==> ws[k].assignments[i].relieves == ws[k].job.departing
    ensures ArriveOnSite(ws[k], i, g).reply.Done? ==>
              var after := ArriveOnSite(ws[k], i, g).world;
              var d := ws[k].job.departing.value;
              && after.job.status.InProgress? && after.job.departing.None?
              && after.assignments[d].status.Completed? && after.assignments[i].status.OnSite?
              && after.assignments[d].completedAt == after.assignments[i].arrivedAt == Some(ws[k].now)
              && after.assignments[d].guardian != g
  {
    RunInv(ws, steps, k);
    HandoffKeeps(ws[k], i);
    var w := ws[k];
    if HandoffReady(w, i) {
      assert Compatible(w.assignments[w.job.departing.value], w.assignments[i]);
    }
  }

  // What pausing means for one step: the search stays paused and nobody is offered anything, or it is over.
  predicate StaysPaused(w: World, w': World) {
    Paused(w) ==> !w'.job.status.SeekingReplacement? || (Paused(w') && |w'.assignments| == |w.assignments|)
  }

  lemma DispatchStaysPaused(w: World, pool: Pool)
    ensures StaysPaused(w, ProcessDispatch(w, pool))
  {
    if Paused(w) {
      assert ProcessDispatch(w, pool) == EnsureSchedule(w);
    }
  }

  lemma OfferStepStaysPaused(w: World, i: nat, g: nat, pool: Pool)
    ensures StaysPaused(w, Accept(w, i, g).world)
    ensures StaysPaused(w, ExpireOffer(w, i, pool))
    ensures StaysPaused(w, ReportNoShow(w, i).world)
  {
  }

  lemma WorkStepStaysPaused(w: World, i: nat, g: nat)
    ensures StaysPaused(w, ArriveOnSite(w, i, g).world)
    ensures StaysPaused(w, Complete(w, i, g).world)
    ensures StaysPaused(w, ApproveReplacement(w, i).world)
  {
  }

  lemma StepStaysPaused(w: World, step: Step)
    requires !step.StepResumeReplacement?
    ensures StaysPaused(w, Apply(w, step))
  {
    match step
    case StepProcessDispatch(pool) => DispatchStaysPaused(w, pool);
    case StepAccept(i, g) => OfferStepStaysPaused(w, i, g, RawPool([], 0, {}));
    case StepExpireOffer(i, pool) => OfferStepStaysPaused(w, i, 0, pool);
    case StepReportNoShow(i) => OfferStepStaysPaused(w, i, 0, RawPool([], 0, {}));
    case StepArriveOnSite(i, g) => WorkStepStaysPaused(w, i, g);
    case StepComplete(i, g) => WorkStepStaysPaused(w, i, g);
    case StepApproveReplacement(i) => WorkStepStaysPaused(w, i, 0);
    case StepCancel =>
    case StepTick(_) =>
    case StepRequestDispatch =>
    case StepRequestReplacementDispatch =>
    case StepFailOverdue =>
    case StepFailExhausted(_) =>
    case StepConfirm =>
    case StepAutoConfirm(_) =>
    case _ => RowStepsMoveNothing(w, step);
  }

  /** A replacement search that has been paused stays paused, and offers the job to nobody, until it is resumed or over. */
  lemma {:induction false} PausedUntilResumed(ws: seq<World>, steps: seq<Step>, k: nat, m: nat)
    requires Run(ws, steps) && k <= m < |ws| && Paused(ws[k])
    requires forall j :: k <= j < m ==> !steps[j].StepResumeReplacement?
    requires forall j :: k <= j <= m ==> ws[j].job.status.SeekingReplacement?
    ensures Paused(ws[m]) && |ws[m].assignments| == |ws[k].assignments|
    decreases m - k
  {
    if k < m {
      PausedUntilResumed(ws, steps, k, m - 1);
      assert Follows(ws, steps, m - 1);
      StepStaysPaused(ws[m - 1], steps[m - 1]);
    }
  }

  // ---------- failing ----------

  lemma EmptyRoundGoesOn(w: World, pool: Pool)
    requires w.job.status.InProgress?
    ensures EmptyRound(w, pool).job.status.InProgress?
  {
  }

  lemma OrdinaryRoundGoesOn(w: World, pool: Pool)
    requires w.job.status.InProgress?
    ensures OrdinaryRound(w, pool).job.status.InProgress?
  {
    CreateOffersShape(w, ParallelPicks(w, pool));
    EmptyRoundGoesOn(w, pool);
  }

  lemma RoundFailsExactly(w: World, pool: Pool)
    requires w.job.status.InProgress?
    ensures ProcessDispatch(w, pool).job.status.JobFailed? <==> !FullyStaffed(w) && w.cfg.maxOffers <= w.job.offersSent
  {
    OrdinaryRoundGoesOn(EnsureSchedule(w), pool);
  }

  lemma OtherStepsFailNone(w: World, i: nat, g: nat, pool: Pool)
    requires w.job.status.InProgress?
    ensures !Accept(w, i, g).world.job.status.JobFailed? && !ExpireOffer(w, i, pool).job.status.JobFailed?
    ensures !ReportNoShow(w, i).world.job.status.JobFailed? && !ArriveOnSite(w, i, g).world.job.status.JobFailed?
    ensures !Complete(w, i, g).world.job.status.JobFailed? && !ApproveReplacement(w, i).world.job.status.JobFailed?
    ensures !Cancel(w).world.job.status.JobFailed?
  {
  }

  /** Exactly when a job in progress fails, officers on site or not: when a dispatch round finds it short of officers and
  at its cap of offers. Neither the deadline nor the pool ever fails it. */
  lemma InProgressFailsExactly(w: World, step: Step)
    requires w.job.status.InProgress?
    ensures Apply(w, step).job.status.JobFailed? <==>
            step.StepProcessDispatch? && !FullyStaffed(w) && w.cfg.maxOffers <= w.job.offersSent
  {
    var none := RawPool([], 0, {});
    match step
    case StepProcessDispatch(pool) => RoundFailsExactly(w, pool);
    case StepAccept(i, g) => OtherStepsFailNone(w, i, g, none);
    case StepExpireOffer(i, pool) => OtherStepsFailNone(w, i, 0, pool);
    case StepReportNoShow(i) => OtherStepsFailNone(w, i, 0, none);
    case StepArriveOnSite(i, g) => OtherStepsFailNone(w, i, g, none);
    case StepComplete(i, g) => OtherStepsFailNone(w, i, g, none);
    case StepApproveReplacement(i) => OtherStepsFailNone(w, i, 0, none);
    case StepCancel => OtherStepsFailNone(w, 0, 0, none);
    case StepTick(_) =>
    case StepRequestDispatch =>
    case StepRequestReplacementDispatch =>
    case StepResumeReplacement =>
    case StepFailOverdue =>
    case StepFailExhausted(_) =>
    case StepConfirm =>
    case StepAutoConfirm(_) =>
    case _ => RowStepsMoveNothing(w, step);
  }

  // ---------- deadlines ----------

  // The steps that give the search a new window.
  predicate OpensWindow(step: Step) {
    step.StepReportNoShow? || step.StepApproveReplacement? || step.StepResumeReplacement?
  }

  predicate KeepsDeadline(w: World, w': World) {
    w.job.deadline.Some? ==> w'.job.deadline == w.job.deadline
  }

  lemma EmptyKeepsDeadline(w: World, pool: Pool)
    ensures EmptyRound(w, pool).job.deadline == w.job.deadline
  {
  }

  lemma OrdinaryKeepsDeadline(w: World, pool: Pool)
    ensures OrdinaryDispatch(w, pool).job.deadline == w.job.deadline
  {
    CreateOffersShape(w, ParallelPicks(w, pool));
    EmptyKeepsDeadline(w, pool);
  }

  lemma ReplacementKeepsDeadline(w: World, pool: Pool)
    ensures ReplacementRound(w, pool).job.deadline == w.job.deadline
  {
  }

  lemma RoundKeepsDeadline(w: World, pool: Pool)
    ensures KeepsDeadline(w, ProcessDispatch(w, pool))
  {
    OrdinaryKeepsDeadline(EnsureSchedule(w), pool);
    ReplacementKeepsDeadline(EnsureSchedule(w), pool);
  }

  lemma OfferStepKeepsDeadline(w: World, i: nat, g: nat, pool: Pool)
    ensures KeepsDeadline(w, Accept(w, i, g).world)
    ensures KeepsDeadline(w, ExpireOffer(w, i, pool))
    ensures KeepsDeadline(w, ArriveOnSite(w, i, g).world)
    ensures KeepsDeadline(w, Complete(w, i, g).world)
  {
  }

  lemma JobStepKeepsDeadline(w: World, pool: Pool)
    ensures KeepsDeadline(w, RequestDispatch(w).world)
    ensures KeepsDeadline(w, FailOverdue(w)) && KeepsDeadline(w, FailExhausted(w, pool))
    ensures KeepsDeadline(w, Cancel(w).world)
  {
    assert ReleaseDeparting(ReleaseSubstitutes(ReleaseOffers(w))).job == w.job;
  }

  lemma StepKeepsDeadline(w: World, step: Step)
    requires !OpensWindow(step)
    ensures KeepsDeadline(w, Apply(w, step))
  {
    match step
    case StepProcessDispatch(pool) => RoundKeepsDeadline(w, pool);
    case StepAccept(i, g) => OfferStepKeepsDeadline(w, i, g, RawPool([], 0, {}));
    case StepExpireOffer(i, pool) => OfferStepKeepsDeadline(w, i, 0, pool);
    case StepArriveOnSite(i, g) => OfferStepKeepsDeadline(w, i, g, RawPool([], 0, {}));
    case StepComplete(i, g) => OfferStepKeepsDeadline(w, i, g, RawPool([], 0, {}));
    case StepRequestDispatch => JobStepKeepsDeadline(w, RawPool([], 0, {}));
    case StepFailOverdue => JobStepKeepsDeadline(w, RawPool([], 0, {}));
    case StepFailExhausted(pool) => JobStepKeepsDeadline(w, pool);
    case StepCancel => JobStepKeepsDeadline(w, RawPool([], 0, {}));
    case StepTick(_) =>
    case StepRequestReplacementDispatch =>
    case StepConfirm =>
    case StepAutoConfirm(_) =>
    case _ => RowStepsMoveNothing(w, step);
  }

  /** A deadline, once set, moves only with a no-show, the approval of a replacement or the resumption of a search. */
  lemma {:induction false} DeadlineStays(ws: seq<World>, steps: seq<Step>, k: nat, m: nat)
    requires Run(ws, steps) && k <= m < |ws| && ws[k].job.deadline.Some?
    requires forall j :: k <= j < m ==> !OpensWindow(steps[j])
    ensures ws[m].job.deadline == ws[k].job.deadline
    decreases m - k
  {
    if k < m {
      DeadlineStays(ws, steps, k, m - 1);
      assert Follows(ws, steps, m - 1);
      StepKeepsDeadline(ws[m - 1], steps[m - 1]);
    }
  }

  // ---------- guardians ----------

  /** Per guardian there is at most one ordinary assignment that is not a no-show, and a substitute never had an
  earlier assignment on the job; so nobody relieves themselves. */
  lemma NobodyTwice(ws: seq<World>, steps: seq<Step>, k: nat)
    requires Run(ws, steps) && k < |ws|
    ensures var s := ws[k].assignments;
            && (forall i, j :: 0 <= i < j < |s| && s[i].guardian == s[j].guardian ==>
                  && Ordinary(s[j])
                  && (IsSubstitute(s[i]) || s[i].status.NoShow? || s[j].status.NoShow?))
            && (forall j :: 0 <= j < |s| && s[j].relieves.Some? ==>
                  s[j].relieves.value < j && s[s[j].relieves.value].guardian != s[j].guardian)
  {
    RunInv(ws, steps, k);
    var s := ws[k].assignments;
    forall i, j | 0 <= i < j < |s| && s[i].guardian == s[j].guardian
      ensures Ordinary(s[j]) && (IsSubstitute(s[i]) || s[i].status.NoShow? || s[j].status.NoShow?)
    {
      assert Compatible(s[i], s[j]);
    }
    forall j | 0 <= j < |s| && s[j].relieves.Some?
      ensures s[j].relieves.value < j && s[s[j].relieves.value].guardian != s[j].guardian
    {
      assert IsSubstitute(s[j]);
      assert Compatible(s[s[j].relieves.value], s[j]);
    }
  }

  // ---------- settlement ----------

  /** A job awaiting confirmation or completed has nobody working an ordinary slot and a completed assignment with its
  times in order, so drafting its invoice cannot fail, and offers left over on it cannot be accepted. */
  lemma SettledJobCanBeBilled(ws: seq<World>, steps: seq<Step>, k: nat)
    requires Run(ws, steps) && k < |ws| && Past(ws[k].job.status)
    ensures forall i :: 0 <= i < |ws[k].assignments| ==> !IsActive(ws[k].assignments[i])
    ensures exists i :: 0 <= i < |ws[k].assignments| && Billable(ws[k].assignments[i]) &&
                        ws[k].assignments[i].arrivedAt.value <= ws[k].assignments[i].completedAt.value
    ensures DraftInvoice(ws[k].(invoiceDrafted := false)).reply.Done?
    ensures forall i: nat, g: nat :: !Accept(ws[k], i, g).reply.Done?
  {
    RunInv(ws, steps, k);
    CountZero(ws[k].assignments, IsActive);
    var i :| 0 <= i < |ws[k].assignments| && Billable(ws[k].assignments[i]);
    assert RowOk(ws[k].assignments[i], ws[k].now);
    forall i: nat, g: nat ensures !Accept(ws[k], i, g).reply.Done? {
      AcceptExactly(ws, steps, k, i, g);
    }
  }

  /** Whoever is still at work on a settled job is a substitute: only ordinary assignments are waited for. */
  lemma OnlySubstitutesOutliveTheJob(ws: seq<World>, steps: seq<Step>, k: nat, i: nat)
    requires Run(ws, steps) && k < |ws| && Past(ws[k].job.status)
    requires i < |ws[k].assignments| && ActiveStatus(ws[k].assignments[i].status)
    ensures IsSubstitute(ws[k].assignments[i])
  {
    RunInv(ws, steps, k);
    CountZero(ws[k].assignments, IsActive);
    assert !IsActive(ws[k].assignments[i]);
  }

  /** Exactly when a completion that settles the job leaves somebody at work: when a substitute other than the one
  completing is still at work. */
  lemma SettlingLeavesSomebodyExactly(ws: seq<World>, steps: seq<Step>, k: nat, i: nat, g: nat)
    requires Run(ws, steps) && k < |ws|
    requires Complete(ws[k], i, g).reply.Done? && Complete(ws[k], i, g).world.job.status.AwaitingConfirmation?
    ensures var s := ws[k].assignments;
            var t := Complete(ws[k], i, g).world.assignments;
            (exists j :: 0 <= j < |t| && ActiveStatus(t[j].status)) <==>
            (exists j :: 0 <= j < |s| && j != i && IsSubstitute(s[j]) && ActiveStatus(s[j].status))
  {
    RunInv(ws, steps, k);
    SettlingRows(ws[k], i, g);
    var s, t := ws[k].assignments, Complete(ws[k], i, g).world.assignments;
    if j :| 0 <= j < |t| && ActiveStatus(t[j].status) {
      assert !IsActive(t[j]) && t[j] == s[j];
    }
    if j :| 0 <= j < |s| && j != i && IsSubstitute(s[j]) && ActiveStatus(s[j].status) {
      assert t[j] == s[j];
    }
  }

  lemma SettlingRows(w: World, i: nat, g: nat)
    requires Inv(w) && Complete(w, i, g).reply.Done? && Complete(w, i, g).world.job.status.AwaitingConfirmation?
    ensures var t := Complete(w, i, g).world.assignments;
            && |t| == |w.assignments| && i < |t| && t[i].status.Completed?
            && (forall j :: 0 <= j < |t| && j != i ==> t[j] == w.assignments[j])
            && (forall j :: 0 <= j < |t| ==> !IsActive(t[j]))
  {
    CompleteKeeps(w, i, g);
    CountZero(Complete(w, i, g).world.assignments, IsActive);
  }

  /** What cancelling a job releases: everybody but the substitutes already on site, unless it is the departing one. */
  lemma CancelReleasesExactly(ws: seq<World>, steps: seq<Step>, k: nat, i: nat)
    requires Run(ws, steps) && k < |ws| && Cancel(ws[k]).reply.Done? && i < |ws[k].assignments|
    ensures |Cancel(ws[k]).world.assignments| == |ws[k].assignments|
    ensures var a := ws[k].assignments[i];
            var after := Cancel(ws[k]).world.assignments[i];
            && (after == a || after == a.(status := Cancelled))
            && !after.status.Offered?
            && (ActiveStatus(after.status) <==>
                  && IsSubstitute(a)
                  && (a.status.OnSite? || a.status.EarlyReleaseRequested? || a.status.ReplacementRequested?)
                  && !Departs(ws[k], i))
  {
    RunInv(ws, steps, k);
    CancelledRow(ws[k], i);
  }

  /** An approved early release is held only while it is requested, or after completion or cancellation. */
  lemma ApprovedEarlyReleaseOnlyWhereDue(ws: seq<World>, steps: seq<Step>, k: nat, i: nat)
    requires Run(ws, steps) && k < |ws| && i < |ws[k].assignments|
    ensures IsApproved(ws[k].assignments[i].earlyResolution) ==>
              || ws[k].assignments[i].status.EarlyReleaseRequested?
              || ws[k].assignments[i].status.Completed?
              || ws[k].assignments[i].status.Cancelled?
  {
    RunInv(ws, steps, k);
  }

  // ---------- history ----------

  // One step leaves the job where it is, or moves it once and records the move.
  ghost predicate MovedOnce(w: World, w': World) {
    || (w'.history == w.history && w'.job.status == w.job.status)
    || w'.history == w.history + [HistoryEntry(Some(w.job.status), w'.job.status)]
  }

  lemma StepMovesOnce(w: World, step: Step)
    ensures MovedOnce(w, Apply(w, step))
  {
    match step
    case StepProcessDispatch(pool) => DispatchMovesOnce(w, pool);
    case StepAccept(i, g) => AcceptMovesOnce(w, i, g);
    case StepExpireOffer(i, pool) => ExpireMovesOnce(w, i, pool);
    case StepReportNoShow(i) => NoShowMovesOnce(w, i);
    case StepComplete(i, g) => CompleteMovesOnce(w, i, g);
    case StepArriveOnSite(i, g) => ArriveMovesOnce(w, i, g);
    case StepApproveReplacement(i) => ApproveMovesOnce(w, i);
    case StepTick(_) =>
    case StepRequestDispatch =>
    case StepRequestReplacementDispatch =>
    case StepResumeReplacement =>
    case StepFailOverdue =>
    case StepFailExhausted(pool) => FailExhaustedMovesOnce(w, pool);
    case StepCancel => CancelMovesOnce(w);
    case StepConfirm =>
    case StepAutoConfirm(_) =>
    case _ => RowStepsMoveNothing(w, step);
  }

  lemma RowStepsMoveNothing(w: World, step: Step)
    requires || step.StepDecline? || step.StepMarkEnRoute? || step.StepRequestEarlyRelease?
             || step.StepApproveEarlyRelease? || step.StepRejectEarlyRelease? || step.StepAutoApproveEarlyRelease?
             || step.StepRequestReplacement? || step.StepDenyReplacement?
    ensures Apply(w, step).history == w.history && Apply(w, step).job == w.job
  {
  }

  lemma AcceptMovesOnce(w: World, i: nat, g: nat)
    ensures MovedOnce(w, Accept(w, i, g).world)
  {
  }

  lemma ExpireMovesOnce(w: World, i: nat, pool: Pool)
    ensures MovedOnce(w, ExpireOffer(w, i, pool))
  {
  }

  lemma NoShowMovesOnce(w: World, i: nat)
    ensures MovedOnce(w, ReportNoShow(w, i).world)
  {
  }

  lemma CompleteMovesOnce(w: World, i: nat, g: nat)
    ensures MovedOnce(w, Complete(w, i, g).world)
  {
  }

  lemma ArriveMovesOnce(w: World, i: nat, g: nat)
    ensures MovedOnce(w, ArriveOnSite(w, i, g).world)
  {
  }

  lemma ApproveMovesOnce(w: World, i: nat)
    ensures MovedOnce(w, ApproveReplacement(w, i).world)
  {
  }

  lemma FailExhaustedMovesOnce(w: World, pool: Pool)
    ensures MovedOnce(w, FailExhausted(w, pool))
  {
  }

  lemma CancelMovesOnce(w: World)
    ensures MovedOnce(w, Cancel(w).world)
  {
    assert ReleaseDeparting(ReleaseSubstitutes(ReleaseOffers(w))).history == w.history;
  }

  lemma OrdinaryRoundMovesOnce(w: World, pool: Pool)
    ensures MovedOnce(w, OrdinaryRound(w, pool))
  {
    var picks := ParallelPicks(w, pool);
    if OpenSlots(w) != 0 && picks != [] {
      CreateOffersShape(w, picks);
    } else if OpenSlots(w) != 0 {
      EmptyRoundMovesOnce(w, pool);
    }
  }

  lemma EmptyRoundMovesOnce(w: World, pool: Pool)
    ensures MovedOnce(w, EmptyRound(w, pool))
  {
  }

  lemma ReplacementRoundMovesOnce(w: World, pool: Pool)
    ensures MovedOnce(w, ReplacementRound(w, pool))
  {
  }

  lemma OrdinaryDispatchMovesOnce(w: World, pool: Pool)
    ensures MovedOnce(w, OrdinaryDispatch(w, pool))
  {
    OrdinaryRoundMovesOnce(w, pool);
  }

  lemma DispatchMovesOnce(w: World, pool: Pool)
    ensures MovedOnce(w, ProcessDispatch(w, pool))
  {
    var w' := EnsureSchedule(w);
    OrdinaryDispatchMovesOnce(w', pool);
    ReplacementRoundMovesOnce(w', pool);
  }

  lemma StatusStep(ws: seq<World>, steps: seq<Step>, k: nat)
    requires Run(ws, steps) && k + 1 < |ws|
    ensures ws[k].history <= ws[k + 1].history
    ensures ws[k + 1].job.status == ws[k].job.status || JobEdge(ws[k].job.status, ws[k + 1].job.status)
  {
    RunInv(ws, steps, k);
    RunInv(ws, steps, k + 1);
    assert Follows(ws, steps, k);
    StepMovesOnce(ws[k], steps[k]);
    LastMove(ws[k].history, ws[k].job.status, ws[k + 1].history, ws[k + 1].job.status);
  }

  lemma LastMove(h: seq<HistoryEntry>, from: JobStatus, h': seq<HistoryEntry>, to: JobStatus)
    requires HistoryOk(h, from) && HistoryOk(h', to)
    requires (h' == h && to == from) || h' == h + [HistoryEntry(Some(from), to)]
    ensures to == from || JobEdge(from, to)
  {
    if h' != h {
      assert h'[|h|].newStatus == to && h'[|h| - 1].newStatus == from;
    }
  }

  /** The status history replays: it starts with the creation in Pending, each entry takes over where the one before
  left off by a move of the table, and it ends in the current status. It only ever grows. */
  lemma HistoryReplays(ws: seq<World>, steps: seq<Step>, k: nat)
    requires Run(ws, steps) && k < |ws|
    ensures HistoryOk(ws[k].history, ws[k].job.status)
    ensures k + 1 < |ws| ==> ws[k].history <= ws[k + 1].history
  {
    RunInv(ws, steps, k);
    if k + 1 < |ws| {
      StatusStep(ws, steps, k);
    }
  }

  /** Completed and cancelled jobs stay so for ever; a job awaiting confirmation can only become completed, and a failed
  job only cancelled. */
  lemma {:induction false} FinalStatusesAreFinal(ws: seq<World>, steps: seq<Step>, k: nat, m: nat)
    requires Run(ws, steps) && k <= m < |ws|
    ensures ws[k].job.status.JobCompleted? ==> ws[m].job.status.JobCompleted?
    ensures ws[k].job.status.JobCancelled? ==> ws[m].job.status.JobCancelled?
    ensures ws[k].job.status.AwaitingConfirmation? ==> Past(ws[m].job.status)
    ensures ws[k].job.status.JobFailed? ==> ws[m].job.status.JobFailed? || ws[m].job.status.JobCancelled?
    decreases m - k
  {
    if k < m {
      FinalStatusesAreFinal(ws, steps, k, m - 1);
      StatusStep(ws, steps, m - 1);
    }
  }
}
