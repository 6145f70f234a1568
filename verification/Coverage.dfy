/** A one-slot job relieved through any number of handoffs is covered without a gap: its officers form one chain. */
module Coverage {
  import opened Domain
  import opened Counting
  import opened Eligibility
  import opened Protocol
  import opened Invariants
  import opened Runs

  // ---------- the chain of officers ----------

  // Everyone who ever arrived, in the order they took over from each other.
  ghost predicate Chain(s: seq<Assignment>, c: seq<nat>) {
    && (forall k :: 0 <= k < |c| ==> c[k] < |s| && s[c[k]].arrivedAt.Some?)
    && (forall i :: 0 <= i < |s| && s[i].arrivedAt.Some? ==> i in c)
    && (c != [] ==> Ordinary(s[c[0]]))
    && (forall k {:trigger Relieved(s, c, k)} :: 0 <= k < |c| - 1 ==> Relieved(s, c, k))
  }

  // The officer after the k-th took over at the instant the k-th completed.
  ghost predicate Relieved(s: seq<Assignment>, c: seq<nat>, k: nat)
    requires k + 1 < |c| && c[k] < |s| && c[k + 1] < |s|
  {
    && s[c[k + 1]].relieves == Some(c[k])
    && s[c[k]].status.Completed?
    && s[c[k]].completedAt == s[c[k + 1]].arrivedAt
  }

  // What else is known of the chain: only a cancelled job cancels someone who arrived, and a job past its work has its
  // last officer completed.
  ghost predicate ChainOk(w: World, c: seq<nat>) {
    && Chain(w.assignments, c)
    && (forall i :: 0 <= i < |w.assignments| && w.assignments[i].arrivedAt.Some? && w.assignments[i].status.Cancelled? ==>
          w.job.status.JobCancelled?)
    && (Past(w.job.status) ==> c != [] && w.assignments[c[|c| - 1]].status.Completed?)
  }

  // ---------- steps nobody arrives or completes in ----------

  // The row may change, but not who arrived when, nor anything completed; and nobody who arrived is cancelled unless
  // the job is.
  predicate QuietRow(a: Assignment, b: Assignment, jobCancelled: bool) {
    && b.arrivedAt == a.arrivedAt && b.relieves == a.relieves
    && (a.status.Completed? ==> b == a)
    && (b.status.Cancelled? && a.arrivedAt.Some? ==> a.status.Cancelled? || jobCancelled)
  }

  ghost predicate Quiet(w: World, w': World) {
    && |w.assignments| <= |w'.assignments|
    && (forall i :: 0 <= i < |w.assignments| ==>
          QuietRow(w.assignments[i], w'.assignments[i], w'.job.status.JobCancelled?))
    && (forall i :: |w.assignments| <= i < |w'.assignments| ==> w'.assignments[i].arrivedAt.None?)
    && (w.job.status.JobCancelled? ==> w'.job.status.JobCancelled?)
    && (Past(w'.job.status) ==> Past(w.job.status))
    && w'.job.requested == w.job.requested
  }

  lemma QuietKeepsChain(w: World, w': World, c: seq<nat>)
    requires ChainOk(w, c) && Quiet(w, w')
    ensures ChainOk(w', c)
  {
    forall k | 0 <= k < |c| - 1 ensures Relieved(w'.assignments, c, k) {
      assert Relieved(w.assignments, c, k);
    }
  }

  // Rows that never arrived, or never anybody's when the job is cancelled, can be cancelled quietly.
  lemma CancelIsQuiet(w: World, p: Assignment -> bool, bump: bool, to: JobStatus)
    requires forall i :: 0 <= i < |w.assignments| && p(w.assignments[i]) ==>
               !w.assignments[i].status.Completed? && (w.assignments[i].arrivedAt.None? || to.JobCancelled?)
    requires (w.job.status.JobCancelled? ==> to.JobCancelled?) && (Past(to) ==> Past(w.job.status))
    ensures Quiet(w, w.(assignments := CancelWhere(w.assignments, p, bump), job := w.job.(status := to)))
  {
  }

  lemma FailIsQuiet(w: World, reason: FailureReason)
    requires RowsOk(w.assignments, w.now) && !w.job.status.JobCancelled?
    ensures Quiet(w, FailJob(w, reason))
  {
    CancelIsQuiet(w, IsOffer, false, JobFailed);
  }

  lemma AcceptIsQuiet(w: World, i: nat, g: nat)
    requires RowsOk(w.assignments, w.now)
    ensures Quiet(w, Accept(w, i, g).world)
  {
    if Accept(w, i, g).reply.Done? {
      var w1 := Put(w, i, Bump(w.assignments[i], Accepted));
      AfterAcceptIsQuiet(w1);
    }
  }

  lemma AfterAcceptIsQuiet(w: World)
    requires forall i :: 0 <= i < |w.assignments| && IsPending(w.assignments[i]) ==> w.assignments[i].arrivedAt.None?
    requires AfterAccept(w).Some?
    ensures Quiet(w, AfterAccept(w).value)
    ensures AfterAccept(w).value.job.status == w.job.status || !Past(AfterAccept(w).value.job.status)
  {
  }

  lemma DeclineIsQuiet(w: World, i: nat, g: nat)
    ensures Quiet(w, Decline(w, i, g).world)
  {
  }

  lemma ExpireIsQuiet(w: World, i: nat, pool: Pool)
    requires RowsOk(w.assignments, w.now)
    ensures Quiet(w, ExpireOffer(w, i, pool))
  {
    if i < |w.assignments| && w.assignments[i].status.Offered? {
      var w1 := Put(w, i, Bump(w.assignments[i], Expired));
      assert RowsOk(w1.assignments, w.now);
      var failure := TerminalFailure(w1, pool);
      if failure.Some? {
        FailIsQuiet(w1, failure.value);
      }
    }
  }

  lemma AfterNoShowKeepsRows(w: World)
    requires AfterNoShow(w, w.job.status).Some?
    ensures AfterNoShow(w, w.job.status).value.assignments == w.assignments
    ensures AfterNoShow(w, w.job.status).value.job.status == w.job.status ||
            (!Past(AfterNoShow(w, w.job.status).value.job.status) && !w.job.status.JobCancelled?)
  {
  }

  lemma NoShowIsQuiet(w: World, i: nat)
    ensures Quiet(w, ReportNoShow(w, i).world)
  {
    if i < |w.assignments| && ReportNoShow(w, i).reply.Done? && !w.assignments[i].status.NoShow? {
      AfterNoShowKeepsRows(Put(w, i, Bump(w.assignments[i], NoShow)));
    }
  }

  lemma MarkEnRouteIsQuiet(w: World, i: nat, g: nat)
    ensures Quiet(w, MarkEnRoute(w, i, g).world)
  {
  }

  lemma ApproveReplacementIsQuiet(w: World, i: nat)
    ensures Quiet(w, ApproveReplacement(w, i).world)
  {
  }

  lemma RequestEarlyReleaseIsQuiet(w: World, i: nat, g: nat)
    ensures Quiet(w, RequestEarlyRelease(w, i, g).world)
  {
  }

  lemma ApproveEarlyReleaseIsQuiet(w: World, i: nat)
    ensures Quiet(w, ApproveEarlyRelease(w, i).world)
    ensures Quiet(w, AutoApproveEarlyRelease(w, i))
  {
  }

  lemma RejectEarlyReleaseIsQuiet(w: World, i: nat)
    ensures Quiet(w, RejectEarlyRelease(w, i).world)
  {
  }

  lemma RequestReplacementIsQuiet(w: World, i: nat, g: nat)
    ensures Quiet(w, RequestReplacement(w, i, g).world)
    ensures Quiet(w, DenyReplacement(w, i).world)
  {
  }

  lemma CancelJobIsQuiet(w: World)
    requires RowsOk(w.assignments, w.now)
    ensures Quiet(w, Cancel(w).world)
  {
    if Cancel(w).reply.Done? {
      var s, t := w.assignments, Cancel(w).world.assignments;
      forall i | 0 <= i < |s| ensures QuietRow(s[i], t[i], true) {
        ReleasedRow(w, i);
      }
    }
  }

  // Cancelling a job leaves a row as it is, or cancels it if it is not completed.
  lemma ReleasedRow(w: World, i: nat)
    requires i < |w.assignments|
    ensures var w' := ReleaseActive(ReleaseDeparting(ReleaseSubstitutes(ReleaseOffers(w))));
            && |w'.assignments| == |w.assignments|
            && (w'.assignments[i] == w.assignments[i]
                || (!w.assignments[i].status.Completed? && w'.assignments[i] == w.assignments[i].(status := Cancelled)))
  {
    var w1 := ReleaseOffers(w);
    assert IsOffer(w.assignments[i]) ==> w1.assignments[i] == w.assignments[i].(status := Cancelled);
    var w2 := ReleaseSubstitutes(w1);
    assert IsComing(w1.assignments[i]) ==> w2.assignments[i] == w1.assignments[i].(status := Cancelled);
    var w3 := ReleaseDeparting(w2);
    assert w2.assignments[i] == w.assignments[i] ||
           (!w.assignments[i].status.Completed? && w2.assignments[i] == w.assignments[i].(status := Cancelled));
    assert w3.assignments[i] == w2.assignments[i] ||
           (!w2.assignments[i].status.Completed? && w3.assignments[i] == w2.assignments[i].(status := Cancelled));
    assert IsWorking(w3.assignments[i]) ==> !w3.assignments[i].status.Completed?;
  }

  lemma {:induction false} OffersAreQuiet(w: World, gs: seq<nat>)
    ensures Quiet(w, CreateOffers(w, gs, None))
    decreases |gs|
  {
    if gs != [] {
      OffersAreQuiet(CreateOffer(w, gs[0], None), gs[1..]);
    }
  }

  lemma RetryOrFailIsQuiet(w: World, pool: Pool)
    requires RowsOk(w.assignments, w.now) && !w.job.status.JobCancelled?
    ensures Quiet(w, RetryOrFail(w, pool))
  {
    var failure := TerminalFailure(w, pool);
    if failure.Some? {
      FailIsQuiet(w, failure.value);
    }
  }

  lemma EmptyRoundIsQuiet(w: World, pool: Pool)
    requires RowsOk(w.assignments, w.now) && !w.job.status.JobCancelled?
    ensures Quiet(w, EmptyRound(w, pool))
  {
    var candidates := ListEligible(pool.ranked, w.cfg.poolSize, Excluded(w.assignments));
    RetryOrFailIsQuiet(NoteReachability(w, |candidates|, |Within(candidates, pool.reachable)|), pool);
  }

  lemma OrdinaryDispatchIsQuiet(w: World, pool: Pool)
    requires RowsOk(w.assignments, w.now) && !w.job.status.JobCancelled?
    ensures Quiet(w, OrdinaryDispatch(w, pool))
  {
    var failure := TerminalFailure(w, pool);
    if failure.Some? {
      FailIsQuiet(w, failure.value);
    } else {
      FailIsQuiet(w, MaxOffersExceeded);
      OffersAreQuiet(w, ParallelPicks(w, pool));
      EmptyRoundIsQuiet(w, pool);
    }
  }

  lemma ReplacementRoundIsQuiet(w: World, pool: Pool)
    ensures Quiet(w, ReplacementRound(w, pool))
  {
    var w' := ReplacementRound(w, pool);
    assert w'.job.status == w.job.status && w'.job.requested == w.job.requested;
    if w'.assignments != w.assignments {
      var pick := PickNext(pool, w.cfg.poolSize, ReplacementExcluded(w.assignments));
      assert w' == CreateOffer(w, pick.value, w.job.departing);
    }
  }

  lemma DispatchIsQuiet(w: World, pool: Pool)
    requires RowsOk(w.assignments, w.now)
    ensures Quiet(w, ProcessDispatch(w, pool))
  {
    var w1, w' := EnsureSchedule(w), ProcessDispatch(w, pool);
    assert w1.assignments == w.assignments && w1.job.status == w.job.status;
    if w.job.status.SeekingReplacement? {
      ReplacementRoundIsQuiet(w1, pool);
    } else if !w.job.status.JobCancelled? {
      OrdinaryDispatchIsQuiet(w1, pool);
      assert w' == OrdinaryDispatch(w1, pool) || w'.assignments == w.assignments;
    }
  }

  lemma RequestStepIsQuiet(w: World, step: Step)
    requires IsRequestStep(step)
    ensures Quiet(w, Apply(w, step))
  {
    match step
    case StepRequestEarlyRelease(i, g) => RequestEarlyReleaseIsQuiet(w, i, g);
    case StepApproveEarlyRelease(i) => ApproveEarlyReleaseIsQuiet(w, i);
    case StepRejectEarlyRelease(i) => RejectEarlyReleaseIsQuiet(w, i);
    case StepAutoApproveEarlyRelease(i) => ApproveEarlyReleaseIsQuiet(w, i);
    case StepRequestReplacement(i, g) => RequestReplacementIsQuiet(w, i, g);
    case StepDenyReplacement(i) => RequestReplacementIsQuiet(w, i, 0);
  }

  lemma JobStepIsQuiet(w: World, step: Step)
    requires RowsOk(w.assignments, w.now) && IsJobStep(step)
    ensures Quiet(w, Apply(w, step))
  {
    match step
    case StepTick(_) =>
    case StepRequestDispatch =>
    case StepProcessDispatch(pool) => DispatchIsQuiet(w, pool);
    case StepRequestReplacementDispatch =>
    case StepResumeReplacement =>
    case StepFailOverdue => if Searching(w.job.status) { FailIsQuiet(w, DispatchTimeout); }
    case StepFailExhausted(_) => if Searching(w.job.status) { FailIsQuiet(w, PoolExhausted); }
    case StepCancel => CancelJobIsQuiet(w);
    case StepConfirm =>
    case StepAutoConfirm(_) =>
  }

  lemma OfferStepIsQuiet(w: World, step: Step)
    requires RowsOk(w.assignments, w.now)
    requires !IsJobStep(step) && !IsRequestStep(step) && !step.StepArriveOnSite? && !step.StepComplete?
    ensures Quiet(w, Apply(w, step))
  {
    match step
    case StepAccept(i, g) => AcceptIsQuiet(w, i, g);
    case StepDecline(i, g) => DeclineIsQuiet(w, i, g);
    case StepExpireOffer(i, pool) => ExpireIsQuiet(w, i, pool);
    case StepMarkEnRoute(i, g) => MarkEnRouteIsQuiet(w, i, g);
    case StepApproveReplacement(i) => ApproveReplacementIsQuiet(w, i);
    case StepReportNoShow(i) => NoShowIsQuiet(w, i);
  }

  // ---------- arrivals and completions ----------

  // Of those who arrived and were not cancelled, only the last of the chain can still be working.
  lemma OnlyTheLastWorks(w: World, c: seq<nat>, i: nat)
    requires Chain(w.assignments, c) && RowsOk(w.assignments, w.now)
    requires i < |w.assignments| && Worked(w.assignments[i].status) && !w.assignments[i].status.Completed?
    ensures c != [] && c[|c| - 1] == i
  {
    assert RowOk(w.assignments[i], w.now) && i in c;
    var k :| 0 <= k < |c| && c[k] == i;
    assert k < |c| - 1 ==> Relieved(w.assignments, c, k);
  }

  // Completing changes nothing, or completes the one assignment and leaves the job as it is or past its work.
  lemma CompleteEffect(w: World, i: nat, g: nat)
    ensures var w' := Complete(w, i, g).world;
            || w' == w
            || (&& i < |w.assignments|
                && (w.assignments[i].status.OnSite? || w.assignments[i].status.EarlyReleaseRequested?)
                && w'.assignments == w.assignments[i := Bump(w.assignments[i], Completed).(completedAt := Some(w.now))]
                && (w'.job.status == w.job.status || w'.job.status.AwaitingConfirmation?)
                && (w'.job.status.AwaitingConfirmation? ==> !w.job.status.JobCancelled?)
                && w'.job.requested == w.job.requested)
  {
  }

  lemma CompleteExtends(w: World, i: nat, g: nat, c: seq<nat>)
    requires RowsOk(w.assignments, w.now) && ChainOk(w, c)
    ensures ChainOk(Complete(w, i, g).world, c)
    ensures Complete(w, i, g).world.job.requested == w.job.requested
  {
    var w' := Complete(w, i, g).world;
    CompleteEffect(w, i, g);
    if w' != w {
      OnlyTheLastWorks(w, c, i);
      forall k | 0 <= k < |c| - 1 ensures Relieved(w'.assignments, c, k) {
        assert Relieved(w.assignments, c, k);
      }
    }
  }

  // On a one-slot job the first ordinary guardian to arrive is the only one who ever does.
  lemma FirstArrival(w: World, i: nat, g: nat, c: seq<nat>)
    requires Inv(w) && ChainOk(w, c) && w.job.requested == 1
    requires Owned(w, i, g) && Ordinary(w.assignments[i]) && ArriveOnSite(w, i, g).reply.Done?
    ensures c == []
  {
    if c != [] {
      var o := c[0];
      assert RowOk(w.assignments[o], w.now) && RowOk(w.assignments[i], w.now);
      assert o != i && IsStaffed(w.assignments[o]) && IsStaffed(w.assignments[i]);
      CountTwo(w.assignments, if o < i then o else i, if o < i then i else o, IsStaffed);
      assert false;
    }
  }

  lemma HandoffExtends(w: World, i: nat, c: seq<nat>)
    requires RowsOk(w.assignments, w.now) && ChainOk(w, c)
    requires i < |w.assignments| && w.assignments[i].status.EnRoute?
    requires w.job.status.SeekingReplacement? && HandoffReady(w, i)
    ensures ChainOk(Handoff(w, i).world, c + [i])
  {
    var w' := Handoff(w, i).world;
    var o := w.assignments[i].relieves.value;
    OnlyTheLastWorks(w, c, o);
    var c' := c + [i];
    assert RowOk(w.assignments[i], w.now);
    forall k | 0 <= k < |c'| - 1 ensures Relieved(w'.assignments, c', k) {
      if k < |c| - 1 {
        assert Relieved(w.assignments, c, k);
      }
    }
  }

  // Every substitute who arrives does so while a replacement is sought, that is, by handoff.
  ghost predicate ArrivesByHandoff(w: World, step: Step) {
    step.StepArriveOnSite? && step.i < |w.assignments| && w.assignments[step.i].relieves.Some? ==>
      w.job.status.SeekingReplacement?
  }

  lemma ArriveExtends(w: World, i: nat, g: nat, c: seq<nat>) returns (c': seq<nat>)
    requires Inv(w) && ChainOk(w, c) && w.job.requested == 1 && ArrivesByHandoff(w, StepArriveOnSite(i, g))
    ensures ChainOk(ArriveOnSite(w, i, g).world, c')
    ensures ArriveOnSite(w, i, g).world.job.requested == w.job.requested
  {
    c' := c;
    if ArriveOnSite(w, i, g).reply.Done? {
      if w.assignments[i].relieves.Some? {
        HandoffExtends(w, i, c);
        c' := c + [i];
      } else {
        FirstArrival(w, i, g, c);
        c' := [i];
        assert ChainOk(ArriveOnSite(w, i, g).world, c');
      }
    }
  }

  lemma StepExtends(w: World, step: Step, c: seq<nat>) returns (c': seq<nat>)
    requires Inv(w) && ChainOk(w, c) && w.job.requested == 1 && ArrivesByHandoff(w, step)
    ensures ChainOk(Apply(w, step), c')
    ensures Apply(w, step).job.requested == 1
  {
    c' := c;
    if step.StepArriveOnSite? {
      c' := ArriveExtends(w, step.i, step.g, c);
    } else if step.StepComplete? {
      CompleteExtends(w, step.i, step.g, c);
    } else {
      if IsJobStep(step) {
        JobStepIsQuiet(w, step);
      } else if IsRequestStep(step) {
        RequestStepIsQuiet(w, step);
      } else {
        OfferStepIsQuiet(w, step);
      }
      QuietKeepsChain(w, Apply(w, step), c);
    }
  }

  // ---------- the run ----------

  ghost predicate RelievedRun(ws: seq<World>, steps: seq<Step>) {
    && Run(ws, steps)
    && ws[0].job.requested == 1
    && forall k {:trigger Follows(ws, steps, k)} :: 0 <= k < |steps| ==> ArrivesByHandoff(ws[k], steps[k])
  }

  /** Along such a run the officers who arrived form one chain. */
  lemma {:induction false} RunChain(ws: seq<World>, steps: seq<Step>, m: nat) returns (c: seq<nat>)
    requires RelievedRun(ws, steps) && m < |ws|
    ensures ChainOk(ws[m], c) && ws[m].job.requested == 1
  {
    if m == 0 {
      c := [];
    } else {
      var before := RunChain(ws, steps, m - 1);
      RunInv(ws, steps, m - 1);
      assert Follows(ws, steps, m - 1);
      c := StepExtends(ws[m - 1], steps[m - 1], before);
    }
  }
}
