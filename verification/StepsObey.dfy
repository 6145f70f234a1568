/** Every step from a sound state is what the laws say, and nothing else is. */
module StepsObey {
  import opened Domain
  import opened Counting
  import opened Eligibility
  import opened Protocol
  import opened Invariants
  import opened Runs
  import opened StepLaws
  import opened CallsObey
  import opened RoundsObey

  lemma SoundIsDrafted(w: World)
    requires Inv(w)
    ensures Drafted(w) && ReplacementOk(w.assignments, w.job.status, w.job.departing)
    ensures SettledOk(w.assignments, w.job.status, w.invoiceDrafted) && NobodyEarly(w.assignments, w.job.status)
    ensures forall i :: 0 <= i < |w.assignments| ==> RowOk(w.assignments[i], w.now)
  {
  }

  lemma JobStepObeys(w: World, step: Step)
    requires Inv(w) && IsJobStep(step)
    ensures Law(w, step, Apply(w, step))
  {
    SoundIsDrafted(w);
    match step
    case StepProcessDispatch(pool) => DispatchObeys(w, pool);
    case StepFailOverdue => FailOverdueObeys(w);
    case StepFailExhausted(pool) => FailExhaustedObeys(w, pool);
    case StepCancel => CancelObeys(w);
    case _ => QuietStepObeys(w, step);
  }

  lemma QuietStepObeys(w: World, step: Step)
    requires Drafted(w) && ReplacementOk(w.assignments, w.job.status, w.job.departing)
    requires SettledOk(w.assignments, w.job.status, w.invoiceDrafted) && WritesNoRow(step)
    ensures Law(w, step, Apply(w, step))
  {
    UntouchedStepRows(w, step);
    match step
    case StepTick(ms) => TickJob(w, ms);
    case StepRequestDispatch => RequestDispatchJob(w);
    case StepRequestReplacementDispatch => ResumeJob(w);
    case StepResumeReplacement => ResumeJob(w);
    case StepConfirm => ConfirmJob(w);
    case StepAutoConfirm(issuable) => AutoConfirmJob(w, issuable);
  }

  lemma RowStepObeys(w: World, step: Step)
    requires Inv(w) && !IsJobStep(step)
    ensures Law(w, step, Apply(w, step))
  {
    SoundIsDrafted(w);
    match step
    case StepAccept(i, g) => AcceptObeys(w, i, g);
    case StepDecline(i, g) => DeclineObeys(w, i, g);
    case StepExpireOffer(i, pool) => ExpireObeys(w, i, pool);
    case StepArriveOnSite(i, g) => ArriveObeys(w, i, g);
    case StepApproveReplacement(i) => GrantObeys(w, i);
    case StepComplete(i, g) => CompleteObeys(w, i, g);
    case StepReportNoShow(i) => NoShowObeys(w, i);
    case _ => LeaverObeys(w, step);
  }

  lemma StepObeys(w: World, step: Step)
    requires Inv(w)
    ensures Law(w, step, Apply(w, step))
  {
    if IsJobStep(step) {
      JobStepObeys(w, step);
    } else {
      RowStepObeys(w, step);
    }
  }

  /** From every reachable state every step leaves exactly the state that obeys the laws: there is no other. */
  lemma StepIsLaw(ws: seq<World>, steps: seq<Step>, k: nat, step: Step, t: World)
    requires Run(ws, steps) && k < |ws|
    ensures Law(ws[k], step, t) <==> t == Apply(ws[k], step)
  {
    RunInv(ws, steps, k);
    StepObeys(ws[k], step);
    if Law(ws[k], step, t) {
      Determined(ws[k], step, t, Apply(ws[k], step));
    }
  }

  // ---------- read off the laws ----------

  // The rows a search looks at: all of them, the offer that lapses being expired.
  function RowsSeen(w: World, step: Step): seq<Assignment> {
    if Lapses(w, step) then w.assignments[step.i := w.assignments[step.i].(status := Expired)] else w.assignments
  }

  /** Exactly when a searching job that is in time, and has not been noted unreachable, is failed for having tried everybody:
  no offer is open, and each of as many guardians as are eligible, the best first, has declined, let an offer expire or
  been released; and there is one. */
  lemma PoolExhaustedExactly(ws: seq<World>, steps: seq<Step>, k: nat, step: Step, pool: Pool)
    requires Run(ws, steps) && k < |ws|
    requires var w := ws[k];
             && (w.job.status.Pending? || w.job.status.Dispatching? || w.job.status.PartiallyAssigned?)
             && (w.job.deadline.Some? ==> w.now < w.job.deadline.value) && w.job.unreachableSince.None?
    requires || step == StepProcessDispatch(pool) || step == StepFailExhausted(pool)
             || (step.StepExpireOffer? && step.pool == pool && Lapses(ws[k], step))
    ensures var t := Apply(ws[k], step);
            var s := RowsSeen(ws[k], step);
            t.job.status.JobFailed? && t.job.failureReason == Some(PoolExhausted) <==>
              && (forall i :: 0 <= i < |s| ==> !s[i].status.Offered?)
              && 0 < pool.eligibleCount && pool.ranked != []
              && forall p :: 0 <= p < |pool.ranked| && p < pool.eligibleCount ==> LostTo(s, pool.ranked[p])
  {
    var w, t := ws[k], Apply(ws[k], step);
    StepIsLaw(ws, steps, k, step, t);
    FailsByLaw(w, step, t);
  }

  lemma FailsByLaw(w: World, step: Step, t: World)
    requires JobLaw(w, step, t) && !w.job.status.JobFailed?
    ensures t.job.status.JobFailed? <==> Fails(w, step).Some?
    ensures t.job.status.JobFailed? ==> t.job.failureReason == Fails(w, step)
  {
    assert t.job.status.JobFailed? <==> JobBecomes(w, step, JobFailed);
  }

  /** Exactly when a round makes an offer for a slot: it does not fail the job, a slot is neither held nor offered, and some
  guardian it looks at is reachable and not barred. */
  lemma RoundOffersExactly(ws: seq<World>, steps: seq<Step>, k: nat, pool: Pool)
    requires Run(ws, steps) && k < |ws|
    requires Looking(ws[k].job.status) || ws[k].job.status.InProgress?
    ensures |ws[k].assignments| < |ProcessDispatch(ws[k], pool).assignments| <==>
              && Fails(ws[k], StepProcessDispatch(pool)).None? && 0 < Free(ws[k])
              && Sees(ws[k], pool, Barred(ws[k].assignments), true)
  {
    var w, step := ws[k], StepProcessDispatch(pool);
    StepIsLaw(ws, steps, k, step, Apply(w, step));
    SeesReachable(w, pool, Barred(w.assignments));
  }

  /** A guardian new to the job, eligible and reachable, is enough for a round to make an offer while a slot is free, the
  deadline has not come, the pool has not been unreachable for too long and offers are left. */
  lemma NewcomerIsOffered(ws: seq<World>, steps: seq<Step>, k: nat, pool: Pool, p: nat)
    requires Run(ws, steps) && k < |ws|
    requires var w := ws[k];
             && (Looking(w.job.status) || w.job.status.InProgress?)
             && (w.job.deadline.Some? ==> w.now < w.job.deadline.value)
             && (w.job.unreachableSince.Some? ==> w.now < w.job.unreachableSince.value + w.cfg.unreachableGrace)
             && w.job.offersSent < w.cfg.maxOffers && 0 < Free(w)
             && p < |pool.ranked| && p < w.cfg.poolSize && p < pool.eligibleCount
             && pool.ranked[p] in pool.reachable
             && forall i :: 0 <= i < |w.assignments| ==> w.assignments[i].guardian != pool.ranked[p]
    ensures |ws[k].assignments| < |ProcessDispatch(ws[k], pool).assignments|
  {
    var w := ws[k];
    RoundOffersExactly(ws, steps, k, pool);
    assert !LostTo(w.assignments, pool.ranked[p]);
    assert !AllTried(w.assignments, pool);
    assert pool.ranked[p] !in Barred(w.assignments);
  }

  /** A recorded no-show asks for one more round, at once, if and only if it leaves the job short of officers while no
  replacement is sought. On a job that is dispatching it opens a new window as well. */
  lemma NoShowAsksExactly(ws: seq<World>, steps: seq<Step>, k: nat, i: nat)
    requires Run(ws, steps) && k < |ws| && i < |ws[k].assignments| && !ws[k].assignments[i].status.NoShow?
    requires ReportNoShow(ws[k], i).reply.Done?
    ensures var w := ws[k];
            var t := ReportNoShow(w, i).world;
            && t.requests == (if !w.job.status.SeekingReplacement? && |Holders(t.assignments)| < w.job.requested
                              then w.requests + [w.now] else w.requests)
            && (w.job.status.Dispatching? ==>
                  t.job.deadline == Some(w.now + w.cfg.dispatchWindow) && t.job.unreachableSince.None?)
  {
    RunInv(ws, steps, k);
    RecordedMisses(ws[k], i);
    NoShowObeys(ws[k], i);
    MissAsks(ws[k], i, ReportNoShow(ws[k], i).world);
  }

  lemma RecordedMisses(w: World, i: nat)
    requires Inv(w) && i < |w.assignments| && !w.assignments[i].status.NoShow? && ReportNoShow(w, i).reply.Done?
    ensures Misses(w, StepReportNoShow(i)) && ReportNoShow(w, i).world.assignments == Missed(w, i)
  {
    NoShowOnSound(w, i);
    NoShowEffect(w, i);
  }

  lemma MissAsks(w: World, i: nat, t: World)
    requires JobLaw(w, StepReportNoShow(i), t) && Misses(w, StepReportNoShow(i)) && t.assignments == Missed(w, i)
    ensures t.requests == (if !w.job.status.SeekingReplacement? && |Holders(t.assignments)| < w.job.requested
                           then w.requests + [w.now] else w.requests)
    ensures w.job.status.Dispatching? ==>
              t.job.deadline == Some(w.now + w.cfg.dispatchWindow) && t.job.unreachableSince.None?
  {
    GapExactly(w, i);
    CountsAreSizes(t);
    assert w.requests + [] == w.requests;
  }
}
