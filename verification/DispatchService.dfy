/** Dispatch rounds, the failures that end them, and the replacement pipeline. */
module DispatchService {
  import opened Domain
  import opened Counting
  import opened Eligibility
  import opened Protocol
  import opened Tables
  import opened StepLaws
  import opened RoundsObey
  import Lifecycle = LifecycleService

  // ---------- who is left out ----------

  method GetExcludedGuardianIds(s: seq<Assignment>) returns (excluded: set<nat>)
    ensures excluded == Excluded(s)
  {
    excluded := Tried(s);
    for i := 0 to |s|
      invariant excluded == Tried(s) + set k | 0 <= k < i && (IsPending(s[k]) || IsStaffed(s[k])) :: s[k].guardian
    {
      if IsPending(s[i]) || IsStaffed(s[i]) {
        excluded := excluded + {s[i].guardian};
      }
    }
  }

  // ---------- releasing and failing ----------

  method ReleaseInFlightOffers(db: JobTables)
    modifies db
    ensures db.State() == ReleaseOffers(old(db.State()))
  {
    db.assignments := CancelWhere(db.assignments, IsOffer, false);
  }

  method ReleaseReplacementPipeline(db: JobTables)
    modifies db
    ensures db.State() == ReleaseDeparting(ReleaseSubstitutes(ReleaseOffers(old(db.State()))))
  {
    ReleaseInFlightOffers(db);
    db.assignments := CancelWhere(db.assignments, IsComing, false);
    if db.job.departing.None? || |db.assignments| <= db.job.departing.value {
      return;
    }
    var d := db.job.departing.value;
    var row := db.assignments[d];
    if !row.status.AwaitingRelief? && !(row.status.OnSite? && row.replacementResolution == Some(ReplacementApproved)) {
      return;
    }
    db.assignments := db.assignments[d := row.(status := Cancelled)];
  }

  method ReleaseActiveStaffed(db: JobTables)
    modifies db
    ensures db.State() == ReleaseActive(old(db.State()))
  {
    db.assignments := CancelWhere(db.assignments, IsWorking, false);
  }

  method Fail(db: JobTables, reason: FailureReason)
    modifies db
    ensures db.State() == FailJob(old(db.State()), reason)
  {
    var oldStatus := db.job.status;
    ReleaseInFlightOffers(db);
    db.job := db.job.(status := JobFailed, failureReason := Some(reason));
    db.history := db.history + [HistoryEntry(Some(oldStatus), JobFailed)];
  }

  method FailIfTimedOut(db: JobTables) returns (failed: bool)
    modifies db
    ensures failed == (Searching(old(db.job.status)) && TimedOut(old(db.State())))
    ensures db.State() == Protocol.FailOverdue(old(db.State()))
    ensures !failed ==> db.State() == old(db.State())
  {
    if !Searching(db.job.status) || !TimedOut(db.State()) {
      return false;
    }
    Fail(db, DispatchTimeout);
    return true;
  }

  method FailIfPoolExhausted(db: JobTables, pool: RawPool) returns (failed: bool)
    modifies db
    ensures failed == (Searching(old(db.job.status)) && PoolIsExhausted(old(db.State()), pool))
    ensures failed <==> Looking(old(db.job.status)) && AllTried(old(db.assignments), pool)
    ensures db.State() == Protocol.FailExhausted(old(db.State()), pool)
    ensures !failed ==> db.State() == old(db.State())
  {
    ExhaustedExactly(db.State(), pool);
    if !Searching(db.job.status) {
      return false;
    }
    if exists i :: 0 <= i < |db.assignments| && db.assignments[i].status.Offered? {
      return false;
    }
    if pool.eligibleCount == 0 {
      return false;
    }
    var rows := ListEligible(pool.ranked, pool.eligibleCount, {});
    var tried := Tried(db.assignments);
    if rows == [] || exists g :: g in rows && g !in tried {
      return false;
    }
    Fail(db, PoolExhausted);
    return true;
  }

  method FailIfUnreachableGraceExceeded(db: JobTables) returns (failed: bool)
    modifies db
    ensures failed == (Searching(old(db.job.status)) && GraceExceeded(old(db.State())))
    ensures db.State() == if failed then FailJob(old(db.State()), UnreachablePool) else old(db.State())
  {
    if !Searching(db.job.status) || db.job.unreachableSince.None? {
      return false;
    }
    if db.now < db.job.unreachableSince.value + db.cfg.unreachableGrace {
      return false;
    }
    Fail(db, UnreachablePool);
    return true;
  }

  method EvaluateTerminalFailures(db: JobTables, pool: RawPool) returns (failed: bool)
    modifies db
    ensures failed == TerminalFailure(old(db.State()), pool).Some?
    ensures db.State() ==
            if failed then FailJob(old(db.State()), TerminalFailure(old(db.State()), pool).value) else old(db.State())
  {
    failed := FailIfTimedOut(db);
    if failed {
      return;
    }
    failed := FailIfPoolExhausted(db, pool);
    if failed {
      return;
    }
    failed := FailIfUnreachableGraceExceeded(db);
  }

  // ---------- ordinary rounds ----------

  method EnsureDispatchSchedule(db: JobTables)
    modifies db
    ensures db.State() == EnsureSchedule(old(db.State()))
  {
    if db.job.deadline.None? {
      db.job := db.job.(deadline := Some(db.now + db.cfg.dispatchWindow));
    }
  }

  method CreateOfferInTransaction(db: JobTables, g: nat, relieves: Option<nat>)
    modifies db
    ensures db.State() == CreateOffer(old(db.State()), g, relieves)
  {
    var round := |db.assignments| + 1;
    var expiresAt := db.now + db.cfg.offerTtl;
    db.assignments :=
      db.assignments + [Assignment(g, round, Offered, 1, relieves, expiresAt, None, None, None, None, None)];
    db.job := db.job.(offersSent := db.job.offersSent + 1, unreachableSince := None);
  }

  method UpdateUnreachableState(db: JobTables, eligible: nat, reachable: nat)
    modifies db
    ensures db.State() == NoteReachability(old(db.State()), eligible, reachable)
  {
    if 0 < eligible && reachable == 0 {
      if db.job.unreachableSince.None? {
        db.job := db.job.(unreachableSince := Some(db.now));
      }
      return;
    }
    if 0 < reachable {
      db.job := db.job.(unreachableSince := None);
    }
  }

  method HandleDispatchFailure(db: JobTables, pool: RawPool)
    modifies db
    ensures db.State() == RetryOrFail(old(db.State()), pool)
  {
    var failed := EvaluateTerminalFailures(db, pool);
    if failed {
      return;
    }
    db.EnqueueDispatch(db.now + Backoff(2_000, 30_000, db.job.offersSent));
  }

  /** One ordinary round: offers to as many of the best reachable guardians as there are open slots, no more than the
  parallel limit, or a retry when there is nobody to offer to. */
  method ProcessParallelDispatch(db: JobTables, pool: RawPool)
    modifies db
    ensures db.State() == OrdinaryRound(old(db.State()), pool)
  {
    var openSlots := OpenSlots(db.State());
    if openSlots == 0 {
      return;
    }
    var parallelCount := if db.cfg.parallelOffers <= openSlots then db.cfg.parallelOffers else openSlots;
    var excluded := GetExcludedGuardianIds(db.assignments);
    var candidates := ListEligible(pool.ranked, db.cfg.poolSize, excluded);
    var reachable := Within(candidates, pool.reachable);
    var guardians := Take(reachable, parallelCount);
    if |guardians| == 0 {
      UpdateUnreachableState(db, |candidates|, |reachable|);
      HandleDispatchFailure(db, pool);
      return;
    }
    ghost var before := db.State();
    for k := 0 to |guardians|
      invariant CreateOffers(db.State(), guardians[k..], None) == CreateOffers(before, guardians, None)
    {
      assert guardians[k..][1..] == guardians[k + 1..];
      CreateOfferInTransaction(db, guardians[k], None);
    }
  }

  // ---------- replacement rounds ----------

  method PauseReplacementDispatch(db: JobTables, reason: FailureReason)
    requires reason.ReplacementTimeout? || reason.ReplacementExhausted?
    modifies db
    ensures db.State() ==
            if Paused(old(db.State())) then old(db.State())
            else old(db.State()).(job := old(db.job).(failureReason := Some(reason)))
  {
    if Paused(db.State()) {
      return;
    }
    db.job := db.job.(failureReason := Some(reason));
  }

  // A replacement search out of time or at its cap of substitute offers.
  predicate AtLimit(w: World) {
    w.job.status.SeekingReplacement? && (TimedOut(w) || w.cfg.maxReplacementOffers <= Substitutes(w.assignments))
  }

  function Limited(w: World): World {
    if !AtLimit(w) then w
    else w.(job := w.job.(failureReason := Some(if TimedOut(w) then ReplacementTimeout else ReplacementExhausted)))
  }

  /** Stops a replacement search that is paused already, out of time, or at its cap of substitute offers. */
  method EvaluateReplacementDispatchLimits(db: JobTables) returns (stopped: bool)
    modifies db
    ensures stopped <==> Paused(old(db.State())) || AtLimit(old(db.State()))
    ensures db.State() == if Paused(old(db.State())) then old(db.State()) else Limited(old(db.State()))
    ensures stopped ==> Paused(db.State())
  {
    if !db.job.status.SeekingReplacement? {
      return false;
    }
    if Paused(db.State()) {
      return true;
    }
    if TimedOut(db.State()) {
      PauseReplacementDispatch(db, ReplacementTimeout);
      return true;
    }
    if db.cfg.maxReplacementOffers <= Substitutes(db.assignments) {
      PauseReplacementDispatch(db, ReplacementExhausted);
      return true;
    }
    return false;
  }

  /** A replacement round that found nobody tries again later, unless the search has stopped in the meantime. */
  method HandleReplacementDispatchFailure(db: JobTables)
    modifies db
    ensures db.State() ==
            if Paused(old(db.State())) then old(db.State())
            else if AtLimit(old(db.State())) then Limited(old(db.State()))
            else SoftFail(old(db.State()))
  {
    if Paused(db.State()) {
      return;
    }
    var stopped := EvaluateReplacementDispatchLimits(db);
    if stopped {
      return;
    }
    db.EnqueueDispatch(db.now + Backoff(5_000, 60_000, db.job.offersSent));
  }

  /** One replacement round: one offer, relieving the departing guardian, to the best reachable newcomer. */
  method ProcessReplacementDispatch(db: JobTables, pool: RawPool)
    requires db.job.status.SeekingReplacement?
    modifies db
    ensures db.State() == ReplacementRound(old(db.State()), pool)
  {
    if Paused(db.State()) {
      return;
    }
    var stopped := EvaluateReplacementDispatchLimits(db);
    if stopped {
      return;
    }
    var excluded := ReplacementExcluded(db.assignments);
    var candidates := ListEligible(pool.ranked, db.cfg.poolSize, excluded);
    var reachable := Within(candidates, pool.reachable);
    var pick := PickNext(pool, db.cfg.poolSize, excluded);
    if pick.None? || pick.value in Tried(db.assignments) {
      UpdateUnreachableState(db, |candidates|, |reachable|);
      HandleReplacementDispatchFailure(db);
      return;
    }
    CreateOfferInTransaction(db, pick.value, db.job.departing);
  }

  // ---------- operations ----------

  method ProcessDispatch(db: JobTables, pool: RawPool)
    modifies db
    ensures db.State() == Protocol.ProcessDispatch(old(db.State()), pool)
  {
    var status := db.job.status;
    if status.JobCancelled? || status.JobCompleted? || status.AwaitingConfirmation? || status.JobFailed? {
      return;
    }
    var isReplacement := status.SeekingReplacement?;
    if !isReplacement && FullyStaffed(db.State()) {
      if !status.Assigned? && !status.InProgress? {
        var _ := Lifecycle.TransitionToAssigned(db);
      }
      return;
    }
    EnsureDispatchSchedule(db);
    if isReplacement {
      ProcessReplacementDispatch(db, pool);
      return;
    }
    var failed := EvaluateTerminalFailures(db, pool);
    if failed {
      return;
    }
    if db.cfg.maxOffers <= db.job.offersSent {
      Fail(db, MaxOffersExceeded);
      return;
    }
    ProcessParallelDispatch(db, pool);
  }

  method RequestDispatch(db: JobTables) returns (reply: Reply)
    modifies db
    ensures Outcome(db.State(), reply) == Protocol.RequestDispatch(old(db.State()))
  {
    if !Searching(db.job.status) {
      return BadRequest;
    }
    EnsureDispatchSchedule(db);
    var oldStatus := db.job.status;
    db.job := db.job.(status := Dispatching);
    db.history := db.history + [HistoryEntry(Some(oldStatus), Dispatching)];
    db.EnqueueDispatch(db.now);
    return Done;
  }

  method RequestReplacementDispatch(db: JobTables) returns (reply: Reply)
    modifies db
    ensures Outcome(db.State(), reply) == Protocol.RequestReplacementDispatch(old(db.State()))
  {
    if !db.job.status.SeekingReplacement? {
      return BadRequest;
    }
    db.EnqueueDispatch(db.now);
    return Done;
  }

  method ResumeReplacementDispatch(db: JobTables) returns (reply: Reply)
    modifies db
    ensures Outcome(db.State(), reply) == Protocol.ResumeReplacement(old(db.State()))
  {
    if !db.job.status.SeekingReplacement? || db.job.departing.None? {
      return BadRequest;
    }
    var d := db.job.departing.value;
    if |db.assignments| <= d || !db.assignments[d].status.AwaitingRelief? {
      return BadRequest;
    }
    db.job := db.job.(failureReason := None, deadline := Some(db.now + db.cfg.dispatchWindow), unreachableSince := None);
    reply := RequestReplacementDispatch(db);
  }

  method ExpireOffer(db: JobTables, i: nat, pool: RawPool)
    modifies db
    ensures db.State() == Protocol.ExpireOffer(old(db.State()), i, pool)
  {
    if |db.assignments| <= i || !db.assignments[i].status.Offered? {
      return;
    }
    if db.job.status.JobCancelled? || db.job.status.JobCompleted? || db.job.status.AwaitingConfirmation? {
      return;
    }
    if db.now < db.assignments[i].expiresAt {
      return;
    }
    var landed := db.UpdateOptimistic(i, db.assignments[i].version, Expired);
    assert landed;
    if !Searching(db.job.status) && !db.job.status.SeekingReplacement? {
      return;
    }
    var isReplacement := db.job.status.SeekingReplacement?;
    if !isReplacement {
      var failed := EvaluateTerminalFailures(db, pool);
      if failed {
        return;
      }
    }
    if isReplacement && Paused(db.State()) {
      return;
    }
    db.EnqueueDispatch(db.now);
  }
}
