/** What every step does, told field by field. */
module StepLaws {
  import opened Domain
  import opened Counting
  import opened Eligibility
  import opened Protocol
  import opened Invariants
  import opened Runs

  // The protocol says of each operation what it writes. The laws say of each field of the job and of its assignments in
  // which steps it changes, and to what; they look at the rows only.

  // ---------- the rows counted ----------

  // Holds one of the slots asked for.
  predicate HoldsSlot(a: Assignment) {
    && a.relieves.None?
    && (a.status.Accepted? || a.status.EnRoute? || a.status.OnSite? || a.status.EarlyReleaseRequested? ||
        a.status.ReplacementRequested? || a.status.AwaitingRelief? || a.status.Completed?)
  }

  function Holders(s: seq<Assignment>): set<nat> {
    set i | 0 <= i < |s| && HoldsSlot(s[i])
  }

  function SlotOffers(s: seq<Assignment>): set<nat> {
    set i | 0 <= i < |s| && s[i].relieves.None? && s[i].status.Offered?
  }

  function StandIns(s: seq<Assignment>): set<nat> {
    set i | 0 <= i < |s| && s[i].relieves.Some?
  }

  // The slots neither held nor offered.
  function Free(w: World): int {
    w.job.requested - |Holders(w.assignments)| - |SlotOffers(w.assignments)|
  }

  function Where(s: seq<Assignment>, p: Assignment -> bool): set<nat> {
    set i | 0 <= i < |s| && p(s[i])
  }

  lemma {:induction false} CountIsSize(s: seq<Assignment>, p: Assignment -> bool)
    ensures Count(s, p) == |Where(s, p)|
  {
    if s != [] {
      var n := |s| - 1;
      CountIsSize(s[..n], p);
      assert Where(s, p) == Where(s[..n], p) + if p(s[n]) then {n} else {};
    }
  }

  lemma CountsAreSizes(w: World)
    ensures |Holders(w.assignments)| == Staffed(w.assignments)
    ensures |SlotOffers(w.assignments)| == PendingOffers(w.assignments)
    ensures |StandIns(w.assignments)| == Substitutes(w.assignments)
  {
    var s := w.assignments;
    CountIsSize(s, IsStaffed);
    CountIsSize(s, IsPending);
    CountIsSize(s, IsSubstitute);
    assert Holders(s) == Where(s, IsStaffed);
    assert SlotOffers(s) == Where(s, IsPending);
    assert StandIns(s) == Where(s, IsSubstitute);
  }

  // ---------- what goes through ----------

  predicate Looking(s: JobStatus) {
    s.Pending? || s.Dispatching? || s.PartiallyAssigned?
  }

  predicate Over(s: JobStatus) {
    s.AwaitingConfirmation? || s.JobCompleted? || s.JobCancelled?
  }

  predicate OnHold(w: World) {
    w.job.status.SeekingReplacement? &&
    (w.job.failureReason == Some(ReplacementTimeout) || w.job.failureReason == Some(ReplacementExhausted))
  }

  predicate Mine(w: World, i: nat, g: nat) {
    i < |w.assignments| && w.assignments[i].guardian == g
  }

  predicate Takes(w: World, step: Step) {
    && step.StepAccept? && Mine(w, step.i, step.g)
    && w.assignments[step.i].status.Offered? && w.now <= w.assignments[step.i].expiresAt
    && (Looking(w.job.status) || w.job.status.SeekingReplacement?)
  }

  predicate Declines(w: World, step: Step) {
    step.StepDecline? && Mine(w, step.i, step.g) && w.assignments[step.i].status.Offered?
  }

  predicate Lapses(w: World, step: Step) {
    && step.StepExpireOffer? && step.i < |w.assignments|
    && w.assignments[step.i].status.Offered? && w.assignments[step.i].expiresAt <= w.now
    && !Over(w.job.status)
  }

  predicate SetsOut(w: World, step: Step) {
    step.StepMarkEnRoute? && Mine(w, step.i, step.g) && w.assignments[step.i].status.Accepted?
  }

  predicate Arrives(w: World, step: Step) {
    && step.StepArriveOnSite? && Mine(w, step.i, step.g) && w.assignments[step.i].status.EnRoute?
    && if w.assignments[step.i].relieves.Some? && w.job.status.SeekingReplacement?
       then w.assignments[step.i].relieves == w.job.departing
       else w.job.status.Assigned? || w.job.status.PartiallyAssigned? || w.job.status.InProgress?
  }

  predicate TakesOver(w: World, step: Step) {
    Arrives(w, step) && w.job.status.SeekingReplacement?
  }

  predicate AsksOut(w: World, step: Step) {
    && step.StepRequestEarlyRelease? && Mine(w, step.i, step.g) && w.assignments[step.i].status.OnSite?
    && (w.assignments[step.i].replacementRequestedAt.None? || w.assignments[step.i].replacementResolution.Some?)
    && w.job.allowEarlyRelease
  }

  // The client, or the clock, lets the officer go.
  predicate LetsGo(w: World, step: Step) {
    && (step.StepApproveEarlyRelease? || step.StepAutoApproveEarlyRelease?) && step.i < |w.assignments|
    && w.assignments[step.i].status.EarlyReleaseRequested? && w.assignments[step.i].earlyResolution.None?
  }

  predicate KeepsOn(w: World, step: Step) {
    && step.StepRejectEarlyRelease? && step.i < |w.assignments|
    && w.assignments[step.i].status.EarlyReleaseRequested?
  }

  predicate AsksRelief(w: World, step: Step) {
    && step.StepRequestReplacement? && Mine(w, step.i, step.g) && w.assignments[step.i].status.OnSite?
    && w.job.status.InProgress?
  }

  predicate DeniesRelief(w: World, step: Step) {
    step.StepDenyReplacement? && step.i < |w.assignments| && w.assignments[step.i].status.ReplacementRequested?
  }

  predicate GrantsRelief(w: World, step: Step) {
    && step.StepApproveReplacement? && step.i < |w.assignments|
    && w.assignments[step.i].status.ReplacementRequested? && w.job.status.InProgress?
  }

  predicate Finishes(w: World, step: Step) {
    && step.StepComplete? && Mine(w, step.i, step.g)
    && (|| w.assignments[step.i].status.OnSite?
        || (&& w.assignments[step.i].status.EarlyReleaseRequested?
            && (w.assignments[step.i].earlyResolution == Some(EarlyApproved) ||
                w.assignments[step.i].earlyResolution == Some(EarlyAutoApproved))))
  }

  predicate Misses(w: World, step: Step) {
    && step.StepReportNoShow? && step.i < |w.assignments|
    && (w.assignments[step.i].status.Offered? || w.assignments[step.i].status.Accepted? ||
        w.assignments[step.i].status.EnRoute?)
    && (w.job.status.Dispatching? || w.job.status.PartiallyAssigned? || w.job.status.InProgress? ||
        w.job.status.SeekingReplacement?)
  }

  predicate CallsOff(w: World, step: Step) {
    step.StepCancel? && !Over(w.job.status)
  }

  predicate Resumes(w: World, step: Step) {
    step.StepResumeReplacement? && w.job.status.SeekingReplacement?
  }

  // A no-show on a job that is dispatching starts the search afresh.
  predicate StartsAfresh(w: World, step: Step) {
    Misses(w, step) && w.job.status.Dispatching?
  }

  // ---------- when a job fails ----------

  predicate Late(w: World) {
    w.job.deadline.Some? && w.job.deadline.value <= w.now
  }

  predicate LostTo(s: seq<Assignment>, g: nat) {
    exists i :: 0 <= i < |s| && s[i].guardian == g &&
                (s[i].status.Declined? || s[i].status.Expired? || s[i].status.Cancelled?)
  }

  // No offer is open, and each of as many guardians as are eligible, best first, has declined the job, let its offer
  // expire or been released from it; and there is one.
  predicate AllTried(s: seq<Assignment>, pool: RawPool) {
    && (forall i :: 0 <= i < |s| ==> !s[i].status.Offered?)
    && 0 < pool.eligibleCount && pool.ranked != []
    && (forall p :: 0 <= p < |pool.ranked| && p < pool.eligibleCount ==> LostTo(s, pool.ranked[p]))
  }

  // Why a job that is looking for guardians gives up, when its rows are these.
  function GivesUp(w: World, s: seq<Assignment>, pool: RawPool): Option<FailureReason> {
    if Late(w) then Some(DispatchTimeout)
    else if AllTried(s, pool) then Some(PoolExhausted)
    else if w.job.unreachableSince.Some? && w.job.unreachableSince.value + w.cfg.unreachableGrace <= w.now then
      Some(UnreachablePool)
    else None
  }

  function Fails(w: World, step: Step): Option<FailureReason> {
    var s := w.assignments;
    var capped := if w.cfg.maxOffers <= w.job.offersSent then Some(MaxOffersExceeded) else None;
    match step
    case StepProcessDispatch(pool) =>
      if Looking(w.job.status) then (if GivesUp(w, s, pool).Some? then GivesUp(w, s, pool) else capped)
      else if w.job.status.InProgress? && |Holders(s)| < w.job.requested then capped
      else None
    case StepExpireOffer(i, pool) =>
      if Lapses(w, step) && Looking(w.job.status) then GivesUp(w, s[i := s[i].(status := Expired)], pool) else None
    case StepFailOverdue => if Looking(w.job.status) && Late(w) then Some(DispatchTimeout) else None
    case StepFailExhausted(pool) =>
      if Looking(w.job.status) && AllTried(s, pool) then Some(PoolExhausted) else None
    case _ => None
  }

  // ---------- rounds ----------

  // Those not offered a slot: they have had one for other than a no-show, or were let go as a substitute.
  function Barred(s: seq<Assignment>): set<nat> {
    set i | 0 <= i < |s| &&
            (if s[i].relieves.None? then !s[i].status.NoShow?
             else s[i].status.Declined? || s[i].status.Expired? || s[i].status.Cancelled?) :: s[i].guardian
  }

  // Those not looked at for a relief.
  function Engaged(s: seq<Assignment>): set<nat> {
    set i | 0 <= i < |s| && !s[i].status.Declined? && !s[i].status.Expired? && !s[i].status.Cancelled? :: s[i].guardian
  }

  // A round that looks for guardians to offer slots to, and one that looks for a substitute.
  predicate FillsSlots(w: World, step: Step) {
    && step.StepProcessDispatch? && Fails(w, step).None? && 0 < Free(w)
    && (Looking(w.job.status) || w.job.status.InProgress?)
  }

  predicate SeeksRelief(w: World, step: Step) {
    && step.StepProcessDispatch? && w.job.status.SeekingReplacement? && !OnHold(w)
    && !Late(w) && |StandIns(w.assignments)| < w.cfg.maxReplacementOffers
  }

  function AtOnce(w: World): nat {
    if w.cfg.parallelOffers <= Free(w) then w.cfg.parallelOffers else if 0 < Free(w) then Free(w) else 0
  }

  // Whom a round makes offers to, in order.
  function Invited(w: World, step: Step): seq<nat> {
    if FillsSlots(w, step) then PickParallel(step.pool, w.cfg.poolSize, Barred(w.assignments), AtOnce(w))
    else if SeeksRelief(w, step) then
      match PickNext(step.pool, w.cfg.poolSize, Engaged(w.assignments))
      case Some(g) => if LostTo(w.assignments, g) then [] else [g]
      case None => []
    else []
  }

  predicate LooksInVain(w: World, step: Step) {
    (FillsSlots(w, step) || SeeksRelief(w, step)) && Invited(w, step) == []
  }

  // Does the round see a guardian it may offer the job to, reachable or not?
  predicate Sees(w: World, pool: RawPool, barred: set<nat>, reachable: bool) {
    exists p :: 0 <= p < |pool.ranked| && p < w.cfg.poolSize + |barred| && pool.ranked[p] !in barred &&
                (reachable ==> pool.ranked[p] in pool.reachable)
  }

  // ---------- rows ----------

  // The status a row takes in this step, if it takes another.
  predicate Becomes(w: World, step: Step, i: nat, to: AssignmentStatus)
    requires i < |w.assignments|
  {
    var a := w.assignments[i];
    match to
    case Offered => false
    case Accepted => Takes(w, step) && step.i == i
    case Declined => Declines(w, step) && step.i == i
    case Expired => Lapses(w, step) && step.i == i
    case EnRoute => SetsOut(w, step) && step.i == i
    case OnSite => (Arrives(w, step) || KeepsOn(w, step) || DeniesRelief(w, step)) && step.i == i
    case EarlyReleaseRequested => AsksOut(w, step) && step.i == i
    case ReplacementRequested => AsksRelief(w, step) && step.i == i
    case AwaitingRelief => GrantsRelief(w, step) && step.i == i
    case Completed => (Finishes(w, step) && step.i == i) || (TakesOver(w, step) && w.job.departing == Some(i))
    case NoShow => Misses(w, step) && step.i == i
    case Cancelled =>
      || (CallsOff(w, step) && Dismissed(w, i))
      || (Fails(w, step).Some? && a.status.Offered? && !(Lapses(w, step) && step.i == i))
  }

  // Whom cancelling the job lets go: offers, substitutes on the way, the departing officer, and whoever works a slot.
  predicate Dismissed(w: World, i: nat)
    requires i < |w.assignments|
  {
    var a := w.assignments[i];
    || a.status.Offered?
    || a.status.AwaitingRelief?
    || (a.relieves.Some? && (a.status.Accepted? || a.status.EnRoute?))
    || (a.relieves.None? && HoldsSlot(a) && !a.status.Completed?)
    || (w.job.departing == Some(i) && a.status.OnSite? && a.replacementResolution == Some(ReplacementApproved))
  }

  function EarlyResolutionAfter(w: World, step: Step, i: nat): Option<EarlyReleaseResolution>
    requires i < |w.assignments|
  {
    if AsksOut(w, step) && step.i == i then (if w.job.earlyReleaseNeedsClient then None else Some(EarlyAutoApproved))
    else if LetsGo(w, step) && step.i == i then
      Some(if step.StepApproveEarlyRelease? then EarlyApproved else EarlyAutoApproved)
    else if KeepsOn(w, step) && step.i == i then Some(EarlyRejected)
    else w.assignments[i].earlyResolution
  }

  function ReliefResolutionAfter(w: World, step: Step, i: nat): Option<ReplacementResolution>
    requires i < |w.assignments|
  {
    if AsksRelief(w, step) && step.i == i then None
    else if DeniesRelief(w, step) && step.i == i then Some(ReplacementDenied)
    else if GrantsRelief(w, step) && step.i == i then Some(ReplacementApproved)
    else w.assignments[i].replacementResolution
  }

  ghost predicate RowLaw(w: World, step: Step, i: nat, b: Assignment)
    requires i < |w.assignments|
  {
    var a := w.assignments[i];
    && (forall to :: to != a.status ==> (b.status == to <==> Becomes(w, step, i, to)))
    && b == a.(
         status := b.status,
         version := a.version + (if b.status != a.status && !b.status.Cancelled? then 1 else 0),
         arrivedAt := if Arrives(w, step) && step.i == i then Some(w.now) else a.arrivedAt,
         completedAt := if Becomes(w, step, i, Completed) then Some(w.now) else a.completedAt,
         earlyResolution := EarlyResolutionAfter(w, step, i),
         replacementRequestedAt := if AsksRelief(w, step) && step.i == i then Some(w.now) else a.replacementRequestedAt,
         replacementResolution := ReliefResolutionAfter(w, step, i))
  }

  function NewRow(w: World, step: Step, k: nat): Assignment
    requires k < |Invited(w, step)|
  {
    Assignment(Invited(w, step)[k], |w.assignments| + k + 1, Offered, 1,
               if SeeksRelief(w, step) then w.job.departing else None, w.now + w.cfg.offerTtl,
               None, None, None, None, None)
  }

  ghost predicate RowsLaw(w: World, step: Step, t: World) {
    && |t.assignments| == |w.assignments| + |Invited(w, step)|
    && (forall i :: 0 <= i < |w.assignments| ==> RowLaw(w, step, i, t.assignments[i]))
    && (forall k :: 0 <= k < |Invited(w, step)| ==> t.assignments[|w.assignments| + k] == NewRow(w, step, k))
  }

  // ---------- the job ----------

  // The status the job takes in this step, if it takes another.
  predicate JobBecomes(w: World, step: Step, to: JobStatus) {
    var s := w.assignments;
    match to
    case Pending => false
    case Dispatching => step.StepRequestDispatch? && Looking(w.job.status)
    case PartiallyAssigned =>
      Takes(w, step) && Looking(w.job.status) && |Holders(s)| + 1 < w.job.requested
    case Assigned => Takes(w, step) && Looking(w.job.status) && |Holders(s)| + 1 == w.job.requested
    case InProgress => Arrives(w, step)
    case SeekingReplacement => GrantsRelief(w, step)
    case AwaitingConfirmation =>
      Finishes(w, step) && w.job.status.InProgress? &&
      forall k :: 0 <= k < |s| && k != step.i ==> !HoldsSlot(s[k]) || s[k].status.Completed?
    case JobCompleted =>
      w.job.status.AwaitingConfirmation? && (step.StepConfirm? || (step.StepAutoConfirm? && step.invoiceIssuable))
    case JobFailed => Fails(w, step).Some?
    case JobCancelled => CallsOff(w, step)
  }

  // Does the step need the search to have a deadline?
  predicate NeedsDeadline(w: World, step: Step) {
    || (step.StepRequestDispatch? && Looking(w.job.status))
    || (&& step.StepProcessDispatch?
        && (|| Looking(w.job.status) || w.job.status.SeekingReplacement?
            || (w.job.status.InProgress? && |Holders(w.assignments)| < w.job.requested)))
  }

  function DeadlineAfter(w: World, step: Step): Option<int> {
    if GrantsRelief(w, step) then Some(w.now + 600_000)
    else if Resumes(w, step) || StartsAfresh(w, step) || (NeedsDeadline(w, step) && w.job.deadline.None?) then
      Some(w.now + w.cfg.dispatchWindow)
    else w.job.deadline
  }

  function FailureReasonAfter(w: World, step: Step): Option<FailureReason> {
    if Fails(w, step).Some? then Fails(w, step)
    else if GrantsRelief(w, step) || TakesOver(w, step) || Resumes(w, step) || StartsAfresh(w, step) then None
    else if step.StepProcessDispatch? && w.job.status.SeekingReplacement? && !OnHold(w) && !SeeksRelief(w, step) then
      Some(if Late(w) then ReplacementTimeout else ReplacementExhausted)
    else w.job.failureReason
  }

  function UnreachableAfter(w: World, step: Step): Option<int> {
    if GrantsRelief(w, step) || Resumes(w, step) || StartsAfresh(w, step) || Invited(w, step) != [] then None
    else if LooksInVain(w, step) then
      var barred := if w.job.status.SeekingReplacement? then Engaged(w.assignments) else Barred(w.assignments);
      if Sees(w, step.pool, barred, true) then None
      else if Sees(w, step.pool, barred, false) && w.job.unreachableSince.None? then Some(w.now)
      else w.job.unreachableSince
    else w.job.unreachableSince
  }

  // The dispatch requests the step puts in the outbox.
  function Requests(w: World, step: Step): seq<int> {
    var held := |Holders(w.assignments)|;
    if LooksInVain(w, step) then
      [w.now + if w.job.status.SeekingReplacement? then Backoff(5_000, 60_000, w.job.offersSent)
               else Backoff(2_000, 30_000, w.job.offersSent)]
    else if
      || (step.StepRequestDispatch? && Looking(w.job.status))
      || (step.StepRequestReplacementDispatch? && w.job.status.SeekingReplacement?)
      || Resumes(w, step) || GrantsRelief(w, step)
      || (Takes(w, step) && Looking(w.job.status) && 0 < Free(w))
      || (Declines(w, step) && !OnHold(w))
      || (Lapses(w, step) && Fails(w, step).None? && !OnHold(w) &&
          (Looking(w.job.status) || w.job.status.SeekingReplacement?))
      || (Misses(w, step) && !w.job.status.SeekingReplacement? &&
          held - (if HoldsSlot(w.assignments[step.i]) then 1 else 0) < w.job.requested)
    then [w.now]
    else []
  }

  ghost predicate JobLaw(w: World, step: Step, t: World) {
    && (forall to :: to != w.job.status ==> (t.job.status == to <==> JobBecomes(w, step, to)))
    && t.job == w.job.(
         status := t.job.status,
         departing :=
           if GrantsRelief(w, step) then Some(step.i) else if TakesOver(w, step) then None else w.job.departing,
         offersSent := w.job.offersSent + |Invited(w, step)|,
         deadline := DeadlineAfter(w, step),
         failureReason := FailureReasonAfter(w, step),
         unreachableSince := UnreachableAfter(w, step))
    && t.history == w.history +
         (if t.job.status != w.job.status || (step.StepRequestDispatch? && w.job.status.Dispatching?)
          then [HistoryEntry(Some(w.job.status), t.job.status)] else [])
    && t.requests == w.requests + Requests(w, step)
    && t.invoiceDrafted == (w.invoiceDrafted || t.job.status.AwaitingConfirmation?)
    && t.now == w.now + (if step.StepTick? then step.ms else 0)
    && t.cfg == w.cfg
  }

  ghost predicate Law(w: World, step: Step, t: World) {
    RowsLaw(w, step, t) && JobLaw(w, step, t)
  }

  // ---------- at most one state obeys ----------

  lemma RowDetermined(w: World, step: Step, i: nat, b: Assignment, c: Assignment)
    requires i < |w.assignments| && RowLaw(w, step, i, b) && RowLaw(w, step, i, c)
    ensures b == c
  {
    var a := w.assignments[i];
    assert b.status == a.status || Becomes(w, step, i, b.status);
    assert c.status == a.status || Becomes(w, step, i, c.status);
  }

  lemma JobDetermined(w: World, step: Step, t: World, u: World)
    requires JobLaw(w, step, t) && JobLaw(w, step, u)
    ensures t == u.(assignments := t.assignments)
  {
    assert t.job.status == w.job.status || JobBecomes(w, step, t.job.status);
    assert u.job.status == w.job.status || JobBecomes(w, step, u.job.status);
  }

  lemma Determined(w: World, step: Step, t: World, u: World)
    requires Law(w, step, t) && Law(w, step, u)
    ensures t == u
  {
    JobDetermined(w, step, t, u);
    forall i | 0 <= i < |t.assignments| ensures t.assignments[i] == u.assignments[i] {
      if i < |w.assignments| {
        RowDetermined(w, step, i, t.assignments[i], u.assignments[i]);
      } else {
        assert t.assignments[|w.assignments| + (i - |w.assignments|)] == NewRow(w, step, i - |w.assignments|);
      }
    }
  }
}
