/** Every operation of the staffing protocol as a function from state to state. Each one is a single atomic step:
a transaction that fails half-way leaves the state as it found it. */
module Protocol {
  import opened Domain
  import opened Counting
  import opened Eligibility

  // ---------- rows ----------

  // A version-checked status write: the status changes and the version goes up by one.
  function Bump(a: Assignment, to: AssignmentStatus): Assignment {
    a.(status := to, version := a.version + 1)
  }

  function Put(w: World, i: nat, a: Assignment): World
    requires i < |w.assignments|
  {
    w.(assignments := w.assignments[i := a])
  }

  // Cancels every assignment satisfying `p`, raising its version only when asked to.
  function CancelWhere(s: seq<Assignment>, p: Assignment -> bool, bump: bool): seq<Assignment> {
    seq(|s|, i requires 0 <= i < |s| =>
      if p(s[i]) then s[i].(status := Cancelled, version := s[i].version + if bump then 1 else 0) else s[i])
  }

  function Enqueue(w: World, due: int): World {
    w.(requests := w.requests + [due])
  }

  function Owned(w: World, i: nat, g: nat): bool {
    i < |w.assignments| && w.assignments[i].guardian == g
  }

  // ---------- job status ----------

  function MoveJob(w: World, to: JobStatus): World {
    w.(job := w.job.(status := to), history := w.history + [HistoryEntry(Some(w.job.status), to)])
  }

  // The guarded transition: nothing happens when already there, and None means it was refused.
  function Transition(w: World, to: JobStatus, allowedFrom: set<JobStatus>): Option<World> {
    if w.job.status == to then Some(w)
    else if w.job.status !in allowedFrom then None
    else Some(MoveJob(w, to))
  }

  function ToPartiallyAssigned(w: World): Option<World> {
    Transition(w, PartiallyAssigned, {Pending, Dispatching, PartiallyAssigned})
  }

  function ToAssigned(w: World): Option<World> {
    Transition(w, Assigned, {Pending, Dispatching, PartiallyAssigned, Assigned})
  }

  function ToInProgress(w: World): Option<World> {
    Transition(w, InProgress, {Assigned, PartiallyAssigned})
  }

  function ToSeekingReplacement(w: World): Option<World> {
    Transition(w, SeekingReplacement, {InProgress})
  }

  function BackToInProgress(w: World): Option<World> {
    Transition(w, InProgress, {SeekingReplacement})
  }

  function ToAwaitingConfirmation(w: World): Option<World> {
    Transition(w, AwaitingConfirmation, {InProgress, Assigned, PartiallyAssigned})
  }

  predicate Searching(s: JobStatus) {
    s.Pending? || s.Dispatching? || s.PartiallyAssigned?
  }

  // ---------- staffing ----------

  function RemainingSlots(w: World): nat {
    if Staffed(w.assignments) < w.job.requested then w.job.requested - Staffed(w.assignments) else 0
  }

  function FullyStaffed(w: World): bool {
    RemainingSlots(w) == 0
  }

  function OpenSlots(w: World): nat {
    var pending := PendingOffers(w.assignments);
    if pending < RemainingSlots(w) then RemainingSlots(w) - pending else 0
  }

  function CancelExcessOffers(w: World): World {
    w.(assignments := CancelWhere(w.assignments, IsPending, true))
  }

  // What accepting does to the job, after the assignment itself has been accepted. `seen` is the job's status as the
  // accept read it; taken as one atomic step it is the current one.
  function AfterAcceptSeen(w: World, seen: JobStatus): Option<World> {
    if seen.SeekingReplacement? then Some(w)
    else if w.job.requested < Staffed(w.assignments) then None
    else if FullyStaffed(w) then
      match ToAssigned(w)
      case None => None
      case Some(w') => Some(CancelExcessOffers(w'))
    else
      match ToPartiallyAssigned(w)
      case None => None
      case Some(w') => Some(if PendingOffers(w'.assignments) < RemainingSlots(w') then Enqueue(w', w'.now) else w')
  }

  function AfterAccept(w: World): Option<World> {
    AfterAcceptSeen(w, w.job.status)
  }

  // Back to dispatching, with a new window.
  function Redispatch(w: World): Option<World> {
    match Transition(w, Dispatching, {Assigned, PartiallyAssigned, InProgress, Dispatching})
    case None => None
    case Some(w') =>
      var job := w'.job.(deadline := Some(w.now + w.cfg.dispatchWindow), failureReason := None, unreachableSince := None);
      Some(Enqueue(w'.(job := job), w.now))
  }

  // What losing a guardian does to the job, after the assignment has been marked a no-show. `seen` is the job's status
  // as the caller read it; taken as one atomic step it is the current one.
  function AfterNoShow(w: World, seen: JobStatus): Option<World> {
    if seen.SeekingReplacement? then Some(w)
    else if FullyStaffed(w) then
      if seen.Assigned? || seen.InProgress? then Some(w) else ToAssigned(w)
    else if seen.InProgress? || seen.PartiallyAssigned? then Some(Enqueue(w, w.now))
    else if seen.Assigned? then
      match ToPartiallyAssigned(w)
      case None => None
      case Some(w') => Some(Enqueue(w', w'.now))
    else Redispatch(w)
  }

  // ---------- releasing and failing ----------

  predicate IsOffer(a: Assignment) {
    a.status.Offered?
  }

  // A substitute on the way.
  predicate IsComing(a: Assignment) {
    IsSubstitute(a) && (a.status.Accepted? || a.status.EnRoute?)
  }

  // A slot being worked, other than one that awaits relief.
  predicate IsWorking(a: Assignment) {
    Ordinary(a) && ActiveStatus(a.status) && !a.status.AwaitingRelief?
  }

  function ReleaseOffers(w: World): World {
    w.(assignments := CancelWhere(w.assignments, IsOffer, false))
  }

  function ReleaseSubstitutes(w: World): World {
    w.(assignments := CancelWhere(w.assignments, IsComing, false))
  }

  function ReleaseDeparting(w: World): World {
    match w.job.departing
    case None => w
    case Some(d) =>
      if d < |w.assignments| &&
         (w.assignments[d].status.AwaitingRelief? ||
          (w.assignments[d].status.OnSite? && w.assignments[d].replacementResolution == Some(ReplacementApproved)))
      then Put(w, d, w.assignments[d].(status := Cancelled))
      else w
  }

  function ReleaseActive(w: World): World {
    w.(assignments := CancelWhere(w.assignments, IsWorking, false))
  }

  function FailJob(w: World, reason: FailureReason): World {
    var w' := MoveJob(ReleaseOffers(w), JobFailed);
    w'.(job := w'.job.(failureReason := Some(reason)))
  }

  // ---------- dispatch ----------

  function EnsureSchedule(w: World): World {
    if w.job.deadline.Some? then w
    else w.(job := w.job.(deadline := Some(w.now + w.cfg.dispatchWindow)))
  }

  predicate TimedOut(w: World) {
    w.job.deadline.Some? && w.job.deadline.value <= w.now
  }

  predicate PoolIsExhausted(w: World, pool: RawPool) {
    var rows := ListEligible(pool.ranked, pool.eligibleCount, {});
    && (forall i :: 0 <= i < |w.assignments| ==> !w.assignments[i].status.Offered?)
    && pool.eligibleCount != 0
    && rows != []
    && (forall g :: g in rows ==> g in Tried(w.assignments))
  }

  predicate GraceExceeded(w: World) {
    w.job.unreachableSince.Some? && w.job.unreachableSince.value + w.cfg.unreachableGrace <= w.now
  }

  function TerminalFailure(w: World, pool: RawPool): Option<FailureReason> {
    if !Searching(w.job.status) then None
    else if TimedOut(w) then Some(DispatchTimeout)
    else if PoolIsExhausted(w, pool) then Some(PoolExhausted)
    else if GraceExceeded(w) then Some(UnreachablePool)
    else None
  }

  function CreateOffer(w: World, g: nat, relieves: Option<nat>): World {
    var a := Assignment(g, |w.assignments| + 1, Offered, 1, relieves, w.now + w.cfg.offerTtl, None, None, None, None, None);
    w.(assignments := w.assignments + [a],
       job := w.job.(offersSent := w.job.offersSent + 1, unreachableSince := None))
  }

  function CreateOffers(w: World, guardians: seq<nat>, relieves: Option<nat>): World
    decreases |guardians|
  {
    if guardians == [] then w else CreateOffers(CreateOffer(w, guardians[0], relieves), guardians[1..], relieves)
  }

  function NoteReachability(w: World, eligible: nat, reachable: nat): World {
    if 0 < eligible && reachable == 0 then
      if w.job.unreachableSince.None? then w.(job := w.job.(unreachableSince := Some(w.now))) else w
    else if 0 < reachable then w.(job := w.job.(unreachableSince := None))
    else w
  }

  function Pow2(n: nat): Positive {
    if n == 0 then 1 else 2 * Pow2(n - 1)
  }

  function Backoff(base: Positive, cap: int, n: nat): int {
    if base * Pow2(n) < cap then base * Pow2(n) else cap
  }

  function ParallelPicks(w: World, pool: RawPool): seq<nat> {
    var room := OpenSlots(w);
    PickParallel(pool, w.cfg.poolSize, Excluded(w.assignments),
                 if w.cfg.parallelOffers <= room then w.cfg.parallelOffers else room)
  }

  // Fail the job if it is due to fail, otherwise try again later.
  function RetryOrFail(w: World, pool: RawPool): World {
    match TerminalFailure(w, pool)
    case Some(reason) => FailJob(w, reason)
    case None => Enqueue(w, w.now + Backoff(2_000, 30_000, w.job.offersSent))
  }

  // An ordinary round that found nobody.
  function EmptyRound(w: World, pool: RawPool): World {
    var candidates := ListEligible(pool.ranked, w.cfg.poolSize, Excluded(w.assignments));
    RetryOrFail(NoteReachability(w, |candidates|, |Within(candidates, pool.reachable)|), pool)
  }

  function OrdinaryRound(w: World, pool: RawPool): World {
    if OpenSlots(w) == 0 then w
    else
      var picks := ParallelPicks(w, pool);
      if picks == [] then EmptyRound(w, pool) else CreateOffers(w, picks, None)
  }

  predicate Paused(w: World) {
    w.job.status.SeekingReplacement? &&
    (w.job.failureReason == Some(ReplacementTimeout) || w.job.failureReason == Some(ReplacementExhausted))
  }

  function SoftFail(w: World): World {
    Enqueue(w, w.now + Backoff(5_000, 60_000, w.job.offersSent))
  }

  function ReplacementRound(w: World, pool: RawPool): World {
    if Paused(w) then w
    else if TimedOut(w) then w.(job := w.job.(failureReason := Some(ReplacementTimeout)))
    else if w.cfg.maxReplacementOffers <= Substitutes(w.assignments) then
      w.(job := w.job.(failureReason := Some(ReplacementExhausted)))
    else
      var excluded := ReplacementExcluded(w.assignments);
      var candidates := ListEligible(pool.ranked, w.cfg.poolSize, excluded);
      var pick := PickNext(pool, w.cfg.poolSize, excluded);
      if pick.None? || pick.value in Tried(w.assignments) then
        SoftFail(NoteReachability(w, |candidates|, |Within(candidates, pool.reachable)|))
      else
        CreateOffer(w, pick.value, w.job.departing)
  }

  // Give up on the job if it is due to fail, otherwise run an ordinary round.
  function OrdinaryDispatch(w: World, pool: RawPool): World {
    match TerminalFailure(w, pool)
    case Some(reason) => FailJob(w, reason)
    case None => if w.cfg.maxOffers <= w.job.offersSent then FailJob(w, MaxOffersExceeded) else OrdinaryRound(w, pool)
  }

  function ProcessDispatch(w: World, pool: RawPool): World {
    var status := w.job.status;
    if status.JobCancelled? || status.JobCompleted? || status.AwaitingConfirmation? || status.JobFailed? then w
    else if status.SeekingReplacement? then ReplacementRound(EnsureSchedule(w), pool)
    else if FullyStaffed(w) then
      if status.Assigned? || status.InProgress? then w
      else
        match ToAssigned(w)
        case None => w
        case Some(w') => w'
    else OrdinaryDispatch(EnsureSchedule(w), pool)
  }

  function RequestDispatch(w: World): Outcome {
    if !Searching(w.job.status) then Outcome(w, BadRequest)
    else
      var w' := MoveJob(EnsureSchedule(w), Dispatching);
      Outcome(Enqueue(w', w.now), Done)
  }

  function RequestReplacementDispatch(w: World): Outcome {
    if !w.job.status.SeekingReplacement? then Outcome(w, BadRequest) else Outcome(Enqueue(w, w.now), Done)
  }

  function ResumeReplacement(w: World): Outcome {
    if !w.job.status.SeekingReplacement? || w.job.departing.None? then Outcome(w, BadRequest)
    else if |w.assignments| <= w.job.departing.value then Outcome(w, BadRequest)
    else if !w.assignments[w.job.departing.value].status.AwaitingRelief? then Outcome(w, BadRequest)
    else
      var job := w.job.(failureReason := None, deadline := Some(w.now + w.cfg.dispatchWindow), unreachableSince := None);
      RequestReplacementDispatch(w.(job := job))
  }

  function FailOverdue(w: World): World {
    if Searching(w.job.status) && TimedOut(w) then FailJob(w, DispatchTimeout) else w
  }

  function FailExhausted(w: World, pool: RawPool): World {
    if Searching(w.job.status) && PoolIsExhausted(w, pool) then FailJob(w, PoolExhausted) else w
  }

  // ---------- offers ----------

  // May the guardian take the offer?
  predicate Acceptable(w: World, i: nat, g: nat) {
    Owned(w, i, g) && w.assignments[i].status.Offered? && w.now <= w.assignments[i].expiresAt
  }

  function AcceptSeen(w: World, i: nat, g: nat, seen: JobStatus): Outcome {
    if !Owned(w, i, g) then Outcome(w, NotFound)
    else if !Acceptable(w, i, g) then Outcome(w, BadRequest)
    else if !seen.SeekingReplacement? && w.job.requested <= Staffed(w.assignments) then Outcome(w, BadRequest)
    else
      match AfterAcceptSeen(Put(w, i, Bump(w.assignments[i], Accepted)), seen)
      case None => Outcome(w, BadRequest)
      case Some(w') => Outcome(w', Done)
  }

  function Accept(w: World, i: nat, g: nat): Outcome {
    AcceptSeen(w, i, g, w.job.status)
  }

  function Decline(w: World, i: nat, g: nat): Outcome {
    if !Owned(w, i, g) then Outcome(w, NotFound)
    else if !w.assignments[i].status.Offered? then Outcome(w, BadRequest)
    else
      var w' := Put(w, i, Bump(w.assignments[i], Declined));
      Outcome(if Paused(w) then w' else Enqueue(w', w.now), Done)
  }

  // What follows the expiry of an offer: the job fails if it is due to, or asks for another round.
  function AfterExpiry(w: World, pool: RawPool): World {
    if !Searching(w.job.status) && !w.job.status.SeekingReplacement? then w
    else
      match TerminalFailure(w, pool)
      case Some(reason) => FailJob(w, reason)
      case None => if Paused(w) then w else Enqueue(w, w.now)
  }

  function ExpireOffer(w: World, i: nat, pool: RawPool): World {
    var status := w.job.status;
    if |w.assignments| <= i || !w.assignments[i].status.Offered? then w
    else if status.JobCancelled? || status.JobCompleted? || status.AwaitingConfirmation? then w
    else if w.now < w.assignments[i].expiresAt then w
    else
      AfterExpiry(Put(w, i, Bump(w.assignments[i], Expired)), pool)
  }

  // ---------- work on site ----------

  function MarkEnRoute(w: World, i: nat, g: nat): Outcome {
    if !Owned(w, i, g) then Outcome(w, NotFound)
    else if !w.assignments[i].status.Accepted? then Outcome(w, BadRequest)
    else Outcome(Put(w, i, Bump(w.assignments[i], EnRoute)), Done)
  }

  // May the substitute `i` take over from the assignment it relieves?
  predicate HandoffReady(w: World, i: nat)
    requires i < |w.assignments|
  {
    var original := w.assignments[i].relieves;
    && original.Some? && original.value < |w.assignments|
    && w.assignments[original.value].status.AwaitingRelief?
    && w.assignments[original.value].replacementResolution == Some(ReplacementApproved)
  }

  function Handoff(w: World, i: nat): Outcome
    requires i < |w.assignments|
  {
    if !HandoffReady(w, i) then Outcome(w, BadRequest)
    else
      var o := w.assignments[i].relieves.value;
      var w1 := Put(w, o, Bump(w.assignments[o], Completed).(completedAt := Some(w.now)));
      var w2 := Put(w1, i, Bump(w1.assignments[i], OnSite).(arrivedAt := Some(w.now)));
      match BackToInProgress(w2)
      case None => Outcome(w, BadRequest)
      case Some(w') => Outcome(w'.(job := w'.job.(departing := None, failureReason := None)), Done)
  }

  function ArriveOnSite(w: World, i: nat, g: nat): Outcome {
    if !Owned(w, i, g) then Outcome(w, NotFound)
    else
      var a := w.assignments[i];
      if !a.status.EnRoute? then Outcome(w, BadRequest)
      else if a.relieves.Some? && w.job.status.SeekingReplacement? then Handoff(w, i)
      else
        match ToInProgress(Put(w, i, Bump(a, OnSite).(arrivedAt := Some(w.now))))
        case None => Outcome(w, BadRequest)
        case Some(w') => Outcome(w', Done)
  }

  function RequestEarlyRelease(w: World, i: nat, g: nat): Outcome {
    if !Owned(w, i, g) then Outcome(w, NotFound)
    else
      var a := w.assignments[i];
      if !a.status.OnSite? then Outcome(w, BadRequest)
      else if a.replacementRequestedAt.Some? && a.replacementResolution.None? then Outcome(w, BadRequest)
      else if !w.job.allowEarlyRelease then Outcome(w, BadRequest)
      else
        var resolution := if w.job.earlyReleaseNeedsClient then None else Some(EarlyAutoApproved);
        Outcome(Put(w, i, Bump(a, EarlyReleaseRequested).(earlyResolution := resolution)), Done)
  }

  function ApproveEarlyRelease(w: World, i: nat): Outcome {
    if |w.assignments| <= i then Outcome(w, NotFound)
    else
      var a := w.assignments[i];
      if !a.status.EarlyReleaseRequested? then Outcome(w, BadRequest)
      else if a.earlyResolution.Some? then Outcome(w, Done)
      else Outcome(Put(w, i, a.(earlyResolution := Some(EarlyApproved))), Done)
  }

  function RejectEarlyRelease(w: World, i: nat): Outcome {
    if |w.assignments| <= i then Outcome(w, NotFound)
    else
      var a := w.assignments[i];
      if !a.status.EarlyReleaseRequested? then Outcome(w, BadRequest)
      else Outcome(Put(w, i, Bump(a, OnSite).(earlyResolution := Some(EarlyRejected))), Done)
  }

  function AutoApproveEarlyRelease(w: World, i: nat): World {
    if |w.assignments| <= i || !w.assignments[i].status.EarlyReleaseRequested? ||
       w.assignments[i].earlyResolution.Some?
    then w
    else Put(w, i, w.assignments[i].(earlyResolution := Some(EarlyAutoApproved)))
  }

  function RequestReplacement(w: World, i: nat, g: nat): Outcome {
    if !Owned(w, i, g) then Outcome(w, NotFound)
    else
      var a := w.assignments[i];
      if !a.status.OnSite? || !w.job.status.InProgress? then Outcome(w, BadRequest)
      else
        Outcome(Put(w, i, Bump(a, ReplacementRequested).(replacementRequestedAt := Some(w.now),
                                                         replacementResolution := None)), Done)
  }

  function DenyReplacement(w: World, i: nat): Outcome {
    if |w.assignments| <= i then Outcome(w, NotFound)
    else
      var a := w.assignments[i];
      if !a.status.ReplacementRequested? then Outcome(w, BadRequest)
      else Outcome(Put(w, i, Bump(a, OnSite).(replacementResolution := Some(ReplacementDenied))), Done)
  }

  function ApproveReplacement(w: World, i: nat): Outcome {
    if |w.assignments| <= i then Outcome(w, NotFound)
    else
      var a := w.assignments[i];
      if !a.status.ReplacementRequested? || !w.job.status.InProgress? then Outcome(w, BadRequest)
      else
        match ToSeekingReplacement(
          Put(w, i, Bump(a, AwaitingRelief).(replacementResolution := Some(ReplacementApproved))))
        case None => Outcome(w, BadRequest)
        case Some(w') =>
          Outcome(Enqueue(w'.(job := w'.job.(departing := Some(i), deadline := Some(w.now + 600_000),
                                             failureReason := None, unreachableSince := None)), w.now), Done)
  }

  // Is there a completed assignment an invoice can be drafted from?
  predicate Billable(a: Assignment) {
    a.status.Completed? && a.arrivedAt.Some? && a.completedAt.Some?
  }

  function DraftInvoice(w: World): Outcome {
    if w.invoiceDrafted then Outcome(w, Done)
    else if forall i :: 0 <= i < |w.assignments| ==> !Billable(w.assignments[i]) then Outcome(w, NotFound)
    else Outcome(w.(invoiceDrafted := true), Done)
  }

  // What follows a completion: once no ordinary guardian is active the job moves on and its invoice is drafted.
  function Settle(w: World): Outcome {
    match if 0 < Active(w.assignments) then Some(w) else ToAwaitingConfirmation(w)
    case None => Outcome(w, BadRequest)
    case Some(w') => if w'.job.status.AwaitingConfirmation? then DraftInvoice(w') else Outcome(w', Done)
  }

  // The assignment is completed for good before the job is told; the job may refuse to move.
  function Complete(w: World, i: nat, g: nat): Outcome {
    if !Owned(w, i, g) then Outcome(w, NotFound)
    else
      var a := w.assignments[i];
      if !a.status.OnSite? && !(a.status.EarlyReleaseRequested? && IsApproved(a.earlyResolution)) then
        Outcome(w, BadRequest)
      else
        Settle(Put(w, i, Bump(a, Completed).(completedAt := Some(w.now))))
  }

  function ReportNoShow(w: World, i: nat): Outcome {
    if |w.assignments| <= i then Outcome(w, NotFound)
    else
      var a := w.assignments[i];
      if a.status.NoShow? then Outcome(w, Done)
      else if !a.status.Offered? && !a.status.Accepted? && !a.status.EnRoute? then Outcome(w, BadRequest)
      else
        match AfterNoShow(Put(w, i, Bump(a, NoShow)), w.job.status)
        case None => Outcome(w, BadRequest)
        case Some(w') => Outcome(w', Done)
  }

  // ---------- the end of a job ----------

  function Cancel(w: World): Outcome {
    if w.job.status.JobCompleted? || w.job.status.JobCancelled? || w.job.status.AwaitingConfirmation? then
      Outcome(w, BadRequest)
    else
      Outcome(MoveJob(ReleaseActive(ReleaseDeparting(ReleaseSubstitutes(ReleaseOffers(w)))), JobCancelled), Done)
  }

  function Confirm(w: World): Outcome {
    if w.job.status.JobCompleted? then Outcome(w, Done)
    else if !w.job.status.AwaitingConfirmation? then Outcome(w, BadRequest)
    else Outcome(MoveJob(w, JobCompleted), Done)
  }

  function AutoConfirm(w: World, invoiceIssuable: bool): World {
    if w.job.status.AwaitingConfirmation? &&
       (exists i :: 0 <= i < |w.assignments| && w.assignments[i].status.Completed?) &&
       w.invoiceDrafted && invoiceIssuable
    then MoveJob(w, JobCompleted)
    else w
  }

  // ---------- steps and runs ----------

  datatype Step =
    | StepTick(ms: nat)
    | StepRequestDispatch
    | StepProcessDispatch(pool: Pool)
    | StepRequestReplacementDispatch
    | StepResumeReplacement
    | StepFailOverdue
    | StepFailExhausted(pool: Pool)
    | StepAccept(i: nat, g: nat)
    | StepDecline(i: nat, g: nat)
    | StepExpireOffer(i: nat, pool: Pool)
    | StepMarkEnRoute(i: nat, g: nat)
    | StepArriveOnSite(i: nat, g: nat)
    | StepRequestEarlyRelease(i: nat, g: nat)
    | StepApproveEarlyRelease(i: nat)
    | StepRejectEarlyRelease(i: nat)
    | StepAutoApproveEarlyRelease(i: nat)
    | StepRequestReplacement(i: nat, g: nat)
    | StepDenyReplacement(i: nat)
    | StepApproveReplacement(i: nat)
    | StepComplete(i: nat, g: nat)
    | StepReportNoShow(i: nat)
    | StepCancel
    | StepConfirm
    | StepAutoConfirm(invoiceIssuable: bool)

  function Apply(w: World, step: Step): World {
    match step
    case StepTick(ms) => w.(now := w.now + ms)
    case StepRequestDispatch => RequestDispatch(w).world
    case StepProcessDispatch(pool) => ProcessDispatch(w, pool)
    case StepRequestReplacementDispatch => RequestReplacementDispatch(w).world
    case StepResumeReplacement => ResumeReplacement(w).world
    case StepFailOverdue => FailOverdue(w)
    case StepFailExhausted(pool) => FailExhausted(w, pool)
    case StepAccept(i, g) => Accept(w, i, g).world
    case StepDecline(i, g) => Decline(w, i, g).world
    case StepExpireOffer(i, pool) => ExpireOffer(w, i, pool)
    case StepMarkEnRoute(i, g) => MarkEnRoute(w, i, g).world
    case StepArriveOnSite(i, g) => ArriveOnSite(w, i, g).world
    case StepRequestEarlyRelease(i, g) => RequestEarlyRelease(w, i, g).world
    case StepApproveEarlyRelease(i) => ApproveEarlyRelease(w, i).world
    case StepRejectEarlyRelease(i) => RejectEarlyRelease(w, i).world
    case StepAutoApproveEarlyRelease(i) => AutoApproveEarlyRelease(w, i)
    case StepRequestReplacement(i, g) => RequestReplacement(w, i, g).world
    case StepDenyReplacement(i) => DenyReplacement(w, i).world
    case StepApproveReplacement(i) => ApproveReplacement(w, i).world
    case StepComplete(i, g) => Complete(w, i, g).world
    case StepReportNoShow(i) => ReportNoShow(w, i).world
    case StepCancel => Cancel(w).world
    case StepConfirm => Confirm(w).world
    case StepAutoConfirm(issuable) => AutoConfirm(w, issuable)
  }

  /** A job as it is created: pending, unstaffed, with or without a first dispatch request. */
  ghost predicate Initial(w: World) {
    && w.job.status == Pending && 1 <= w.job.requested && w.job.departing == None && w.job.offersSent == 0
    && w.job.failureReason == None && w.job.unreachableSince == None
    && w.assignments == [] && w.history == [HistoryEntry(None, Pending)] && !w.invoiceDrafted
    && ((w.job.deadline == None && w.requests == [])
        || (w.job.deadline == Some(w.now + w.cfg.dispatchWindow) && w.requests == [w.now]))
  }

  /** A run: it starts with a new job, and every state follows from the one before by one step. */
  ghost predicate Run(ws: seq<World>, steps: seq<Step>) {
    && |ws| == |steps| + 1
    && Initial(ws[0])
    && forall k {:trigger Follows(ws, steps, k)} :: 0 <= k < |steps| ==> Follows(ws, steps, k)
  }

  ghost predicate Follows(ws: seq<World>, steps: seq<Step>, k: nat)
    requires |ws| == |steps| + 1 && k < |steps|
  {
    ws[k + 1] == Apply(ws[k], steps[k])
  }
}
