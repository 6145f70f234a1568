/** What every step of the staffing protocol keeps.

The invariant has a part that speaks of the rows alone (`RowsInv`: each row sound, guardians distinct, counters exact, slots
not oversold) and a part that ties the job's status to them (`JobInv`). A write of one row, a cancellation of many, a move
of the job and a batch of offers each have a lemma for either part; the steps are put together from these. */
module Invariants {
  import opened Domain
  import opened Counting
  import opened Eligibility
  import opened Protocol

  // ---------- the invariants ----------

  // On site, or has been.
  predicate Worked(s: AssignmentStatus) {
    s.OnSite? || s.EarlyReleaseRequested? || s.ReplacementRequested? || s.AwaitingRelief? || s.Completed?
  }

  // One row on its own: arrival and completion times fit the status and are in order, and an approved early release
  // is held only while it is requested or after completion or cancellation.
  predicate RowOk(a: Assignment, now: int) {
    && (Worked(a.status) ==> a.arrivedAt.Some? && a.arrivedAt.value <= now)
    && (a.arrivedAt.Some? ==> Worked(a.status) || a.status.Cancelled?)
    && (a.completedAt.Some? <==> a.status.Completed?)
    && (a.status.Completed? ==> a.arrivedAt.value <= a.completedAt.value <= now)
    && (IsApproved(a.earlyResolution) ==>
          a.status.EarlyReleaseRequested? || a.status.Completed? || a.status.Cancelled?)
    && (a.earlyResolution.Some? ==> a.arrivedAt.Some?)
    && (a.status.AwaitingRelief? ==> a.replacementResolution == Some(ReplacementApproved))
  }

  ghost predicate RowsOk(s: seq<Assignment>, now: int) {
    forall i :: 0 <= i < |s| ==> RowOk(s[i], now)
  }

  // Two assignments of one job, `a` offered before `b`: a guardian holds at most one ordinary assignment that is not
  // a no-show, and a substitute had no earlier assignment on the job.
  predicate Compatible(a: Assignment, b: Assignment) {
    && (Ordinary(a) && Ordinary(b) && !a.status.NoShow? && !b.status.NoShow? ==> a.guardian != b.guardian)
    && (IsSubstitute(b) ==> a.guardian != b.guardian)
  }

  ghost predicate GuardiansOk(s: seq<Assignment>) {
    forall i, j {:trigger Compatible(s[i], s[j])} :: 0 <= i < j < |s| ==> Compatible(s[i], s[j])
  }

  // Offers are counted and numbered without gaps, a substitute relieves an earlier assignment, and both caps hold.
  ghost predicate CountersOk(s: seq<Assignment>, offersSent: nat, cfg: Config) {
    && offersSent == |s|
    && (forall i :: 0 <= i < |s| ==> s[i].round == i + 1)
    && (forall i :: 0 <= i < |s| && IsSubstitute(s[i]) ==> s[i].relieves.value < i)
    && Substitutes(s) <= cfg.maxReplacementOffers
    && |s| <= cfg.maxOffers - 1 + cfg.parallelOffers + Substitutes(s)
  }

  ghost predicate SlotsOk(s: seq<Assignment>, requested: nat) {
    1 <= requested && Staffed(s) + PendingOffers(s) <= requested
  }

  ghost predicate StatusMatchesCount(s: seq<Assignment>, status: JobStatus, requested: nat) {
    && (Searching(status) ==> Staffed(s) < requested)
    && (status.Assigned? ==> Staffed(s) == requested)
  }

  // Seeking a replacement, exactly one assignment awaiting relief, and the departing assignment all go together.
  ghost predicate ReplacementOk(s: seq<Assignment>, status: JobStatus, departing: Option<nat>) {
    && (forall i :: 0 <= i < |s| ==> (s[i].status.AwaitingRelief? <==> status.SeekingReplacement? && departing == Some(i)))
    && (status.SeekingReplacement? ==> departing.Some? && departing.value < |s|)
  }

  // Before the job is in progress nobody has been on site and there are no substitutes.
  ghost predicate NobodyEarly(s: seq<Assignment>, status: JobStatus) {
    Searching(status) || status.Assigned? ==>
      forall i :: 0 <= i < |s| ==> Ordinary(s[i]) && !Worked(s[i].status)
  }

  ghost predicate SomeBillable(s: seq<Assignment>) {
    exists i :: 0 <= i < |s| && Billable(s[i])
  }

  predicate Past(status: JobStatus) {
    status.AwaitingConfirmation? || status.JobCompleted?
  }

  // A job past its work has nobody working an ordinary slot, something to bill, and its invoice drafted.
  ghost predicate SettledOk(s: seq<Assignment>, status: JobStatus, invoiceDrafted: bool) {
    Past(status) ==> Active(s) == 0 && SomeBillable(s) && invoiceDrafted
  }

  // The moves a job can make.
  predicate JobEdge(from: JobStatus, to: JobStatus) {
    match from
    case Pending => to.Dispatching? || to.PartiallyAssigned? || to.Assigned? || to.JobFailed? || to.JobCancelled?
    case Dispatching => to.Dispatching? || to.PartiallyAssigned? || to.Assigned? || to.JobFailed? || to.JobCancelled?
    case PartiallyAssigned => to.Dispatching? || to.Assigned? || to.InProgress? || to.JobFailed? || to.JobCancelled?
    case Assigned => to.InProgress? || to.JobCancelled?
    case InProgress => to.SeekingReplacement? || to.AwaitingConfirmation? || to.JobFailed? || to.JobCancelled?
    case SeekingReplacement => to.InProgress? || to.JobCancelled?
    case AwaitingConfirmation => to.JobCompleted?
    case JobFailed => to.JobCancelled?
    case JobCompleted => false
    case JobCancelled => false
  }

  // The history starts with the creation, every entry takes over where the one before left off by an allowed move,
  // and the last one is the current status.
  ghost predicate HistoryOk(h: seq<HistoryEntry>, status: JobStatus) {
    && h != []
    && h[0] == HistoryEntry(None, Pending)
    && (forall k :: 1 <= k < |h| ==> h[k].oldStatus == Some(h[k - 1].newStatus))
    && (forall k :: 1 <= k < |h| ==> JobEdge(h[k - 1].newStatus, h[k].newStatus))
    && h[|h| - 1].newStatus == status
  }

  // The part that speaks of the rows and not of the job's status.
  ghost predicate RowsInv(w: World) {
    && RowsOk(w.assignments, w.now)
    && GuardiansOk(w.assignments)
    && CountersOk(w.assignments, w.job.offersSent, w.cfg)
    && SlotsOk(w.assignments, w.job.requested)
  }

  // The part that ties the job's status to the rows.
  ghost predicate JobInv(w: World) {
    && StatusMatchesCount(w.assignments, w.job.status, w.job.requested)
    && ReplacementOk(w.assignments, w.job.status, w.job.departing)
    && NobodyEarly(w.assignments, w.job.status)
    && SettledOk(w.assignments, w.job.status, w.invoiceDrafted)
    && HistoryOk(w.history, w.job.status)
  }

  ghost predicate Inv(w: World) {
    RowsInv(w) && JobInv(w)
  }

  // ---------- writing one row ----------

  // `b` may take the place of `a`: same identity, and it takes no more of the job's slots.
  ghost predicate RowStep(a: Assignment, b: Assignment, now: int) {
    && b.guardian == a.guardian && b.round == a.round && b.relieves == a.relieves
    && RowOk(b, now)
    && (IsStaffed(b) || IsPending(b) ==> IsStaffed(a) || IsPending(a))
    && (a.status.NoShow? ==> b.status.NoShow?)
  }

  // Same people in the same places, and no no-show undone.
  ghost predicate SamePeople(s: seq<Assignment>, t: seq<Assignment>) {
    && |s| == |t|
    && forall i :: 0 <= i < |s| ==>
         && t[i].guardian == s[i].guardian && t[i].round == s[i].round && t[i].relieves == s[i].relieves
         && (s[i].status.NoShow? ==> t[i].status.NoShow?)
  }

  lemma PeopleStay(w: World, t: seq<Assignment>)
    requires SamePeople(w.assignments, t)
    requires GuardiansOk(w.assignments) && CountersOk(w.assignments, w.job.offersSent, w.cfg)
    ensures GuardiansOk(t) && CountersOk(t, w.job.offersSent, w.cfg)
  {
    var s := w.assignments;
    forall i, j | 0 <= i < j < |t| ensures Compatible(t[i], t[j]) {
      assert Compatible(s[i], s[j]);
    }
    CountMonotone(s, t, IsSubstitute, IsSubstitute);
    CountMonotone(t, s, IsSubstitute, IsSubstitute);
  }

  lemma PutRows(w: World, i: nat, b: Assignment)
    requires RowsInv(w) && i < |w.assignments| && RowStep(w.assignments[i], b, w.now)
    ensures RowsInv(Put(w, i, b))
    ensures Staffed(Put(w, i, b).assignments) ==
            Staffed(w.assignments) - (if IsStaffed(w.assignments[i]) then 1 else 0) + (if IsStaffed(b) then 1 else 0)
    ensures PendingOffers(Put(w, i, b).assignments) ==
            PendingOffers(w.assignments) - (if IsPending(w.assignments[i]) then 1 else 0) + (if IsPending(b) then 1 else 0)
    ensures Active(Put(w, i, b).assignments) ==
            Active(w.assignments) - (if IsActive(w.assignments[i]) then 1 else 0) + (if IsActive(b) then 1 else 0)
  {
    CountUpdate(w.assignments, i, b, IsStaffed);
    CountUpdate(w.assignments, i, b, IsPending);
    CountUpdate(w.assignments, i, b, IsActive);
    PeopleStay(w, w.assignments[i := b]);
  }

  // Completed assignments stay billable.
  lemma BillableStays(s: seq<Assignment>, t: seq<Assignment>)
    requires |s| <= |t| && forall i :: 0 <= i < |s| && s[i].status.Completed? ==> t[i] == s[i]
    ensures SomeBillable(s) ==> SomeBillable(t)
  {
    if SomeBillable(s) {
      var k :| 0 <= k < |s| && Billable(s[k]);
      assert Billable(t[k]);
    }
  }

  // What a write must not do to the part that ties the job's status to the rows.
  lemma PutJob(w: World, i: nat, b: Assignment)
    requires Inv(w) && i < |w.assignments| && RowStep(w.assignments[i], b, w.now)
    requires IsActive(b) ==> IsActive(w.assignments[i]) || !Past(w.job.status)
    requires Worked(b.status) ==> Worked(w.assignments[i].status)
    requires b.status.AwaitingRelief? == w.assignments[i].status.AwaitingRelief?
    requires !w.assignments[i].status.Completed?
    ensures InvButCount(Put(w, i, b))
  {
    PutRows(w, i, b);
    BillableStays(w.assignments, Put(w, i, b).assignments);
  }

  // A write that leaves the slots, the relief and the billing as they are keeps everything.
  lemma PutKeeps(w: World, i: nat, b: Assignment)
    requires Inv(w) && i < |w.assignments| && RowStep(w.assignments[i], b, w.now)
    requires IsStaffed(b) == IsStaffed(w.assignments[i])
    requires IsActive(b) ==> IsActive(w.assignments[i])
    requires Worked(b.status) ==> Worked(w.assignments[i].status)
    requires b.status.AwaitingRelief? == w.assignments[i].status.AwaitingRelief?
    requires !w.assignments[i].status.Completed?
    ensures Inv(Put(w, i, b))
  {
    PutRows(w, i, b);
    PutJob(w, i, b);
  }

  // ---------- cancelling many rows ----------

  lemma CancelRows(w: World, p: Assignment -> bool, bump: bool)
    requires RowsInv(w)
    requires forall i :: 0 <= i < |w.assignments| && p(w.assignments[i]) ==>
               !w.assignments[i].status.Completed? && !w.assignments[i].status.NoShow?
    ensures RowsInv(w.(assignments := CancelWhere(w.assignments, p, bump)))
  {
    var s, t := w.assignments, CancelWhere(w.assignments, p, bump);
    PeopleStay(w, t);
    CancelCounts(s, p, bump);
  }

  lemma CancelCounts(s: seq<Assignment>, p: Assignment -> bool, bump: bool)
    ensures Staffed(CancelWhere(s, p, bump)) <= Staffed(s)
    ensures PendingOffers(CancelWhere(s, p, bump)) <= PendingOffers(s)
    ensures Active(CancelWhere(s, p, bump)) <= Active(s)
    ensures (forall i :: 0 <= i < |s| && p(s[i]) ==> !IsStaffed(s[i])) ==> Staffed(CancelWhere(s, p, bump)) == Staffed(s)
  {
    var t := CancelWhere(s, p, bump);
    CountMonotone(t, s, IsStaffed, IsStaffed);
    CountMonotone(t, s, IsPending, IsPending);
    CountMonotone(t, s, IsActive, IsActive);
    if forall i :: 0 <= i < |s| && p(s[i]) ==> !IsStaffed(s[i]) {
      CountMonotone(s, t, IsStaffed, IsStaffed);
    }
  }

  // ---------- job moves ----------

  lemma MoveHistory(w: World, to: JobStatus)
    requires HistoryOk(w.history, w.job.status) && JobEdge(w.job.status, to)
    ensures HistoryOk(MoveJob(w, to).history, to)
  {
  }

  lemma FailKeeps(w: World, reason: FailureReason)
    requires RowsInv(w) && HistoryOk(w.history, w.job.status)
    requires ReplacementOk(w.assignments, w.job.status, w.job.departing)
    requires Searching(w.job.status) || w.job.status.InProgress?
    ensures Inv(FailJob(w, reason))
  {
    CancelRows(w, IsOffer, false);
    MoveHistory(ReleaseOffers(w), JobFailed);
  }

  // Letting everyone go keeps the rows in order and leaves nobody awaiting relief.
  lemma ReleaseDepartingRows(w: World)
    requires RowsInv(w) && forall i :: 0 <= i < |w.assignments| && w.assignments[i].status.AwaitingRelief? ==>
                             w.job.departing == Some(i)
    ensures var w' := ReleaseDeparting(w);
            && RowsInv(w') && w' == w.(assignments := w'.assignments)
            && forall i :: 0 <= i < |w'.assignments| ==> !w'.assignments[i].status.AwaitingRelief?
  {
    if w.job.departing.Some? && w.job.departing.value < |w.assignments| {
      var d := w.job.departing.value;
      if w.assignments[d].status.AwaitingRelief? || w.assignments[d].status.OnSite? {
        PutRows(w, d, w.assignments[d].(status := Cancelled));
      }
    }
  }

  lemma ReleaseNewcomersRows(w: World)
    requires RowsInv(w) && ReplacementOk(w.assignments, w.job.status, w.job.departing)
    ensures var w' := ReleaseSubstitutes(ReleaseOffers(w));
            && RowsInv(w') && w' == w.(assignments := w'.assignments)
            && forall i :: 0 <= i < |w'.assignments| && w'.assignments[i].status.AwaitingRelief? ==>
                             w'.job.departing == Some(i)
  {
    CancelRows(w, IsOffer, false);
    CancelRows(ReleaseOffers(w), IsComing, false);
  }

  lemma ReleaseRows(w: World)
    requires RowsInv(w) && ReplacementOk(w.assignments, w.job.status, w.job.departing)
    ensures var w' := ReleaseActive(ReleaseDeparting(ReleaseSubstitutes(ReleaseOffers(w))));
            && RowsInv(w') && w' == w.(assignments := w'.assignments)
            && forall i :: 0 <= i < |w'.assignments| ==> !w'.assignments[i].status.AwaitingRelief?
  {
    ReleaseNewcomersRows(w);
    var w2 := ReleaseSubstitutes(ReleaseOffers(w));
    ReleaseDepartingRows(w2);
    CancelRows(ReleaseDeparting(w2), IsWorking, false);
  }

  // The departing officer on his way out: awaiting relief, or back on site with the approval still standing.
  predicate Departs(w: World, i: nat)
    requires i < |w.assignments|
  {
    var a := w.assignments[i];
    w.job.departing == Some(i) &&
    (a.status.AwaitingRelief? || (a.status.OnSite? && a.replacementResolution == Some(ReplacementApproved)))
  }

  lemma CancelledRow(w: World, i: nat)
    requires i < |w.assignments|
    ensures var a := w.assignments[i];
            var after := ReleaseActive(ReleaseDeparting(ReleaseSubstitutes(ReleaseOffers(w)))).assignments;
            && |after| == |w.assignments|
            && after[i] ==
               if IsOffer(a) || IsComing(a) || IsWorking(a) || Departs(w, i) then a.(status := Cancelled) else a
  {
    var a := w.assignments[i];
    var w1 := ReleaseOffers(w);
    assert w1.assignments[i] == if IsOffer(a) then a.(status := Cancelled) else a;
    var w2 := ReleaseSubstitutes(w1);
    assert w2.assignments[i] == if IsOffer(a) || IsComing(a) then a.(status := Cancelled) else a;
    var w3 := ReleaseDeparting(w2);
    var b := w3.assignments[i];
    assert b == if IsOffer(a) || IsComing(a) || Departs(w, i) then a.(status := Cancelled) else a;
    assert ReleaseActive(w3).assignments[i] == if IsWorking(b) then b.(status := Cancelled) else b;
  }

  lemma CancelKeeps(w: World)
    requires Inv(w)
    ensures Inv(Cancel(w).world)
  {
    if Cancel(w).reply.Done? {
      ReleaseRows(w);
      MoveHistory(w, JobCancelled);
    }
  }

  // ---------- offers ----------

  // Everything but the match between the job's status and its staffed count.
  ghost predicate InvButCount(w: World) {
    && RowsInv(w)
    && ReplacementOk(w.assignments, w.job.status, w.job.departing)
    && NobodyEarly(w.assignments, w.job.status)
    && SettledOk(w.assignments, w.job.status, w.invoiceDrafted)
    && HistoryOk(w.history, w.job.status)
  }

  lemma AssignedKeeps(w: World)
    requires InvButCount(w) && FullyStaffed(w) && ToAssigned(w).Some?
    ensures Inv(ToAssigned(w).value)
  {
    if !w.job.status.Assigned? {
      MoveHistory(w, Assigned);
    }
  }

  lemma PartialKeeps(w: World)
    requires InvButCount(w) && !FullyStaffed(w) && ToPartiallyAssigned(w).Some?
    ensures Inv(ToPartiallyAssigned(w).value)
  {
    if !w.job.status.PartiallyAssigned? {
      MoveHistory(w, PartiallyAssigned);
    }
  }

  // Once the job is full there is no room for a surplus offer, so there is none to cancel.
  lemma CancelExcessKeeps(w: World)
    requires Inv(w) && w.job.status.Assigned?
    ensures PendingOffers(w.assignments) == 0
    ensures CancelExcessOffers(w) == w
  {
    CountZero(w.assignments, IsPending);
    assert CancelWhere(w.assignments, IsPending, true) == w.assignments;
  }

  lemma AfterAcceptKeeps(w: World)
    requires InvButCount(w) && AfterAccept(w).Some?
    ensures Inv(AfterAccept(w).value)
    ensures !w.job.status.SeekingReplacement? && FullyStaffed(w) ==> PendingOffers(w.assignments) == 0
  {
    if !w.job.status.SeekingReplacement? {
      if FullyStaffed(w) {
        AssignedKeeps(w);
        CancelExcessKeeps(ToAssigned(w).value);
      } else {
        PartialKeeps(w);
      }
    }
  }

  // Accepting keeps the slots in order, and when it fills the job it finds no surplus offer to cancel.
  lemma AcceptKeeps(w: World, i: nat, g: nat)
    requires Inv(w)
    ensures Inv(Accept(w, i, g).world)
    ensures Accept(w, i, g).reply.Done? && Accept(w, i, g).world.job.status.Assigned? ==>
              PendingOffers(Put(w, i, Bump(w.assignments[i], Accepted)).assignments) == 0
  {
    if Accept(w, i, g).reply.Done? {
      var b := Bump(w.assignments[i], Accepted);
      PutRows(w, i, b);
      PutJob(w, i, b);
      AfterAcceptKeeps(Put(w, i, b));
    }
  }

  lemma DeclineKeeps(w: World, i: nat, g: nat)
    requires Inv(w)
    ensures Inv(Decline(w, i, g).world)
  {
    if Decline(w, i, g).reply.Done? {
      PutKeeps(w, i, Bump(w.assignments[i], Declined));
    }
  }

  lemma ExpireKeeps(w: World, i: nat, pool: Pool)
    requires Inv(w)
    ensures Inv(ExpireOffer(w, i, pool))
  {
    if i < |w.assignments| && w.assignments[i].status.Offered? {
      PutKeeps(w, i, Bump(w.assignments[i], Expired));
      var w' := Put(w, i, Bump(w.assignments[i], Expired));
      var failure := TerminalFailure(w', pool);
      if failure.Some? {
        FailKeeps(w', failure.value);
      }
    }
  }

  // ---------- work on site ----------

  lemma ArriveKeeps(w: World, i: nat, g: nat)
    requires Inv(w)
    ensures Inv(ArriveOnSite(w, i, g).world)
  {
    if ArriveOnSite(w, i, g).reply.Done? {
      var a := w.assignments[i];
      if a.relieves.Some? && w.job.status.SeekingReplacement? {
        HandoffKeeps(w, i);
      } else {
        var b := Bump(a, OnSite).(arrivedAt := Some(w.now));
        PutRows(w, i, b);
        var w1 := Put(w, i, b);
        if !w.job.status.InProgress? {
          MoveHistory(w1, InProgress);
        }
      }
    }
  }

  // The two rows of a handoff, before the job moves back.
  function HandoffRows(w: World, i: nat): World
    requires i < |w.assignments| && HandoffReady(w, i)
  {
    var o := w.assignments[i].relieves.value;
    var w1 := Put(w, o, Bump(w.assignments[o], Completed).(completedAt := Some(w.now)));
    Put(w1, i, Bump(w1.assignments[i], OnSite).(arrivedAt := Some(w.now)))
  }

  lemma HandoffRowsOk(w: World, i: nat)
    requires Inv(w) && i < |w.assignments| && w.assignments[i].status.EnRoute? && HandoffReady(w, i)
    ensures RowsInv(HandoffRows(w, i))
    ensures forall k :: 0 <= k < |w.assignments| ==> !HandoffRows(w, i).assignments[k].status.AwaitingRelief?
  {
    var o := w.assignments[i].relieves.value;
    var done := Bump(w.assignments[o], Completed).(completedAt := Some(w.now));
    PutRows(w, o, done);
    var w1 := Put(w, o, done);
    PutRows(w1, i, Bump(w1.assignments[i], OnSite).(arrivedAt := Some(w.now)));
  }

  /** While the job seeks a replacement, a handoff that passes its checks is never refused later on. */
  lemma HandoffKeeps(w: World, i: nat)
    requires Inv(w) && i < |w.assignments| && w.assignments[i].status.EnRoute? && w.job.status.SeekingReplacement?
    ensures Inv(Handoff(w, i).world)
    ensures Handoff(w, i).reply.Done? <==> HandoffReady(w, i)
    ensures HandoffReady(w, i) <==> w.assignments[i].relieves == w.job.departing
  {
    if HandoffReady(w, i) {
      HandoffRowsOk(w, i);
      MoveHistory(w, InProgress);
    }
  }

  lemma ApproveReplacementKeeps(w: World, i: nat)
    requires Inv(w)
    ensures Inv(ApproveReplacement(w, i).world)
  {
    if ApproveReplacement(w, i).reply.Done? {
      var b := Bump(w.assignments[i], AwaitingRelief).(replacementResolution := Some(ReplacementApproved));
      PutRows(w, i, b);
      MoveHistory(Put(w, i, b), SeekingReplacement);
    }
  }

  // Completing keeps the invariants even when the job refuses to move; drafting the invoice is never what fails.
  lemma CompleteKeeps(w: World, i: nat, g: nat)
    requires Inv(w)
    ensures Inv(Complete(w, i, g).world)
    ensures Complete(w, i, g).reply.NotFound? ==> !Owned(w, i, g)
  {
    if Owned(w, i, g) {
      var a := w.assignments[i];
      if a.status.OnSite? || (a.status.EarlyReleaseRequested? && IsApproved(a.earlyResolution)) {
        var b := Bump(a, Completed).(completedAt := Some(w.now));
        PutKeeps(w, i, b);
        var w1 := Put(w, i, b);
        if Active(w1.assignments) == 0 && ToAwaitingConfirmation(w1).Some? {
          AfterCompleteKeeps(w1, i);
        }
      }
    }
  }

  lemma AfterCompleteKeeps(w: World, i: nat)
    requires Inv(w) && i < |w.assignments| && w.assignments[i].status.Completed?
    requires Active(w.assignments) == 0 && ToAwaitingConfirmation(w).Some?
    ensures Inv(DraftInvoice(ToAwaitingConfirmation(w).value).world)
    ensures DraftInvoice(ToAwaitingConfirmation(w).value).reply.Done?
  {
    assert Billable(w.assignments[i]);
    if !w.job.status.AwaitingConfirmation? {
      MoveHistory(w, AwaitingConfirmation);
    }
  }

  lemma AfterNoShowKeeps(w: World)
    requires InvButCount(w) && AfterNoShow(w, w.job.status).Some?
    requires Searching(w.job.status) ==> Staffed(w.assignments) < w.job.requested
    ensures Inv(AfterNoShow(w, w.job.status).value)
  {
    if !w.job.status.SeekingReplacement? {
      if FullyStaffed(w) {
        if ToAssigned(w).Some? {
          AssignedKeeps(w);
        }
      } else {
        assert w.job.status.InProgress? || w.job.status.PartiallyAssigned? || w.job.status.Dispatching?;
      }
    }
  }

  lemma NoShowKeeps(w: World, i: nat)
    requires Inv(w)
    ensures Inv(ReportNoShow(w, i).world)
  {
    if i < |w.assignments| && ReportNoShow(w, i).reply.Done? && !w.assignments[i].status.NoShow? {
      var b := Bump(w.assignments[i], NoShow);
      PutRows(w, i, b);
      PutJob(w, i, b);
      AfterNoShowKeeps(Put(w, i, b));
    }
  }

  lemma MarkEnRouteKeeps(w: World, i: nat, g: nat)
    requires Inv(w)
    ensures Inv(MarkEnRoute(w, i, g).world)
  {
    if MarkEnRoute(w, i, g).reply.Done? {
      PutKeeps(w, i, Bump(w.assignments[i], EnRoute));
    }
  }

  lemma RequestEarlyReleaseKeeps(w: World, i: nat, g: nat)
    requires Inv(w)
    ensures Inv(RequestEarlyRelease(w, i, g).world)
  {
    if RequestEarlyRelease(w, i, g).reply.Done? {
      var resolution := if w.job.earlyReleaseNeedsClient then None else Some(EarlyAutoApproved);
      PutKeeps(w, i, Bump(w.assignments[i], EarlyReleaseRequested).(earlyResolution := resolution));
    }
  }

  lemma ApproveEarlyReleaseKeeps(w: World, i: nat)
    requires Inv(w)
    ensures Inv(ApproveEarlyRelease(w, i).world)
  {
    if i < |w.assignments| && w.assignments[i].status.EarlyReleaseRequested? {
      PutKeeps(w, i, w.assignments[i].(earlyResolution := Some(EarlyApproved)));
    }
  }

  lemma RejectEarlyReleaseKeeps(w: World, i: nat)
    requires Inv(w)
    ensures Inv(RejectEarlyRelease(w, i).world)
  {
    if i < |w.assignments| && w.assignments[i].status.EarlyReleaseRequested? {
      PutKeeps(w, i, Bump(w.assignments[i], OnSite).(earlyResolution := Some(EarlyRejected)));
    }
  }

  lemma AutoApproveEarlyReleaseKeeps(w: World, i: nat)
    requires Inv(w)
    ensures Inv(AutoApproveEarlyRelease(w, i))
  {
    if i < |w.assignments| && w.assignments[i].status.EarlyReleaseRequested? {
      PutKeeps(w, i, w.assignments[i].(earlyResolution := Some(EarlyAutoApproved)));
    }
  }

  lemma RequestReplacementKeeps(w: World, i: nat, g: nat)
    requires Inv(w)
    ensures Inv(RequestReplacement(w, i, g).world)
  {
    if RequestReplacement(w, i, g).reply.Done? {
      PutKeeps(w, i, Bump(w.assignments[i], ReplacementRequested).(replacementRequestedAt := Some(w.now),
                                                                   replacementResolution := None));
    }
  }

  lemma DenyReplacementKeeps(w: World, i: nat)
    requires Inv(w)
    ensures Inv(DenyReplacement(w, i).world)
  {
    if i < |w.assignments| && w.assignments[i].status.ReplacementRequested? {
      PutKeeps(w, i, Bump(w.assignments[i], OnSite).(replacementResolution := Some(ReplacementDenied)));
    }
  }

  lemma ConfirmKeeps(w: World)
    requires Inv(w)
    ensures Inv(Confirm(w).world)
  {
    if w.job.status.AwaitingConfirmation? {
      MoveHistory(w, JobCompleted);
    }
  }

  lemma AutoConfirmKeeps(w: World, issuable: bool)
    requires Inv(w)
    ensures Inv(AutoConfirm(w, issuable))
  {
    if w.job.status.AwaitingConfirmation? {
      MoveHistory(w, JobCompleted);
    }
  }

  // ---------- dispatch rounds ----------

  // Room for one more offer to `g`, ordinary or as a substitute.
  ghost predicate MayOffer(w: World, g: nat, relieves: Option<nat>) {
    match relieves
    case None =>
      && g !in Excluded(w.assignments)
      && Staffed(w.assignments) + PendingOffers(w.assignments) < w.job.requested
      && |w.assignments| + 1 <= w.cfg.maxOffers - 1 + w.cfg.parallelOffers
    case Some(o) =>
      && o < |w.assignments|
      && (forall i :: 0 <= i < |w.assignments| ==> w.assignments[i].guardian != g)
      && Substitutes(w.assignments) < w.cfg.maxReplacementOffers
  }

  lemma OfferedGuardians(w: World, g: nat, relieves: Option<nat>)
    requires RowsInv(w) && MayOffer(w, g, relieves)
    ensures GuardiansOk(CreateOffer(w, g, relieves).assignments)
    ensures Excluded(CreateOffer(w, g, relieves).assignments) <= Excluded(w.assignments) + {g}
  {
    var s := w.assignments;
    var s' := CreateOffer(w, g, relieves).assignments;
    forall i, j | 0 <= i < j < |s'| ensures Compatible(s'[i], s'[j]) {
      if j < |s| {
        assert Compatible(s[i], s[j]);
      } else if relieves.None? {
        assert s[i].guardian in Excluded(s) || s[i].status.NoShow? || IsSubstitute(s[i]);
      }
    }
  }

  lemma CreateOfferRows(w: World, g: nat, relieves: Option<nat>)
    requires RowsInv(w) && MayOffer(w, g, relieves)
    ensures RowsInv(CreateOffer(w, g, relieves))
    ensures var s' := CreateOffer(w, g, relieves).assignments;
            && Staffed(s') == Staffed(w.assignments)
            && PendingOffers(s') == PendingOffers(w.assignments) + (if relieves.None? then 1 else 0)
  {
    var s := w.assignments;
    var a := CreateOffer(w, g, relieves).assignments[|s|];
    CountAppend(s, a, IsStaffed);
    CountAppend(s, a, IsPending);
    CountAppend(s, a, IsSubstitute);
    OfferedGuardians(w, g, relieves);
  }

  predicate NewOffer(a: Assignment, g: nat) {
    a.status.Offered? && Ordinary(a) && a.guardian == g
  }

  // What a batch of offers leaves alone, and what it adds.
  lemma {:induction false} CreateOffersShape(w: World, gs: seq<nat>)
    ensures var w' := CreateOffers(w, gs, None);
            && w' == w.(assignments := w'.assignments, job := w'.job)
            && w'.job == w.job.(offersSent := w'.job.offersSent, unreachableSince := w'.job.unreachableSince)
            && |w'.assignments| == |w.assignments| + |gs|
            && (forall i :: 0 <= i < |w.assignments| ==> w'.assignments[i] == w.assignments[i])
            && (forall k :: |w.assignments| <= k < |w'.assignments| ==>
                  NewOffer(w'.assignments[k], gs[k - |w.assignments|]))
    decreases |gs|
  {
    if gs != [] {
      var w1 := CreateOffer(w, gs[0], None);
      CreateOffersShape(w1, gs[1..]);
      var w' := CreateOffers(w1, gs[1..], None);
      forall k | |w.assignments| <= k < |w'.assignments|
        ensures NewOffer(w'.assignments[k], gs[k - |w.assignments|])
      {
        if k == |w.assignments| {
          assert w'.assignments[k] == w1.assignments[k];
        } else {
          assert gs[1..][k - |w1.assignments|] == gs[k - |w.assignments|];
        }
      }
    }
  }

  lemma {:induction false} CreateOffersRows(w: World, gs: seq<nat>)
    requires RowsInv(w) && Distinct(gs) && forall g :: g in gs ==> g !in Excluded(w.assignments)
    requires Staffed(w.assignments) + PendingOffers(w.assignments) + |gs| <= w.job.requested
    requires |w.assignments| + |gs| <= w.cfg.maxOffers - 1 + w.cfg.parallelOffers
    ensures RowsInv(CreateOffers(w, gs, None))
    ensures Staffed(CreateOffers(w, gs, None).assignments) == Staffed(w.assignments)
    decreases |gs|
  {
    if gs != [] {
      OfferedGuardians(w, gs[0], None);
      CreateOfferRows(w, gs[0], None);
      var rest := gs[1..];
      assert forall g :: g in rest ==> g in gs && g != gs[0];
      CreateOffersRows(CreateOffer(w, gs[0], None), rest);
    }
  }

  lemma OffersKeepJob(w: World, gs: seq<nat>)
    requires JobInv(w) && !Past(w.job.status)
    requires Staffed(CreateOffers(w, gs, None).assignments) == Staffed(w.assignments)
    ensures JobInv(CreateOffers(w, gs, None))
  {
    CreateOffersShape(w, gs);
    var s, s' := w.assignments, CreateOffers(w, gs, None).assignments;
    assert forall i :: |s| <= i < |s'| ==> NewOffer(s'[i], gs[i - |s|]);
  }

  lemma OffersKeep(w: World, gs: seq<nat>)
    requires Inv(w) && (Searching(w.job.status) || w.job.status.InProgress?)
    requires Distinct(gs) && forall g :: g in gs ==> g !in Excluded(w.assignments)
    requires |gs| <= OpenSlots(w) && |gs| <= w.cfg.parallelOffers && w.job.offersSent < w.cfg.maxOffers
    ensures Inv(CreateOffers(w, gs, None))
  {
    CreateOffersRows(w, gs);
    OffersKeepJob(w, gs);
  }

  lemma RetryOrFailKeeps(w: World, pool: Pool)
    requires Inv(w) && (Searching(w.job.status) || w.job.status.InProgress?)
    ensures Inv(RetryOrFail(w, pool))
  {
    var failure := TerminalFailure(w, pool);
    if failure.Some? {
      FailKeeps(w, failure.value);
    }
  }

  lemma EmptyRoundKeeps(w: World, pool: Pool)
    requires Inv(w) && (Searching(w.job.status) || w.job.status.InProgress?)
    ensures Inv(EmptyRound(w, pool))
  {
    var candidates := ListEligible(pool.ranked, w.cfg.poolSize, Excluded(w.assignments));
    RetryOrFailKeeps(NoteReachability(w, |candidates|, |Within(candidates, pool.reachable)|), pool);
  }

  lemma OrdinaryRoundKeeps(w: World, pool: Pool)
    requires Inv(w) && (Searching(w.job.status) || w.job.status.InProgress?)
    requires w.job.offersSent < w.cfg.maxOffers
    ensures Inv(OrdinaryRound(w, pool))
  {
    if OpenSlots(w) != 0 {
      var room := OpenSlots(w);
      ParallelPickIsBest(pool, w.cfg.poolSize, Excluded(w.assignments),
                         if w.cfg.parallelOffers <= room then w.cfg.parallelOffers else room);
      var picks := ParallelPicks(w, pool);
      if picks == [] {
        EmptyRoundKeeps(w, pool);
      } else {
        OffersKeep(w, picks);
      }
    }
  }

  // A substitute offer goes to someone who never had an assignment on the job.
  lemma NextPickIsNew(w: World, pool: Pool, g: nat)
    requires PickNext(pool, w.cfg.poolSize, ReplacementExcluded(w.assignments)) == Some(g)
    requires g !in Tried(w.assignments)
    ensures forall i :: 0 <= i < |w.assignments| ==> w.assignments[i].guardian != g
  {
    NextPickIsBest(pool, w.cfg.poolSize, ReplacementExcluded(w.assignments));
  }

  lemma SubstituteOfferKeeps(w: World, g: nat)
    requires Inv(w) && w.job.status.SeekingReplacement? && MayOffer(w, g, w.job.departing)
    ensures Inv(CreateOffer(w, g, w.job.departing))
  {
    CreateOfferRows(w, g, w.job.departing);
  }

  // Only what the invariants do not speak of has changed.
  predicate InvButFailure(w: World, w': World) {
    w' == w.(job := w.job.(failureReason := w'.job.failureReason, unreachableSince := w'.job.unreachableSince),
             requests := w'.requests)
  }

  lemma ReplacementRoundKeeps(w: World, pool: Pool)
    requires Inv(w) && w.job.status.SeekingReplacement?
    ensures Inv(ReplacementRound(w, pool))
  {
    var w' := ReplacementRound(w, pool);
    if w'.assignments == w.assignments {
      assert InvButFailure(w, w');
    } else {
      var pick := PickNext(pool, w.cfg.poolSize, ReplacementExcluded(w.assignments));
      NextPickIsNew(w, pool, pick.value);
      SubstituteOfferKeeps(w, pick.value);
    }
  }

  /** A dispatch round keeps the invariants and never takes the repair branch: a job still searching is not full. */
  lemma ProcessDispatchKeeps(w: World, pool: Pool)
    requires Inv(w)
    ensures Inv(ProcessDispatch(w, pool))
    ensures FullyStaffed(w) ==> !Searching(w.job.status)
  {
    var w' := EnsureSchedule(w);
    assert Inv(w');
    if w.job.status.SeekingReplacement? {
      ReplacementRoundKeeps(w', pool);
    } else if Searching(w.job.status) || w.job.status.InProgress? {
      var failure := TerminalFailure(w', pool);
      if failure.Some? {
        FailKeeps(w', failure.value);
      } else if w.cfg.maxOffers <= w'.job.offersSent {
        FailKeeps(w', MaxOffersExceeded);
      } else {
        OrdinaryRoundKeeps(w', pool);
      }
    }
  }

  lemma RequestDispatchKeeps(w: World)
    requires Inv(w)
    ensures Inv(RequestDispatch(w).world)
  {
    if Searching(w.job.status) {
      MoveHistory(w, Dispatching);
    }
  }

  lemma FailOverdueKeeps(w: World)
    requires Inv(w)
    ensures Inv(FailOverdue(w))
  {
    if Searching(w.job.status) {
      FailKeeps(w, DispatchTimeout);
    }
  }

  lemma FailExhaustedKeeps(w: World, pool: Pool)
    requires Inv(w)
    ensures Inv(FailExhausted(w, pool))
  {
    if Searching(w.job.status) {
      FailKeeps(w, PoolExhausted);
    }
  }

  // ---------- every step ----------

  lemma InitialInv(w: World)
    requires Initial(w)
    ensures Inv(w)
  {
  }

  predicate IsJobStep(step: Step) {
    || step.StepTick? || step.StepRequestDispatch? || step.StepProcessDispatch? || step.StepRequestReplacementDispatch?
    || step.StepResumeReplacement? || step.StepFailOverdue? || step.StepFailExhausted? || step.StepCancel?
    || step.StepConfirm? || step.StepAutoConfirm?
  }

  lemma JobStepKeeps(w: World, step: Step)
    requires Inv(w) && IsJobStep(step)
    ensures Inv(Apply(w, step))
  {
    match step
    case StepTick(ms) =>
    case StepRequestDispatch => RequestDispatchKeeps(w);
    case StepProcessDispatch(pool) => ProcessDispatchKeeps(w, pool);
    case StepRequestReplacementDispatch =>
    case StepResumeReplacement =>
    case StepFailOverdue => FailOverdueKeeps(w);
    case StepFailExhausted(pool) => FailExhaustedKeeps(w, pool);
    case StepCancel => CancelKeeps(w);
    case StepConfirm => ConfirmKeeps(w);
    case StepAutoConfirm(issuable) => AutoConfirmKeeps(w, issuable);
  }

  predicate IsRequestStep(step: Step) {
    || step.StepRequestEarlyRelease? || step.StepApproveEarlyRelease? || step.StepRejectEarlyRelease?
    || step.StepAutoApproveEarlyRelease? || step.StepRequestReplacement? || step.StepDenyReplacement?
  }

  lemma EarlyReleaseStepKeeps(w: World, step: Step)
    requires Inv(w) && IsRequestStep(step) && !step.StepRequestReplacement? && !step.StepDenyReplacement?
    ensures Inv(Apply(w, step))
  {
    match step
    case StepRequestEarlyRelease(i, g) => RequestEarlyReleaseKeeps(w, i, g);
    case StepApproveEarlyRelease(i) => ApproveEarlyReleaseKeeps(w, i);
    case StepRejectEarlyRelease(i) => RejectEarlyReleaseKeeps(w, i);
    case StepAutoApproveEarlyRelease(i) => AutoApproveEarlyReleaseKeeps(w, i);
  }

  lemma RequestStepKeeps(w: World, step: Step)
    requires Inv(w) && IsRequestStep(step)
    ensures Inv(Apply(w, step))
  {
    match step
    case StepRequestReplacement(i, g) => RequestReplacementKeeps(w, i, g);
    case StepDenyReplacement(i) => DenyReplacementKeeps(w, i);
    case _ => EarlyReleaseStepKeeps(w, step);
  }

  lemma OfferStepKeeps(w: World, step: Step)
    requires Inv(w) && !IsJobStep(step) && !IsRequestStep(step)
    ensures Inv(Apply(w, step))
  {
    match step
    case StepAccept(i, g) => AcceptKeeps(w, i, g);
    case StepDecline(i, g) => DeclineKeeps(w, i, g);
    case StepExpireOffer(i, pool) => ExpireKeeps(w, i, pool);
    case StepMarkEnRoute(i, g) => MarkEnRouteKeeps(w, i, g);
    case StepArriveOnSite(i, g) => ArriveKeeps(w, i, g);
    case StepApproveReplacement(i) => ApproveReplacementKeeps(w, i);
    case StepComplete(i, g) => CompleteKeeps(w, i, g);
    case StepReportNoShow(i) => NoShowKeeps(w, i);
  }

  lemma StepKeeps(w: World, step: Step)
    requires Inv(w)
    ensures Inv(Apply(w, step))
  {
    if IsJobStep(step) {
      JobStepKeeps(w, step);
    } else if IsRequestStep(step) {
      RequestStepKeeps(w, step);
    } else {
      OfferStepKeeps(w, step);
    }
  }
}
