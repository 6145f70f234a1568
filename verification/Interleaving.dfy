/** The version-checked writers split into a read and a commit that interleave freely with each other, with row-locked
accepts that may have read the job's status long before, with dispatch rounds acting on stale counts, with the bulk
releases of failing and cancelling a job, which raise no version, and with any change to the job row. */
module Interleaving {
  import opened Domain
  import opened Counting
  import opened Protocol
  import opened Invariants

  /** The table of allowed assignment transitions. */
  function AllowedNext(from: AssignmentStatus): set<AssignmentStatus> {
    match from
    case Offered => {Accepted, Declined, Expired, Cancelled}
    case Accepted => {EnRoute, NoShow, Cancelled}
    case EnRoute => {OnSite, NoShow, Cancelled}
    case OnSite => {Completed, EarlyReleaseRequested, ReplacementRequested, Cancelled}
    case EarlyReleaseRequested => {Completed, OnSite, Cancelled}
    case ReplacementRequested => {OnSite, AwaitingRelief, Cancelled}
    case AwaitingRelief => {Completed, Cancelled}
    case Completed => {}
    case Declined => {}
    case Expired => {}
    case NoShow => {}
    case Cancelled => {}
  }

  // An edge of the table, or the one edge outside it that a no-show report takes.
  predicate Edge(from: AssignmentStatus, to: AssignmentStatus) {
    to in AllowedNext(from) || (from.Offered? && to.NoShow?)
  }

  predicate Terminal(s: AssignmentStatus) {
    AllowedNext(s) == {}
  }

  datatype Op =
    | OpDecline
    | OpExpire
    | OpEnRoute
    | OpArrive
    | OpHandoff
    | OpRequestEarly
    | OpRejectEarly
    | OpRequestReplacement
    | OpDenyReplacement
    | OpApproveReplacement
    | OpComplete
    | OpNoShow

  /** What an operation read before it commits: the row, the job, and for a handoff the row it relieves. */
  datatype Ticket = Ticket(op: Op, i: nat, row: Assignment, job: Job, original: Option<Assignment>)

  /** `tickets` holds what operations have read, `lists` the ids that cancellations have read. */
  datatype System = System(world: World, tickets: seq<Ticket>, lists: seq<set<nat>>)

  // The checks an operation makes on what it reads.
  predicate MayBegin(op: Op, w: World, i: nat)
    requires i < |w.assignments|
  {
    var a := w.assignments[i];
    match op
    case OpDecline => a.status.Offered?
    case OpExpire =>
      a.status.Offered? && a.expiresAt <= w.now &&
      !w.job.status.JobCancelled? && !w.job.status.JobCompleted? && !w.job.status.AwaitingConfirmation?
    case OpEnRoute => a.status.Accepted?
    case OpArrive => a.status.EnRoute? && !(a.relieves.Some? && w.job.status.SeekingReplacement?)
    case OpHandoff => a.status.EnRoute? && w.job.status.SeekingReplacement? && HandoffReady(w, i)
    case OpRequestEarly =>
      a.status.OnSite? && !(a.replacementRequestedAt.Some? && a.replacementResolution.None?) && w.job.allowEarlyRelease
    case OpRejectEarly => a.status.EarlyReleaseRequested?
    case OpRequestReplacement => a.status.OnSite? && w.job.status.InProgress?
    case OpDenyReplacement => a.status.ReplacementRequested?
    case OpApproveReplacement => a.status.ReplacementRequested? && w.job.status.InProgress?
    case OpComplete => a.status.OnSite? || (a.status.EarlyReleaseRequested? && IsApproved(a.earlyResolution))
    case OpNoShow => a.status.Offered? || a.status.Accepted? || a.status.EnRoute?
  }

  function Target(op: Op): AssignmentStatus {
    match op
    case OpDecline => Declined
    case OpExpire => Expired
    case OpEnRoute => EnRoute
    case OpArrive => OnSite
    case OpHandoff => OnSite
    case OpRequestEarly => EarlyReleaseRequested
    case OpRejectEarly => OnSite
    case OpRequestReplacement => ReplacementRequested
    case OpDenyReplacement => OnSite
    case OpApproveReplacement => AwaitingRelief
    case OpComplete => Completed
    case OpNoShow => NoShow
  }

  // The row a commit writes over the current one; only the version was checked, the rest is whatever is there now.
  function NewRow(t: Ticket, current: Assignment, now: int): Assignment {
    var b := Bump(current, Target(t.op));
    match t.op
    case OpArrive => b.(arrivedAt := Some(now))
    case OpHandoff => b.(arrivedAt := Some(now))
    case OpRequestEarly => b.(earlyResolution := if t.job.earlyReleaseNeedsClient then None else Some(EarlyAutoApproved))
    case OpRejectEarly => b.(earlyResolution := Some(EarlyRejected))
    case OpRequestReplacement => b.(replacementRequestedAt := Some(now), replacementResolution := None)
    case OpDenyReplacement => b.(replacementResolution := Some(ReplacementDenied))
    case OpApproveReplacement => b.(replacementResolution := Some(ReplacementApproved))
    case OpComplete => b.(completedAt := Some(now))
    case _ => b
  }

  // What the same transaction then does to the job, whose status it reads afresh; None rolls everything back.
  function Reaction(w: World, t: Ticket): Option<World> {
    match t.op
    case OpArrive => ToInProgress(w)
    case OpApproveReplacement =>
      (match ToSeekingReplacement(w)
       case None => None
       case Some(w') => Some(w'.(job := w'.job.(departing := Some(t.i), deadline := Some(w.now + 600_000),
                                                failureReason := None, unreachableSince := None))))
    case OpHandoff =>
      (match BackToInProgress(w)
       case None => None
       case Some(w') => Some(w'.(job := w'.job.(departing := None, failureReason := None))))
    case OpNoShow => AfterNoShow(w, t.job.status)
    case _ => Some(w)
  }

  predicate Fresh(w: World, i: nat, read: Assignment) {
    i < |w.assignments| && w.assignments[i].version == read.version
  }

  function Commit(w: World, t: Ticket): Outcome {
    if t.op.OpHandoff? && (t.row.relieves.None? || t.original.None? ||
                           !Fresh(w, t.row.relieves.value, t.original.value))
    then Outcome(w, Conflict)
    else
      var w1 :=
        if t.op.OpHandoff? then
          var o := t.row.relieves.value;
          Put(w, o, Bump(w.assignments[o], Completed).(completedAt := Some(w.now)))
        else w;
      if !Fresh(w1, t.i, t.row) then Outcome(w, Conflict)
      else
        match Reaction(Put(w1, t.i, NewRow(t, w1.assignments[t.i], w.now)), t)
        case None => Outcome(w, BadRequest)
        case Some(w') => Outcome(w', Done)
  }

  datatype SystemStep =
    | Begin(op: Op, i: nat)
    | CommitTicket(k: nat)
    | AcceptNow(i: nat, g: nat, seen: JobStatus)
    | CancelNow
    | FailNow(reason: FailureReason)
    | ReadRelease(group: set<nat>)
    | WriteRelease(k: nat)
    | OfferBatch(guardians: seq<nat>, relieving: Option<nat>)
    | ResolveEarly(i: nat, resolution: EarlyReleaseResolution)
    | ChangeJob(job: Job)
    | Wait(ms: nat)

  // The officers a cancellation finds to release, all still at work or on their way; it reads them group by group.
  function Releasable(w: World): set<nat> {
    set i | 0 <= i < |w.assignments| &&
            (IsComing(w.assignments[i]) || IsWorking(w.assignments[i]) || Departs(w, i))
  }

  // Cancels the rows listed, whatever has become of them.
  function CancelListed(s: seq<Assignment>, ids: set<nat>): seq<Assignment> {
    seq(|s|, i requires 0 <= i < |s| => if i in ids then s[i].(status := Cancelled) else s[i])
  }

  // A ticket is never thrown away: any read ever made may try to commit, any number of times.
  function Perform(sys: System, step: SystemStep): System {
    var w := sys.world;
    match step
    case Begin(op, i) =>
      if i < |w.assignments| && MayBegin(op, w, i) then
        var original := if op.OpHandoff? then Some(w.assignments[w.assignments[i].relieves.value]) else None;
        sys.(tickets := sys.tickets + [Ticket(op, i, w.assignments[i], w.job, original)])
      else sys
    case CommitTicket(k) => if k < |sys.tickets| then sys.(world := Commit(w, sys.tickets[k]).world) else sys
    case AcceptNow(i, g, seen) => sys.(world := AcceptSeen(w, i, g, seen).world)
    case CancelNow => sys.(world := Cancel(w).world)
    case FailNow(reason) => sys.(world := FailJob(w, reason))
    case ReadRelease(group) => sys.(lists := sys.lists + [Releasable(w) * group])
    case WriteRelease(k) =>
      if k < |sys.lists| then sys.(world := w.(assignments := CancelListed(w.assignments, sys.lists[k]))) else sys
    case OfferBatch(guardians, o) => sys.(world := CreateOffers(w, guardians, o))
    case ResolveEarly(i, r) =>
      if i < |w.assignments| then sys.(world := Put(w, i, w.assignments[i].(earlyResolution := Some(r)))) else sys
    case ChangeJob(job) => sys.(world := w.(job := job.(requested := w.job.requested)))
    case Wait(ms) => sys.(world := w.(now := w.now + ms))
  }

  // A step that cancels rows in bulk, without raising their versions.
  predicate IsRelease(step: SystemStep) {
    step.CancelNow? || step.FailNow? || step.WriteRelease?
  }

  // ---------- versions ----------

  // A row keeps its status, or takes an edge and a higher version. A release may cancel it under the same version, a
  // commit may take a released row out of its cancellation, and a late release may cancel it whatever its status.
  predicate RowAdvances(a: Assignment, b: Assignment, releasing: bool, reviving: bool, late: bool) {
    && b.relieves == a.relieves && b.guardian == a.guardian
    && a.version <= b.version
    && (b.version == a.version ==> b.status == a.status || (releasing && b.status.Cancelled?))
    && (b.status != a.status ==>
          Edge(a.status, b.status) || (reviving && a.status.Cancelled?) || (late && b.status.Cancelled?))
  }

  ghost predicate Advances(s: seq<Assignment>, t: seq<Assignment>, releasing: bool, reviving: bool, late: bool) {
    |s| <= |t| && forall i :: 0 <= i < |s| ==> RowAdvances(s[i], t[i], releasing, reviving, late)
  }

  // Whatever was read of a row is still its status while its version is the one read, unless it has been released.
  predicate StillTrue(s: seq<Assignment>, i: nat, read: Assignment, released: bool) {
    && i < |s|
    && read.relieves == s[i].relieves
    && read.version <= s[i].version
    && (read.version == s[i].version ==> read.status == s[i].status || (released && s[i].status.Cancelled?))
  }

  predicate TicketOk(s: seq<Assignment>, t: Ticket, released: bool) {
    && StillTrue(s, t.i, t.row, released)
    && Edge(t.row.status, Target(t.op))
    && (StaffedStatus(Target(t.op)) ==> StaffedStatus(t.row.status))
    && (t.op.OpHandoff? ==>
          && t.row.status.EnRoute? && t.row.relieves.Some? && t.original.Some?
          && t.original.value.status.AwaitingRelief? && t.row.relieves.value != t.i
          && StillTrue(s, t.row.relieves.value, t.original.value, released))
  }

  // `released` says whether releases have taken part so far.
  ghost predicate SystemInv(sys: System, released: bool) {
    forall k :: 0 <= k < |sys.tickets| ==> TicketOk(sys.world.assignments, sys.tickets[k], released)
  }

  lemma AdvancingKeepsTickets(
    s: seq<Assignment>, t: seq<Assignment>, ticket: Ticket, released: bool, reviving: bool, late: bool)
    requires Advances(s, t, released, reviving, late) && TicketOk(s, ticket, released)
    ensures TicketOk(t, ticket, released)
  {
  }

  lemma ReactionKeepsRows(w: World, t: Ticket)
    requires Reaction(w, t).Some?
    ensures Reaction(w, t).value.assignments == w.assignments
    ensures Reaction(w, t).value.job.requested == w.job.requested
  {
  }

  // The first half of a handoff: the row relieved still awaits relief, and is completed.
  function OriginalDone(w: World, t: Ticket): World
    requires t.row.relieves.Some? && t.row.relieves.value < |w.assignments|
  {
    var o := t.row.relieves.value;
    Put(w, o, Bump(w.assignments[o], Completed).(completedAt := Some(w.now)))
  }

  lemma OriginalLands(w: World, t: Ticket, released: bool)
    requires TicketOk(w.assignments, t, released) && t.op.OpHandoff?
    requires Fresh(w, t.row.relieves.value, t.original.value)
    ensures var a := w.assignments[t.row.relieves.value].status;
            a.AwaitingRelief? || (released && a.Cancelled?)
    ensures Advances(w.assignments, OriginalDone(w, t).assignments, false, released, false)
    ensures !released ==> Staffed(OriginalDone(w, t).assignments) == Staffed(w.assignments)
  {
    var o := t.row.relieves.value;
    CountUpdate(w.assignments, o, OriginalDone(w, t).assignments[o], IsStaffed);
  }

  lemma RowLands(w: World, t: Ticket, released: bool)
    requires StillTrue(w.assignments, t.i, t.row, released) && Fresh(w, t.i, t.row)
    requires Edge(t.row.status, Target(t.op))
    requires StaffedStatus(Target(t.op)) ==> StaffedStatus(t.row.status)
    ensures var a := w.assignments[t.i];
            var b := NewRow(t, a, w.now);
            && (a.status == t.row.status || (released && a.status.Cancelled?))
            && b.status == Target(t.op)
            && Advances(w.assignments, w.assignments[t.i := b], false, released, false)
            && (!released ==> Staffed(w.assignments[t.i := b]) <= Staffed(w.assignments))
  {
    CountUpdate(w.assignments, t.i, NewRow(t, w.assignments[t.i], w.now), IsStaffed);
  }

  /** No commit lands on a row whose status changed since it was read, a release apart. When one lands, every row it
  writes still had the status that was read, or has been released since; otherwise nothing changes at all. */
  lemma CommitLandsOnWhatWasRead(w: World, t: Ticket, released: bool)
    requires TicketOk(w.assignments, t, released)
    ensures Commit(w, t).reply.Done? ==>
              && t.i < |w.assignments|
              && (w.assignments[t.i].status == t.row.status || (released && w.assignments[t.i].status.Cancelled?))
              && Commit(w, t).world.assignments[t.i].status == Target(t.op)
    ensures Commit(w, t).reply.Done? && t.op.OpHandoff? ==>
              var o := t.row.relieves.value;
              && (w.assignments[o].status.AwaitingRelief? || (released && w.assignments[o].status.Cancelled?))
              && Commit(w, t).world.assignments[o].status.Completed?
    ensures !Commit(w, t).reply.Done? ==> Commit(w, t).world == w
    ensures Advances(w.assignments, Commit(w, t).world.assignments, false, released, false)
    ensures !released ==> Staffed(Commit(w, t).world.assignments) <= Staffed(w.assignments)
    ensures Commit(w, t).world.job.requested == w.job.requested
  {
    if Commit(w, t).reply.Done? {
      if t.op.OpHandoff? {
        OriginalLands(w, t, released);
        var w1 := OriginalDone(w, t);
        RowLands(w1, t, released);
        ReactionKeepsRows(Put(w1, t.i, NewRow(t, w1.assignments[t.i], w.now)), t);
      } else {
        RowLands(w, t, released);
        ReactionKeepsRows(Put(w, t.i, NewRow(t, w.assignments[t.i], w.now)), t);
      }
    }
  }

  // Accepting rewrites one row; when it fills the job it also cancels the ordinary offers, raising their versions.
  lemma AfterAcceptRows(w: World, seen: JobStatus)
    requires AfterAcceptSeen(w, seen).Some?
    ensures var w' := AfterAcceptSeen(w, seen).value;
            && w'.job.requested == w.job.requested
            && w'.assignments == (if !seen.SeekingReplacement? && FullyStaffed(w)
                                  then CancelWhere(w.assignments, IsPending, true) else w.assignments)
  {
  }

  lemma AcceptAdvances(w: World, i: nat, g: nat, seen: JobStatus)
    ensures Advances(w.assignments, AcceptSeen(w, i, g, seen).world.assignments, false, false, false)
    ensures AcceptSeen(w, i, g, seen).world.job.requested == w.job.requested
  {
    if AcceptSeen(w, i, g, seen).reply.Done? {
      AfterAcceptRows(Put(w, i, Bump(w.assignments[i], Accepted)), seen);
      var s, t := w.assignments, AcceptSeen(w, i, g, seen).world.assignments;
      forall k | 0 <= k < |s| ensures RowAdvances(s[k], t[k], false, false, false) {
        var r := s[i := Bump(s[i], Accepted)];
        assert IsPending(r[k]) ==> r[k].status.Offered?;
        assert t[k] == r[k] || (IsPending(r[k]) && t[k] == Bump(r[k], Cancelled));
      }
    }
  }

  lemma {:induction false} OffersAdvance(w: World, guardians: seq<nat>, relieving: Option<nat>)
    ensures Advances(w.assignments, CreateOffers(w, guardians, relieving).assignments, false, false, false)
    ensures Staffed(CreateOffers(w, guardians, relieving).assignments) == Staffed(w.assignments)
    ensures CreateOffers(w, guardians, relieving).job.requested == w.job.requested
    decreases |guardians|
  {
    if guardians != [] {
      var w1 := CreateOffer(w, guardians[0], relieving);
      CountAppend(w.assignments, w1.assignments[|w.assignments|], IsStaffed);
      OffersAdvance(w1, guardians[1..], relieving);
    }
  }

  lemma ReleasesAdvance(w: World, reason: FailureReason)
    ensures Advances(w.assignments, Cancel(w).world.assignments, true, false, false)
    ensures Advances(w.assignments, FailJob(w, reason).assignments, true, false, false)
    ensures Cancel(w).world.job.requested == w.job.requested == FailJob(w, reason).job.requested
  {
    if Cancel(w).reply.Done? {
      var t := ReleaseActive(ReleaseDeparting(ReleaseSubstitutes(ReleaseOffers(w))));
      ReleaseKeepsJob(w);
      assert Cancel(w).world.assignments == t.assignments;
      forall i | 0 <= i < |w.assignments| ensures RowAdvances(w.assignments[i], t.assignments[i], true, false, false) {
        CancelledRow(w, i);
      }
    }
    forall i | 0 <= i < |w.assignments|
      ensures RowAdvances(w.assignments[i], FailJob(w, reason).assignments[i], true, false, false)
    {
      assert IsOffer(w.assignments[i]) || !w.assignments[i].status.Offered?;
    }
  }

  lemma ReleaseKeepsJob(w: World)
    ensures var t := ReleaseActive(ReleaseDeparting(ReleaseSubstitutes(ReleaseOffers(w))));
            t.job == w.job && |t.assignments| == |w.assignments|
  {
  }

  lemma StepAdvances(sys: System, step: SystemStep, released: bool)
    requires SystemInv(sys, released)
    ensures Advances(sys.world.assignments, Perform(sys, step).world.assignments,
                     IsRelease(step), released && step.CommitTicket?, step.WriteRelease?)
    ensures Perform(sys, step).world.job.requested == sys.world.job.requested
  {
    match step
    case CommitTicket(k) =>
      if k < |sys.tickets| {
        CommitLandsOnWhatWasRead(sys.world, sys.tickets[k], released);
      }
    case AcceptNow(i, g, seen) => AcceptAdvances(sys.world, i, g, seen);
    case OfferBatch(guardians, o) => OffersAdvance(sys.world, guardians, o);
    case CancelNow => ReleasesAdvance(sys.world, DispatchTimeout);
    case FailNow(reason) => ReleasesAdvance(sys.world, reason);
    case _ =>
  }

  lemma BeginIsOk(sys: System, op: Op, i: nat, released: bool)
    requires SystemInv(sys, released)
    ensures SystemInv(Perform(sys, Begin(op, i)), released)
  {
  }

  lemma StepKeepsInv(sys: System, step: SystemStep, released: bool)
    requires SystemInv(sys, released) && (IsRelease(step) ==> released)
    ensures SystemInv(Perform(sys, step), released)
  {
    if step.Begin? {
      BeginIsOk(sys, step.op, step.i, released);
    } else {
      StepAdvances(sys, step, released);
      var sys' := Perform(sys, step);
      forall k | 0 <= k < |sys'.tickets| ensures TicketOk(sys'.world.assignments, sys'.tickets[k], released) {
        AdvancingKeepsTickets(sys.world.assignments, sys'.world.assignments, sys.tickets[k], released, released,
                              step.WriteRelease?);
      }
    }
  }

  /** Read and committed with nothing in between, followed by what the operation does in transactions of its own, an
  operation is its atomic step. */
  lemma UndisturbedIsAtomic(w: World, op: Op, i: nat, pool: Pool)
    requires i < |w.assignments| && MayBegin(op, w, i)
    ensures var g := w.assignments[i].guardian;
            var after := Commit(w, Perform(System(w, [], []), Begin(op, i)).tickets[0]).world;
            && (op.OpDecline? ==> Decline(w, i, g).world == if Paused(w) then after else Enqueue(after, w.now))
            && (op.OpExpire? ==> ExpireOffer(w, i, pool) == AfterExpiry(after, pool))
            && (op.OpEnRoute? ==> MarkEnRoute(w, i, g).world == after)
            && (op.OpArrive? || op.OpHandoff? ==> ArriveOnSite(w, i, g).world == after)
            && (op.OpRequestEarly? ==> RequestEarlyRelease(w, i, g).world == after)
            && (op.OpRejectEarly? ==> RejectEarlyRelease(w, i).world == after)
            && (op.OpRequestReplacement? ==> RequestReplacement(w, i, g).world == after)
            && (op.OpDenyReplacement? ==> DenyReplacement(w, i).world == after)
            && (op.OpApproveReplacement? ==> ApproveReplacement(w, i).world == Enqueue(after, w.now))
            && (op.OpComplete? ==> Complete(w, i, g) == Settle(after))
            && (op.OpNoShow? ==> ReportNoShow(w, i).world == after)
  {
  }

  // ---------- runs ----------

  ghost predicate Succeeds(ss: seq<System>, steps: seq<SystemStep>, k: nat)
    requires |ss| == |steps| + 1 && k < |steps|
  {
    ss[k + 1] == Perform(ss[k], steps[k])
  }

  // Any interleaving, from any state with nothing in flight.
  ghost predicate SystemRun(ss: seq<System>, steps: seq<SystemStep>) {
    && |ss| == |steps| + 1
    && ss[0].tickets == [] && ss[0].lists == []
    && forall k {:trigger Succeeds(ss, steps, k)} :: 0 <= k < |steps| ==> Succeeds(ss, steps, k)
  }

  ghost predicate NoRelease(steps: seq<SystemStep>) {
    forall j :: 0 <= j < |steps| ==> !IsRelease(steps[j])
  }

  lemma {:induction false} SystemRunInv(ss: seq<System>, steps: seq<SystemStep>, k: nat, released: bool)
    requires SystemRun(ss, steps) && k < |ss| && (!released ==> NoRelease(steps))
    ensures SystemInv(ss[k], released)
  {
    if 0 < k {
      SystemRunInv(ss, steps, k - 1, released);
      assert Succeeds(ss, steps, k - 1);
      StepKeepsInv(ss[k - 1], steps[k - 1], released);
    }
  }

  /** However reads, commits, accepts, rounds and releases interleave, every status change of every assignment is an edge
  of the table, or from offered to no-show, unless a commit takes a cancelled row or a release cancels a row it had read
  earlier; and it raises the version, unless a release cancels the row. Without releases there are no exceptions. */
  lemma EveryChangeIsAnEdge(ss: seq<System>, steps: seq<SystemStep>, k: nat)
    requires SystemRun(ss, steps) && k < |steps|
    ensures Advances(ss[k].world.assignments, ss[k + 1].world.assignments, IsRelease(steps[k]), steps[k].CommitTicket?,
                     steps[k].WriteRelease?)
    ensures NoRelease(steps) ==> Advances(ss[k].world.assignments, ss[k + 1].world.assignments, false, false, false)
  {
    assert Succeeds(ss, steps, k);
    SystemRunInv(ss, steps, k, true);
    StepAdvances(ss[k], steps[k], true);
    if NoRelease(steps) {
      SystemRunInv(ss, steps, k, false);
      StepAdvances(ss[k], steps[k], false);
    }
  }

  ghost predicate NoLateRelease(steps: seq<SystemStep>) {
    forall j :: 0 <= j < |steps| ==> !steps[j].WriteRelease?
  }

  /** Completed, declined, expired and no-show are never left in an interleaving whose releases read and write at once; and
  no terminal status is ever left in one without releases. */
  lemma {:induction false} TerminalIsForEver(ss: seq<System>, steps: seq<SystemStep>, k: nat, m: nat, i: nat)
    requires SystemRun(ss, steps) && k <= m < |ss| && NoLateRelease(steps)
    requires i < |ss[k].world.assignments| && Terminal(ss[k].world.assignments[i].status)
    requires ss[k].world.assignments[i].status.Cancelled? ==> NoRelease(steps)
    ensures i < |ss[m].world.assignments|
    ensures ss[m].world.assignments[i].status == ss[k].world.assignments[i].status
    decreases m - k
  {
    if k < m {
      TerminalIsForEver(ss, steps, k, m - 1, i);
      EveryChangeIsAnEdge(ss, steps, m - 1);
    }
  }

  // ---------- rows that come back after a release ----------

  // May a no-show be reported on a row that holds no slot?
  predicate NoShowAllowed(w: World, seen: JobStatus) {
    var status := w.job.status;
    if seen.SeekingReplacement? || seen.InProgress? then true
    else if FullyStaffed(w) then seen.Assigned? || Searching(status) || status.Assigned?
    else if seen.PartiallyAssigned? then true
    else if seen.Assigned? then Searching(status)
    else status.Assigned? || status.PartiallyAssigned? || status.InProgress? || status.Dispatching?
  }

  // Does the job, as it is now, let the commit through?
  predicate JobAllows(w: World, t: Ticket) {
    var status := w.job.status;
    match t.op
    case OpArrive => status.Assigned? || status.PartiallyAssigned? || status.InProgress?
    case OpApproveReplacement => status.InProgress? || status.SeekingReplacement?
    case OpHandoff => status.InProgress? || status.SeekingReplacement?
    case OpNoShow => NoShowAllowed(w, t.job.status)
    case _ => true
  }

  predicate Writes(t: Ticket, i: nat, read: Assignment) {
    (t.i == i && t.row == read) || (t.op.OpHandoff? && t.row.relieves == Some(i) && t.original == Some(read))
  }

  // The commit writes a cancelled row whose version is still the one read, and nothing else stands in its way.
  predicate Revives(w: World, t: Ticket, i: nat) {
    && i < |w.assignments| && w.assignments[i].status.Cancelled?
    && (t.i == i || (t.op.OpHandoff? && t.row.relieves == Some(i)))
    && Fresh(w, t.i, t.row)
    && (t.op.OpHandoff? ==> t.row.relieves.Some? && t.original.Some? && Fresh(w, t.row.relieves.value, t.original.value))
    && JobAllows(w, t)
  }

  // A no-show on a cancelled row leaves the counts alone, so the job's answer can be told beforehand.
  lemma ReactionForetold(w: World, w1: World, t: Ticket)
    requires w1 == w.(assignments := w1.assignments)
    requires t.op.OpNoShow? ==> Staffed(w1.assignments) == Staffed(w.assignments)
    ensures Reaction(w1, t).Some? <==> JobAllows(w, t)
  {
  }

  lemma ReactionKeepsRowsIfAny(w: World, t: Ticket)
    ensures Reaction(w, t).Some? ==> Reaction(w, t).value.assignments == w.assignments
  {
    if Reaction(w, t).Some? {
      ReactionKeepsRows(w, t);
    }
  }

  lemma PlainCommitRevives(w: World, t: Ticket, i: nat)
    requires TicketOk(w.assignments, t, true) && !t.op.OpHandoff?
    requires i < |w.assignments| && w.assignments[i].status.Cancelled?
    ensures !Commit(w, t).world.assignments[i].status.Cancelled? <==> Revives(w, t, i)
  {
    if Fresh(w, t.i, t.row) {
      var b := NewRow(t, w.assignments[t.i], w.now);
      var w1 := Put(w, t.i, b);
      ReactionKeepsRowsIfAny(w1, t);
      if t.i == i {
        CountUpdate(w.assignments, i, b, IsStaffed);
        ReactionForetold(w, w1, t);
      }
    }
  }

  lemma HandoffRevives(w: World, t: Ticket, i: nat)
    requires TicketOk(w.assignments, t, true) && t.op.OpHandoff?
    requires i < |w.assignments| && w.assignments[i].status.Cancelled?
    ensures !Commit(w, t).world.assignments[i].status.Cancelled? <==> Revives(w, t, i)
  {
    if Fresh(w, t.i, t.row) && Fresh(w, t.row.relieves.value, t.original.value) {
      var w1 := OriginalDone(w, t);
      var w2 := Put(w1, t.i, NewRow(t, w1.assignments[t.i], w.now));
      ReactionForetold(w, w2, t);
      ReactionKeepsRowsIfAny(w2, t);
    }
  }

  /** Exactly when a terminal status is left: a commit writes a cancelled row that still has the version that was read,
  every other row it writes is as it was read, and the job lets it through; or a release writes a row that was still at
  work when it was read. */
  lemma TerminalIsLeftExactly(ss: seq<System>, steps: seq<SystemStep>, k: nat, i: nat)
    requires SystemRun(ss, steps) && k < |steps|
    requires i < |ss[k].world.assignments| && Terminal(ss[k].world.assignments[i].status)
    ensures i < |ss[k + 1].world.assignments|
    ensures ss[k + 1].world.assignments[i].status != ss[k].world.assignments[i].status <==>
            || (&& steps[k].CommitTicket? && steps[k].k < |ss[k].tickets|
                && Revives(ss[k].world, ss[k].tickets[steps[k].k], i))
            || (&& steps[k].WriteRelease? && steps[k].k < |ss[k].lists| && i in ss[k].lists[steps[k].k]
                && !ss[k].world.assignments[i].status.Cancelled?)
  {
    EveryChangeIsAnEdge(ss, steps, k);
    assert Succeeds(ss, steps, k);
    if ss[k].world.assignments[i].status.Cancelled? && steps[k].CommitTicket? && steps[k].k < |ss[k].tickets| {
      SystemRunInv(ss, steps, k, true);
      var t := ss[k].tickets[steps[k].k];
      if t.op.OpHandoff? {
        HandoffRevives(ss[k].world, t, i);
      } else {
        PlainCommitRevives(ss[k].world, t, i);
      }
    }
  }

  /** What a release writes it has read earlier, and everyone on its list was at work or on the way then. */
  lemma {:induction false} ListWasRead(ss: seq<System>, steps: seq<SystemStep>, k: nat, n: nat, i: nat) returns (j: nat)
    requires SystemRun(ss, steps) && k < |ss| && n < |ss[k].lists| && i in ss[k].lists[n]
    ensures j < k && steps[j].ReadRelease? && i < |ss[j].world.assignments|
    ensures ActiveStatus(ss[j].world.assignments[i].status)
  {
    assert k != 0;
    assert Succeeds(ss, steps, k - 1);
    j := k - 1;
    if n < |ss[k - 1].lists| {
      j := ListWasRead(ss, steps, k - 1, n, i);
    }
  }

  /** So an officer who has completed can be cancelled: the cancellation had read the assignment while it was at work. */
  lemma CompletedIsCancelled(sys: System, i: nat)
    requires i < |sys.world.assignments| && sys.world.assignments[i].status.OnSite? && Ordinary(sys.world.assignments[i])
    ensures var s1 := Perform(sys, ReadRelease({i}));
            var s2 := Perform(s1, Begin(OpComplete, i));
            var s3 := Perform(s2, CommitTicket(|sys.tickets|));
            var s4 := Perform(s3, WriteRelease(|sys.lists|));
            && s3.world.assignments[i].status.Completed? && s4.world.assignments[i].status.Cancelled?
  {
    assert IsWorking(sys.world.assignments[i]);
  }

  ghost predicate ReleasedAt(ss: seq<System>, steps: seq<SystemStep>, j: nat, n: nat, i: nat, read: Assignment)
    requires |ss| == |steps| + 1
  {
    && j < |steps| && IsRelease(steps[j]) && n < |ss[j].tickets|
    && i < |ss[j].world.assignments| && i < |ss[j + 1].world.assignments|
    && ss[j].world.assignments[i].status == read.status && ss[j].world.assignments[i].version == read.version
    && ss[j + 1].world.assignments[i].status.Cancelled? && ss[j + 1].world.assignments[i].version == read.version
  }

  // One step back: the row was released by this step, or was released already.
  lemma OneStepBack(sys: System, step: SystemStep, n: nat, i: nat, read: Assignment)
    requires SystemInv(sys, true) && n < |sys.tickets| && Writes(sys.tickets[n], i, read)
    requires Fresh(Perform(sys, step).world, i, read) && Perform(sys, step).world.assignments[i].status.Cancelled?
    ensures Fresh(sys.world, i, read)
    ensures sys.world.assignments[i].status.Cancelled? ||
            (IsRelease(step) && sys.world.assignments[i].status == read.status)
  {
    assert TicketOk(sys.world.assignments, sys.tickets[n], true);
    StepAdvances(sys, step, true);
    assert RowAdvances(sys.world.assignments[i], Perform(sys, step).world.assignments[i],
                       IsRelease(step), step.CommitTicket?, step.WriteRelease?);
  }

  // What a step has just read is not cancelled.
  lemma JustRead(sys: System, step: SystemStep, n: nat, i: nat, read: Assignment)
    requires |sys.tickets| <= n < |Perform(sys, step).tickets| && Writes(Perform(sys, step).tickets[n], i, read)
    ensures i < |Perform(sys, step).world.assignments|
    ensures !Perform(sys, step).world.assignments[i].status.Cancelled?
  {
  }

  /** And such a row has been released since it was read: after the ticket was taken, a bulk release cancelled it under
  the very version that was read. */
  lemma {:induction false} RevivedRowWasReleased(
    ss: seq<System>, steps: seq<SystemStep>, k: nat, n: nat, i: nat, read: Assignment) returns (j: nat)
    requires SystemRun(ss, steps) && k < |ss| && n < |ss[k].tickets| && Writes(ss[k].tickets[n], i, read)
    requires Fresh(ss[k].world, i, read) && ss[k].world.assignments[i].status.Cancelled?
    ensures j < k && ReleasedAt(ss, steps, j, n, i, read)
  {
    assert k != 0;
    assert Succeeds(ss, steps, k - 1);
    SystemRunInv(ss, steps, k - 1, true);
    j := k - 1;
    if n < |ss[k - 1].tickets| {
      OneStepBack(ss[k - 1], steps[k - 1], n, i, read);
      if ss[k - 1].world.assignments[i].status.Cancelled? {
        j := RevivedRowWasReleased(ss, steps, k - 1, n, i, read);
      }
    } else {
      JustRead(ss[k - 1], steps[k - 1], n, i, read);
    }
  }

  /** So an officer can complete an assignment on a cancelled job: the completion was read before the job was cancelled,
  and the release did not raise the version. */
  lemma CancelledOfficerCompletes(sys: System, i: nat)
    requires i < |sys.world.assignments| && sys.world.job.status.InProgress?
    requires sys.world.assignments[i].status.OnSite? && Ordinary(sys.world.assignments[i])
    ensures var s1 := Perform(sys, Begin(OpComplete, i));
            var s2 := Perform(s1, CancelNow);
            var s3 := Perform(s2, CommitTicket(|sys.tickets|));
            && s2.world.assignments[i].status.Cancelled? && s2.world.job.status.JobCancelled?
            && s3.world.assignments[i].status.Completed? && s3.world.job.status.JobCancelled?
  {
    var w := sys.world;
    CancelledRow(w, i);
    ReleaseKeepsJob(w);
    assert IsWorking(w.assignments[i]);
  }

  // ---------- surplus offers ----------

  /** Whatever surplus of offers there is, an accept that did not see a replacement sought never takes the job past the
  number it asked for, and the accept that fills it leaves no ordinary offer open. */
  lemma AcceptNeverOversells(w: World, i: nat, g: nat, seen: JobStatus)
    requires !seen.SeekingReplacement?
    ensures var after := AcceptSeen(w, i, g, seen);
            && (Staffed(after.world.assignments) <= w.job.requested || after.world == w)
            && (after.reply.Done? && w.job.requested <= Staffed(after.world.assignments) ==>
                  PendingOffers(after.world.assignments) == 0)
  {
    if AcceptSeen(w, i, g, seen).reply.Done? {
      var b := Bump(w.assignments[i], Accepted);
      CountUpdate(w.assignments, i, b, IsStaffed);
      AfterAcceptRows(Put(w, i, b), seen);
      CancelledOffers(w.assignments[i := b]);
    }
  }

  /** Exactly which accept oversells a job that is not oversold yet: one of a live ordinary offer, on a job whose slots
  are all taken, that saw a replacement sought when it read the job, so that the count was not checked. */
  lemma AcceptOversellsExactly(w: World, i: nat, g: nat, seen: JobStatus)
    requires Staffed(w.assignments) <= w.job.requested
    ensures w.job.requested < Staffed(AcceptSeen(w, i, g, seen).world.assignments) <==>
              && Acceptable(w, i, g) && Ordinary(w.assignments[i])
              && Staffed(w.assignments) == w.job.requested && seen.SeekingReplacement?
  {
    if !seen.SeekingReplacement? {
      AcceptNeverOversells(w, i, g, seen);
    } else if Acceptable(w, i, g) {
      CountUpdate(w.assignments, i, Bump(w.assignments[i], Accepted), IsStaffed);
    }
  }

  lemma CancelledOffers(s: seq<Assignment>)
    ensures Staffed(CancelWhere(s, IsPending, true)) == Staffed(s)
    ensures PendingOffers(CancelWhere(s, IsPending, true)) == 0
  {
    var t := CancelWhere(s, IsPending, true);
    assert forall i :: 0 <= i < |s| ==> t[i] == if IsPending(s[i]) then Bump(s[i], Cancelled) else s[i];
    CountMonotone(s, t, IsStaffed, IsStaffed);
    CountMonotone(t, s, IsStaffed, IsStaffed);
    CountZero(t, IsPending);
  }

  predicate AcceptsOnlyOrdinarily(step: SystemStep) {
    step.AcceptNow? ==> !step.seen.SeekingReplacement?
  }

  lemma StepNeverOversells(sys: System, step: SystemStep)
    requires SystemInv(sys, false) && AcceptsOnlyOrdinarily(step) && !IsRelease(step)
    requires Staffed(sys.world.assignments) <= sys.world.job.requested
    ensures Staffed(Perform(sys, step).world.assignments) <= sys.world.job.requested
  {
    match step
    case CommitTicket(k) =>
      if k < |sys.tickets| {
        CommitLandsOnWhatWasRead(sys.world, sys.tickets[k], false);
      }
    case AcceptNow(i, g, seen) => AcceptNeverOversells(sys.world, i, g, seen);
    case OfferBatch(guardians, o) => OffersAdvance(sys.world, guardians, o);
    case ResolveEarly(i, r) =>
      if i < |sys.world.assignments| {
        CountUpdate(sys.world.assignments, i, sys.world.assignments[i].(earlyResolution := Some(r)), IsStaffed);
      }
    case _ =>
  }

  /** So over any interleaving without releases in which no accept saw a replacement sought, the job is never oversold,
  however many surplus offers racing dispatch rounds create. */
  lemma {:induction false} NeverOversold(ss: seq<System>, steps: seq<SystemStep>, k: nat)
    requires SystemRun(ss, steps) && k < |ss| && NoRelease(steps)
    requires Staffed(ss[0].world.assignments) <= ss[0].world.job.requested
    requires forall j :: 0 <= j < |steps| ==> AcceptsOnlyOrdinarily(steps[j])
    ensures Staffed(ss[k].world.assignments) <= ss[k].world.job.requested
  {
    if 0 < k {
      NeverOversold(ss, steps, k - 1);
      SystemRunInv(ss, steps, k - 1, false);
      assert Succeeds(ss, steps, k - 1);
      StepAdvances(ss[k - 1], steps[k - 1], false);
      StepNeverOversells(ss[k - 1], steps[k - 1]);
    }
  }

  // ---------- racing approvals ----------

  // At most one assignment awaits relief, and one does just when a replacement is sought.
  ghost predicate OneRelief(w: World) {
    && (forall i, j :: 0 <= i < j < |w.assignments| ==>
          !(w.assignments[i].status.AwaitingRelief? && w.assignments[j].status.AwaitingRelief?))
    && (w.job.status.SeekingReplacement? <==>
          exists i :: 0 <= i < |w.assignments| && w.assignments[i].status.AwaitingRelief?)
  }

  /** The approval's job transition is silent when the job is already seeking a replacement, so an approval read while the
  job was in progress still commits after another one has: exactly the approvals that commit while no replacement is
  sought leave one officer awaiting relief. */
  lemma ApprovalKeepsOneReliefExactly(w: World, t: Ticket)
    requires TicketOk(w.assignments, t, true) && t.op.OpApproveReplacement? && t.row.status.ReplacementRequested?
    requires OneRelief(w) && Fresh(w, t.i, t.row)
    ensures OneRelief(Commit(w, t).world) <==> !w.job.status.SeekingReplacement?
  {
    var w' := Commit(w, t).world;
    if w.job.status.SeekingReplacement? {
      var d :| 0 <= d < |w.assignments| && w.assignments[d].status.AwaitingRelief?;
      assert w'.assignments[d].status.AwaitingRelief? && w'.assignments[t.i].status.AwaitingRelief?;
    } else if w.job.status.InProgress? {
      assert w'.assignments[t.i].status.AwaitingRelief?;
    }
  }

  /** Two approvals read together and committed one after the other: both are done, and two officers await relief. */
  lemma RacingApprovals(w: World, i: nat, j: nat)
    requires i < j < |w.assignments| && w.job.status.InProgress?
    requires w.assignments[i].status.ReplacementRequested? && w.assignments[j].status.ReplacementRequested?
    ensures var s2 := Perform(Perform(System(w, [], []), Begin(OpApproveReplacement, i)), Begin(OpApproveReplacement, j));
            var s3 := Perform(s2, CommitTicket(0));
            var s4 := Perform(s3, CommitTicket(1));
            && Commit(s2.world, s2.tickets[0]).reply.Done? && Commit(s3.world, s3.tickets[1]).reply.Done?
            && s4.world.assignments[i].status.AwaitingRelief? && s4.world.assignments[j].status.AwaitingRelief?
            && s4.world.job.departing == Some(j)
  {
  }

  // ---------- late resolutions ----------

  // An approved early release is held only while requested, or after completion or cancellation.
  ghost predicate ApprovalsInPlace(s: seq<Assignment>) {
    forall i :: 0 <= i < |s| && IsApproved(s[i].earlyResolution) ==>
      s[i].status.EarlyReleaseRequested? || s[i].status.Completed? || s[i].status.Cancelled?
  }

  /** Approving an early release checks the status when it reads and no version when it writes: it keeps approvals in place
  if and only if the early release is still requested, or the assignment over, when it writes. */
  lemma ResolutionKeepsExactly(sys: System, i: nat, resolution: EarlyReleaseResolution)
    requires ApprovalsInPlace(sys.world.assignments) && i < |sys.world.assignments|
    ensures ApprovalsInPlace(Perform(sys, ResolveEarly(i, resolution)).world.assignments) <==>
            var status := sys.world.assignments[i].status;
            resolution.EarlyRejected? || status.EarlyReleaseRequested? || status.Completed? || status.Cancelled?
  {
    var s := sys.world.assignments;
    var t := Perform(sys, ResolveEarly(i, resolution)).world.assignments;
    assert t[i] == s[i].(earlyResolution := Some(resolution));
    assert forall k :: 0 <= k < |s| && k != i ==> t[k] == s[k];
  }

  /** And a late one does land: wherever an early release is requested, a rejection that commits between the check of an
  approval and its write puts the officer back on site, and the approval then stands on the row. */
  lemma LateApprovalLands(sys: System, i: nat)
    requires i < |sys.world.assignments| && sys.world.assignments[i].status.EarlyReleaseRequested?
    ensures var s1 := Perform(sys, Begin(OpRejectEarly, i));
            var s2 := Perform(s1, CommitTicket(|sys.tickets|));
            var s3 := Perform(s2, ResolveEarly(i, EarlyApproved));
            && s3.world.assignments[i].status.OnSite? && IsApproved(s3.world.assignments[i].earlyResolution)
  {
  }
}
