/** Interleavings from a new job in which what the atomic protocol rules out does happen: a job oversold, a cancelled
officer who completes, a completed one who is cancelled, two officers who await relief at once.

They are built by stages, as the runs of `Relief` are. A stage is a list of steps, most of them a read and its commit
(`Carried`), with a lemma that says what it leaves; what is late in a race is read in one stage and written in another. */
module Races {
  import opened Domain
  import opened Counting
  import opened Protocol
  import opened Interleaving
  import Folding

  // The state after performing the steps in order.
  function After(sys: System, steps: seq<SystemStep>): System {
    Folding.After(Perform, sys, steps)
  }

  lemma {:induction false} AfterIsRun(sys: System, steps: seq<SystemStep>) returns (ss: seq<System>)
    requires sys.tickets == [] && sys.lists == []
    ensures SystemRun(ss, steps) && ss[0] == sys && ss[|steps|] == After(sys, steps)
  {
    if steps == [] {
      ss := [sys];
    } else {
      var n := |steps| - 1;
      var front := AfterIsRun(sys, steps[..n]);
      ss := front + [After(sys, steps)];
      forall k | 0 <= k < |steps| ensures Succeeds(ss, steps, k) {
        assert k < n ==> Succeeds(front, steps[..n], k);
      }
    }
  }

  // The steps that carry one operation out, read and commit, when `n` tickets have been taken before.
  function Carried(op: Op, i: nat, n: nat): seq<SystemStep> {
    [Begin(op, i), CommitTicket(n)]
  }

  lemma CarriedOut(sys: System, op: Op, i: nat)
    requires i < |sys.world.assignments| && MayBegin(op, sys.world, i) && !op.OpHandoff?
    ensures var t := Ticket(op, i, sys.world.assignments[i], sys.world.job, None);
            After(sys, Carried(op, i, |sys.tickets|)) == System(Commit(sys.world, t).world, sys.tickets + [t], sys.lists)
  {
    Folding.Two(Perform, sys, Begin(op, i), CommitTicket(|sys.tickets|));
  }

  // ---------- overselling ----------

  // One slot, filled; a round that counted before it was filled then offers it once more.
  function LateOffer(): seq<SystemStep> {
    [OfferBatch([0], None), AcceptNow(0, 0, Pending), OfferBatch([1], None)]
  }

  function FirstOffer(w: World): Assignment {
    Assignment(0, 1, Offered, 1, None, w.now + w.cfg.offerTtl, None, None, None, None, None)
  }

  // Accepting the only offer fills the only slot.
  lemma OnlyOfferAccepted(w: World)
    requires Searching(w.job.status) && w.job.requested == 1 && w.assignments == [FirstOffer(w)]
    ensures var after := AcceptSeen(w, 0, 0, Pending).world;
            && after.assignments == [Bump(FirstOffer(w), Accepted)]
            && after.job == w.job.(status := Assigned) && after.now == w.now
  {
    var a := FirstOffer(w);
    var b := Bump(a, Accepted);
    var w1 := Put(w, 0, b);
    CountSingle(a, IsStaffed);
    CountSingle(b, IsStaffed);
    assert w1.assignments == [b];
    assert RemainingSlots(w1) == 0;
    NothingToCancel(b);
    assert AfterAcceptSeen(w1, Pending).Some?;
  }

  lemma NothingToCancel(a: Assignment)
    requires !IsPending(a)
    ensures CancelWhere([a], IsPending, true) == [a]
  {
  }

  lemma LateOfferLeft(w: World)
    requires Initial(w) && w.job.requested == 1
    ensures var sys := After(System(w, [], []), LateOffer());
            var s := sys.world.assignments;
            && sys.tickets == [] && |s| == 2 && sys.world.job.requested == 1 && sys.world.now == w.now
            && sys.world.job.status.Assigned?
            && s[0].status.Accepted? && Ordinary(s[0])
            && s[1].status.Offered? && Ordinary(s[1]) && s[1].guardian == 1 && w.now <= s[1].expiresAt
  {
    var sys := System(w, [], []);
    var o, a := OfferBatch([0], None), AcceptNow(0, 0, Pending);
    Folding.OneMore(Perform, sys, [], o);
    Folding.OneMore(Perform, sys, [o], a);
    Folding.OneMore(Perform, sys, [o, a], OfferBatch([1], None));
    assert [] + [o] == [o] && [o] + [a] == [o, a] && [o, a] + [OfferBatch([1], None)] == LateOffer();
    OfferOne(w, 0);
    var w1 := CreateOffer(w, 0, None);
    OnlyOfferAccepted(w1);
    OfferOne(AcceptSeen(w1, 0, 0, Pending).world, 1);
  }

  lemma OfferOne(w: World, g: nat)
    ensures CreateOffers(w, [g], None) == CreateOffer(w, g, None)
  {
    assert [g][1..] == [];
  }

  // The officer on the slot arrives, and is then approved for relief.
  function Arrival(): seq<SystemStep> {
    Carried(OpEnRoute, 0, 0) + Carried(OpArrive, 0, 1)
  }

  function Departure(): seq<SystemStep> {
    Carried(OpRequestReplacement, 0, 2) + Carried(OpApproveReplacement, 0, 3)
  }

  // Row 0 belongs to an ordinary officer in this status; row 1 and the number asked for are as given.
  predicate Standing(sys: System, tickets: nat, status: AssignmentStatus, w: World) {
    && |sys.tickets| == tickets && |sys.world.assignments| == |w.assignments| == 2
    && sys.world.assignments[0].status == status && Ordinary(sys.world.assignments[0])
    && sys.world.assignments[1] == w.assignments[1]
    && sys.world.job.requested == w.job.requested && sys.world.now == w.now
  }

  lemma Arrives(sys: System, w: World)
    requires Standing(sys, 0, Accepted, w) && sys.world.job.status.Assigned?
    ensures var t := After(sys, Arrival());
            Standing(t, 2, OnSite, w) && t.world.job.status.InProgress?
  {
    CarriedOut(sys, OpEnRoute, 0);
    var s1 := After(sys, Carried(OpEnRoute, 0, 0));
    assert Standing(s1, 1, EnRoute, w) && s1.world.job.status.Assigned?;
    CarriedOut(s1, OpArrive, 0);
    Folding.AfterBoth(Perform, sys, Carried(OpEnRoute, 0, 0), Carried(OpArrive, 0, 1));
  }

  lemma Departs(sys: System, w: World)
    requires Standing(sys, 2, OnSite, w) && sys.world.job.status.InProgress?
    ensures var t := After(sys, Departure());
            Standing(t, 4, AwaitingRelief, w) && t.world.job.status.SeekingReplacement?
  {
    CarriedOut(sys, OpRequestReplacement, 0);
    var s1 := After(sys, Carried(OpRequestReplacement, 0, 2));
    assert Standing(s1, 3, ReplacementRequested, w) && s1.world.job.status.InProgress?;
    CarriedOut(s1, OpApproveReplacement, 0);
    Folding.AfterBoth(Perform, sys, Carried(OpRequestReplacement, 0, 2), Carried(OpApproveReplacement, 0, 3));
  }

  lemma LateAccept(w: World)
    requires |w.assignments| == 2 && w.job.status.SeekingReplacement?
    requires w.assignments[0].status.AwaitingRelief? && Ordinary(w.assignments[0])
    requires Ordinary(w.assignments[1]) && Acceptable(w, 1, 1)
    ensures Staffed(w.assignments) == 1
    ensures Staffed(AcceptSeen(w, 1, 1, w.job.status).world.assignments) == 2
    ensures AcceptSeen(w, 1, 1, w.job.status).world.job == w.job
  {
    var s := w.assignments;
    assert s == [s[0]] + [s[1]] && [s[0]] == [] + [s[0]];
    CountAppend([s[0]], s[1], IsStaffed);
    CountAppend([], s[0], IsStaffed);
    CountUpdate(s, 1, Bump(s[1], Accepted), IsStaffed);
  }

  function Oversale(): seq<SystemStep> {
    LateOffer() + Arrival() + Departure()
  }

  lemma OversaleReady(w: World)
    requires Initial(w) && w.job.requested == 1
    ensures var t := After(System(w, [], []), Oversale()).world;
            && |t.assignments| == 2 && t.job.status.SeekingReplacement? && t.job.requested == 1
            && t.assignments[0].status.AwaitingRelief? && Ordinary(t.assignments[0])
            && Ordinary(t.assignments[1]) && Acceptable(t, 1, 1)
  {
    var sys := System(w, [], []);
    LateOfferLeft(w);
    var s1 := After(sys, LateOffer());
    Arrives(s1, s1.world);
    Folding.AfterBoth(Perform, sys, LateOffer(), Arrival());
    Departs(After(s1, Arrival()), s1.world);
    Folding.AfterBoth(Perform, sys, LateOffer() + Arrival(), Departure());
  }

  lemma Oversold(w: World)
    requires Initial(w) && w.job.requested == 1
    ensures var sys := System(w, [], []);
            var t := After(sys, Oversale()).world;
            var u := After(sys, Oversale() + [AcceptNow(1, 1, SeekingReplacement)]).world;
            && t.job.status.SeekingReplacement? && Staffed(t.assignments) == 1
            && Staffed(u.assignments) == 2 && u.job.requested == 1
  {
    OversaleReady(w);
    LateAccept(After(System(w, [], []), Oversale()).world);
    Folding.OneMore(Perform, System(w, [], []), Oversale(), AcceptNow(1, 1, SeekingReplacement));
  }

  /** From every new one-slot job there is an interleaving, without a release and without a stale read of the job's
  status, that oversells it: a late round leaves an ordinary offer open, and it is accepted while the officer on the
  slot waits for relief. */
  lemma NewJobCanBeOversold(w: World) returns (ss: seq<System>, steps: seq<SystemStep>)
    requires Initial(w) && w.job.requested == 1
    ensures SystemRun(ss, steps) && NoRelease(steps) && ss[0] == System(w, [], [])
    ensures var n := |steps|;
            && 0 < n && steps[n - 1] == AcceptNow(1, 1, ss[n - 1].world.job.status)
            && Staffed(ss[n - 1].world.assignments) == 1 && Staffed(ss[n].world.assignments) == 2
            && ss[n].world.job.requested == 1
  {
    var n := |Oversale()|;
    steps := Oversale() + [AcceptNow(1, 1, SeekingReplacement)];
    assert steps[..n] == Oversale();
    Oversold(w);
    NoneReleases();
    ss := AfterIsRun(System(w, [], []), steps);
    Prefix(ss, steps, n);
  }

  lemma NoneReleases()
    ensures NoRelease(Oversale() + [AcceptNow(1, 1, SeekingReplacement)])
  {
  }

  /** And from every new one-slot job there is an interleaving in which an assignment is completed after the job, and the
  assignment with it, has been cancelled. */
  lemma CancelledCanComplete(w: World) returns (ss: seq<System>, steps: seq<SystemStep>)
    requires Initial(w) && w.job.requested == 1
    ensures SystemRun(ss, steps) && ss[0] == System(w, [], [])
    ensures var n := |steps|;
            && 0 < n && |ss[n - 1].world.assignments| == |ss[n].world.assignments| == 2
            && ss[n - 1].world.assignments[0].status.Cancelled? && ss[n].world.assignments[0].status.Completed?
            && ss[n].world.job.status.JobCancelled?
  {
    var sys := System(w, [], []);
    var before := LateOffer() + Arrival();
    var b, c, t := Begin(OpComplete, 0), CancelNow, CommitTicket(2);
    steps := before + [b] + [c] + [t];
    LateOfferLeft(w);
    var s1 := After(sys, LateOffer());
    Arrives(s1, s1.world);
    Folding.AfterBoth(Perform, sys, LateOffer(), Arrival());
    var s2 := After(sys, before);
    CancelledOfficerCompletes(s2, 0);
    Folding.OneMore(Perform, sys, before, b);
    Folding.OneMore(Perform, sys, before + [b], c);
    Folding.OneMore(Perform, sys, before + [b] + [c], t);
    ss := AfterIsRun(sys, steps);
    var n := |steps| - 1;
    assert steps[..n] == before + [b] + [c];
    Prefix(ss, steps, n);
    SameRows(s2);
  }

  lemma SameRows(sys: System)
    requires |sys.tickets| == 2 && 0 < |sys.world.assignments|
    ensures var s2 := Perform(Perform(sys, Begin(OpComplete, 0)), CancelNow);
            && |s2.world.assignments| == |sys.world.assignments|
            && |Perform(s2, CommitTicket(2)).world.assignments| == |sys.world.assignments|
  {
    var s1 := Perform(sys, Begin(OpComplete, 0));
    var s2 := Perform(s1, CancelNow);
    ReleaseKeepsJob(sys.world);
    if 2 < |s1.tickets| {
      assert s2.tickets[2] == Ticket(OpComplete, 0, sys.world.assignments[0], sys.world.job, None);
    }
  }

  // ---------- racing approvals ----------

  // Two ordinary officers of a two-slot job, with these statuses.
  predicate Pair(sys: System, tickets: nat, a: AssignmentStatus, b: AssignmentStatus, job: JobStatus) {
    && |sys.tickets| == tickets && |sys.world.assignments| == 2 && sys.world.job.status == job
    && sys.world.assignments[0].status == a && Ordinary(sys.world.assignments[0])
    && sys.world.assignments[1].status == b && Ordinary(sys.world.assignments[1])
  }

  function BothAccept(): seq<SystemStep> {
    [OfferBatch([0], None), OfferBatch([1], None)] + [AcceptNow(0, 0, Pending), AcceptNow(1, 1, Pending)]
  }

  lemma BothOffered(w: World)
    requires Initial(w) && w.job.requested == 2
    ensures var t := After(System(w, [], []), [OfferBatch([0], None), OfferBatch([1], None)]);
            && Pair(t, 0, Offered, Offered, Pending) && t.world.job.requested == 2
            && Acceptable(t.world, 0, 0) && Acceptable(t.world, 1, 1)
  {
    var sys := System(w, [], []);
    Folding.Two(Perform, sys, OfferBatch([0], None), OfferBatch([1], None));
    OfferOne(w, 0);
    OfferOne(CreateOffer(w, 0, None), 1);
  }

  lemma FirstOfTwo(w: World)
    requires |w.assignments| == 2 && w.job.status.Pending? && w.job.requested == 2
    requires IsPending(w.assignments[0]) && IsPending(w.assignments[1]) && Acceptable(w, 0, 0) && Acceptable(w, 1, 1)
    ensures var t := AcceptSeen(w, 0, 0, Pending).world;
            && t.assignments == w.assignments[0 := Bump(w.assignments[0], Accepted)]
            && t.job == w.job.(status := PartiallyAssigned) && t.now == w.now
  {
    var a, b := w.assignments[0], w.assignments[1];
    var a' := Bump(a, Accepted);
    assert w.assignments == [a, b] && [a, b][0 := a'] == [a', b];
    CountPair(a, b, IsStaffed);
    CountPair(a', b, IsStaffed);
    CountPair(a', b, IsPending);
  }

  lemma SecondOfTwo(w: World)
    requires |w.assignments| == 2 && w.job.status.PartiallyAssigned? && w.job.requested == 2
    requires IsStaffed(w.assignments[0]) && IsPending(w.assignments[1]) && Acceptable(w, 1, 1)
    ensures var t := AcceptSeen(w, 1, 1, Pending).world;
            && t.assignments == w.assignments[1 := Bump(w.assignments[1], Accepted)]
            && t.job == w.job.(status := Assigned)
  {
    var a, b := w.assignments[0], w.assignments[1];
    var b' := Bump(b, Accepted);
    assert w.assignments == [a, b] && [a, b][1 := b'] == [a, b'];
    CountPair(a, b, IsStaffed);
    CountPair(a, b', IsStaffed);
    assert !IsPending(a) && !IsPending(b');
    assert CancelWhere([a, b'], IsPending, true) == [a, b'];
  }

  lemma BothAccepted(w: World)
    requires Initial(w) && w.job.requested == 2
    ensures Pair(After(System(w, [], []), BothAccept()), 0, Accepted, Accepted, Assigned)
  {
    var sys := System(w, [], []);
    var offers := [OfferBatch([0], None), OfferBatch([1], None)];
    BothOffered(w);
    var s1 := After(sys, offers);
    FirstOfTwo(s1.world);
    SecondOfTwo(AcceptSeen(s1.world, 0, 0, Pending).world);
    Folding.Two(Perform, s1, AcceptNow(0, 0, Pending), AcceptNow(1, 1, Pending));
    Folding.AfterBoth(Perform, sys, offers, [AcceptNow(0, 0, Pending), AcceptNow(1, 1, Pending)]);
  }

  // One of the two carries an operation out; only its own status changes, and arriving puts the job in progress.
  lemma OneMoves(sys: System, n: nat, a: AssignmentStatus, b: AssignmentStatus, job: JobStatus, op: Op, i: nat)
    requires Pair(sys, n, a, b, job) && i < 2 && MayBegin(op, sys.world, i)
    requires op.OpEnRoute? || op.OpRequestReplacement? || (op.OpArrive? && (job.Assigned? || job.InProgress?))
    ensures Pair(After(sys, Carried(op, i, n)), n + 1, if i == 0 then Target(op) else a,
                 if i == 1 then Target(op) else b, if op.OpArrive? then InProgress else job)
  {
    CarriedOut(sys, op, i);
  }

  function BothTravel(): seq<SystemStep> {
    Carried(OpEnRoute, 0, 0) + Carried(OpEnRoute, 1, 1)
  }

  lemma BothOnTheWay(sys: System)
    requires Pair(sys, 0, Accepted, Accepted, Assigned)
    ensures Pair(After(sys, BothTravel()), 2, EnRoute, EnRoute, Assigned)
  {
    OneMoves(sys, 0, Accepted, Accepted, Assigned, OpEnRoute, 0);
    OneMoves(After(sys, Carried(OpEnRoute, 0, 0)), 1, EnRoute, Accepted, Assigned, OpEnRoute, 1);
    Folding.AfterBoth(Perform, sys, Carried(OpEnRoute, 0, 0), Carried(OpEnRoute, 1, 1));
  }

  function BothArrive(): seq<SystemStep> {
    Carried(OpArrive, 0, 2) + Carried(OpArrive, 1, 3)
  }

  lemma BothArrived(sys: System)
    requires Pair(sys, 2, EnRoute, EnRoute, Assigned)
    ensures Pair(After(sys, BothArrive()), 4, OnSite, OnSite, InProgress)
  {
    OneMoves(sys, 2, EnRoute, EnRoute, Assigned, OpArrive, 0);
    OneMoves(After(sys, Carried(OpArrive, 0, 2)), 3, OnSite, EnRoute, InProgress, OpArrive, 1);
    Folding.AfterBoth(Perform, sys, Carried(OpArrive, 0, 2), Carried(OpArrive, 1, 3));
  }

  function BothAsk(): seq<SystemStep> {
    Carried(OpRequestReplacement, 0, 4) + Carried(OpRequestReplacement, 1, 5)
  }

  lemma BothAsked(sys: System)
    requires Pair(sys, 4, OnSite, OnSite, InProgress)
    ensures Pair(After(sys, BothAsk()), 6, ReplacementRequested, ReplacementRequested, InProgress)
  {
    OneMoves(sys, 4, OnSite, OnSite, InProgress, OpRequestReplacement, 0);
    var s1 := After(sys, Carried(OpRequestReplacement, 0, 4));
    OneMoves(s1, 5, ReplacementRequested, OnSite, InProgress, OpRequestReplacement, 1);
    Folding.AfterBoth(Perform, sys, Carried(OpRequestReplacement, 0, 4), Carried(OpRequestReplacement, 1, 5));
  }

  function BothApprove(): seq<SystemStep> {
    [Begin(OpApproveReplacement, 0), Begin(OpApproveReplacement, 1)] + [CommitTicket(6), CommitTicket(7)]
  }

  lemma BothBegun(sys: System)
    requires Pair(sys, 6, ReplacementRequested, ReplacementRequested, InProgress)
    ensures var t := After(sys, [Begin(OpApproveReplacement, 0), Begin(OpApproveReplacement, 1)]);
            && Pair(t, 8, ReplacementRequested, ReplacementRequested, InProgress) && t.world == sys.world
            && t.tickets[6] == TicketFor(OpApproveReplacement, sys.world, 0)
            && t.tickets[7] == TicketFor(OpApproveReplacement, sys.world, 1)
  {
    Folding.Two(Perform, sys, Begin(OpApproveReplacement, 0), Begin(OpApproveReplacement, 1));
  }

  // What a call reads when it begins.
  function TicketFor(op: Op, w: World, i: nat): Ticket
    requires i < |w.assignments|
  {
    Ticket(op, i, w.assignments[i], w.job, None)
  }

  lemma BothApproved(sys: System)
    requires Pair(sys, 6, ReplacementRequested, ReplacementRequested, InProgress)
    ensures Pair(After(sys, BothApprove()), 8, AwaitingRelief, AwaitingRelief, SeekingReplacement)
  {
    var begins := [Begin(OpApproveReplacement, 0), Begin(OpApproveReplacement, 1)];
    BothBegun(sys);
    var s1 := After(sys, begins);
    Folding.Two(Perform, s1, CommitTicket(6), CommitTicket(7));
    Folding.AfterBoth(Perform, sys, begins, [CommitTicket(6), CommitTicket(7)]);
  }

  function PairAtWork(): seq<SystemStep> {
    BothAccept() + (BothTravel() + BothArrive())
  }

  lemma PairIsAtWork(w: World)
    requires Initial(w) && w.job.requested == 2
    ensures Pair(After(System(w, [], []), PairAtWork()), 4, OnSite, OnSite, InProgress)
  {
    var sys := System(w, [], []);
    BothAccepted(w);
    var s1 := After(sys, BothAccept());
    BothOnTheWay(s1);
    BothArrived(After(s1, BothTravel()));
    Folding.AfterBoth(Perform, s1, BothTravel(), BothArrive());
    Folding.AfterBoth(Perform, sys, BothAccept(), BothTravel() + BothArrive());
  }

  lemma BothLeave(sys: System)
    requires Pair(sys, 4, OnSite, OnSite, InProgress)
    ensures Pair(After(sys, BothAsk() + BothApprove()), 8, AwaitingRelief, AwaitingRelief, SeekingReplacement)
  {
    BothAsked(sys);
    BothApproved(After(sys, BothAsk()));
    Folding.AfterBoth(Perform, sys, BothAsk(), BothApprove());
  }

  lemma NoneOfTheseReleases()
    ensures NoRelease(PairAtWork() + (BothAsk() + BothApprove()))
  {
    assert NoRelease(BothAccept()) && NoRelease(BothTravel()) && NoRelease(BothArrive());
    assert NoRelease(BothAsk()) && NoRelease(BothApprove());
  }

  /** From every new two-slot job an interleaving, without a release, after which two officers await relief. */
  lemma TwoAwaitRelief(w: World) returns (ss: seq<System>, steps: seq<SystemStep>)
    requires Initial(w) && w.job.requested == 2
    ensures SystemRun(ss, steps) && NoRelease(steps) && ss[0] == System(w, [], [])
    ensures Pair(ss[|steps|], 8, AwaitingRelief, AwaitingRelief, SeekingReplacement)
  {
    var sys := System(w, [], []);
    PairIsAtWork(w);
    BothLeave(After(sys, PairAtWork()));
    Folding.AfterBoth(Perform, sys, PairAtWork(), BothAsk() + BothApprove());
    NoneOfTheseReleases();
    steps := PairAtWork() + (BothAsk() + BothApprove());
    ss := AfterIsRun(sys, steps);
  }

  // ---------- completed, and then cancelled ----------

  /** From every new one-slot job an interleaving in which a completed assignment is cancelled, by a release that had read
  it at work. */
  lemma CompletedCanBeCancelled(w: World) returns (ss: seq<System>, steps: seq<SystemStep>)
    requires Initial(w) && w.job.requested == 1
    ensures SystemRun(ss, steps) && ss[0] == System(w, [], [])
    ensures var n := |steps|;
            && 0 < n && |ss[n - 1].world.assignments| == |ss[n].world.assignments| == 2
            && ss[n - 1].world.assignments[0].status.Completed? && ss[n].world.assignments[0].status.Cancelled?
  {
    var sys := System(w, [], []);
    var before := LateOffer() + Arrival();
    var r, b, c, t := ReadRelease({0}), Begin(OpComplete, 0), CommitTicket(2), WriteRelease(0);
    LateOfferLeft(w);
    var s1 := After(sys, LateOffer());
    Arrives(s1, s1.world);
    Folding.AfterBoth(Perform, sys, LateOffer(), Arrival());
    var s2 := After(sys, before);
    NoLists(sys);
    CompletedIsCancelled(s2, 0);
    StillTwo(s2);
    Folding.OneMore(Perform, sys, before, r);
    Folding.OneMore(Perform, sys, before + [r], b);
    Folding.OneMore(Perform, sys, before + [r] + [b], c);
    Folding.OneMore(Perform, sys, before + [r] + [b] + [c], t);
    steps := before + [r] + [b] + [c] + [t];
    ss := AfterIsRun(sys, steps);
    var n := |steps| - 1;
    assert steps[..n] == before + [r] + [b] + [c];
    Prefix(ss, steps, n);
  }

  lemma NoLists(sys: System)
    requires sys.lists == []
    ensures After(sys, LateOffer() + Arrival()).lists == []
  {
    ListsStay(sys, LateOffer() + Arrival());
  }

  lemma {:induction false} ListsStay(sys: System, steps: seq<SystemStep>)
    requires forall k :: 0 <= k < |steps| ==> !steps[k].ReadRelease?
    ensures After(sys, steps).lists == sys.lists
  {
    if steps != [] {
      ListsStay(sys, steps[..|steps| - 1]);
    }
  }

  lemma StillTwo(sys: System)
    requires |sys.world.assignments| == 2 && |sys.tickets| == 2 && sys.lists == []
    ensures var s3 := Perform(Perform(Perform(sys, ReadRelease({0})), Begin(OpComplete, 0)), CommitTicket(2));
            |s3.world.assignments| == |Perform(s3, WriteRelease(0)).world.assignments| == 2
  {
  }

  // In a run the state after `n` steps is the state after performing them.
  lemma {:induction false} Prefix(ss: seq<System>, steps: seq<SystemStep>, n: nat)
    requires SystemRun(ss, steps) && n <= |steps|
    ensures ss[n] == After(ss[0], steps[..n])
  {
    if 0 < n {
      Prefix(ss, steps, n - 1);
      assert Succeeds(ss, steps, n - 1);
      assert steps[..n][..n - 1] == steps[..n - 1];
    }
  }
}
