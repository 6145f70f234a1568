/** Runs from a new job that end where the protocol surprises: a no-show that is refused, a completion that stands though
refused, a refill offer nobody can accept, a job that fails over its officers, rounds without end, and windows of two
slots that count too much or too little.

They are built by stages, as the runs of `Relief` are; most stages end in a state with at most two rows, given in full. */
module Scenes {
  import opened Domain
  import opened Counting
  import opened Eligibility
  import opened Protocol
  import opened Invariants
  import opened Runs
  import opened Relief
  import opened Durations
  import opened InvoiceHours
  import RetryChain
  import Folding

  // ---------- a no-show refused ----------

  lemma SoleNoShow(w: World)
    requires |w.assignments| == 1 && w.assignments[0].status.Accepted? && Ordinary(w.assignments[0])
    requires w.job.status.Assigned? && w.job.requested == 1
    ensures ReportNoShow(w, 0) == Outcome(w, BadRequest)
  {
    var a := w.assignments[0];
    assert w.assignments == [a];
    CountSingle(Bump(a, NoShow), IsStaffed);
    assert [a][0 := Bump(a, NoShow)] == [Bump(a, NoShow)];
  }

  /** A run to a fully assigned job whose officer does not come: reporting the no-show is refused and changes nothing. */
  lemma NoShowIsRefused() returns (ws: seq<World>, steps: seq<Step>)
    ensures Run(ws, steps)
    ensures var w := ws[|steps|];
            && w.job.status.Assigned? && |w.assignments| == 1 && w.assignments[0].status.Accepted?
            && ReportNoShow(w, 0) == Outcome(w, BadRequest)
  {
    NewJobIsInitial(1);
    SingleAccepted();
    steps := [StepProcessDispatch(Solo(0)), StepAccept(0, 0)];
    ws := AfterIsRun(NewJob(1), steps);
    SoleNoShow(ws[|steps|]);
  }

  // ---------- a completion that stands though refused ----------

  function CancelledRun(): seq<Step> {
    SingleStart() + ReliefSteps(1, 0, 0, 1) + [StepCancel]
  }

  lemma CancelledRuns()
    ensures var t := After(NewJob(1), CancelledRun());
            && |t.assignments| == 2 && t.job.status.JobCancelled?
            && t.assignments[0].status.Completed?
            && t.assignments[1].status.OnSite? && IsSubstitute(t.assignments[1]) && t.assignments[1].guardian == 1
  {
    var w := NewJob(1);
    SingleStarts();
    var w1 := After(w, SingleStart());
    CountSingle(w1.assignments[0], IsSubstitute);
    ReliefCompletes(w1, 0, 1);
    Folding.AfterBoth(Apply, w, SingleStart(), ReliefSteps(1, 0, 0, 1));
    var w2 := After(w, SingleStart() + ReliefSteps(1, 0, 0, 1));
    assert Relieves(w1, w2, 0, 1);
    SparesSubstitute(w2);
    Folding.OneMore(Apply, w, SingleStart() + ReliefSteps(1, 0, 0, 1), StepCancel);
  }

  lemma SparesSubstitute(w: World)
    requires |w.assignments| == 2 && w.job.status.InProgress? && w.job.departing.None?
    requires w.assignments[0].status.Completed?
    requires w.assignments[1].status.OnSite? && IsSubstitute(w.assignments[1])
    ensures var t := Apply(w, StepCancel);
            t.assignments == w.assignments && t.job.status.JobCancelled?
  {
    CancelledRow(w, 0);
    CancelledRow(w, 1);
    var t := ReleaseActive(ReleaseDeparting(ReleaseSubstitutes(ReleaseOffers(w))));
    assert t.assignments == w.assignments;
  }

  lemma RefusedAndDone(w: World)
    requires |w.assignments| == 2 && w.job.status.JobCancelled? && w.assignments[0].status.Completed?
    requires w.assignments[1].status.OnSite? && IsSubstitute(w.assignments[1]) && w.assignments[1].guardian == 1
    ensures var after := Complete(w, 1, 1);
            && after.reply.BadRequest? && after.world == Apply(w, StepComplete(1, 1))
            && |after.world.assignments| == 2 && after.world.assignments[1].status.Completed?
  {
    var w1 := Put(w, 1, Bump(w.assignments[1], Completed).(completedAt := Some(w.now)));
    CountZero(w1.assignments, IsActive);
  }

  /** A run to a cancelled job whose substitute is still on site: completing is refused, and the assignment is completed. */
  lemma RefusedCompletionStands() returns (ws: seq<World>, steps: seq<Step>)
    ensures Run(ws, steps) && steps != [] && steps[|steps| - 1] == StepComplete(1, 1)
    ensures var before, after := ws[|steps| - 1], ws[|steps|];
            && before.job.status.JobCancelled? && Complete(before, 1, 1) == Outcome(after, BadRequest)
            && |before.assignments| == |after.assignments| == 2
            && before.assignments[1].status.OnSite? && after.assignments[1].status.Completed?
  {
    NewJobIsInitial(1);
    CancelledRuns();
    RefusedAndDone(After(NewJob(1), CancelledRun()));
    ws, steps := LastStep(NewJob(1), CancelledRun(), StepComplete(1, 1));
  }

  // ---------- short of officers in progress ----------

  // A two-slot job of which at most `cap` offers are made.
  function CappedJob(cap: Positive): World {
    NewJob(2).(cfg := DEFAULTS.(maxOffers := cap))
  }

  function ShortStart(): seq<Step> {
    [StepProcessDispatch(Solo(0)), StepAccept(0, 0)] + [StepMarkEnRoute(0, 0), StepArriveOnSite(0, 0)]
  }

  // In progress with one of two slots open.
  predicate Short(w: World, cap: Positive) {
    && w.assignments == [Arrived(Bump(Offer(0, 1), Accepted), 0)]
    && w.job.status.InProgress? && w.job.requested == 2 && w.job.offersSent == 1
    && w.job.deadline == Some(600_000) && w.job.unreachableSince.None?
    && w.cfg == DEFAULTS.(maxOffers := cap) && w.now == 0 && !w.invoiceDrafted
  }

  lemma ShortOffered(cap: Positive)
    ensures var w := Apply(CappedJob(cap), StepProcessDispatch(Solo(0)));
            && w.assignments == [Offer(0, 1)]
            && w.job == NewJob(2).job.(offersSent := 1)
            && w.cfg == DEFAULTS.(maxOffers := cap) && w.now == 0 && !w.invoiceDrafted
  {
    Dispatches(CappedJob(cap), Solo(0));
    RoundOffers(CappedJob(cap), 0);
  }

  lemma ShortAccepted(w: World)
    requires w.assignments == [Offer(0, 1)] && w.job == NewJob(2).job.(offersSent := 1) && w.now == 0
    ensures var t := Apply(w, StepAccept(0, 0));
            && t.assignments == [Bump(Offer(0, 1), Accepted)]
            && t.job == w.job.(status := PartiallyAssigned)
            && t.cfg == w.cfg && t.now == 0 && t.invoiceDrafted == w.invoiceDrafted
  {
    var a := Offer(0, 1);
    CountSingle(a, IsStaffed);
    CountSingle(Bump(a, Accepted), IsStaffed);
    CountSingle(Bump(a, Accepted), IsPending);
    assert [a][0 := Bump(a, Accepted)] == [Bump(a, Accepted)];
  }

  lemma ShortStarts(cap: Positive)
    ensures Short(After(CappedJob(cap), ShortStart()), cap)
  {
    var w := CappedJob(cap);
    var first := [StepProcessDispatch(Solo(0)), StepAccept(0, 0)];
    ShortOffered(cap);
    ShortAccepted(Apply(w, StepProcessDispatch(Solo(0))));
    After2(w, StepProcessDispatch(Solo(0)), StepAccept(0, 0));
    Relief.Arrives(After(w, first), 0);
    Folding.AfterBoth(Apply, w, first, [StepMarkEnRoute(0, 0), StepArriveOnSite(0, 0)]);
  }

  lemma CappedJobIsInitial(cap: Positive)
    ensures Initial(CappedJob(cap))
  {
  }

  // ---------- a refill nobody can accept ----------

  lemma ShortOffersRefill(w: World)
    requires Short(w, 20)
    ensures var t := Apply(w, StepProcessDispatch(Solo(1)));
            && t.job.status.InProgress? && |t.assignments| == 2
            && Acceptable(t, 1, 1) && Ordinary(t.assignments[1])
            && Accept(t, 1, 1) == Outcome(t, BadRequest)
  {
    var a := w.assignments[0];
    CountSingle(a, IsStaffed);
    CountSingle(a, IsPending);
    RoundOffers(w, 1);
    Dispatches(w, Solo(1));
    var t := CreateOffer(w, 1, None);
    var b := t.assignments[1];
    assert t.assignments == [a, b];
    RefillRefused(t);
  }

  lemma RefillRefused(w: World)
    requires |w.assignments| == 2 && w.job.status.InProgress? && w.job.requested == 2
    requires IsStaffed(w.assignments[0]) && IsPending(w.assignments[1]) && Acceptable(w, 1, 1)
    ensures Accept(w, 1, 1) == Outcome(w, BadRequest)
  {
    var a, b := w.assignments[0], w.assignments[1];
    var b' := Bump(b, Accepted);
    assert w.assignments == [a, b] && [a, b][1 := b'] == [a, b'];
    CountPair(a, b', IsStaffed);
  }

  /** A run to a job in progress with an open slot: the refill round makes an offer, and accepting it is refused. */
  lemma RefillCannotBeAccepted() returns (ws: seq<World>, steps: seq<Step>)
    ensures Run(ws, steps) && steps != [] && steps[|steps| - 1].StepProcessDispatch?
    ensures var w := ws[|steps|];
            && w.job.status.InProgress? && |w.assignments| == 2
            && Acceptable(w, 1, 1) && Ordinary(w.assignments[1])
            && Accept(w, 1, 1) == Outcome(w, BadRequest)
  {
    CappedJobIsInitial(20);
    ShortStarts(20);
    ShortOffersRefill(After(CappedJob(20), ShortStart()));
    ws, steps := LastStep(CappedJob(20), ShortStart(), StepProcessDispatch(Solo(1)));
  }

  // ---------- failing over the officers' heads ----------

  lemma CappedRoundFails(w: World, pool: Pool)
    requires Short(w, 1)
    ensures var t := Apply(w, StepProcessDispatch(pool));
            && t.job.status.JobFailed? && t.assignments == w.assignments && !t.invoiceDrafted && t.now == 0
  {
    CountSingle(w.assignments[0], IsStaffed);
    Dispatches(w, pool);
    assert !IsOffer(w.assignments[0]);
    assert CancelWhere(w.assignments, IsOffer, false) == w.assignments;
  }

  lemma UnpaidCompletion(w: World)
    requires |w.assignments| == 1 && w.assignments[0].status.OnSite? && w.assignments[0].guardian == 0
    requires w.job.status.JobFailed? && !w.invoiceDrafted
    ensures var after := Complete(w, 0, 0);
            && after.reply.BadRequest? && |after.world.assignments| == 1
            && after.world.assignments[0].status.Completed? && !after.world.invoiceDrafted
  {
    var w1 := Put(w, 0, Bump(w.assignments[0], Completed).(completedAt := Some(w.now)));
    CountZero(w1.assignments, IsActive);
  }

  /** A run in which a refill round at the cap of offers fails the job while its officer is on site; the officer then
  completes, the call is refused, and there is no invoice. */
  lemma JobFailsOverItsOfficers() returns (ws: seq<World>, steps: seq<Step>)
    ensures Run(ws, steps) && 1 < |steps|
    ensures var before, failed := ws[|steps| - 1], ws[|steps|];
            && before.job.status.InProgress? && failed.job.status.JobFailed?
            && |failed.assignments| == 1 && failed.assignments[0].status.OnSite?
            && Complete(failed, 0, 0).reply.BadRequest?
            && |Complete(failed, 0, 0).world.assignments| == 1
            && Complete(failed, 0, 0).world.assignments[0].status.Completed?
            && !Complete(failed, 0, 0).world.invoiceDrafted
  {
    CappedJobIsInitial(1);
    ShortStarts(1);
    var w := After(CappedJob(1), ShortStart());
    CappedRoundFails(w, Solo(1));
    UnpaidCompletion(Apply(w, StepProcessDispatch(Solo(1))));
    ws, steps := LastStep(CappedJob(1), ShortStart(), StepProcessDispatch(Solo(1)));
  }

  // ---------- rounds without end ----------

  function Nobody(): Pool {
    RawPool([], 0, {})
  }

  // A round that sees nobody, and a wait until its retry is due.
  function EmptyRounds(n: nat): seq<Step> {
    if n == 0 then [] else EmptyRounds(n - 1) + [StepProcessDispatch(Nobody()), StepTick(30_000)]
  }

  lemma EmptyRoundRetries(w: World)
    requires w.job.status.InProgress?
    ensures EmptyRound(w, Nobody()) == Enqueue(w, w.now + Backoff(2_000, 30_000, w.job.offersSent))
  {
    assert ListEligible([], w.cfg.poolSize, Excluded(w.assignments)) == [];
  }

  lemma RoundIsEmpty(w: World)
    requires w.job.status.InProgress? && 0 < OpenSlots(w) && w.job.offersSent < w.cfg.maxOffers
    ensures ProcessDispatch(w, Nobody()) == EmptyRound(EnsureSchedule(w), Nobody())
  {
    var w1 := EnsureSchedule(w);
    assert ListEligible([], w1.cfg.poolSize, Excluded(w1.assignments)) == [];
    assert ParallelPicks(w1, Nobody()) == [];
    assert OpenSlots(w1) == OpenSlots(w) && !FullyStaffed(w);
    assert OrdinaryDispatch(w1, Nobody()) == OrdinaryRound(w1, Nobody());
  }

  lemma SeesNobody(w: World)
    requires w.job.status.InProgress? && 0 < OpenSlots(w) && w.job.offersSent < w.cfg.maxOffers
    ensures var t := ProcessDispatch(w, Nobody());
            && t.job == EnsureSchedule(w).job && t.assignments == w.assignments && t.cfg == w.cfg && t.now == w.now
            && |t.requests| == |w.requests| + 1
            && w.now + 2_000 <= t.requests[|w.requests|] <= w.now + 30_000
  {
    RoundIsEmpty(w);
    EmptyRoundRetries(EnsureSchedule(w));
    RetryChain.BackoffBounds(2_000, 30_000, w.job.offersSent);
  }

  // A round that sees nobody, and the wait after it.
  lemma OneRound(w: World)
    requires w.job.status.InProgress? && 0 < OpenSlots(w) && w.job.offersSent < w.cfg.maxOffers
    ensures var t := After(w, [StepProcessDispatch(Nobody()), StepTick(30_000)]);
            && t.job.status.InProgress? && t.assignments == w.assignments && t.cfg == w.cfg
            && t.job.requested == w.job.requested && t.job.offersSent == w.job.offersSent
            && t.now == w.now + 30_000 && |t.requests| == |w.requests| + 1
            && t.requests[|t.requests| - 1] <= t.now
  {
    SeesNobody(w);
    Dispatches(w, Nobody());
    After2(w, StepProcessDispatch(Nobody()), StepTick(30_000));
  }

  /** A job in progress that is short of officers retries without end: for any number of rounds that see nobody, each
  waiting until the last one's retry is due, it is still in progress, past any deadline, and asks for another. */
  lemma {:induction false} EndlessRounds(w: World, n: nat)
    requires w.job.status.InProgress? && 0 < OpenSlots(w) && w.job.offersSent < w.cfg.maxOffers
    ensures var t := After(w, EmptyRounds(n));
            && t.job.status.InProgress? && t.assignments == w.assignments && t.cfg == w.cfg
            && t.job.requested == w.job.requested && t.job.offersSent == w.job.offersSent
            && t.now == w.now + 30_000 * n && |t.requests| == |w.requests| + n
            && (0 < n ==> t.requests[|t.requests| - 1] <= t.now)
  {
    if 0 < n {
      EndlessRounds(w, n - 1);
      var t := After(w, EmptyRounds(n - 1));
      assert OpenSlots(t) == OpenSlots(w);
      OneRound(t);
      Folding.AfterBoth(Apply, w, EmptyRounds(n - 1), [StepProcessDispatch(Nobody()), StepTick(30_000)]);
    }
  }

  /** And such a job can be reached. */
  lemma EndlessRoundsReached(n: nat) returns (ws: seq<World>, steps: seq<Step>)
    ensures Run(ws, steps) && |steps| == 4 + 2 * n
    ensures ws[|steps|].job.status.InProgress? && ws[|steps|].now == 30_000 * n
  {
    var w := CappedJob(20);
    CappedJobIsInitial(20);
    ShortStarts(20);
    var s := After(w, ShortStart());
    CountSingle(s.assignments[0], IsStaffed);
    CountSingle(s.assignments[0], IsPending);
    EndlessRounds(s, n);
    Folding.AfterBoth(Apply, w, ShortStart(), EmptyRounds(n));
    RoundsLong(n);
    steps := ShortStart() + EmptyRounds(n);
    ws := AfterIsRun(w, steps);
  }

  lemma {:induction false} RoundsLong(n: nat)
    ensures |EmptyRounds(n)| == 2 * n
  {
    if 0 < n {
      RoundsLong(n - 1);
    }
  }

  // ---------- windows of two slots ----------

  const HOUR := 3_600_000

  function Stamped(a: Assignment, now: int): Assignment {
    Bump(a, Completed).(completedAt := Some(now))
  }

  lemma Finishes(w: World, i: nat)
    requires i < |w.assignments| && w.assignments[i].status.OnSite? && w.job.status.InProgress?
    ensures var t := Apply(w, StepComplete(i, w.assignments[i].guardian));
            && t.assignments == w.assignments[i := Stamped(w.assignments[i], w.now)]
            && t.cfg == w.cfg && t.now == w.now
            && (0 < Active(t.assignments) ==> t.job == w.job)
  {
  }

  // Waiting, and then completing.
  function LeaveAfter(ms: nat, i: nat, g: nat): seq<Step> {
    [StepTick(ms), StepComplete(i, g)]
  }

  lemma LeavesAfter(w: World, ms: nat, i: nat)
    requires i < |w.assignments| && w.assignments[i].status.OnSite? && w.job.status.InProgress?
    ensures var t := After(w, LeaveAfter(ms, i, w.assignments[i].guardian));
            && t.assignments == w.assignments[i := Stamped(w.assignments[i], w.now + ms)]
            && t.now == w.now + ms
            && (0 < Active(t.assignments) ==> t.job == w.job)
  {
    After2(w, StepTick(ms), StepComplete(i, w.assignments[i].guardian));
    Finishes(Apply(w, StepTick(ms)), i);
  }

  lemma OneStillActive(a: Assignment, b: Assignment)
    requires IsActive(a) || IsActive(b)
    ensures 0 < Active([a, b])
  {
    CountPair(a, b, IsActive);
  }

  function ArriveAfter(ms: nat): seq<Step> {
    [StepTick(ms)] + [StepMarkEnRoute(1, 1), StepArriveOnSite(1, 1)]
  }

  lemma SecondArrives(w: World, ms: nat)
    requires |w.assignments| == 2 && w.job.status.InProgress?
    requires w.assignments[1] == Bump(Offer(1, 2), Accepted)
    ensures var t := After(w, ArriveAfter(ms));
            && t.assignments == w.assignments[1 := Arrived(w.assignments[1], w.now + ms)]
            && t.job == w.job && t.now == w.now + ms
  {
    Folding.One(Apply, w, StepTick(ms));
    Relief.Arrives(Apply(w, StepTick(ms)), 1);
    Folding.AfterBoth(Apply, w, [StepTick(ms)], [StepMarkEnRoute(1, 1), StepArriveOnSite(1, 1)]);
  }

  predicate Stays(s: seq<Assignment>, first: Window, second: Window) {
    && |s| == 2 && Billable(s[0]) && Billable(s[1])
    && RowWindow(s[0]) == first && RowWindow(s[1]) == second
  }

  function First(): Assignment {
    Arrived(Bump(Offer(0, 1), Accepted), 0)
  }

  function Second(): Assignment {
    Bump(Offer(1, 2), Accepted)
  }

  // The two ordinary officers of a job in progress are both on site.
  predicate PairOnSite(w: World) {
    && |w.assignments| == 2 && w.job.status.InProgress?
    && (forall k :: 0 <= k < 2 ==>
          w.assignments[k].status.OnSite? && Ordinary(w.assignments[k]) && w.assignments[k].guardian == k)
  }

  lemma OneLeaves(w: World, x: nat, i: nat)
    requires PairOnSite(w) && i < 2
    ensures var t := After(w, LeaveAfter(x, i, i));
            && t.assignments == w.assignments[i := Stamped(w.assignments[i], w.now + x)]
            && t.job == w.job && t.now == w.now + x
  {
    LeavesAfter(w, x, i);
    var t := After(w, LeaveAfter(x, i, i)).assignments;
    assert t == [t[0], t[1]];
    OneStillActive(t[0], t[1]);
  }

  // Both officers leave, one before the other.
  lemma BothLeave(w: World, x: nat, i: nat, y: nat, j: nat)
    requires PairOnSite(w) && i < 2 && j == 1 - i
    ensures var t := After(After(w, LeaveAfter(x, i, i)), LeaveAfter(y, j, j)).assignments;
            t == w.assignments[i := Stamped(w.assignments[i], w.now + x)][j := Stamped(w.assignments[j], w.now + x + y)]
  {
    OneLeaves(w, x, i);
    LeavesAfter(After(w, LeaveAfter(x, i, i)), y, j);
  }

  // The second officer arrives an hour late and leaves an hour before the first.
  function LeavesEarly(): seq<Step> {
    ArriveAfter(HOUR) + (LeaveAfter(HOUR, 1, 1) + LeaveAfter(HOUR, 0, 0))
  }

  lemma LeavesEarlyStays(w: World)
    requires w.assignments == [First(), Second()] && w.job.status.InProgress? && w.now == 0
    ensures Stays(After(w, LeavesEarly()).assignments, Window(0, 3 * HOUR), Window(HOUR, 2 * HOUR))
  {
    SecondArrives(w, HOUR);
    var w1 := After(w, ArriveAfter(HOUR));
    BothLeave(w1, HOUR, 1, HOUR, 0);
    Folding.AfterBoth(Apply, w1, LeaveAfter(HOUR, 1, 1), LeaveAfter(HOUR, 0, 0));
    Folding.AfterBoth(Apply, w, ArriveAfter(HOUR), LeaveAfter(HOUR, 1, 1) + LeaveAfter(HOUR, 0, 0));
  }

  // The first officer leaves at once, and the second arrives an hour later and leaves at once.
  function LongGap(): seq<Step> {
    LeaveAfter(0, 0, 0) + (ArriveAfter(HOUR) + LeaveAfter(0, 1, 1))
  }

  lemma ComesAndGoes(w: World)
    requires |w.assignments| == 2 && w.assignments[1] == Second() && w.job.status.InProgress?
    ensures var t := After(w, ArriveAfter(HOUR) + LeaveAfter(0, 1, 1)).assignments;
            t == w.assignments[1 := Stamped(Arrived(Second(), w.now + HOUR), w.now + HOUR)]
  {
    SecondArrives(w, HOUR);
    LeavesAfter(After(w, ArriveAfter(HOUR)), 0, 1);
    Folding.AfterBoth(Apply, w, ArriveAfter(HOUR), LeaveAfter(0, 1, 1));
  }

  lemma LongGapStays(w: World)
    requires w.assignments == [First(), Second()] && w.job.status.InProgress? && w.now == 0
    ensures Stays(After(w, LongGap()).assignments, Window(0, 0), Window(HOUR, HOUR))
  {
    LeavesAfter(w, 0, 0);
    var w1 := After(w, LeaveAfter(0, 0, 0));
    assert w1.assignments == [Stamped(First(), 0), Second()];
    OneStillActive(w1.assignments[0], Second());
    ComesAndGoes(w1);
    Folding.AfterBoth(Apply, w, LeaveAfter(0, 0, 0), ArriveAfter(HOUR) + LeaveAfter(0, 1, 1));
  }

  lemma TwoStaysAnswer(s: seq<Assignment>, first: Window, second: Window)
    requires Stays(s, first, second) && first.from <= second.from
    ensures QueryResult(s, [0, 1]) && InvoiceWindow(s, [0, 1]) == Window(first.from, second.to)
  {
    var rows := [0, 1];
    assert rows[0] == 0 && rows[1] == 1;
  }

  /** Two runs from a new two-slot job. In one the invoice's window leaves out the last hour of the officer who stayed
  longest; in the other it is an hour long and nobody was on site for any of it. */
  lemma WindowsGoWrong(gap: bool) returns (ws: seq<World>, steps: seq<Step>)
    ensures Run(ws, steps)
    ensures var s := ws[|steps|].assignments;
            && QueryResult(s, [0, 1])
            && (gap ==> InvoiceWindow(s, [0, 1]).Hours() == 1.0 && OfficerHours(s, [0, 1]) == 0.0)
            && (!gap ==> InvoiceWindow(s, [0, 1]).Hours() == 2.0 && RowWindow(s[0]).Hours() == 3.0)
  {
    NewJobIsInitial(2);
    PairStarts();
    var w := After(NewJob(2), PairStart());
    LeavesEarlyStays(w);
    LongGapStays(w);
    var rest := if gap then LongGap() else LeavesEarly();
    steps := PairStart() + rest;
    Folding.AfterBoth(Apply, NewJob(2), PairStart(), rest);
    ws := AfterIsRun(NewJob(2), steps);
    var s := ws[|steps|].assignments;
    if gap {
      TwoStaysAnswer(s, Window(0, 0), Window(HOUR, HOUR));
      NoHours(s);
    } else {
      TwoStaysAnswer(s, Window(0, 3 * HOUR), Window(HOUR, 2 * HOUR));
    }
  }

  lemma NoHours(s: seq<Assignment>)
    requires Stays(s, Window(0, 0), Window(HOUR, HOUR))
    ensures OfficerHours(s, [0, 1]) == 0.0
  {
    HoursOfMore(s, [0, 1]);
    assert [0, 1][..1] == [0] && [0][..0] == [];
    HoursOfMore(s, [0]);
    assert Windows(s, []) == [];
  }
}
