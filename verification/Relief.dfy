/** Relief works whenever it may: the six steps from a request to a handoff, from any state of a job in progress; and a
run in which a substitute outlives the job.

The runs start from a new job and are built by stages. A stage is a list of steps with a lemma that says which rows and
which job it leaves; `Folding.AfterBoth` puts two stages together, and `AfterIsRun` makes the run. */
module Relief {
  import opened Domain
  import opened Counting
  import opened Eligibility
  import opened Protocol
  import opened Invariants
  import opened Runs
  import Folding

  // The state after taking the steps in order.
  function After(w: World, steps: seq<Step>): World {
    Folding.After(Apply, w, steps)
  }

  lemma {:induction false} AfterIsRun(w: World, steps: seq<Step>) returns (ws: seq<World>)
    requires Initial(w)
    ensures Run(ws, steps) && ws[0] == w && ws[|steps|] == After(w, steps)
  {
    if steps == [] {
      ws := [w];
    } else {
      var n := |steps| - 1;
      var front := AfterIsRun(w, steps[..n]);
      ws := front + [After(w, steps)];
      forall k | 0 <= k < |steps| ensures Follows(ws, steps, k) {
        assert k < n ==> Follows(front, steps[..n], k);
      }
    }
  }

  lemma After2(w: World, a: Step, b: Step)
    ensures After(w, [a, b]) == Apply(Apply(w, a), b)
  {
    Folding.Two(Apply, w, a, b);
  }

  lemma After3(w: World, a: Step, b: Step, c: Step)
    ensures After(w, [a, b, c]) == Apply(Apply(Apply(w, a), b), c)
  {
    assert [a, b] + [c] == [a, b, c];
    After2(w, a, b);
    Folding.OneMore(Apply, w, [a, b], c);
  }

  // ---------- rounds that see one guardian ----------

  function Solo(g: nat): Pool {
    RawPool([g], 0, {g})
  }

  predicate New(s: seq<Assignment>, g: nat) {
    forall k :: 0 <= k < |s| ==> s[k].guardian != g
  }

  lemma SoloPicks(g: nat, poolSize: Positive, excluded: set<nat>, count: nat)
    requires g !in excluded
    ensures ListEligible([g], poolSize, excluded) == [g]
    ensures PickNext(Solo(g), poolSize, excluded) == Some(g)
    ensures 0 < count ==> PickParallel(Solo(g), poolSize, excluded, count) == [g]
  {
    assert Take([g], poolSize + |excluded|) == [g];
    assert [g][1..] == [];
    assert Without([g], excluded) == [g];
    assert Within([g], {g}) == [g];
  }

  // An ordinary round with an open slot that sees one newcomer offers the slot to them.
  lemma RoundOffers(w: World, g: nat)
    requires Searching(w.job.status) || w.job.status.InProgress?
    requires w.job.deadline.Some? && !TimedOut(w) && w.job.unreachableSince.None?
    requires w.job.offersSent < w.cfg.maxOffers && 0 < OpenSlots(w) && New(w.assignments, g)
    ensures ProcessDispatch(w, Solo(g)) == CreateOffer(w, g, None)
  {
    assert g !in Excluded(w.assignments);
    var room := OpenSlots(w);
    SoloPicks(g, w.cfg.poolSize, Excluded(w.assignments),
              if w.cfg.parallelOffers <= room then w.cfg.parallelOffers else room);
    assert ParallelPicks(w, Solo(g)) == [g];
    assert [g][1..] == [];
    assert CreateOffers(w, [g], None) == CreateOffer(w, g, None);
    assert !FullyStaffed(w);
  }

  lemma ReplacementRoundOffers(w: World, g: nat)
    requires w.job.status.SeekingReplacement? && w.job.failureReason.None? && w.job.deadline.Some? && !TimedOut(w)
    requires Substitutes(w.assignments) < w.cfg.maxReplacementOffers && New(w.assignments, g)
    ensures ProcessDispatch(w, Solo(g)) == CreateOffer(w, g, w.job.departing)
  {
    assert g !in ReplacementExcluded(w.assignments);
    SoloPicks(g, w.cfg.poolSize, ReplacementExcluded(w.assignments), 1);
    assert g !in Tried(w.assignments);
  }

  // ---------- relief ----------

  // Relieved: `i` completed and the newcomer arrived at this very instant, and all else is as before.
  predicate Relieves(w: World, t: World, i: nat, g: nat)
    requires i < |w.assignments|
  {
    var n := |w.assignments|;
    && t.cfg == w.cfg && t.now == w.now && t.invoiceDrafted == w.invoiceDrafted
    && t.job.status.InProgress? && t.job.requested == w.job.requested && t.job.departing.None?
    && |t.assignments| == n + 1
    && (forall k :: 0 <= k < n && k != i ==> t.assignments[k] == w.assignments[k])
    && t.assignments[i].status.Completed? && t.assignments[i].completedAt == Some(w.now)
    && t.assignments[i].arrivedAt == w.assignments[i].arrivedAt && t.assignments[i].relieves == w.assignments[i].relieves
    && t.assignments[i].guardian == w.assignments[i].guardian
    && t.assignments[n].status.OnSite? && t.assignments[n].arrivedAt == Some(w.now)
    && t.assignments[n].relieves == Some(i) && t.assignments[n].guardian == g
    && t.assignments[n].completedAt.None?
  }

  // The officer, approved for relief.
  function Approved(a: Assignment, now: int): Assignment {
    a.(status := AwaitingRelief, version := a.version + 2, replacementRequestedAt := Some(now),
       replacementResolution := Some(ReplacementApproved))
  }

  lemma Approves(w: World, i: nat)
    requires i < |w.assignments| && w.assignments[i].status.OnSite? && w.job.status.InProgress?
    ensures var w1 := RequestReplacement(w, i, w.assignments[i].guardian).world;
            var t := ApproveReplacement(w1, i).world;
            && t.assignments == w.assignments[i := Approved(w.assignments[i], w.now)]
            && t.job == w.job.(status := SeekingReplacement, departing := Some(i), deadline := Some(w.now + 600_000),
                               failureReason := None, unreachableSince := None)
            && t.cfg == w.cfg && t.now == w.now && t.invoiceDrafted == w.invoiceDrafted
  {
    var w1 := RequestReplacement(w, i, w.assignments[i].guardian).world;
    var t := ApproveReplacement(w1, i).world;
    assert t.assignments == w.assignments[i := Approved(w.assignments[i], w.now)];
  }

  function Sought(w: World, i: nat, g: nat): World
    requires i < |w.assignments|
  {
    ProcessDispatch(ApproveReplacement(RequestReplacement(w, i, w.assignments[i].guardian).world, i).world, Solo(g))
  }

  lemma Searches(w: World, i: nat, g: nat)
    requires i < |w.assignments| && w.assignments[i].status.OnSite? && w.job.status.InProgress?
    requires New(w.assignments, g) && Substitutes(w.assignments) < w.cfg.maxReplacementOffers
    ensures var t := Sought(w, i, g);
            && t.cfg == w.cfg && t.now == w.now && t.invoiceDrafted == w.invoiceDrafted
            && t.job.status.SeekingReplacement? && t.job.requested == w.job.requested
            && t.assignments ==
               w.assignments[i := Approved(w.assignments[i], w.now)] + [SubstituteOffer(w, i, g)]
  {
    var w2 := ApproveReplacement(RequestReplacement(w, i, w.assignments[i].guardian).world, i).world;
    Approves(w, i);
    CountUpdate(w.assignments, i, Approved(w.assignments[i], w.now), IsSubstitute);
    ReplacementRoundOffers(w2, g);
  }

  function SubstituteOffer(w: World, i: nat, g: nat): Assignment {
    Assignment(g, |w.assignments| + 1, Offered, 1, Some(i), w.now + w.cfg.offerTtl, None, None, None, None, None)
  }

  lemma Travels(w: World, n: nat, g: nat)
    requires n < |w.assignments| && w.job.status.SeekingReplacement?
    requires Owned(w, n, g) && w.assignments[n].status.Offered? && w.now <= w.assignments[n].expiresAt
    ensures var t := MarkEnRoute(Accept(w, n, g).world, n, g).world;
            && t == w.(assignments := t.assignments)
            && t.assignments ==
               w.assignments[n := w.assignments[n].(status := EnRoute, version := w.assignments[n].version + 2)]
  {
    var w1 := Accept(w, n, g).world;
    assert w1 == Put(w, n, Bump(w.assignments[n], Accepted));
  }

  lemma TakesOver(w: World, i: nat, n: nat, g: nat)
    requires i < n < |w.assignments| && w.job.status.SeekingReplacement?
    requires w.assignments[i].status.AwaitingRelief? && w.assignments[i].replacementResolution == Some(ReplacementApproved)
    requires Owned(w, n, g) && w.assignments[n].status.EnRoute? && w.assignments[n].relieves == Some(i)
    ensures var t := ArriveOnSite(w, n, g).world;
            && t.cfg == w.cfg && t.now == w.now && t.invoiceDrafted == w.invoiceDrafted
            && t.job == w.job.(status := InProgress, departing := None, failureReason := None)
            && t.assignments ==
               w.assignments[i := Bump(w.assignments[i], Completed).(completedAt := Some(w.now))]
               [n := Bump(w.assignments[n], OnSite).(arrivedAt := Some(w.now))]
  {
    assert HandoffReady(w, n);
  }

  function Taken(w: World, n: nat, g: nat): World {
    ArriveOnSite(MarkEnRoute(Accept(w, n, g).world, n, g).world, n, g).world
  }

  // Officer `i`, of guardian `gi`, asks to be relieved and is approved, and a round sees guardian `g`.
  function SearchSteps(i: nat, gi: nat, g: nat): seq<Step> {
    [StepRequestReplacement(i, gi), StepApproveReplacement(i), StepProcessDispatch(Solo(g))]
  }

  function TakeSteps(n: nat, g: nat): seq<Step> {
    [StepAccept(n, g), StepMarkEnRoute(n, g), StepArriveOnSite(n, g)]
  }

  // And guardian `g`, whose assignment is the `n`-th, accepts, travels and takes over.
  function ReliefSteps(n: nat, i: nat, gi: nat, g: nat): seq<Step> {
    SearchSteps(i, gi, g) + TakeSteps(n, g)
  }

  lemma Dispatches(w: World, pool: Pool)
    ensures Apply(w, StepProcessDispatch(pool)) == ProcessDispatch(w, pool)
  {
  }

  lemma Asks(w: World, i: nat)
    requires i < |w.assignments|
    ensures Apply(Apply(w, StepRequestReplacement(i, w.assignments[i].guardian)), StepApproveReplacement(i)) ==
            ApproveReplacement(RequestReplacement(w, i, w.assignments[i].guardian).world, i).world
  {
  }

  lemma SoughtBySteps(w: World, i: nat, g: nat)
    requires i < |w.assignments|
    ensures After(w, SearchSteps(i, w.assignments[i].guardian, g)) == Sought(w, i, g)
  {
    var a, b := StepRequestReplacement(i, w.assignments[i].guardian), StepApproveReplacement(i);
    After3(w, a, b, StepProcessDispatch(Solo(g)));
    Asks(w, i);
    Dispatches(Apply(Apply(w, a), b), Solo(g));
  }

  lemma TakenBySteps(w: World, n: nat, g: nat)
    ensures After(w, TakeSteps(n, g)) == Taken(w, n, g)
  {
    After3(w, StepAccept(n, g), StepMarkEnRoute(n, g), StepArriveOnSite(n, g));
  }

  lemma ReliefIsSteps(w: World, i: nat, g: nat)
    requires i < |w.assignments|
    ensures After(w, ReliefSteps(|w.assignments|, i, w.assignments[i].guardian, g)) == Taken(Sought(w, i, g), |w.assignments|, g)
  {
    SoughtBySteps(w, i, g);
    TakenBySteps(Sought(w, i, g), |w.assignments|, g);
    Folding.AfterBoth(Apply, w, SearchSteps(i, w.assignments[i].guardian, g), TakeSteps(|w.assignments|, g));
  }

  /** An officer on site on a job in progress can be relieved by any guardian new to the job while substitutes are left:
  asking, approving, one round, accepting, travelling and arriving takes the job back to work with the newcomer in the
  officer's place, and no instant between them. */
  lemma ReliefCompletes(w: World, i: nat, g: nat)
    requires i < |w.assignments| && w.assignments[i].status.OnSite? && w.job.status.InProgress?
    requires New(w.assignments, g) && Substitutes(w.assignments) < w.cfg.maxReplacementOffers
    ensures Relieves(w, After(w, ReliefSteps(|w.assignments|, i, w.assignments[i].guardian, g)), i, g)
  {
    var n := |w.assignments|;
    ReliefIsSteps(w, i, g);
    Searches(w, i, g);
    var w1 := Sought(w, i, g);
    Travels(w1, n, g);
    TakesOver(MarkEnRoute(Accept(w1, n, g).world, n, g).world, i, n, g);
  }

  // The steps of a relief up to the newcomer's setting out.
  function OnTheWay(n: nat, i: nat, gi: nat, g: nat): seq<Step> {
    SearchSteps(i, gi, g) + [StepAccept(n, g), StepMarkEnRoute(n, g)]
  }

  lemma StillSought(w: World, i: nat, g: nat)
    requires i < |w.assignments| && w.assignments[i].status.OnSite? && w.job.status.InProgress?
    requires New(w.assignments, g) && Substitutes(w.assignments) < w.cfg.maxReplacementOffers
    ensures After(w, OnTheWay(|w.assignments|, i, w.assignments[i].guardian, g)).job.status.SeekingReplacement?
  {
    var n, gi := |w.assignments|, w.assignments[i].guardian;
    Searches(w, i, g);
    SoughtBySteps(w, i, g);
    var w1 := Sought(w, i, g);
    Travels(w1, n, g);
    SetOutBySteps(w1, n, g);
    Folding.AfterBoth(Apply, w, SearchSteps(i, gi, g), [StepAccept(n, g), StepMarkEnRoute(n, g)]);
  }

  lemma SetOutBySteps(w: World, n: nat, g: nat)
    ensures After(w, [StepAccept(n, g), StepMarkEnRoute(n, g)]) == MarkEnRoute(Accept(w, n, g).world, n, g).world
  {
    After2(w, StepAccept(n, g), StepMarkEnRoute(n, g));
  }

  // ---------- new jobs ----------

  const DEFAULTS := Config(90_000, 600_000, 50, 20, 10, 120_000, 3)

  // A job as it is created at time 0, dispatched at once.
  function NewJob(requested: Positive): World {
    World(DEFAULTS, Job(Pending, requested, true, true, None, 0, Some(600_000), None, None), [],
          [HistoryEntry(None, Pending)], [0], false, 0)
  }

  lemma NewJobIsInitial(requested: Positive)
    ensures Initial(NewJob(requested))
  {
  }

  function Offer(g: nat, round: nat): Assignment {
    Assignment(g, round, Offered, 1, None, 90_000, None, None, None, None, None)
  }

  // Travelling and arriving, for an accepted ordinary officer.
  function Arrived(a: Assignment, now: int): Assignment {
    a.(status := OnSite, version := a.version + 2, arrivedAt := Some(now))
  }

  lemma Arrives(w: World, i: nat)
    requires i < |w.assignments| && w.assignments[i].status.Accepted? && Ordinary(w.assignments[i])
    requires w.job.status.PartiallyAssigned? || w.job.status.Assigned? || w.job.status.InProgress?
    ensures var g := w.assignments[i].guardian;
            var t := After(w, [StepMarkEnRoute(i, g), StepArriveOnSite(i, g)]);
            && t.assignments == w.assignments[i := Arrived(w.assignments[i], w.now)]
            && t.job == w.job.(status := InProgress)
            && t.cfg == w.cfg && t.now == w.now && t.invoiceDrafted == w.invoiceDrafted
  {
    var g := w.assignments[i].guardian;
    SetsOut(w, i);
    ComesIn(MarkEnRoute(w, i, g).world, i);
    After2(w, StepMarkEnRoute(i, g), StepArriveOnSite(i, g));
  }

  lemma SetsOut(w: World, i: nat)
    requires i < |w.assignments| && w.assignments[i].status.Accepted?
    ensures MarkEnRoute(w, i, w.assignments[i].guardian).world == Put(w, i, Bump(w.assignments[i], EnRoute))
  {
  }

  lemma ComesIn(w: World, i: nat)
    requires i < |w.assignments| && w.assignments[i].status.EnRoute? && Ordinary(w.assignments[i])
    requires w.job.status.PartiallyAssigned? || w.job.status.Assigned? || w.job.status.InProgress?
    ensures var t := ArriveOnSite(w, i, w.assignments[i].guardian).world;
            && t.assignments == w.assignments[i := Bump(w.assignments[i], OnSite).(arrivedAt := Some(w.now))]
            && t.job == w.job.(status := InProgress)
            && t.cfg == w.cfg && t.now == w.now && t.invoiceDrafted == w.invoiceDrafted
  {
  }

  // The accept that fills the job, nothing else being on offer.
  lemma FillingAccept(w: World, i: nat)
    requires i < |w.assignments| && w.assignments[i].status.Offered? && w.now <= w.assignments[i].expiresAt
    requires Ordinary(w.assignments[i]) && Searching(w.job.status) && Staffed(w.assignments) + 1 == w.job.requested
    requires forall k :: 0 <= k < |w.assignments| && k != i ==> !w.assignments[k].status.Offered?
    ensures var t := Accept(w, i, w.assignments[i].guardian).world;
            && t.assignments == w.assignments[i := Bump(w.assignments[i], Accepted)]
            && t.job == w.job.(status := Assigned)
            && t.cfg == w.cfg && t.now == w.now && t.invoiceDrafted == w.invoiceDrafted
  {
    var b := Bump(w.assignments[i], Accepted);
    var w1 := Put(w, i, b);
    CountUpdate(w.assignments, i, b, IsStaffed);
    assert RemainingSlots(w1) == 0;
    assert forall k :: 0 <= k < |w1.assignments| ==> !IsPending(w1.assignments[k]);
    assert CancelWhere(w1.assignments, IsPending, true) == w1.assignments;
  }

  // ---------- an officer relieved on a one-slot job ----------

  function SingleStart(): seq<Step> {
    [StepProcessDispatch(Solo(0)), StepAccept(0, 0)] + [StepMarkEnRoute(0, 0), StepArriveOnSite(0, 0)]
  }

  lemma FirstOffered(requested: Positive)
    ensures var w := Apply(NewJob(requested), StepProcessDispatch(Solo(0)));
            && w.assignments == [Offer(0, 1)]
            && w.job == NewJob(requested).job.(offersSent := 1)
            && w.cfg == DEFAULTS && w.now == 0 && !w.invoiceDrafted
  {
    Dispatches(NewJob(requested), Solo(0));
    RoundOffers(NewJob(requested), 0);
  }

  lemma SingleAcceptedAt(w: World)
    requires w.assignments == [Offer(0, 1)] && w.job.status.Pending? && w.job.requested == 1 && w.now == 0
    ensures var t := Apply(w, StepAccept(0, 0));
            && t.assignments == [Bump(Offer(0, 1), Accepted)]
            && t.job == w.job.(status := Assigned)
            && t.cfg == w.cfg && t.now == 0 && t.invoiceDrafted == w.invoiceDrafted
  {
    CountSingle(Offer(0, 1), IsStaffed);
    FillingAccept(w, 0);
  }

  lemma SingleAccepted()
    ensures var w := After(NewJob(1), [StepProcessDispatch(Solo(0)), StepAccept(0, 0)]);
            && w.assignments == [Bump(Offer(0, 1), Accepted)]
            && w.job.status.Assigned? && w.job.requested == 1
            && w.cfg == DEFAULTS && w.now == 0 && !w.invoiceDrafted
  {
    FirstOffered(1);
    SingleAcceptedAt(Apply(NewJob(1), StepProcessDispatch(Solo(0))));
    After2(NewJob(1), StepProcessDispatch(Solo(0)), StepAccept(0, 0));
  }

  lemma SingleStarts()
    ensures var w := After(NewJob(1), SingleStart());
            && w.assignments == [Arrived(Bump(Offer(0, 1), Accepted), 0)]
            && w.job.status.InProgress? && w.job.requested == 1
            && w.cfg == DEFAULTS && w.now == 0 && !w.invoiceDrafted
  {
    var first := [StepProcessDispatch(Solo(0)), StepAccept(0, 0)];
    SingleAccepted();
    Arrives(After(NewJob(1), first), 0);
    Folding.AfterBoth(Apply, NewJob(1), first, [StepMarkEnRoute(0, 0), StepArriveOnSite(0, 0)]);
  }

  // ---------- a substitute on a two-slot job ----------

  function PairStart(): seq<Step> {
    [StepProcessDispatch(Solo(0)), StepProcessDispatch(Solo(1))] + [StepAccept(0, 0), StepAccept(1, 1)] +
    [StepMarkEnRoute(0, 0), StepArriveOnSite(0, 0)]
  }

  lemma SecondOffered(w: World)
    requires w.assignments == [Offer(0, 1)] && w.job == NewJob(2).job.(offersSent := 1)
    requires w.cfg == DEFAULTS && w.now == 0
    ensures var t := Apply(w, StepProcessDispatch(Solo(1)));
            && t.assignments == [Offer(0, 1), Offer(1, 2)]
            && t.job.status.Pending? && t.job.requested == 2
            && t.cfg == DEFAULTS && t.now == 0 && t.invoiceDrafted == w.invoiceDrafted
  {
    CountSingle(Offer(0, 1), IsStaffed);
    CountSingle(Offer(0, 1), IsPending);
    Dispatches(w, Solo(1));
    RoundOffers(w, 1);
  }

  lemma PairOffered()
    ensures var w := After(NewJob(2), [StepProcessDispatch(Solo(0)), StepProcessDispatch(Solo(1))]);
            && w.assignments == [Offer(0, 1), Offer(1, 2)]
            && w.job.status.Pending? && w.job.requested == 2
            && w.cfg == DEFAULTS && w.now == 0 && !w.invoiceDrafted
  {
    FirstOffered(2);
    SecondOffered(Apply(NewJob(2), StepProcessDispatch(Solo(0))));
    After2(NewJob(2), StepProcessDispatch(Solo(0)), StepProcessDispatch(Solo(1)));
  }

  lemma PairAccepted(w: World)
    requires w.assignments == [Offer(0, 1), Offer(1, 2)] && w.job.status.Pending? && w.job.requested == 2 && w.now == 0
    ensures var t := After(w, [StepAccept(0, 0), StepAccept(1, 1)]);
            && t.assignments == [Bump(Offer(0, 1), Accepted), Bump(Offer(1, 2), Accepted)]
            && t.job == w.job.(status := Assigned)
            && t.cfg == w.cfg && t.now == 0 && t.invoiceDrafted == w.invoiceDrafted
  {
    var a, b := Offer(0, 1), Offer(1, 2);
    var a' := Bump(a, Accepted);
    CountPair(a, b, IsStaffed);
    CountPair(a', b, IsStaffed);
    CountPair(a', b, IsPending);
    assert [a, b][0 := a'] == [a', b];
    var w1 := Accept(w, 0, 0).world;
    assert w1.assignments == [a', b] && w1.job == w.job.(status := PartiallyAssigned);
    FillingAccept(w1, 1);
    After2(w, StepAccept(0, 0), StepAccept(1, 1));
  }

  lemma PairStarts()
    ensures var w := After(NewJob(2), PairStart());
            && w.assignments == [Arrived(Bump(Offer(0, 1), Accepted), 0), Bump(Offer(1, 2), Accepted)]
            && w.job.status.InProgress? && w.job.requested == 2
            && w.cfg == DEFAULTS && w.now == 0 && !w.invoiceDrafted
  {
    var w := NewJob(2);
    var offers := [StepProcessDispatch(Solo(0)), StepProcessDispatch(Solo(1))];
    var accepts := [StepAccept(0, 0), StepAccept(1, 1)];
    PairOffered();
    var w1 := After(w, offers);
    PairAccepted(w1);
    Folding.AfterBoth(Apply, w, offers, accepts);
    Arrives(After(w1, accepts), 0);
    Folding.AfterBoth(Apply, w, offers + accepts, [StepMarkEnRoute(0, 0), StepArriveOnSite(0, 0)]);
  }

  // Officer 0 is relieved by guardian 2; officer 1 then arrives.
  function PairRun(): seq<Step> {
    PairStart() + ReliefSteps(2, 0, 0, 2) + [StepMarkEnRoute(1, 1), StepArriveOnSite(1, 1)]
  }

  lemma PairRuns()
    ensures var t := After(NewJob(2), PairRun());
            && |t.assignments| == 3 && t.job.status.InProgress? && !t.invoiceDrafted
            && t.assignments[0].status.Completed?
            && t.assignments[1].status.OnSite? && Ordinary(t.assignments[1]) && t.assignments[1].guardian == 1
            && t.assignments[1].arrivedAt.Some?
            && t.assignments[2].status.OnSite? && IsSubstitute(t.assignments[2]) && t.assignments[2].guardian == 2
            && Billable(t.assignments[0]) && t.assignments[2].arrivedAt.Some?
  {
    var w := NewJob(2);
    PairStarts();
    var w1 := After(w, PairStart());
    var relief := ReliefSteps(2, 0, 0, 2);
    CountPair(w1.assignments[0], w1.assignments[1], IsSubstitute);
    assert w1.assignments == [w1.assignments[0], w1.assignments[1]];
    ReliefCompletes(w1, 0, 2);
    Folding.AfterBoth(Apply, w, PairStart(), relief);
    var w2 := After(w1, relief);
    assert Relieves(w1, w2, 0, 2);
    Arrives(w2, 1);
    Folding.AfterBoth(Apply, w, PairStart() + relief, [StepMarkEnRoute(1, 1), StepArriveOnSite(1, 1)]);
  }

  /** A run from a new two-slot job in which the completion of the last ordinary officer settles the job and drafts its
  invoice while the substitute of the other slot is still on site. */
  lemma SubstituteOutlivesTheJob() returns (ws: seq<World>, steps: seq<Step>)
    ensures Run(ws, steps) && steps != [] && steps[|steps| - 1] == StepComplete(1, 1)
    ensures var before := ws[|steps| - 1];
            var after := ws[|steps|];
            && before.job.status.InProgress?
            && Complete(before, 1, 1).reply.Done? && after == Complete(before, 1, 1).world
            && after.job.status.AwaitingConfirmation? && after.invoiceDrafted
            && 2 < |after.assignments| && after.assignments[2].status.OnSite? && IsSubstitute(after.assignments[2])
  {
    PairRuns();
    LastCompletes(After(NewJob(2), PairRun()));
    Completes(After(NewJob(2), PairRun()), 1, 1);
    NewJobIsInitial(2);
    ws, steps := LastStep(NewJob(2), PairRun(), StepComplete(1, 1));
  }

  // The run that takes the steps and then one more.
  lemma LastStep(w: World, before: seq<Step>, last: Step) returns (ws: seq<World>, steps: seq<Step>)
    requires Initial(w)
    ensures steps == before + [last] && Run(ws, steps)
    ensures ws[0] == w && ws[|steps| - 1] == After(w, before) && ws[|steps|] == Apply(After(w, before), last)
  {
    steps := before + [last];
    assert steps[..|before|] == before;
    ws := AfterIsRun(w, steps);
    RunPrefix(ws, steps, |before|);
  }

  lemma Completes(w: World, i: nat, g: nat)
    ensures Apply(w, StepComplete(i, g)) == Complete(w, i, g).world
  {
  }

  lemma LastCompletes(w: World)
    requires |w.assignments| == 3 && w.job.status.InProgress? && !w.invoiceDrafted
    requires w.assignments[0].status.Completed? && IsSubstitute(w.assignments[2])
    requires w.assignments[1].status.OnSite? && w.assignments[1].guardian == 1 && w.assignments[1].arrivedAt.Some?
    ensures var after := Complete(w, 1, 1);
            && after.reply.Done? && after.world.job.status.AwaitingConfirmation? && after.world.invoiceDrafted
            && |after.world.assignments| == 3 && after.world.assignments[2] == w.assignments[2]
            && after.world.assignments[0] == w.assignments[0] && Billable(after.world.assignments[1])
  {
    var w1 := Put(w, 1, Bump(w.assignments[1], Completed).(completedAt := Some(w.now)));
    CountZero(w1.assignments, IsActive);
    assert Billable(w1.assignments[1]);
  }

  lemma {:induction false} RunPrefix(ws: seq<World>, steps: seq<Step>, n: nat)
    requires Run(ws, steps) && n <= |steps|
    ensures ws[n] == After(ws[0], steps[..n])
  {
    if 0 < n {
      RunPrefix(ws, steps, n - 1);
      assert Follows(ws, steps, n - 1);
      assert steps[..n][..n - 1] == steps[..n - 1];
    }
  }
}
