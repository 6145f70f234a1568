/** The laws hold of dispatch rounds, of an offer that lapses, and of whatever else may fail the job.

A round that looks for guardians fails the job, has no room, finds nobody or makes offers; one that looks for a relief is
paused, finds nobody or makes one offer. For each of these there is a lemma that spells out what the protocol leaves
(`RoundLeaves`) and one that says the laws want just that. When a job is failed is told in the rows alone:
`ExhaustedExactly` and `FailureExactly` hold of any state and any pool. */
module RoundsObey {
  import opened Domain
  import opened Counting
  import opened Eligibility
  import opened Protocol
  import opened Invariants
  import opened Runs
  import opened StepLaws
  import opened CallsObey

  // ---------- failing ----------

  lemma TriedAreLost(s: seq<Assignment>, g: nat)
    ensures g in Tried(s) <==> LostTo(s, g)
  {
  }

  /** The query for as many as are eligible, with nobody excluded, lists the first of the ranking. */
  lemma ExhaustedExactly(w: World, pool: RawPool)
    ensures PoolIsExhausted(w, pool) <==> AllTried(w.assignments, pool)
  {
    var rows := ListEligible(pool.ranked, pool.eligibleCount, {});
    KeepsAll(Take(pool.ranked, pool.eligibleCount));
    forall g ensures g in Tried(w.assignments) <==> LostTo(w.assignments, g) {
      TriedAreLost(w.assignments, g);
    }
    assert forall p :: 0 <= p < |rows| ==> rows[p] == pool.ranked[p] && rows[p] in rows;
  }

  lemma {:induction false} KeepsAll(s: seq<nat>)
    ensures Without(s, {}) == s
  {
    if s != [] {
      KeepsAll(s[1..]);
    }
  }

  lemma FailureExactly(w: World, pool: RawPool)
    ensures TerminalFailure(w, pool) == if Looking(w.job.status) then GivesUp(w, w.assignments, pool) else None
  {
    ExhaustedExactly(w, pool);
  }

  // Whether a row raised its version makes no difference to giving up.
  lemma SameGivingUp(w: World, w1: World, s: seq<Assignment>, pool: RawPool)
    requires w1.job == w.job && w1.now == w.now && w1.cfg == w.cfg && |s| == |w1.assignments|
    requires forall k :: 0 <= k < |s| ==>
               s[k].guardian == w1.assignments[k].guardian && s[k].status == w1.assignments[k].status
    ensures GivesUp(w1, w1.assignments, pool) == GivesUp(w, s, pool)
  {
    forall g ensures LostTo(s, g) <==> LostTo(w1.assignments, g) {
    }
  }

  // A failed job: its open offers are cancelled.
  lemma FailedRows(w: World, step: Step, t: World)
    requires Fails(w, step).Some? && !step.StepExpireOffer?
    requires t.assignments == CancelWhere(w.assignments, IsOffer, false)
    ensures RowsLaw(w, step, t)
  {
    forall k | 0 <= k < |w.assignments| ensures RowLaw(w, step, k, t.assignments[k]) {
      FailedRow(w, step, k);
    }
  }

  lemma FailedRow(w: World, step: Step, k: nat)
    requires Fails(w, step).Some? && !step.StepExpireOffer? && k < |w.assignments|
    ensures RowLaw(w, step, k, CancelWhere(w.assignments, IsOffer, false)[k])
  {
    var a := w.assignments[k];
    assert CancelWhere(w.assignments, IsOffer, false)[k] == if IsOffer(a) then a.(status := Cancelled) else a;
  }

  lemma FailedJob(w: World, step: Step, t: World)
    requires Fails(w, step).Some? && (step.StepFailOverdue? || step.StepFailExhausted?)
    requires t == FailJob(w, Fails(w, step).value)
    ensures JobLaw(w, step, t)
  {
    assert w.requests + [] == w.requests;
  }

  lemma SparedObeys(w: World, step: Step)
    requires Drafted(w) && Fails(w, step).None? && (step.StepFailOverdue? || step.StepFailExhausted?)
    ensures Law(w, step, w)
  {
    assert w.requests + [] == w.requests && w.history + [] == w.history;
  }

  lemma FailOverdueObeys(w: World)
    requires Drafted(w)
    ensures Law(w, StepFailOverdue, FailOverdue(w))
  {
    if Fails(w, StepFailOverdue).Some? {
      FailedRows(w, StepFailOverdue, FailOverdue(w));
      FailedJob(w, StepFailOverdue, FailOverdue(w));
    } else {
      SparedObeys(w, StepFailOverdue);
    }
  }

  lemma FailExhaustedObeys(w: World, pool: RawPool)
    requires Drafted(w) && Distinct(pool.ranked)
    ensures Law(w, StepFailExhausted(pool), FailExhausted(w, pool))
  {
    ExhaustedExactly(w, pool);
    if Fails(w, StepFailExhausted(pool)).Some? {
      FailedRows(w, StepFailExhausted(pool), FailExhausted(w, pool));
      FailedJob(w, StepFailExhausted(pool), FailExhausted(w, pool));
    } else {
      SparedObeys(w, StepFailExhausted(pool));
    }
  }

  // ---------- expiring ----------

  lemma LapsedRows(w: World, i: nat, pool: Pool, t: World)
    requires Lapses(w, StepExpireOffer(i, pool)) && Fails(w, StepExpireOffer(i, pool)).None?
    requires t.assignments == w.assignments[i := Bump(w.assignments[i], Expired)]
    ensures RowsLaw(w, StepExpireOffer(i, pool), t)
  {
    forall k | 0 <= k < |w.assignments| ensures RowLaw(w, StepExpireOffer(i, pool), k, t.assignments[k]) {
    }
  }

  lemma LapsedAndFailedRows(w: World, i: nat, pool: Pool, t: World)
    requires Lapses(w, StepExpireOffer(i, pool)) && Fails(w, StepExpireOffer(i, pool)).Some?
    requires t.assignments == CancelWhere(w.assignments[i := Bump(w.assignments[i], Expired)], IsOffer, false)
    ensures RowsLaw(w, StepExpireOffer(i, pool), t)
  {
    forall k | 0 <= k < |w.assignments| ensures RowLaw(w, StepExpireOffer(i, pool), k, t.assignments[k]) {
      var a := if k == i then Bump(w.assignments[i], Expired) else w.assignments[k];
      assert t.assignments[k] == if IsOffer(a) then a.(status := Cancelled) else a;
    }
  }

  lemma ExpireFailure(w: World, i: nat, pool: Pool)
    requires Lapses(w, StepExpireOffer(i, pool))
    ensures TerminalFailure(Put(w, i, Bump(w.assignments[i], Expired)), pool) == Fails(w, StepExpireOffer(i, pool))
  {
    var w1 := Put(w, i, Bump(w.assignments[i], Expired));
    FailureExactly(w1, pool);
    SameGivingUp(w, w1, w.assignments[i := w.assignments[i].(status := Expired)], pool);
  }

  lemma ExpireJob(w: World, i: nat, pool: Pool)
    requires Drafted(w) && Lapses(w, StepExpireOffer(i, pool))
    requires TerminalFailure(Put(w, i, Bump(w.assignments[i], Expired)), pool) == Fails(w, StepExpireOffer(i, pool))
    ensures JobLaw(w, StepExpireOffer(i, pool), ExpireOffer(w, i, pool))
  {
    assert w.requests + [] == w.requests && w.history + [] == w.history;
  }

  lemma UnlapsedRows(w: World, i: nat, pool: Pool)
    requires !Lapses(w, StepExpireOffer(i, pool))
    ensures RowsLaw(w, StepExpireOffer(i, pool), w)
  {
  }

  lemma ExpireObeys(w: World, i: nat, pool: Pool)
    requires Drafted(w)
    ensures Law(w, StepExpireOffer(i, pool), ExpireOffer(w, i, pool))
  {
    var step, t := StepExpireOffer(i, pool), ExpireOffer(w, i, pool);
    if Lapses(w, step) {
      ExpireFailure(w, i, pool);
      ExpireJob(w, i, pool);
      if Fails(w, step).Some? {
        LapsedAndFailedRows(w, i, pool, t);
      } else {
        LapsedRows(w, i, pool, t);
      }
    } else {
      UnlapsedRows(w, i, pool);
      RefusedJob(w, step);
    }
  }

  // ---------- rounds: what they see ----------

  lemma ExclusionsAre(s: seq<Assignment>)
    ensures Excluded(s) == Barred(s) && ReplacementExcluded(s) == Engaged(s)
  {
  }

  lemma RoomIs(w: World)
    ensures OpenSlots(w) == (if 0 < Free(w) then Free(w) else 0)
    ensures AtOnce(w) == (if w.cfg.parallelOffers <= OpenSlots(w) then w.cfg.parallelOffers else OpenSlots(w))
    ensures FullyStaffed(w) <==> w.job.requested <= |Holders(w.assignments)|
  {
    CountsAreSizes(w);
  }

  // Whom the over-fetching query finds.
  lemma ListsExactly(ranked: seq<nat>, limit: nat, barred: set<nat>, g: nat)
    ensures g in ListEligible(ranked, limit, barred) <==>
            exists p :: 0 <= p < |ranked| && p < limit + |barred| && ranked[p] == g && g !in barred
  {
    var head := Take(ranked, limit + |barred|);
    WithoutMembers(head, barred);
    assert forall p :: 0 <= p < |head| ==> head[p] == ranked[p];
  }

  lemma SomeMember(s: seq<nat>)
    ensures 0 < |s| <==> exists g :: g in s
  {
    if s != [] {
      assert s[0] in s;
    }
  }

  lemma SeesAny(w: World, pool: RawPool, barred: set<nat>)
    ensures 0 < |ListEligible(pool.ranked, w.cfg.poolSize, barred)| <==> Sees(w, pool, barred, false)
  {
    var candidates := ListEligible(pool.ranked, w.cfg.poolSize, barred);
    SomeMember(candidates);
    if g :| g in candidates {
      ListsExactly(pool.ranked, w.cfg.poolSize, barred, g);
    }
    if p :| 0 <= p < |pool.ranked| && p < w.cfg.poolSize + |barred| && pool.ranked[p] !in barred {
      ListsExactly(pool.ranked, w.cfg.poolSize, barred, pool.ranked[p]);
    }
  }

  lemma SeesReachable(w: World, pool: RawPool, barred: set<nat>)
    ensures 0 < |Within(ListEligible(pool.ranked, w.cfg.poolSize, barred), pool.reachable)| <==>
            Sees(w, pool, barred, true)
  {
    var candidates := ListEligible(pool.ranked, w.cfg.poolSize, barred);
    WithinMembers(candidates, pool.reachable);
    SomeMember(Within(candidates, pool.reachable));
    if g :| g in candidates && g in pool.reachable {
      ListsExactly(pool.ranked, w.cfg.poolSize, barred, g);
    }
    if p :| 0 <= p < |pool.ranked| && p < w.cfg.poolSize + |barred| && pool.ranked[p] !in barred &&
            pool.ranked[p] in pool.reachable {
      ListsExactly(pool.ranked, w.cfg.poolSize, barred, pool.ranked[p]);
    }
  }

  // A round that finds nobody notes what it saw.
  lemma NotedExactly(w: World, pool: RawPool, barred: set<nat>)
    ensures var candidates := ListEligible(pool.ranked, w.cfg.poolSize, barred);
            NoteReachability(w, |candidates|, |Within(candidates, pool.reachable)|) ==
            w.(job := w.job.(unreachableSince :=
                 if Sees(w, pool, barred, true) then None
                 else if Sees(w, pool, barred, false) && w.job.unreachableSince.None? then Some(w.now)
                 else w.job.unreachableSince))
  {
    SeesAny(w, pool, barred);
    SeesReachable(w, pool, barred);
    assert Sees(w, pool, barred, true) ==> Sees(w, pool, barred, false);
  }

  function OfferRow(w: World, g: nat, k: nat, relieves: Option<nat>): Assignment {
    Assignment(g, |w.assignments| + k + 1, Offered, 1, relieves, w.now + w.cfg.offerTtl, None, None, None, None, None)
  }

  lemma {:induction false} OffersExactly(w: World, gs: seq<nat>, relieves: Option<nat>)
    ensures var t := CreateOffers(w, gs, relieves);
            && t == w.(assignments := t.assignments,
                       job := w.job.(offersSent := w.job.offersSent + |gs|,
                                     unreachableSince := if gs == [] then w.job.unreachableSince else None))
            && |t.assignments| == |w.assignments| + |gs|
            && (forall i :: 0 <= i < |w.assignments| ==> t.assignments[i] == w.assignments[i])
            && (forall k :: 0 <= k < |gs| ==> t.assignments[|w.assignments| + k] == OfferRow(w, gs[k], k, relieves))
    decreases |gs|
  {
    if gs != [] {
      var w1 := CreateOffer(w, gs[0], relieves);
      var t := CreateOffers(w, gs, relieves);
      OffersExactly(w1, gs[1..], relieves);
      forall k | 0 <= k < |gs| ensures t.assignments[|w.assignments| + k] == OfferRow(w, gs[k], k, relieves) {
        if k == 0 {
          assert t.assignments[|w.assignments|] == w1.assignments[|w.assignments|];
        } else {
          assert t.assignments[|w1.assignments| + (k - 1)] == OfferRow(w1, gs[1..][k - 1], k - 1, relieves);
        }
      }
    }
  }

  // ---------- rounds: rows ----------

  lemma StandingRow(w: World, step: Step, k: nat)
    requires step.StepProcessDispatch? && Fails(w, step).None? && k < |w.assignments|
    ensures RowLaw(w, step, k, w.assignments[k])
  {
  }

  lemma RoundRows(w: World, step: Step, t: World)
    requires step.StepProcessDispatch? && Fails(w, step).None?
    requires |t.assignments| == |w.assignments| + |Invited(w, step)|
    requires forall i :: 0 <= i < |w.assignments| ==> t.assignments[i] == w.assignments[i]
    requires forall k :: 0 <= k < |Invited(w, step)| ==> t.assignments[|w.assignments| + k] == NewRow(w, step, k)
    ensures RowsLaw(w, step, t)
  {
    forall k | 0 <= k < |w.assignments| ensures RowLaw(w, step, k, t.assignments[k]) {
      StandingRow(w, step, k);
    }
  }

  // ---------- rounds: the job ----------

  function Scheduled(w: World): Option<int> {
    if w.job.deadline.Some? then w.job.deadline else Some(w.now + w.cfg.dispatchWindow)
  }

  // What a round that does not fail the job leaves behind.
  function RoundLeaves(
    w: World, s: seq<Assignment>, asked: seq<int>, reason: Option<FailureReason>, since: Option<int>): World
    requires |w.assignments| <= |s|
  {
    w.(assignments := s, requests := w.requests + asked,
       job := w.job.(offersSent := w.job.offersSent + |s| - |w.assignments|, deadline := Scheduled(w),
                     failureReason := reason, unreachableSince := since))
  }

  lemma RoundLaw(
    w: World, step: Step, s: seq<Assignment>, asked: seq<int>, reason: Option<FailureReason>, since: Option<int>)
    requires Drafted(w) && step.StepProcessDispatch? && Fails(w, step).None?
    requires |s| == |w.assignments| + |Invited(w, step)|
    requires forall i :: 0 <= i < |w.assignments| ==> s[i] == w.assignments[i]
    requires forall k :: 0 <= k < |Invited(w, step)| ==> s[|w.assignments| + k] == NewRow(w, step, k)
    requires asked == Requests(w, step) && DeadlineAfter(w, step) == Scheduled(w)
    requires reason == FailureReasonAfter(w, step) && since == UnreachableAfter(w, step)
    ensures Law(w, step, RoundLeaves(w, s, asked, reason, since))
  {
    var t := RoundLeaves(w, s, asked, reason, since);
    RoundRows(w, step, t);
    RoundJob(w, step, t);
  }

  lemma RoundJob(w: World, step: Step, t: World)
    requires Drafted(w) && step.StepProcessDispatch? && Fails(w, step).None?
    requires t == w.(assignments := t.assignments, requests := t.requests, job := t.job)
    requires t.requests == w.requests + Requests(w, step)
    requires t.job == w.job.(offersSent := w.job.offersSent + |Invited(w, step)|,
                             deadline := DeadlineAfter(w, step),
                             failureReason := FailureReasonAfter(w, step),
                             unreachableSince := UnreachableAfter(w, step))
    ensures JobLaw(w, step, t)
  {
    assert w.history + [] == w.history;
  }

  lemma FailedRoundJob(w: World, pool: Pool, reason: FailureReason)
    requires Fails(w, StepProcessDispatch(pool)) == Some(reason)
    ensures JobLaw(w, StepProcessDispatch(pool), FailJob(EnsureSchedule(w), reason))
  {
    assert w.requests + [] == w.requests;
  }

  // ---------- rounds: what they do ----------

  lemma IdleRoundObeys(w: World, pool: Pool)
    requires Drafted(w)
    requires || Over(w.job.status) || w.job.status.JobFailed?
             || (FullyStaffed(w) && (w.job.status.Assigned? || w.job.status.InProgress?))
    ensures Law(w, StepProcessDispatch(pool), w) && ProcessDispatch(w, pool) == w
  {
    RoomIs(w);
    assert w.requests + [] == w.requests;
    RoundRows(w, StepProcessDispatch(pool), w);
    RoundJob(w, StepProcessDispatch(pool), w);
  }

  lemma ScheduledFailure(w: World, pool: Pool)
    ensures TerminalFailure(EnsureSchedule(w), pool) ==
            if Looking(w.job.status) then GivesUp(w, w.assignments, pool) else None
  {
    FailureExactly(EnsureSchedule(w), pool);
  }

  // A round that looks for guardians to fill slots.
  predicate Short(w: World) {
    (Looking(w.job.status) || w.job.status.InProgress?) && !FullyStaffed(w)
  }

  lemma RoundFails(w: World, pool: Pool)
    requires Short(w)
    ensures var reason := Fails(w, StepProcessDispatch(pool));
            if reason.Some? then ProcessDispatch(w, pool) == FailJob(EnsureSchedule(w), reason.value)
            else ProcessDispatch(w, pool) == OrdinaryRound(EnsureSchedule(w), pool)
                 && TerminalFailure(EnsureSchedule(w), pool).None?
  {
    ScheduledFailure(w, pool);
    RoomIs(w);
  }

  lemma PicksExactly(w: World, pool: Pool)
    requires FillsSlots(w, StepProcessDispatch(pool))
    ensures OpenSlots(EnsureSchedule(w)) != 0
    ensures ParallelPicks(EnsureSchedule(w), pool) == Invited(w, StepProcessDispatch(pool))
  {
    RoomIs(w);
    ExclusionsAre(w.assignments);
  }

  lemma NotedNeverFails(w: World, pool: Pool, since: Option<int>)
    requires TerminalFailure(w, pool).None?
    requires since.None? || since == w.job.unreachableSince || since == Some(w.now)
    ensures TerminalFailure(w.(job := w.job.(unreachableSince := since)), pool).None?
  {
  }

  // A round that finds nobody for its slots: what the laws want of it, and what it does.
  lemma VainRoundFields(w: World, pool: Pool)
    requires Short(w) && LooksInVain(w, StepProcessDispatch(pool))
    ensures var step := StepProcessDispatch(pool);
            && Requests(w, step) == [w.now + Backoff(2_000, 30_000, w.job.offersSent)]
            && DeadlineAfter(w, step) == Scheduled(w) && FailureReasonAfter(w, step) == w.job.failureReason
            && UnreachableAfter(w, step) == SinceWhen(w, pool, Barred(w.assignments))
  {
    RoomIs(w);
  }

  function SinceWhen(w: World, pool: RawPool, barred: set<nat>): Option<int> {
    if Sees(w, pool, barred, true) then None
    else if Sees(w, pool, barred, false) && w.job.unreachableSince.None? then Some(w.now)
    else w.job.unreachableSince
  }

  // An empty round is noted and asks for another.
  lemma EmptyRoundAsks(w: World, pool: Pool, since: Option<int>)
    requires w.job.deadline.Some? && TerminalFailure(w, pool).None?
    requires since.None? || since == w.job.unreachableSince || since == Some(w.now)
    ensures RetryOrFail(w.(job := w.job.(unreachableSince := since)), pool) ==
            RoundLeaves(w, w.assignments, [w.now + Backoff(2_000, 30_000, w.job.offersSent)], w.job.failureReason, since)
  {
    NotedNeverFails(w, pool, since);
  }

  lemma EmptyRoundIs(w: World, pool: Pool)
    ensures EmptyRound(w, pool) ==
            RetryOrFail(w.(job := w.job.(unreachableSince := SinceWhen(w, pool, Barred(w.assignments)))), pool)
  {
    ExclusionsAre(w.assignments);
    NotedExactly(w, pool, Barred(w.assignments));
  }

  lemma EmptyRoundLeaves(w: World, pool: Pool)
    requires w.job.deadline.Some? && TerminalFailure(w, pool).None?
    ensures EmptyRound(w, pool) ==
            RoundLeaves(w, w.assignments, [w.now + Backoff(2_000, 30_000, w.job.offersSent)], w.job.failureReason,
                        SinceWhen(w, pool, Barred(w.assignments)))
  {
    EmptyRoundIs(w, pool);
    EmptyRoundAsks(w, pool, SinceWhen(w, pool, Barred(w.assignments)));
  }

  lemma RoundIsEmpty(w: World, pool: Pool)
    requires Short(w) && LooksInVain(w, StepProcessDispatch(pool))
    ensures TerminalFailure(EnsureSchedule(w), pool).None?
    ensures ProcessDispatch(w, pool) == EmptyRound(EnsureSchedule(w), pool)
  {
    RoundFails(w, pool);
    FillsWhenShort(w, pool);
    PicksExactly(w, pool);
  }

  lemma VainRoundLeaves(w: World, pool: Pool)
    requires Short(w) && LooksInVain(w, StepProcessDispatch(pool))
    ensures ProcessDispatch(w, pool) ==
            RoundLeaves(w, w.assignments, [w.now + Backoff(2_000, 30_000, w.job.offersSent)], w.job.failureReason,
                        SinceWhen(w, pool, Barred(w.assignments)))
  {
    RoundIsEmpty(w, pool);
    EmptyOnceScheduled(w, pool);
  }

  lemma EmptyOnceScheduled(w: World, pool: Pool)
    requires TerminalFailure(EnsureSchedule(w), pool).None?
    ensures EmptyRound(EnsureSchedule(w), pool) ==
            RoundLeaves(w, w.assignments, [w.now + Backoff(2_000, 30_000, w.job.offersSent)], w.job.failureReason,
                        SinceWhen(w, pool, Barred(w.assignments)))
  {
    EmptyRoundLeaves(EnsureSchedule(w), pool);
    LeavesAlike(w, pool, [w.now + Backoff(2_000, 30_000, w.job.offersSent)], Barred(w.assignments));
  }

  lemma FillsWhenShort(w: World, pool: Pool)
    requires Short(w) && LooksInVain(w, StepProcessDispatch(pool))
    ensures FillsSlots(w, StepProcessDispatch(pool))
  {
  }

  lemma VainRoundObeys(w: World, pool: Pool)
    requires Drafted(w) && Short(w) && LooksInVain(w, StepProcessDispatch(pool))
    ensures Law(w, StepProcessDispatch(pool), ProcessDispatch(w, pool))
  {
    VainRoundFields(w, pool);
    VainRoundLeaves(w, pool);
    FillsWhenShort(w, pool);
    RoundLaw(w, StepProcessDispatch(pool), w.assignments, [w.now + Backoff(2_000, 30_000, w.job.offersSent)],
             w.job.failureReason, SinceWhen(w, pool, Barred(w.assignments)));
  }

  lemma SeesAlike(w: World, w1: World, pool: RawPool, barred: set<nat>)
    requires w1.cfg == w.cfg
    ensures Sees(w1, pool, barred, true) == Sees(w, pool, barred, true)
    ensures Sees(w1, pool, barred, false) == Sees(w, pool, barred, false)
  {
  }

  lemma OfferingRoundFields(w: World, pool: Pool)
    requires Short(w) && FillsSlots(w, StepProcessDispatch(pool)) && Invited(w, StepProcessDispatch(pool)) != []
    ensures var step := StepProcessDispatch(pool);
            && Requests(w, step) == [] && UnreachableAfter(w, step) == None
            && DeadlineAfter(w, step) == Scheduled(w) && FailureReasonAfter(w, step) == w.job.failureReason
  {
    RoomIs(w);
  }

  lemma OfferingRoundLeaves(w: World, pool: Pool)
    requires Short(w) && FillsSlots(w, StepProcessDispatch(pool)) && Invited(w, StepProcessDispatch(pool)) != []
    ensures ProcessDispatch(w, pool) == CreateOffers(EnsureSchedule(w), Invited(w, StepProcessDispatch(pool)), None)
  {
    RoundFails(w, pool);
    PicksExactly(w, pool);
  }

  lemma OfferingRoundObeys(w: World, pool: Pool)
    requires Drafted(w) && Short(w) && FillsSlots(w, StepProcessDispatch(pool))
    requires Invited(w, StepProcessDispatch(pool)) != []
    ensures Law(w, StepProcessDispatch(pool), ProcessDispatch(w, pool))
  {
    var step := StepProcessDispatch(pool);
    OfferingRoundFields(w, pool);
    OfferingRoundLeaves(w, pool);
    OffersAre(w, step, Invited(w, step), None);
    var s := ProcessDispatch(w, pool).assignments;
    RoundLaw(w, step, s, [], w.job.failureReason, None);
  }

  // The offers a round makes, as the laws want them.
  lemma OffersAre(w: World, step: Step, gs: seq<nat>, relieves: Option<nat>)
    requires step.StepProcessDispatch? && gs == Invited(w, step) && gs != []
    requires relieves == if SeeksRelief(w, step) then w.job.departing else None
    ensures var t := CreateOffers(EnsureSchedule(w), gs, relieves);
            && |t.assignments| == |w.assignments| + |gs|
            && (forall i :: 0 <= i < |w.assignments| ==> t.assignments[i] == w.assignments[i])
            && (forall k :: 0 <= k < |gs| ==> t.assignments[|w.assignments| + k] == NewRow(w, step, k))
            && t == RoundLeaves(w, t.assignments, [], w.job.failureReason, None)
  {
    var w1 := EnsureSchedule(w);
    OffersExactly(w1, gs, relieves);
    assert w.requests + [] == w.requests;
    assert forall k :: 0 <= k < |gs| ==> OfferRow(w1, gs[k], k, relieves) == NewRow(w, step, k);
  }

  lemma RoomlessRoundObeys(w: World, pool: Pool)
    requires Drafted(w) && Short(w) && Fails(w, StepProcessDispatch(pool)).None? && Free(w) <= 0
    ensures Law(w, StepProcessDispatch(pool), ProcessDispatch(w, pool))
  {
    var step := StepProcessDispatch(pool);
    RoundFails(w, pool);
    RoomIs(w);
    assert w.requests + [] == w.requests;
    RoundRows(w, step, ProcessDispatch(w, pool));
    RoundJob(w, step, ProcessDispatch(w, pool));
  }

  lemma ShortRoundObeys(w: World, pool: Pool)
    requires Drafted(w) && Short(w)
    ensures Law(w, StepProcessDispatch(pool), ProcessDispatch(w, pool))
  {
    var step := StepProcessDispatch(pool);
    var reason := Fails(w, step);
    if reason.Some? {
      RoundFails(w, pool);
      FailedRows(w, step, ProcessDispatch(w, pool));
      FailedRoundJob(w, pool, reason.value);
    } else if Free(w) <= 0 {
      RoomlessRoundObeys(w, pool);
    } else if Invited(w, step) == [] {
      VainRoundObeys(w, pool);
    } else {
      OfferingRoundObeys(w, pool);
    }
  }

  // ---------- rounds: relief ----------

  lemma ReliefPick(w: World, pool: Pool)
    requires SeeksRelief(w, StepProcessDispatch(pool))
    ensures var pick := PickNext(pool, w.cfg.poolSize, ReplacementExcluded(w.assignments));
            Invited(w, StepProcessDispatch(pool)) ==
            if pick.None? || pick.value in Tried(w.assignments) then [] else [pick.value]
  {
    ExclusionsAre(w.assignments);
    forall g ensures g in Tried(w.assignments) <==> LostTo(w.assignments, g) {
      TriedAreLost(w.assignments, g);
    }
  }

  // Why a replacement search is, or becomes, paused.
  function PauseReason(w: World): Option<FailureReason> {
    if OnHold(w) then w.job.failureReason else Some(if Late(w) then ReplacementTimeout else ReplacementExhausted)
  }

  lemma PausedRoundLeaves(w: World, pool: Pool)
    requires w.job.status.SeekingReplacement? && !SeeksRelief(w, StepProcessDispatch(pool))
    ensures ProcessDispatch(w, pool) == RoundLeaves(w, w.assignments, [], PauseReason(w), w.job.unreachableSince)
  {
    CountsAreSizes(w);
    assert w.requests + [] == w.requests;
  }

  lemma PausedRoundObeys(w: World, pool: Pool)
    requires w.job.status.SeekingReplacement? && !SeeksRelief(w, StepProcessDispatch(pool))
    ensures Law(w, StepProcessDispatch(pool), ProcessDispatch(w, pool))
  {
    PausedRoundLeaves(w, pool);
    RoundLaw(w, StepProcessDispatch(pool), w.assignments, [], PauseReason(w), w.job.unreachableSince);
  }

  lemma ReliefOfferObeys(w: World, pool: Pool)
    requires SeeksRelief(w, StepProcessDispatch(pool)) && Invited(w, StepProcessDispatch(pool)) != []
    ensures Law(w, StepProcessDispatch(pool), ProcessDispatch(w, pool))
  {
    var step := StepProcessDispatch(pool);
    ReliefOfferLeaves(w, pool);
    OffersAre(w, step, Invited(w, step), w.job.departing);
    RoundLaw(w, step, ProcessDispatch(w, pool).assignments, [], w.job.failureReason, None);
  }

  lemma ReliefOfferLeaves(w: World, pool: Pool)
    requires SeeksRelief(w, StepProcessDispatch(pool)) && Invited(w, StepProcessDispatch(pool)) != []
    ensures ProcessDispatch(w, pool) == CreateOffers(EnsureSchedule(w), Invited(w, StepProcessDispatch(pool)), w.job.departing)
  {
    CountsAreSizes(w);
    ReliefPick(w, pool);
    var g := Invited(w, StepProcessDispatch(pool))[0];
    assert [g][1..] == [];
  }

  // A search for a substitute that may go on and finds nobody new.
  predicate SearchesInVain(w: World, pool: RawPool) {
    var pick := PickNext(pool, w.cfg.poolSize, ReplacementExcluded(w.assignments));
    && w.job.deadline.Some? && !TimedOut(w) && !Paused(w)
    && Substitutes(w.assignments) < w.cfg.maxReplacementOffers
    && (pick.None? || pick.value in Tried(w.assignments))
  }

  lemma SoftRound(w: World, pool: Pool)
    requires SearchesInVain(w, pool)
    ensures var candidates := ListEligible(pool.ranked, w.cfg.poolSize, ReplacementExcluded(w.assignments));
            ReplacementRound(w, pool) ==
            SoftFail(NoteReachability(w, |candidates|, |Within(candidates, pool.reachable)|))
  {
  }

  lemma SoftFailLeaves(w: World, since: Option<int>)
    requires w.job.deadline.Some?
    ensures SoftFail(w.(job := w.job.(unreachableSince := since))) ==
            RoundLeaves(w, w.assignments, [w.now + Backoff(5_000, 60_000, w.job.offersSent)], w.job.failureReason, since)
  {
  }

  lemma VainReplacementRound(w: World, pool: Pool)
    requires SearchesInVain(w, pool)
    ensures ReplacementRound(w, pool) ==
            RoundLeaves(w, w.assignments, [w.now + Backoff(5_000, 60_000, w.job.offersSent)], w.job.failureReason,
                        SinceWhen(w, pool, Engaged(w.assignments)))
  {
    SoftRound(w, pool);
    ExclusionsAre(w.assignments);
    NotedExactly(w, pool, Engaged(w.assignments));
    SoftFailLeaves(w, SinceWhen(w, pool, Engaged(w.assignments)));
  }

  lemma ReliefIsVain(w: World, pool: Pool)
    requires SeeksRelief(w, StepProcessDispatch(pool)) && Invited(w, StepProcessDispatch(pool)) == []
    ensures SearchesInVain(EnsureSchedule(w), pool)
    ensures ProcessDispatch(w, pool) == ReplacementRound(EnsureSchedule(w), pool)
  {
    CountsAreSizes(w);
    ReliefPick(w, pool);
  }

  lemma VainReliefLeaves(w: World, pool: Pool)
    requires SeeksRelief(w, StepProcessDispatch(pool)) && Invited(w, StepProcessDispatch(pool)) == []
    ensures ProcessDispatch(w, pool) ==
            RoundLeaves(w, w.assignments, [w.now + Backoff(5_000, 60_000, w.job.offersSent)], w.job.failureReason,
                        SinceWhen(w, pool, Engaged(w.assignments)))
  {
    ReliefIsVain(w, pool);
    VainReplacementRound(EnsureSchedule(w), pool);
    LeavesAlike(w, pool, [w.now + Backoff(5_000, 60_000, w.job.offersSent)], Engaged(w.assignments));
  }

  // Setting the deadline first makes no difference.
  lemma LeavesAlike(w: World, pool: Pool, asked: seq<int>, barred: set<nat>)
    ensures RoundLeaves(EnsureSchedule(w), w.assignments, asked, w.job.failureReason,
                        SinceWhen(EnsureSchedule(w), pool, barred)) ==
            RoundLeaves(w, w.assignments, asked, w.job.failureReason, SinceWhen(w, pool, barred))
  {
    SeesAlike(w, EnsureSchedule(w), pool, barred);
  }

  lemma VainReliefObeys(w: World, pool: Pool)
    requires SeeksRelief(w, StepProcessDispatch(pool)) && Invited(w, StepProcessDispatch(pool)) == []
    ensures Law(w, StepProcessDispatch(pool), ProcessDispatch(w, pool))
  {
    VainReliefLeaves(w, pool);
    RoundLaw(w, StepProcessDispatch(pool), w.assignments, [w.now + Backoff(5_000, 60_000, w.job.offersSent)],
             w.job.failureReason, SinceWhen(w, pool, Engaged(w.assignments)));
  }

  lemma DispatchObeys(w: World, pool: Pool)
    requires Inv(w)
    ensures Law(w, StepProcessDispatch(pool), ProcessDispatch(w, pool))
  {
    if w.job.status.SeekingReplacement? {
      if !SeeksRelief(w, StepProcessDispatch(pool)) {
        PausedRoundObeys(w, pool);
      } else if Invited(w, StepProcessDispatch(pool)) == [] {
        VainReliefObeys(w, pool);
      } else {
        ReliefOfferObeys(w, pool);
      }
    } else if Short(w) {
      ShortRoundObeys(w, pool);
    } else {
      IdleRoundObeys(w, pool);
    }
  }
}
