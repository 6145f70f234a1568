/** Dispatch rounds that find nobody try again after a bounded wait, and only so many times before the deadline fails
the job. */
module RetryChain {
  import opened Domain
  import opened Counting
  import opened Eligibility
  import opened Protocol
  import opened Invariants
  import opened Runs

  // A round on a searching job that has slots to offer and finds nobody to offer them to.
  predicate CandidateLess(w: World, pool: RawPool) {
    Searching(w.job.status) && OpenSlots(w) != 0 && ParallelPicks(w, pool) == []
  }

  /** The wait doubles with every offer sent, from the base up to the cap. */
  lemma BackoffBounds(base: Positive, cap: int, n: nat)
    requires base <= cap
    ensures base <= Backoff(base, cap, n) <= cap
    ensures Backoff(base, cap, n) <= Backoff(base, cap, n + 1)
    ensures 4 <= n && cap <= 16 * base ==> Backoff(base, cap, n) == cap
  {
    assert base * 1 <= base * Pow2(n) by {
      MulMonotone(base, 1, Pow2(n));
    }
    MulMonotone(base, Pow2(n), Pow2(n + 1));
    if 4 <= n {
      PowGrows(4, n);
      MulMonotone(base, 16, Pow2(n));
    }
  }

  /** It starts at the base and doubles with every offer until it reaches the cap. */
  lemma BackoffDoubles(base: Positive, cap: int, n: nat)
    requires base <= cap
    ensures Backoff(base, cap, 0) == base
    ensures Backoff(base, cap, n + 1) == if 2 * Backoff(base, cap, n) < cap then 2 * Backoff(base, cap, n) else cap
  {
    assert base * Pow2(n + 1) == 2 * (base * Pow2(n));
    assert Pow2(0) == 1;
  }

  lemma MulMonotone(a: Positive, x: int, y: int)
    requires x <= y
    ensures a * x <= a * y
  {
  }

  lemma {:induction false} PowGrows(m: nat, n: nat)
    requires m <= n
    ensures Pow2(m) <= Pow2(n)
    decreases n
  {
    if m < n {
      PowGrows(m, n - 1);
    }
  }

  /** Whatever the pool, a round at or after the deadline fails a searching job with a timeout. */
  lemma DeadlineFails(w: World, pool: Pool)
    requires Searching(w.job.status) && !FullyStaffed(w) && TimedOut(w)
    ensures ProcessDispatch(w, pool).job.status.JobFailed?
    ensures ProcessDispatch(w, pool).job.failureReason == Some(DispatchTimeout)
    ensures forall i :: 0 <= i < |w.assignments| ==> !ProcessDispatch(w, pool).assignments[i].status.Offered?
  {
    var after := ProcessDispatch(w, pool);
    forall i | 0 <= i < |w.assignments| ensures !after.assignments[i].status.Offered? {
      assert IsOffer(w.assignments[i]) ==> after.assignments[i].status.Cancelled?;
    }
  }

  lemma RetryOrFailReschedules(w: World, pool: Pool)
    requires !RetryOrFail(w, pool).job.status.JobFailed?
    ensures RetryOrFail(w, pool) == Enqueue(w, w.now + Backoff(2_000, 30_000, w.job.offersSent))
  {
  }

  // What the pool looked like to an empty round.
  function Noted(w: World, pool: RawPool): World {
    var candidates := ListEligible(pool.ranked, w.cfg.poolSize, Excluded(w.assignments));
    NoteReachability(w, |candidates|, |Within(candidates, pool.reachable)|)
  }

  lemma DispatchIsRetry(w: World, pool: Pool)
    requires CandidateLess(w, pool) && !ProcessDispatch(w, pool).job.status.JobFailed?
    ensures ProcessDispatch(w, pool) == RetryOrFail(Noted(EnsureSchedule(w), pool), pool)
    ensures w.job.deadline.Some? ==> w.now < w.job.deadline.value
  {
    var w' := EnsureSchedule(w);
    assert ParallelPicks(w', pool) == ParallelPicks(w, pool);
    assert ProcessDispatch(w, pool) == OrdinaryDispatch(w', pool);
    assert OrdinaryDispatch(w', pool) == OrdinaryRound(w', pool);
  }

  /** A round that finds nobody and does not fail the job leaves the job's status and rows alone, sets a deadline only if
  there is none, and asks for another round between 2 and 30 seconds later; and it was before the deadline. */
  lemma EmptyRoundReschedules(w: World, pool: Pool)
    requires CandidateLess(w, pool) && !ProcessDispatch(w, pool).job.status.JobFailed?
    ensures var w' := ProcessDispatch(w, pool);
            var due := w.now + Backoff(2_000, 30_000, w.job.offersSent);
            && w' == w.(job := w.job.(unreachableSince := w'.job.unreachableSince, deadline := w'.job.deadline),
                        requests := w.requests + [due])
            && w.now + 2_000 <= due <= w.now + 30_000
            && w'.job.deadline ==
               (if w.job.deadline.Some? then w.job.deadline else Some(w.now + w.cfg.dispatchWindow))
            && w.now < w'.job.deadline.value
  {
    assert 2_000 <= Backoff(2_000, 30_000, w.job.offersSent) <= 30_000 by {
      BackoffBounds(2_000, 30_000, w.job.offersSent);
    }
    DispatchIsRetry(w, pool);
    NotedIsRescheduled(EnsureSchedule(w), pool);
  }

  lemma NotedIsRescheduled(w: World, pool: Pool)
    requires !RetryOrFail(Noted(w, pool), pool).job.status.JobFailed?
    ensures var t := RetryOrFail(Noted(w, pool), pool);
            t == w.(job := w.job.(unreachableSince := t.job.unreachableSince),
                    requests := w.requests + [w.now + Backoff(2_000, 30_000, w.job.offersSent)])
  {
    RetryOrFailReschedules(Noted(w, pool), pool);
  }

  // The steps of a run listed in `idx` are empty rounds that each leave the job searching, all under the deadline
  // `deadline`, each run no earlier than the one before asked for.
  ghost predicate Retries(ws: seq<World>, steps: seq<Step>, idx: seq<nat>, deadline: int) {
    && Run(ws, steps)
    && (forall j :: 0 <= j < |idx| ==> idx[j] < |steps|)
    && (forall j {:trigger EmptyAt(ws, steps, idx[j], deadline)} :: 0 <= j < |idx| ==>
          EmptyAt(ws, steps, idx[j], deadline))
    && (forall j {:trigger DueAfter(ws, idx, j)} :: 1 <= j < |idx| ==> DueAfter(ws, idx, j))
  }

  ghost predicate EmptyAt(ws: seq<World>, steps: seq<Step>, k: nat, deadline: int)
    requires |ws| == |steps| + 1 && k < |steps|
  {
    && steps[k].StepProcessDispatch?
    && CandidateLess(ws[k], steps[k].pool)
    && ws[k].job.deadline == Some(deadline)
    && !ws[k + 1].job.status.JobFailed?
  }

  // An event is claimed only when it is due.
  ghost predicate DueAfter(ws: seq<World>, idx: seq<nat>, j: nat)
    requires 1 <= j < |idx| && idx[j] < |ws| && idx[j - 1] + 1 < |ws|
  {
    var asked := ws[idx[j - 1] + 1].requests;
    idx[j - 1] < idx[j] && asked != [] && asked[|asked| - 1] <= ws[idx[j]].now
  }

  lemma RetryAsks(ws: seq<World>, steps: seq<Step>, idx: seq<nat>, deadline: int, j: nat)
    requires Retries(ws, steps, idx, deadline) && j < |idx|
    ensures ws[idx[j]].now < deadline
    ensures var asked := ws[idx[j] + 1].requests;
            asked != [] && ws[idx[j]].now + 2_000 <= asked[|asked| - 1]
  {
    assert Follows(ws, steps, idx[j]) && EmptyAt(ws, steps, idx[j], deadline);
    EmptyRoundReschedules(ws[idx[j]], steps[idx[j]].pool);
  }

  lemma {:induction false} RetriesSpreadOut(ws: seq<World>, steps: seq<Step>, idx: seq<nat>, deadline: int, j: nat)
    requires Retries(ws, steps, idx, deadline) && j < |idx|
    ensures ws[idx[0]].now + 2_000 * j <= ws[idx[j]].now < deadline
  {
    RetryAsks(ws, steps, idx, deadline, j);
    if 0 < j {
      RetriesSpreadOut(ws, steps, idx, deadline, j - 1);
      RetryAsks(ws, steps, idx, deadline, j - 1);
      assert DueAfter(ws, idx, j);
    }
  }

  /** In one chain, each round claiming the request of the one before, there are no more empty rounds than 2-second waits
  fit before an unchanged deadline. */
  lemma BoundedRetries(ws: seq<World>, steps: seq<Step>, idx: seq<nat>, deadline: int)
    requires Retries(ws, steps, idx, deadline) && idx != []
    ensures |idx| <= (deadline - ws[idx[0]].now + 1_999) / 2_000
  {
    RetriesSpreadOut(ws, steps, idx, deadline, |idx| - 1);
  }

  /** Along a run the first round at or after the deadline of a job that is still searching fails it. */
  lemma DeadlineRoundFails(ws: seq<World>, steps: seq<Step>, k: nat)
    requires Run(ws, steps) && k < |steps| && steps[k].StepProcessDispatch?
    requires Searching(ws[k].job.status) && TimedOut(ws[k])
    ensures ws[k + 1].job.status.JobFailed? && ws[k + 1].job.failureReason == Some(DispatchTimeout)
  {
    StatusAgreesWithCount(ws, steps, k);
    assert Follows(ws, steps, k);
    DeadlineFails(ws[k], steps[k].pool);
  }
}
