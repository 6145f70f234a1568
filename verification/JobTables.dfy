/** The rows of one job as fields that the services update in place. `State` is the abstract value the protocol's
specification speaks of. */
module Tables {
  import opened Domain
  import opened Protocol
  import opened Invariants

  class JobTables {
    const cfg: Config
    var job: Job
    var assignments: seq<Assignment>
    var history: seq<HistoryEntry>
    var requests: seq<int>
    var invoiceDrafted: bool
    var now: int

    function State(): World
      reads this
    {
      World(cfg, job, assignments, history, requests, invoiceDrafted, now)
    }

    ghost predicate Valid()
      reads this
    {
      Inv(State())
    }

    /** Creates a job, with a first dispatch request when it is to be dispatched at once. */
    constructor (cfg: Config, requested: Positive, allowEarlyRelease: bool, earlyReleaseNeedsClient: bool,
                 autoDispatch: bool, now: int)
      ensures Initial(State()) && Valid()
      ensures this.cfg == cfg && job.requested == requested && this.now == now
      ensures job.deadline.Some? == (|requests| == 1) == autoDispatch
    {
      this.cfg := cfg;
      this.now := now;
      this.assignments := [];
      this.invoiceDrafted := false;
      var deadline := if autoDispatch then Some(now + cfg.dispatchWindow) else None;
      this.job := Job(Pending, requested, allowEarlyRelease, earlyReleaseNeedsClient, None, 0, deadline, None, None);
      this.history := [HistoryEntry(None, Pending)];
      this.requests := if autoDispatch then [now] else [];
      new;
      InitialInv(State());
    }

    /** Undoes a transaction: every row goes back to what it was. */
    method Rollback(saved: World)
      requires saved.cfg == cfg
      modifies this
      ensures State() == saved
    {
      job, assignments, history := saved.job, saved.assignments, saved.history;
      requests, invoiceDrafted, now := saved.requests, saved.invoiceDrafted, saved.now;
    }

    /** The version-checked status write: it lands only when the row still has the version that was read. */
    method UpdateOptimistic(i: nat, version: nat, to: AssignmentStatus) returns (landed: bool)
      requires i < |assignments|
      modifies this`assignments
      ensures landed <==> old(assignments)[i].version == version
      ensures assignments == if landed then old(assignments)[i := Bump(old(assignments)[i], to)] else old(assignments)
    {
      if assignments[i].version != version {
        return false;
      }
      assignments := assignments[i := assignments[i].(status := to, version := version + 1)];
      return true;
    }

    /** The same for an offer: besides the version it must still be an offer. */
    method TransitionOffered(i: nat, version: nat, to: AssignmentStatus) returns (landed: bool)
      requires i < |assignments|
      modifies this`assignments
      ensures landed <==> old(assignments)[i].version == version && old(assignments)[i].status.Offered?
      ensures assignments == if landed then old(assignments)[i := Bump(old(assignments)[i], to)] else old(assignments)
    {
      if assignments[i].version != version || !assignments[i].status.Offered? {
        return false;
      }
      assignments := assignments[i := assignments[i].(status := to, version := version + 1)];
      return true;
    }

    method EnqueueDispatch(due: int)
      modifies this`requests
      ensures State() == Enqueue(old(State()), due)
    {
      requests := requests + [due];
    }
  }

  // A call that may be refused: it either did what is expected, or left everything alone.
  ghost predicate Attempt(expected: Option<World>, before: World, done: bool, after: World) {
    done == expected.Some? && after == if done then expected.value else before
  }
}
