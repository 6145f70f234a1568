/** The rows the staffing protocol works on: one job, its assignments, its status history and its outbox requests.

An assignment is identified by its position in the job's sequence of assignments: rows are only ever appended.
Times are integer milliseconds. */
module Domain {

  datatype Option<+T> = None | Some(value: T)

  type Positive = x: int | 0 < x witness 1

  datatype JobStatus =
    | Pending
    | Dispatching
    | PartiallyAssigned
    | Assigned
    | InProgress
    | SeekingReplacement
    | AwaitingConfirmation
    | JobCompleted
    | JobFailed
    | JobCancelled

  datatype AssignmentStatus =
    | Offered
    | Accepted
    | Declined
    | Expired
    | EnRoute
    | OnSite
    | EarlyReleaseRequested
    | ReplacementRequested
    | AwaitingRelief
    | Completed
    | NoShow
    | Cancelled

  datatype EarlyReleaseResolution = EarlyApproved | EarlyRejected | EarlyAutoApproved

  datatype ReplacementResolution = ReplacementApproved | ReplacementDenied

  datatype FailureReason =
    | DispatchTimeout
    | PoolExhausted
    | UnreachablePool
    | MaxOffersExceeded
    | ReplacementTimeout
    | ReplacementExhausted

  datatype Assignment = Assignment(
    guardian: nat,
    round: nat,
    status: AssignmentStatus,
    version: nat,
    relieves: Option<nat>,
    expiresAt: int,
    arrivedAt: Option<int>,
    completedAt: Option<int>,
    earlyResolution: Option<EarlyReleaseResolution>,
    replacementRequestedAt: Option<int>,
    replacementResolution: Option<ReplacementResolution>)

  datatype Job = Job(
    status: JobStatus,
    requested: nat,
    allowEarlyRelease: bool,
    earlyReleaseNeedsClient: bool,
    departing: Option<nat>,
    offersSent: nat,
    deadline: Option<int>,
    failureReason: Option<FailureReason>,
    unreachableSince: Option<int>)

  /** One row of the status history; the first row of a job has no old status. */
  datatype HistoryEntry = HistoryEntry(oldStatus: Option<JobStatus>, newStatus: JobStatus)

  /** The dispatch limits and windows, each a positive integer read from the environment. */
  datatype Config = Config(
    offerTtl: Positive,
    dispatchWindow: Positive,
    poolSize: Positive,
    maxOffers: Positive,
    maxReplacementOffers: Positive,
    unreachableGrace: Positive,
    parallelOffers: Positive)

  /** The state of one job. `requests` holds the due time of every dispatch request put in the outbox. */
  datatype World = World(
    cfg: Config,
    job: Job,
    assignments: seq<Assignment>,
    history: seq<HistoryEntry>,
    requests: seq<int>,
    invoiceDrafted: bool,
    now: int)

  datatype Reply = Done | NotFound | BadRequest | Conflict

  /** What a service call leaves behind: a refused call usually, but not always, leaves the state as it was. */
  datatype Outcome = Outcome(world: World, reply: Reply)

  predicate IsApproved(r: Option<EarlyReleaseResolution>) {
    r == Some(EarlyApproved) || r == Some(EarlyAutoApproved)
  }

  predicate Distinct<T(==)>(s: seq<T>) {
    forall i, j :: 0 <= i < j < |s| ==> s[i] != s[j]
  }

  /** What a dispatch round sees of the guardians: the eligible ones not locked by another round, best reliability
  first; a separate count of the eligible; and which of them are reachable. */
  datatype RawPool = RawPool(ranked: seq<nat>, eligibleCount: nat, reachable: set<nat>)

  type Pool = p: RawPool | Distinct(p.ranked) witness RawPool([], 0, {})
}
