/** All the rounds of a run that find nobody: however many chains of requests there are, each adds only so many. */
module RetryTotal {
  import opened Domain
  import opened Counting
  import opened Eligibility
  import opened Protocol
  import opened Runs
  import opened RetryChain

  // ---------- requests are only ever added ----------

  lemma DispatchAddsRequests(w: World, pool: Pool)
    ensures w.requests <= ProcessDispatch(w, pool).requests
  {
    var w' := EnsureSchedule(w);
    RoundAddsRequests(w', pool);
    assert w.requests <= ReplacementRound(w', pool).requests;
  }

  lemma EmptyRoundAddsRequests(w: World, pool: Pool)
    ensures w.requests <= EmptyRound(w, pool).requests
  {
  }

  lemma RoundAddsRequests(w: World, pool: Pool)
    ensures w.requests <= OrdinaryDispatch(w, pool).requests
  {
    OffersAddNone(w, ParallelPicks(w, pool));
    EmptyRoundAddsRequests(w, pool);
  }

  lemma {:induction false} OffersAddNone(w: World, guardians: seq<nat>)
    ensures CreateOffers(w, guardians, None).requests == w.requests
    decreases |guardians|
  {
    if guardians != [] {
      OffersAddNone(CreateOffer(w, guardians[0], None), guardians[1..]);
    }
  }

  lemma OfferStepsAdd(w: World, i: nat, g: nat, pool: Pool)
    ensures w.requests <= Accept(w, i, g).world.requests
    ensures w.requests <= Decline(w, i, g).world.requests
    ensures w.requests <= ExpireOffer(w, i, pool).requests
  {
  }

  lemma NoShowAdds(w: World, i: nat)
    ensures w.requests <= ReportNoShow(w, i).world.requests
  {
  }

  lemma SiteStepsAdd(w: World, i: nat, g: nat)
    ensures w.requests <= ArriveOnSite(w, i, g).world.requests
    ensures w.requests <= ApproveReplacement(w, i).world.requests
    ensures w.requests <= Complete(w, i, g).world.requests
  {
  }

  lemma JobStepsAdd(w: World, pool: Pool)
    ensures w.requests <= RequestDispatch(w).world.requests
    ensures w.requests <= ResumeReplacement(w).world.requests
    ensures w.requests <= FailOverdue(w).requests
    ensures w.requests <= FailExhausted(w, pool).requests
    ensures w.requests <= Cancel(w).world.requests
  {
  }

  lemma StepAddsRequests(w: World, step: Step)
    ensures w.requests <= Apply(w, step).requests
  {
    match step
    case StepProcessDispatch(pool) => DispatchAddsRequests(w, pool);
    case StepAccept(i, g) => OfferStepsAdd(w, i, g, RawPool([], 0, {}));
    case StepDecline(i, g) => OfferStepsAdd(w, i, g, RawPool([], 0, {}));
    case StepExpireOffer(i, pool) => OfferStepsAdd(w, i, 0, pool);
    case StepReportNoShow(i) => NoShowAdds(w, i);
    case StepArriveOnSite(i, g) => SiteStepsAdd(w, i, g);
    case StepApproveReplacement(i) => SiteStepsAdd(w, i, 0);
    case StepComplete(i, g) => SiteStepsAdd(w, i, g);
    case StepRequestDispatch => JobStepsAdd(w, RawPool([], 0, {}));
    case StepResumeReplacement => JobStepsAdd(w, RawPool([], 0, {}));
    case StepFailOverdue => JobStepsAdd(w, RawPool([], 0, {}));
    case StepFailExhausted(pool) => JobStepsAdd(w, pool);
    case StepCancel => JobStepsAdd(w, RawPool([], 0, {}));
    case _ =>
  }

  lemma {:induction false} RequestsGrow(ws: seq<World>, steps: seq<Step>, k: nat, m: nat)
    requires Run(ws, steps) && k <= m < |ws|
    ensures ws[k].requests <= ws[m].requests
    decreases m - k
  {
    if k < m {
      RequestsGrow(ws, steps, k, m - 1);
      assert Follows(ws, steps, m - 1);
      StepAddsRequests(ws[m - 1], steps[m - 1]);
    }
  }

  // ---------- rounds and the requests they claim ----------

  // The steps listed in `idx`, in order, are empty rounds under the deadline, and the j-th claims request `req[j]`: one
  // that has been made and is due, and that no other round claims.
  ghost predicate Claims(ws: seq<World>, steps: seq<Step>, idx: seq<nat>, req: seq<nat>, deadline: int) {
    && Run(ws, steps) && |req| == |idx| && Distinct(req)
    && (forall j :: 0 <= j < |idx| ==> idx[j] < |steps|)
    && (forall a, b :: 0 <= a < b < |idx| ==> idx[a] < idx[b])
    && (forall j {:trigger EmptyAt(ws, steps, idx[j], deadline)} :: 0 <= j < |idx| ==>
          EmptyAt(ws, steps, idx[j], deadline))
    && (forall j :: 0 <= j < |idx| ==>
          req[j] < |ws[idx[j]].requests| && ws[idx[j]].requests[req[j]] <= ws[idx[j]].now)
  }

  // The request the j-th round makes is the next one in the list.
  ghost predicate Makes(ws: seq<World>, idx: seq<nat>, j: nat, q: nat)
    requires j < |idx| && idx[j] < |ws|
  {
    |ws[idx[j]].requests| == q
  }

  // The claimed requests that no listed round made: the starts of the chains.
  ghost function Starts(ws: seq<World>, idx: seq<nat>, req: seq<nat>): set<nat>
    requires |req| == |idx| && forall j :: 0 <= j < |idx| ==> idx[j] < |ws|
  {
    set j | 0 <= j < |idx| && (forall i :: 0 <= i < |idx| ==> !Makes(ws, idx, i, req[j])) :: req[j]
  }

  // The round that made the request of round `j`, if a listed one did.
  ghost function Parent(ws: seq<World>, idx: seq<nat>, req: seq<nat>, j: nat): (p: Option<nat>)
    requires j < |idx| == |req| && forall i :: 0 <= i < |idx| ==> idx[i] < |ws|
    ensures p.Some? ==> p.value < j && Makes(ws, idx, p.value, req[j])
    ensures p.None? ==> forall i :: 0 <= i < j ==> !Makes(ws, idx, i, req[j])
  {
    if exists i: nat :: i < j && Makes(ws, idx, i, req[j]) then
      var i: nat :| i < j && Makes(ws, idx, i, req[j]);
      Some(i)
    else None
  }

  // Where the chain of round `j` starts, and how many rounds of it come before.
  ghost function Place(ws: seq<World>, idx: seq<nat>, req: seq<nat>, j: nat): (nat, nat)
    requires j < |idx| == |req| && forall i :: 0 <= i < |idx| ==> idx[i] < |ws|
    decreases j
  {
    match Parent(ws, idx, req, j)
    case None => (req[j], 0)
    case Some(i) => (Place(ws, idx, req, i).0, Place(ws, idx, req, i).1 + 1)
  }

  lemma RoundMakes(ws: seq<World>, steps: seq<Step>, idx: seq<nat>, req: seq<nat>, deadline: int, j: nat)
    requires Claims(ws, steps, idx, req, deadline) && j < |idx|
    ensures ws[idx[j]].now < deadline
    ensures var q := |ws[idx[j]].requests|;
            |ws[idx[j] + 1].requests| == q + 1 && ws[idx[j]].now + 2_000 <= ws[idx[j] + 1].requests[q]
  {
    assert Follows(ws, steps, idx[j]) && EmptyAt(ws, steps, idx[j], deadline);
    EmptyRoundReschedules(ws[idx[j]], steps[idx[j]].pool);
  }

  // A round runs at least two seconds after the round that made its request, which is an earlier one.
  lemma AfterParent(ws: seq<World>, steps: seq<Step>, idx: seq<nat>, req: seq<nat>, deadline: int, i: nat, j: nat)
    requires Claims(ws, steps, idx, req, deadline) && i < |idx| && j < |idx| && Makes(ws, idx, i, req[j])
    ensures i < j && ws[idx[i]].now + 2_000 <= ws[idx[j]].now
  {
    if idx[j] <= idx[i] {
      RequestsGrow(ws, steps, idx[j], idx[i]);
      assert false;
    }
    RoundMakes(ws, steps, idx, req, deadline, i);
    RequestsGrow(ws, steps, idx[i] + 1, idx[j]);
    var q := req[j];
    assert ws[idx[i] + 1].requests[q] == ws[idx[j]].requests[q];
  }

  lemma {:induction false} PlaceInTime(
    ws: seq<World>, steps: seq<Step>, idx: seq<nat>, req: seq<nat>, deadline: int, j: nat, from: int)
    requires Claims(ws, steps, idx, req, deadline) && j < |idx|
    requires forall i :: 0 <= i < |idx| ==> from <= ws[idx[i]].now
    ensures var place := Place(ws, idx, req, j);
            place.0 in Starts(ws, idx, req) && from + 2_000 * place.1 <= ws[idx[j]].now < deadline
    decreases j
  {
    RoundMakes(ws, steps, idx, req, deadline, j);
    match Parent(ws, idx, req, j)
    case None =>
      forall i: nat | i < |idx| ensures !Makes(ws, idx, i, req[j]) {
        if Makes(ws, idx, i, req[j]) {
          AfterParent(ws, steps, idx, req, deadline, i, j);
        }
      }
    case Some(i) =>
      AfterParent(ws, steps, idx, req, deadline, i, j);
      PlaceInTime(ws, steps, idx, req, deadline, i, from);
  }

  // No two rounds share a place.
  lemma {:induction false} OwnPlace(
    ws: seq<World>, steps: seq<Step>, idx: seq<nat>, req: seq<nat>, deadline: int, a: nat, b: nat)
    requires Claims(ws, steps, idx, req, deadline) && a < |idx| && b < |idx|
    requires Place(ws, idx, req, a) == Place(ws, idx, req, b)
    ensures a == b
    decreases a
  {
    match Parent(ws, idx, req, a)
    case None =>
      assert req[a] == req[b];
    case Some(i) =>
      var k := Parent(ws, idx, req, b).value;
      OwnPlace(ws, steps, idx, req, deadline, i, k);
      assert req[a] == req[b];
  }

  // ---------- counting places ----------

  ghost function Grid(starts: set<nat>, rows: nat): set<(nat, nat)> {
    set q, d | q in starts && 0 <= d < rows :: (q, d)
  }

  ghost function Row(starts: set<nat>, d: nat): set<(nat, nat)> {
    set q | q in starts :: (q, d)
  }

  lemma GridStep(starts: set<nat>, d: nat)
    ensures Grid(starts, d + 1) == Grid(starts, d) + Row(starts, d) && Grid(starts, d) !! Row(starts, d)
  {
  }

  lemma {:induction false} GridSize(starts: set<nat>, rows: nat)
    ensures |Grid(starts, rows)| == |starts| * rows
    decreases rows
  {
    if rows == 0 {
      assert Grid(starts, 0) == {};
    } else {
      GridSize(starts, rows - 1);
      RowSize(starts, rows - 1);
      GridStep(starts, rows - 1);
    }
  }

  lemma {:induction false} RowSize(starts: set<nat>, d: nat)
    ensures |Row(starts, d)| == |starts|
    decreases |starts|
  {
    if starts == {} {
      assert Row(starts, d) == {};
    } else {
      var x :| x in starts;
      var rest := starts - {x};
      RowSize(rest, d);
      assert Row(starts, d) == Row(rest, d) + {(x, d)};
      assert (x, d) !in Row(rest, d);
    }
  }

  lemma {:induction false} DistinctFit<T>(s: seq<T>, pool: set<T>)
    requires Distinct(s) && forall k :: 0 <= k < |s| ==> s[k] in pool
    ensures |s| <= |pool|
    decreases |s|
  {
    if s != [] {
      var last := |s| - 1;
      DistinctFit(s[..last], pool - {s[last]});
    }
  }

  /** Along a run, with an unchanged deadline, the rounds that find nobody number no more than the 2-second waits that fit
  before the deadline for every request of theirs that did not come from such a round itself. */
  lemma AllRetriesBounded(ws: seq<World>, steps: seq<Step>, idx: seq<nat>, req: seq<nat>, deadline: int, from: int)
    requires Claims(ws, steps, idx, req, deadline) && from <= deadline
    requires forall i :: 0 <= i < |idx| ==> from <= ws[idx[i]].now
    ensures |idx| <= |Starts(ws, idx, req)| * ((deadline - from + 1_999) / 2_000)
  {
    var rows := (deadline - from + 1_999) / 2_000;
    var starts := Starts(ws, idx, req);
    var places := seq(|idx|, j requires 0 <= j < |idx| => Place(ws, idx, req, j));
    forall j | 0 <= j < |places| ensures places[j] in Grid(starts, rows) {
      PlaceInTime(ws, steps, idx, req, deadline, j, from);
    }
    forall a, b | 0 <= a < b < |places| ensures places[a] != places[b] {
      if places[a] == places[b] {
        OwnPlace(ws, steps, idx, req, deadline, a, b);
      }
    }
    DistinctFit(places, Grid(starts, rows));
    GridSize(starts, rows);
  }
}
