/** The outbox: events move through their statuses, are claimed when due, and are retried or not. */
module Outbox {
  import opened Domain
  import opened Protocol

  datatype EventStatus = EventPending | Processing | EventCompleted | EventFailed | DeadLetter

  datatype Event = Event(status: EventStatus, retries: nat, scheduledAt: int)

  const MAX_RETRIES := 5

  function Enqueued(s: seq<Event>, due: int): seq<Event> {
    s + [Event(EventPending, 0, due)]
  }

  // What a claim may take: pending events that are due, earliest first, no more than the limit.
  ghost predicate MayClaim(s: seq<Event>, ids: seq<nat>, now: int, limit: nat) {
    && Distinct(ids) && |ids| <= limit
    && (forall k :: 0 <= k < |ids| ==> ids[k] < |s| && s[ids[k]].status.EventPending? && s[ids[k]].scheduledAt <= now)
    && (forall a, b :: 0 <= a < b < |ids| ==> s[ids[a]].scheduledAt <= s[ids[b]].scheduledAt)
  }

  function Claimed(s: seq<Event>, ids: seq<nat>): seq<Event> {
    seq(|s|, e requires 0 <= e < |s| => if e in ids then s[e].(status := Processing) else s[e])
  }

  function CompletedEvent(e: Event): Event {
    e.(status := EventCompleted)
  }

  function RetryDelay(retries: nat): int {
    if Pow2(retries) * 1_000 < 60_000 then Pow2(retries) * 1_000 else 60_000
  }

  // The event as it was when claimed is what counts its retries.
  function FailedEvent(e: Event, now: int): Event {
    var next := e.retries + 1;
    if MAX_RETRIES <= next then e.(status := DeadLetter, retries := next)
    else e.(status := EventFailed, retries := next, scheduledAt := now + RetryDelay(next))
  }

  class OutboxTable {
    var events: seq<Event>

    constructor ()
      ensures events == []
    {
      events := [];
    }

    method Enqueue(due: int)
      modifies this
      ensures events == Enqueued(old(events), due)
    {
      events := events + [Event(EventPending, 0, due)];
    }

    // The query chooses `ids`; the claim marks them.
    method ClaimBatch(ids: seq<nat>, now: int, limit: nat) returns (batch: seq<Event>)
      requires MayClaim(events, ids, now, limit)
      modifies this
      ensures events == Claimed(old(events), ids)
      ensures |batch| == |ids|
      ensures forall k :: 0 <= k < |ids| ==> batch[k] == old(events)[ids[k]].(status := Processing)
    {
      var taken := Claimed(events, ids);
      events := taken;
      batch := seq(|ids|, k requires 0 <= k < |ids| && ids[k] < |taken| => taken[ids[k]]);
    }

    method MarkCompleted(e: nat)
      requires e < |events|
      modifies this
      ensures events == old(events)[e := CompletedEvent(old(events)[e])]
    {
      events := events[e := events[e].(status := EventCompleted)];
    }

    method MarkFailed(e: nat, now: int)
      requires e < |events|
      modifies this
      ensures events == old(events)[e := FailedEvent(old(events)[e], now)]
    {
      var next := events[e].retries + 1;
      var status := if MAX_RETRIES <= next then DeadLetter else EventFailed;
      var row := events[e].(status := status, retries := next);
      if status.EventFailed? {
        row := row.(scheduledAt := now + RetryDelay(next));
      }
      events := events[e := row];
    }
  }

  // ---------- runs ----------

  datatype OutboxStep =
    | DoEnqueue(due: int)
    | DoClaim(ids: seq<nat>, now: int, limit: nat)
    | DoComplete(e: nat)
    | DoFail(e: nat, now: int)

  // One step; the worker completes or fails only events it has claimed.
  ghost predicate Steps(s: seq<Event>, step: OutboxStep, t: seq<Event>) {
    match step
    case DoEnqueue(due) => t == Enqueued(s, due)
    case DoClaim(ids, now, limit) => MayClaim(s, ids, now, limit) && t == Claimed(s, ids)
    case DoComplete(e) => e < |s| && s[e].status.Processing? && t == s[e := CompletedEvent(s[e])]
    case DoFail(e, now) => e < |s| && s[e].status.Processing? && t == s[e := FailedEvent(s[e], now)]
  }

  ghost predicate Stepped(ts: seq<seq<Event>>, steps: seq<OutboxStep>, k: nat)
    requires |ts| == |steps| + 1 && k < |steps|
  {
    Steps(ts[k], steps[k], ts[k + 1])
  }

  ghost predicate OutboxRun(ts: seq<seq<Event>>, steps: seq<OutboxStep>) {
    && |ts| == |steps| + 1
    && ts[0] == []
    && forall k {:trigger Stepped(ts, steps, k)} :: 0 <= k < |steps| ==> Stepped(ts, steps, k)
  }

  predicate EventOk(e: Event) {
    && !e.status.DeadLetter?
    && (e.status.EventFailed? ==> e.retries == 1)
    && (!e.status.EventFailed? ==> e.retries == 0)
  }

  lemma {:induction false} EventsOk(ts: seq<seq<Event>>, steps: seq<OutboxStep>, k: nat, e: nat)
    requires OutboxRun(ts, steps) && k < |ts| && e < |ts[k]|
    ensures EventOk(ts[k][e])
  {
    if 0 < k {
      assert Stepped(ts, steps, k - 1);
      if e < |ts[k - 1]| {
        EventsOk(ts, steps, k - 1, e);
      }
    }
  }

  /** A failed event is not claimed again, so no event is ever tried twice and none ever becomes a dead letter, although
  the limit allows five tries. */
  lemma NoDeadLetters(ts: seq<seq<Event>>, steps: seq<OutboxStep>, k: nat, e: nat)
    requires OutboxRun(ts, steps) && k < |ts| && e < |ts[k]|
    ensures !ts[k][e].status.DeadLetter? && ts[k][e].retries <= 1
  {
    EventsOk(ts, steps, k, e);
  }

  /** An event that fails is put off by two seconds, the wait for a first failure, whenever that is: the longer waits are
  never reached. */
  lemma FailureWaits(ts: seq<seq<Event>>, steps: seq<OutboxStep>, k: nat)
    requires OutboxRun(ts, steps) && k < |steps| && steps[k].DoFail?
    ensures var e := steps[k].e;
            && e < |ts[k]| && |ts[k + 1]| == |ts[k]| && ts[k][e].status.Processing?
            && ts[k + 1][e] == Event(EventFailed, 1, steps[k].now + 2_000)
  {
    assert Stepped(ts, steps, k);
    EventsOk(ts, steps, k, steps[k].e);
    assert Pow2(1) == 2 * Pow2(0) == 2;
  }

  /** Once an event has been claimed it is never pending again: it is claimed at most once, and never before it is due. */
  lemma {:induction false} ClaimedOnce(ts: seq<seq<Event>>, steps: seq<OutboxStep>, k: nat, m: nat, e: nat)
    requires OutboxRun(ts, steps) && k < m < |ts| && steps[k].DoClaim? && e in steps[k].ids
    ensures e < |ts[k]| && ts[k][e].scheduledAt <= steps[k].now
    ensures e < |ts[m]| && !ts[m][e].status.EventPending?
    ensures m < |steps| && steps[m].DoClaim? ==> e !in steps[m].ids
    decreases m - k
  {
    assert Stepped(ts, steps, k);
    if k + 1 < m {
      ClaimedOnce(ts, steps, k, m - 1, e);
      assert Stepped(ts, steps, m - 1);
    }
    if m < |steps| {
      assert Stepped(ts, steps, m);
    }
  }
}
