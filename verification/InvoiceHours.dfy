/** The window an invoice is drafted for, and when it is worth the hours of all its officers. */
module InvoiceHours {
  import opened Domain
  import opened Counting
  import opened Protocol
  import opened Invariants
  import opened Runs
  import opened Durations
  import opened Coverage
  import opened Relief
  import Folding

  // ---------- the query ----------

  /** What the invoice query may return: the billable assignments, by time of arrival, ties in any order. */
  ghost predicate QueryResult(s: seq<Assignment>, rows: seq<nat>) {
    && Distinct(rows)
    && AllBillable(s, rows)
    && (forall i :: 0 <= i < |s| && Billable(s[i]) ==> i in rows)
    && (forall a, b :: 0 <= a < b < |rows| ==> s[rows[a]].arrivedAt.value <= s[rows[b]].arrivedAt.value)
  }

  ghost predicate AllBillable(s: seq<Assignment>, rows: seq<nat>) {
    forall k :: 0 <= k < |rows| ==> rows[k] < |s| && Billable(s[rows[k]])
  }

  function RowWindow(a: Assignment): Window
    requires Billable(a)
  {
    Window(a.arrivedAt.value, a.completedAt.value)
  }

  ghost function Windows(s: seq<Assignment>, rows: seq<nat>): (windows: seq<Window>)
    requires AllBillable(s, rows)
    ensures |windows| == |rows|
  {
    seq(|rows|, k requires 0 <= k < |rows| => RowWindow(s[rows[k]]))
  }

  // The window the invoice is drafted for: from the first row's arrival to the last row's completion.
  ghost function InvoiceWindow(s: seq<Assignment>, rows: seq<nat>): Window
    requires AllBillable(s, rows) && rows != []
  {
    Window(s[rows[0]].arrivedAt.value, s[rows[|rows| - 1]].completedAt.value)
  }

  ghost function OfficerHours(s: seq<Assignment>, rows: seq<nat>): real
    requires AllBillable(s, rows)
  {
    TotalHours(Windows(s, rows))
  }

  // The invoice shows the officers' hours added up, in whatever order the query returns them.
  ghost predicate InvoiceRight(s: seq<Assignment>) {
    forall rows :: QueryResult(s, rows) && rows != [] ==> InvoiceWindow(s, rows).Hours() == OfficerHours(s, rows)
  }

  // ---------- the hours do not depend on the order ----------

  lemma HoursOfMore(s: seq<Assignment>, rows: seq<nat>)
    requires AllBillable(s, rows) && rows != []
    ensures var n := |rows| - 1;
            OfficerHours(s, rows) == OfficerHours(s, rows[..n]) + RowWindow(s[rows[n]]).Hours()
  {
    assert Windows(s, rows)[..|rows| - 1] == Windows(s, rows[..|rows| - 1]);
  }

  lemma {:induction false} HoursWithout(s: seq<Assignment>, rows: seq<nat>, k: nat)
    requires AllBillable(s, rows) && k < |rows|
    ensures OfficerHours(s, rows) == OfficerHours(s, rows[..k] + rows[k + 1..]) + RowWindow(s[rows[k]]).Hours()
  {
    var n := |rows| - 1;
    var front := rows[..n];
    HoursOfMore(s, rows);
    if k == n {
      assert rows[..k] + rows[k + 1..] == front;
    } else {
      HoursWithout(s, front, k);
      var rest := rows[..k] + rows[k + 1..];
      assert rest[..n - 1] == front[..k] + front[k + 1..] && rest[n - 1] == rows[n];
      HoursOfMore(s, rest);
    }
  }

  lemma {:induction false} HoursInAnyOrder(s: seq<Assignment>, a: seq<nat>, b: seq<nat>)
    requires AllBillable(s, a) && AllBillable(s, b) && Distinct(a) && Distinct(b)
    requires forall i :: i in a <==> i in b
    ensures OfficerHours(s, a) == OfficerHours(s, b)
  {
    if a == [] {
      Emptied(b, a);
    } else {
      var n := |a| - 1;
      assert a[n] in b;
      var k :| 0 <= k < |b| && b[k] == a[n];
      var rest := b[..k] + b[k + 1..];
      SameRest(a, b, k);
      HoursInAnyOrder(s, a[..n], rest);
      HoursOfMore(s, a);
      HoursWithout(s, b, k);
    }
  }

  lemma Emptied(a: seq<nat>, b: seq<nat>)
    requires forall i :: i in a ==> i in b
    ensures b == [] ==> a == []
  {
    if a != [] {
      assert a[0] in a;
    }
  }

  lemma SameRest(a: seq<nat>, b: seq<nat>, k: nat)
    requires a != [] && k < |b| && b[k] == a[|a| - 1] && Distinct(a) && Distinct(b)
    requires forall i :: i in a <==> i in b
    ensures var rest := b[..k] + b[k + 1..];
            Distinct(rest) && forall i :: i in a[..|a| - 1] <==> i in rest
  {
    var n := |a| - 1;
    var rest := b[..k] + b[k + 1..];
    forall i ensures i in a[..n] <==> i in rest {
      assert i in a <==> i in a[..n] || i == a[n];
      assert i in b <==> i in rest || i == b[k];
      assert b[k] !in rest by {
        assert forall x :: 0 <= x < |rest| ==> rest[x] == b[if x < k then x else x + 1];
      }
    }
    assert forall x :: 0 <= x < |rest| ==> rest[x] == b[if x < k then x else x + 1];
  }

  lemma QueryMembers(s: seq<Assignment>, rows: seq<nat>, i: nat)
    requires QueryResult(s, rows)
    ensures i in rows <==> i < |s| && Billable(s[i])
  {
    if i in rows {
      var k :| 0 <= k < |rows| && rows[k] == i;
      assert Billable(s[rows[k]]);
    }
  }

  lemma SameHours(s: seq<Assignment>, a: seq<nat>, b: seq<nat>)
    requires QueryResult(s, a) && QueryResult(s, b)
    ensures OfficerHours(s, a) == OfficerHours(s, b)
    ensures forall i :: i in a <==> i in b
  {
    forall i: nat ensures i in a <==> i in b {
      QueryMembers(s, a, i);
      QueryMembers(s, b, i);
    }
    HoursInAnyOrder(s, a, b);
  }

  // ---------- officers who took over from each other ----------

  /** The billable assignments, each arriving at the instant the one before completes. */
  ghost predicate HandedOver(s: seq<Assignment>, f: seq<nat>) {
    QueryResult(s, f) && Unbroken(Windows(s, f))
  }

  // There is only one officer, or nobody arrived together with the last one, or the last one left on arriving.
  ghost predicate LastTold(s: seq<Assignment>, f: seq<nat>)
    requires AllBillable(s, f) && f != []
  {
    var n := |f| - 1;
    n == 0 || s[f[n - 1]].arrivedAt != s[f[n]].arrivedAt || s[f[n]].completedAt == s[f[n]].arrivedAt
  }

  lemma ChainHours(s: seq<Assignment>, f: seq<nat>)
    requires HandedOver(s, f) && f != []
    ensures InvoiceWindow(s, f).Hours() == OfficerHours(s, f)
    ensures s[f[0]].arrivedAt.value <= s[f[|f| - 1]].arrivedAt.value <= s[f[|f| - 1]].completedAt.value
  {
    var windows := Windows(s, f);
    UnbrokenHoursAddUp(windows);
    assert windows[|f| - 1].from <= windows[|f| - 1].to;
    assert 0 < |f| - 1 ==> s[f[0]].arrivedAt.value <= s[f[|f| - 1]].arrivedAt.value;
  }

  // Whatever order the query picks, it starts with the first arrival and ends with the last.
  lemma EndsOfQuery(s: seq<Assignment>, f: seq<nat>, rows: seq<nat>) returns (j: nat)
    requires HandedOver(s, f) && f != [] && QueryResult(s, rows)
    ensures rows != [] && j < |f| && rows[|rows| - 1] == f[j]
    ensures s[rows[0]].arrivedAt == s[f[0]].arrivedAt
    ensures s[f[j]].arrivedAt == s[f[|f| - 1]].arrivedAt
  {
    SameHours(s, f, rows);
    var n, m := |f| - 1, |rows| - 1;
    assert f[0] in rows && f[n] in rows;
    assert rows[0] in f && rows[m] in f;
    j :| 0 <= j < |f| && f[j] == rows[m];
    var i :| 0 <= i < |f| && f[i] == rows[0];
    var x :| 0 <= x < |rows| && rows[x] == f[0];
    var y :| 0 <= y < |rows| && rows[y] == f[n];
  }

  // An officer tied with the last arrival completed at that same instant, or is the last.
  lemma TiedCompletion(s: seq<Assignment>, f: seq<nat>, j: nat)
    requires HandedOver(s, f) && j < |f| - 1 && s[f[j]].arrivedAt == s[f[|f| - 1]].arrivedAt
    ensures s[f[j]].completedAt == s[f[|f| - 1]].arrivedAt == s[f[|f| - 2]].arrivedAt
  {
    var n := |f| - 1;
    var windows := Windows(s, f);
    assert windows[j + 1].from == windows[j].to;
    assert s[f[j]].arrivedAt.value <= s[f[n - 1]].arrivedAt.value by {
      assert j < n - 1 || j == n - 1;
    }
    assert s[f[j]].arrivedAt.value <= s[f[j + 1]].arrivedAt.value;
    assert j + 1 < n ==> s[f[j + 1]].arrivedAt.value <= s[f[n]].arrivedAt.value;
    assert s[f[n - 1]].arrivedAt.value <= s[f[n]].arrivedAt.value;
  }

  // In any order the invoice shows no more than the officers' hours; and exactly them where the last is told apart.
  lemma QueryHours(s: seq<Assignment>, f: seq<nat>, rows: seq<nat>)
    requires HandedOver(s, f) && f != [] && QueryResult(s, rows)
    ensures rows != [] && InvoiceWindow(s, rows).Hours() <= OfficerHours(s, rows)
    ensures LastTold(s, f) ==> InvoiceWindow(s, rows).Hours() == OfficerHours(s, rows)
  {
    SameHours(s, f, rows);
    ChainHours(s, f);
    var j := EndsOfQuery(s, f, rows);
    if j < |f| - 1 {
      TiedCompletion(s, f, j);
      HoursMonotone(s[f[0]].arrivedAt.value, s[f[j]].completedAt.value,
                    s[f[0]].arrivedAt.value, s[f[|f| - 1]].completedAt.value);
    }
  }

  // The last two rows the other way round.
  function Swapped(f: seq<nat>): seq<nat>
    requires 2 <= |f|
  {
    f[..|f| - 2] + [f[|f| - 1], f[|f| - 2]]
  }

  lemma SwapIsAnswer(s: seq<Assignment>, f: seq<nat>)
    requires QueryResult(s, f) && 2 <= |f| && s[f[|f| - 2]].arrivedAt == s[f[|f| - 1]].arrivedAt
    ensures QueryResult(s, Swapped(f))
  {
    var n := |f| - 1;
    var r := Swapped(f);
    assert forall k :: 0 <= k < n - 1 ==> r[k] == f[k];
    assert r[n - 1] == f[n] && r[n] == f[n - 1];
    forall i | 0 <= i < |s| && Billable(s[i]) ensures i in r {
      var k :| 0 <= k < |f| && f[k] == i;
      assert r[if k == n then n - 1 else if k == n - 1 then n else k] == i;
    }
  }

  lemma SwapLosesHours(s: seq<Assignment>, f: seq<nat>)
    requires HandedOver(s, f) && f != [] && !LastTold(s, f)
    ensures QueryResult(s, Swapped(f))
    ensures InvoiceWindow(s, Swapped(f)).Hours() < OfficerHours(s, Swapped(f))
  {
    var n := |f| - 1;
    SwapIsAnswer(s, f);
    SameHours(s, f, Swapped(f));
    ChainHours(s, f);
    TiedCompletion(s, f, n - 1);
    assert Swapped(f)[0] == if n == 1 then f[1] else f[0];
    assert Swapped(f)[n] == f[n - 1];
    assert s[Swapped(f)[0]].arrivedAt == s[f[0]].arrivedAt;
  }

  /** Officers who took over from each other are billed their hours exactly, in whatever order the query returns them, if
  and only if the last of them is told apart. */
  lemma InvoiceRightExactly(s: seq<Assignment>, f: seq<nat>)
    requires HandedOver(s, f) && f != []
    ensures InvoiceRight(s) <==> LastTold(s, f)
  {
    if LastTold(s, f) {
      forall rows | QueryResult(s, rows) && rows != []
        ensures InvoiceWindow(s, rows).Hours() == OfficerHours(s, rows)
      {
        QueryHours(s, f, rows);
      }
    } else {
      SwapLosesHours(s, f);
    }
  }

  // ---------- along a run ----------

  // The completed part of the chain.
  function Finished(s: seq<Assignment>, c: seq<nat>): seq<nat>
    requires forall k :: 0 <= k < |c| ==> c[k] < |s|
  {
    if c != [] && !s[c[|c| - 1]].status.Completed? then c[..|c| - 1] else c
  }

  // Officers come in order of their assignments and of their arrivals.
  lemma {:induction false} ChainSorted(w: World, c: seq<nat>, x: nat, y: nat)
    requires Chain(w.assignments, c) && RowsOk(w.assignments, w.now) && x < y < |c|
    requires CountersOk(w.assignments, w.job.offersSent, w.cfg)
    ensures c[x] < c[y]
    ensures w.assignments[c[x]].arrivedAt.value <= w.assignments[c[y]].arrivedAt.value
    decreases y
  {
    assert Relieved(w.assignments, c, y - 1);
    assert RowOk(w.assignments[c[y - 1]], w.now) && IsSubstitute(w.assignments[c[y]]);
    if x < y - 1 {
      ChainSorted(w, c, x, y - 1);
    }
  }

  lemma FinishedIsBillable(w: World, c: seq<nat>)
    requires Chain(w.assignments, c) && RowsOk(w.assignments, w.now)
    ensures forall i :: i in Finished(w.assignments, c) <==> 0 <= i < |w.assignments| && Billable(w.assignments[i])
  {
    var s := w.assignments;
    var f := Finished(s, c);
    forall i | i in f ensures i < |s| && Billable(s[i]) {
      var k :| 0 <= k < |f| && f[k] == i;
      assert c[k] == i && RowOk(s[i], w.now);
      assert k < |c| - 1 ==> Relieved(s, c, k);
    }
    forall i | 0 <= i < |s| && Billable(s[i]) ensures i in f {
      assert i in c;
      var k :| 0 <= k < |c| && c[k] == i;
      assert f[k] == i;
    }
  }

  lemma FinishedIsAnswer(w: World, c: seq<nat>)
    requires Chain(w.assignments, c) && RowsOk(w.assignments, w.now)
    requires CountersOk(w.assignments, w.job.offersSent, w.cfg)
    ensures QueryResult(w.assignments, Finished(w.assignments, c))
  {
    var s := w.assignments;
    var f := Finished(s, c);
    FinishedIsBillable(w, c);
    assert forall k :: 0 <= k < |f| ==> f[k] in f;
    forall x, y | 0 <= x < y < |f|
      ensures f[x] != f[y] && s[f[x]].arrivedAt.value <= s[f[y]].arrivedAt.value
    {
      ChainSorted(w, c, x, y);
    }
  }

  lemma FinishedHandsOver(w: World, c: seq<nat>)
    requires Chain(w.assignments, c) && RowsOk(w.assignments, w.now)
    requires CountersOk(w.assignments, w.job.offersSent, w.cfg)
    ensures HandedOver(w.assignments, Finished(w.assignments, c))
  {
    var s := w.assignments;
    var f := Finished(s, c);
    FinishedIsAnswer(w, c);
    var windows := Windows(s, f);
    forall k | 0 <= k < |f| ensures windows[k].from <= windows[k].to {
      assert RowOk(s[f[k]], w.now);
    }
    forall k | 1 <= k < |f| ensures windows[k].from == windows[k - 1].to {
      assert Relieved(s, c, k - 1);
    }
  }

  /** A one-slot job relieved any number of times, every substitute arriving by handoff, is covered without a gap: put in
  order, each officer completes at the instant the next arrives. The hours on the invoice are the officers' hours added
  up, for every order the query may return, if and only if there is one officer, or nobody arrived together with the
  last, or the last left on arriving. */
  lemma CoverageIsContinuous(ws: seq<World>, steps: seq<Step>, m: nat) returns (f: seq<nat>)
    requires RelievedRun(ws, steps) && m < |ws|
    ensures HandedOver(ws[m].assignments, f)
    ensures f != [] ==> (InvoiceRight(ws[m].assignments) <==> LastTold(ws[m].assignments, f))
  {
    var c := RunChain(ws, steps, m);
    RunInv(ws, steps, m);
    f := Finished(ws[m].assignments, c);
    FinishedHandsOver(ws[m], c);
    if f != [] {
      InvoiceRightExactly(ws[m].assignments, f);
    }
  }

  /** Whatever the ties and whatever order the query returns, the officers together are paid for at least the hours billed
  by actual time, under any pay terms. */
  lemma PayCoversTheBill(
    ws: seq<World>, steps: seq<Step>, m: nat, rows: seq<nat>, scheduled: Window, minimum: real, terms: seq<PayTerms>)
    requires RelievedRun(ws, steps) && m < |ws|
    requires QueryResult(ws[m].assignments, rows) && rows != [] && |terms| == |rows|
    ensures var s := ws[m].assignments;
            BillableHours(BillActualTime, minimum, scheduled, InvoiceWindow(s, rows)) <=
            TotalPayable(terms, scheduled, Windows(s, rows))
  {
    var s := ws[m].assignments;
    var f := CoverageIsContinuous(ws, steps, m);
    SameHours(s, f, rows);
    assert rows[0] in f;
    QueryHours(s, f, rows);
    PayCoversCappedTotal(terms, scheduled, Windows(s, rows));
  }

  /** By the time the job is past its work everyone who ever arrived has completed and is on that invoice. */
  lemma EveryOfficerIsBilled(ws: seq<World>, steps: seq<Step>, m: nat, rows: seq<nat>)
    requires RelievedRun(ws, steps) && m < |ws| && Past(ws[m].job.status)
    requires QueryResult(ws[m].assignments, rows)
    ensures rows != []
    ensures forall i :: 0 <= i < |ws[m].assignments| && ws[m].assignments[i].arrivedAt.Some? ==>
              i in rows && ws[m].assignments[i].status.Completed?
  {
    var c := RunChain(ws, steps, m);
    RunInv(ws, steps, m);
    FinishedIsBillable(ws[m], c);
    assert c[|c| - 1] in Finished(ws[m].assignments, c);
  }

  // ---------- any number of slots ----------

  // Somebody was on site at this instant.
  ghost predicate OnSiteAt(s: seq<Assignment>, rows: seq<nat>, t: int)
    requires AllBillable(s, rows)
  {
    exists k :: 0 <= k < |rows| && StayedAt(s[rows[k]], t)
  }

  predicate StayedAt(a: Assignment, t: int)
    requires Billable(a)
  {
    a.arrivedAt.value <= t < a.completedAt.value
  }

  // Everyone but the first arrived before all the earlier ones had left.
  ghost predicate NoGap(s: seq<Assignment>, rows: seq<nat>)
    requires AllBillable(s, rows)
  {
    forall k {:trigger Joined(s, rows, k)} :: 0 < k < |rows| ==> Joined(s, rows, k)
  }

  ghost predicate Joined(s: seq<Assignment>, rows: seq<nat>, k: nat)
    requires AllBillable(s, rows) && k < |rows|
  {
    exists j :: 0 <= j < k && s[rows[k]].arrivedAt.value <= s[rows[j]].completedAt.value
  }

  ghost predicate Ordered(s: seq<Assignment>, rows: seq<nat>)
    requires AllBillable(s, rows)
  {
    forall k :: 0 <= k < |rows| ==> s[rows[k]].arrivedAt.value <= s[rows[k]].completedAt.value
  }

  // The last of the first `k + 1` to arrive by an instant at which the next had not.
  lemma {:induction false} LatestBy(s: seq<Assignment>, rows: seq<nat>, k: nat, t: int) returns (x: nat)
    requires QueryResult(s, rows) && k < |rows| && s[rows[0]].arrivedAt.value <= t
    ensures x <= k && s[rows[x]].arrivedAt.value <= t
    ensures x == k || t < s[rows[x + 1]].arrivedAt.value
  {
    x := k;
    if t < s[rows[k]].arrivedAt.value {
      x := LatestBy(s, rows, k - 1, t);
    }
  }

  lemma GaplessIsCovered(s: seq<Assignment>, rows: seq<nat>, t: int)
    requires QueryResult(s, rows) && rows != [] && NoGap(s, rows)
    requires s[rows[0]].arrivedAt.value <= t < s[rows[|rows| - 1]].completedAt.value
    ensures OnSiteAt(s, rows, t)
  {
    var x := LatestBy(s, rows, |rows| - 1, t);
    if x < |rows| - 1 {
      assert Joined(s, rows, x + 1);
      var j :| 0 <= j < x + 1 && s[rows[x + 1]].arrivedAt.value <= s[rows[j]].completedAt.value;
      assert StayedAt(s[rows[j]], t);
    } else {
      assert StayedAt(s[rows[x]], t);
    }
  }

  lemma GapIsIdle(s: seq<Assignment>, rows: seq<nat>, k: nat)
    requires QueryResult(s, rows) && Ordered(s, rows) && 0 < k < |rows| && !Joined(s, rows, k)
    ensures var t := s[rows[k]].arrivedAt.value - 1;
            && s[rows[0]].arrivedAt.value <= t < s[rows[|rows| - 1]].completedAt.value
            && !OnSiteAt(s, rows, t)
  {
    var t := s[rows[k]].arrivedAt.value - 1;
    assert s[rows[0]].completedAt.value <= t;
    forall x | 0 <= x < |rows| ensures !StayedAt(s[rows[x]], t) {
      assert x < k ==> s[rows[x]].completedAt.value <= t;
      assert k < x ==> s[rows[k]].arrivedAt.value <= s[rows[x]].arrivedAt.value;
    }
  }

  /** With any number of slots and handoffs: the invoice's window counts only time somebody was on site if and only if
  everyone but the first arrived before all the earlier ones had left; and it counts all of it if and only if nobody
  stayed on after the one who arrived last. */
  lemma WindowIsTimeOnSiteExactly(ws: seq<World>, steps: seq<Step>, m: nat, rows: seq<nat>)
    requires Run(ws, steps) && m < |ws| && QueryResult(ws[m].assignments, rows) && rows != []
    ensures var s := ws[m].assignments;
            var w := InvoiceWindow(s, rows);
            && ((forall t :: w.from <= t < w.to ==> OnSiteAt(s, rows, t)) <==> NoGap(s, rows))
            && ((forall t :: OnSiteAt(s, rows, t) ==> w.from <= t < w.to) <==>
                forall k :: 0 <= k < |rows| ==>
                  s[rows[k]].completedAt.value <= s[rows[|rows| - 1]].completedAt.value)
  {
    var s := ws[m].assignments;
    var w := InvoiceWindow(s, rows);
    RunInv(ws, steps, m);
    forall k | 0 <= k < |rows| ensures s[rows[k]].arrivedAt.value <= s[rows[k]].completedAt.value {
      assert RowOk(s[rows[k]], ws[m].now);
    }
    if NoGap(s, rows) {
      forall t | w.from <= t < w.to ensures OnSiteAt(s, rows, t) {
        GaplessIsCovered(s, rows, t);
      }
    } else {
      var k :| 0 < k < |rows| && !Joined(s, rows, k);
      GapIsIdle(s, rows, k);
    }
    StayingOn(s, rows);
  }

  lemma StayingOn(s: seq<Assignment>, rows: seq<nat>)
    requires QueryResult(s, rows) && rows != [] && Ordered(s, rows)
    ensures var w := InvoiceWindow(s, rows);
            (forall t :: OnSiteAt(s, rows, t) ==> w.from <= t < w.to) <==>
            forall k :: 0 <= k < |rows| ==> s[rows[k]].completedAt.value <= s[rows[|rows| - 1]].completedAt.value
  {
    var w := InvoiceWindow(s, rows);
    if k :| 0 <= k < |rows| && w.to < s[rows[k]].completedAt.value {
      assert s[rows[k]].arrivedAt.value <= s[rows[|rows| - 1]].arrivedAt.value;
      assert StayedAt(s[rows[k]], w.to) && OnSiteAt(s, rows, w.to);
    } else {
      assert forall k :: 0 < k < |rows| ==> s[rows[0]].arrivedAt.value <= s[rows[k]].arrivedAt.value;
    }
  }

  // ---------- a run that loses hours ----------

  // The officer is relieved at the very instant of arriving, the substitute works for an hour and completes.
  function TiedRun(): seq<Step> {
    SingleStart() + ReliefSteps(1, 0, 0, 1) + [StepTick(3_600_000)]
  }

  lemma TiedRuns()
    ensures var t := After(NewJob(1), TiedRun());
            && |t.assignments| == 2 && t.job.status.InProgress? && !t.invoiceDrafted
            && Billable(t.assignments[0]) && RowWindow(t.assignments[0]) == Window(0, 0)
            && t.assignments[1].status.OnSite? && IsSubstitute(t.assignments[1]) && t.assignments[1].guardian == 1
            && t.assignments[1].arrivedAt == Some(0) && t.now == 3_600_000
  {
    var w := NewJob(1);
    SingleStarts();
    var w1 := After(w, SingleStart());
    CountSingle(w1.assignments[0], IsSubstitute);
    ReliefCompletes(w1, 0, 1);
    Folding.AfterBoth(Apply, w, SingleStart(), ReliefSteps(1, 0, 0, 1));
    var w2 := After(w, SingleStart() + ReliefSteps(1, 0, 0, 1));
    assert Relieves(w1, w2, 0, 1);
    var tick := [StepTick(3_600_000)];
    Folding.AfterBoth(Apply, w, SingleStart() + ReliefSteps(1, 0, 0, 1), tick);
    assert tick[..0] == [] && After(w2, tick) == Apply(w2, tick[0]);
  }

  // The substitute of this run arrives while a replacement is sought.
  lemma SoughtOnTheWay()
    ensures After(NewJob(1), SingleStart() + OnTheWay(1, 0, 0, 1)).job.status.SeekingReplacement?
  {
    SingleStarts();
    var w1 := After(NewJob(1), SingleStart());
    CountSingle(w1.assignments[0], IsSubstitute);
    StillSought(w1, 0, 1);
    Folding.AfterBoth(Apply, NewJob(1), SingleStart(), OnTheWay(1, 0, 0, 1));
  }

  lemma TiedRunLaidOut()
    ensures TiedRun()[..9] == SingleStart() + OnTheWay(1, 0, 0, 1)
    ensures |TiedRun()| == 11
    ensures forall k :: 0 <= k < 11 && TiedRun()[k].StepArriveOnSite? ==>
              (k == 9 && TiedRun()[k].i == 1) || TiedRun()[k].i == 0
  {
  }

  lemma LastLeaves(w: World)
    requires |w.assignments| == 2 && w.job.status.InProgress? && !w.invoiceDrafted
    requires Billable(w.assignments[0]) && w.now == 3_600_000
    requires w.assignments[1].status.OnSite? && IsSubstitute(w.assignments[1]) && w.assignments[1].guardian == 1
    requires w.assignments[1].arrivedAt == Some(0)
    ensures var t := Apply(w, StepComplete(1, 1));
            && t.job.status.AwaitingConfirmation? && |t.assignments| == 2
            && t.assignments[0] == w.assignments[0]
            && Billable(t.assignments[1]) && RowWindow(t.assignments[1]) == Window(0, 3_600_000)
  {
    Completes(w, 1, 1);
    var w1 := Put(w, 1, Bump(w.assignments[1], Completed).(completedAt := Some(w.now)));
    CountZero(w1.assignments, IsActive);
    assert Billable(w1.assignments[1]);
  }

  lemma TwoRowsLoseHours(s: seq<Assignment>)
    requires |s| == 2 && Billable(s[0]) && Billable(s[1])
    requires RowWindow(s[0]) == Window(0, 0) && RowWindow(s[1]) == Window(0, 3_600_000)
    ensures QueryResult(s, [1, 0])
    ensures InvoiceWindow(s, [1, 0]).Hours() == 0.0 && OfficerHours(s, [1, 0]) == 1.0
  {
    var rows := [1, 0];
    assert rows[0] == 1 && rows[1] == 0;
    HoursOfMore(s, rows);
    assert rows[..1] == [1] && [1][..0] == [];
    HoursOfMore(s, [1]);
    assert Windows(s, []) == [];
  }

  /** A run from a new one-slot job, every substitute arriving by handoff, whose invoice can come out at no hours where an
  hour was worked: both officers arrived at the same instant, and the query returns them the other way round. */
  lemma TiedArrivalsCanLoseHours() returns (ws: seq<World>, steps: seq<Step>)
    ensures RelievedRun(ws, steps) && Past(ws[|steps|].job.status)
    ensures QueryResult(ws[|steps|].assignments, [1, 0])
    ensures InvoiceWindow(ws[|steps|].assignments, [1, 0]).Hours() == 0.0
    ensures OfficerHours(ws[|steps|].assignments, [1, 0]) == 1.0
  {
    NewJobIsInitial(1);
    TiedRuns();
    LastLeaves(After(NewJob(1), TiedRun()));
    ws, steps := LastStep(NewJob(1), TiedRun(), StepComplete(1, 1));
    TwoRowsLoseHours(ws[|steps|].assignments);
    OnlyHandoffs(ws, steps);
  }

  lemma OnlyHandoffs(ws: seq<World>, steps: seq<Step>)
    requires Run(ws, steps) && ws[0] == NewJob(1) && steps == TiedRun() + [StepComplete(1, 1)]
    ensures RelievedRun(ws, steps)
  {
    TiedRunLaidOut();
    SoughtOnTheWay();
    RunPrefix(ws, steps, 9);
    assert steps[..9] == TiedRun()[..9];
    forall k | 0 <= k < |steps| ensures ArrivesByHandoff(ws[k], steps[k]) {
      RunInv(ws, steps, k);
      assert k < 11 ==> steps[k] == TiedRun()[k];
      OrdinaryFirst(ws[k]);
    }
  }

  lemma OrdinaryFirst(w: World)
    requires Inv(w)
    ensures w.assignments != [] ==> Ordinary(w.assignments[0])
  {
  }
}
