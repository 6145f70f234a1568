/** What the officers of a job are owed, against what the job is billed. */
module JobPay {
  import opened Domain
  import opened Protocol
  import opened Invariants
  import opened Runs
  import opened Coverage
  import opened Durations
  import opened Ledger
  import opened LedgerInvariants
  import opened LedgerLaws
  import opened InvoiceHours
  import opened JobBooks

  // Every accrual is for the hours booked, at rates no lower than the floor.
  ghost predicate PaidFrom(bs: seq<Books>, posts: seq<BooksStep>, booked: Window, floor: real)
    requires |bs| == |posts| + 1
  {
    forall k :: 0 <= k < |posts| && AccruesFor(bs[k], posts[k]).Some? ==>
      && posts[k].scheduled == booked
      && forall w :: 0 <= w < |posts[k].works| ==> posts[k].works[w].rate.Some? && floor <= posts[k].works[w].rate.value
  }

  lemma ScaleUp(x: real, y: real, a: real, b: real)
    requires 0.0 <= x <= y && 0.0 <= a <= b
    ensures x * a <= y * b
  {
    assert x * a <= x * b;
    assert x * b <= y * b;
  }

  function Sum(xs: seq<real>): real {
    if xs == [] then 0.0 else Sum(xs[..|xs| - 1]) + xs[|xs| - 1]
  }

  ghost predicate Covered(floor: real, xs: seq<real>, ys: seq<real>) {
    |xs| == |ys| && forall k :: 0 <= k < |xs| ==> floor * xs[k] <= ys[k]
  }

  // What is covered item by item is covered altogether, and anything less as well.
  lemma {:induction false} SumCovered(floor: real, xs: seq<real>, ys: seq<real>)
    requires Covered(floor, xs, ys)
    ensures floor * Sum(xs) <= Sum(ys)
  {
    if xs != [] {
      var n := |xs| - 1;
      SumCovered(floor, xs[..n], ys[..n]);
      assert floor * Sum(xs) == floor * Sum(xs[..n]) + floor * xs[n];
    }
  }

  lemma LessIsCovered(floor: real, billed: real, xs: seq<real>, ys: seq<real>)
    requires Covered(floor, xs, ys)
    requires 0.0 <= floor && billed <= Sum(xs)
    ensures floor * billed <= Sum(ys)
  {
    SumCovered(floor, xs, ys);
    assert floor * billed <= floor * Sum(xs);
  }

  function Worked(booked: Window, window: Window): real {
    Min(booked.Hours(), window.Hours())
  }

  lemma EarnedCovers(work: Work, i: nat, booked: Window, floor: real)
    requires 0.0 <= floor && work.rate.Some? && floor <= work.rate.value
    ensures floor * Worked(booked, work.window) <= Earned(work, i, booked).amount
  {
    ScaleUp(floor, work.rate.value, Worked(booked, work.window), PaidHours(work.terms, booked, work.window));
  }

  // The earning is for a stay that was over by the t-th state of the job, and covers it.
  ghost predicate Covers(ws: seq<World>, t: nat, e: Earning, booked: Window, floor: real)
    requires t < |ws|
  {
    && e.assignment < |ws[t].assignments| && Billable(ws[t].assignments[e.assignment])
    && floor * Worked(booked, RowWindow(ws[t].assignments[e.assignment])) <= e.amount
  }

  lemma ReadIsAccrued(b: Books, post: BooksStep)
    requires BooksInv(b) && WorksRead(b, post) != []
    ensures AccruesFor(b, post) == Some(WorksRead(b, post)) && (post.DoConfirmPayment? || post.DoAccrue?)
    ensures post.works == WorksRead(b, post)
  {
  }

  // Where a new earning comes from.
  lemma SourceIn(b: Books, post: BooksStep, c: Books, e: nat) returns (w: nat)
    requires EarningsLaw(b, post, c) && |b.earnings| <= e < |c.earnings|
    ensures w < |WorksRead(b, post)|
    ensures c.earnings[e] == Earned(WorksRead(b, post)[w], InvoicePaid(b, post), post.scheduled)
  {
    w := PlaceTaken(b.earnings, WorksRead(b, post), |WorksRead(b, post)|, e - |b.earnings|);
  }

  lemma NewEarningSource(b: Books, post: BooksStep, e: nat) returns (w: nat)
    requires BooksInv(b) && |b.earnings| <= e < |Post(b, post).earnings|
    ensures var works := WorksRead(b, post);
            && w < |works| && AccruesFor(b, post) == Some(works) && post.works == works
            && Post(b, post).earnings[e] == Earned(works[w], InvoicePaid(b, post), post.scheduled)
  {
    EarningsObey(b, post);
    w := SourceIn(b, post, Post(b, post), e);
    ReadIsAccrued(b, post);
  }

  lemma NewEarningCovers(
    ws: seq<World>, steps: seq<Step>, bs: seq<Books>, posts: seq<BooksStep>, at: seq<nat>, booked: Window, floor: real,
    k: nat, e: nat)
    requires JointRun(ws, steps, bs, posts, at) && PaidFrom(bs, posts, booked, floor) && 0.0 <= floor
    requires k < |posts| && |bs[k].earnings| <= e < |bs[k + 1].earnings|
    ensures Covers(ws, at[k], bs[k + 1].earnings[e], booked, floor)
  {
    var b, post := bs[k], posts[k];
    BooksRunInv(bs, posts, k);
    assert Posted(bs, posts, k);
    var w := NewEarningSource(b, post, e);
    var work := WorksRead(b, post)[w];
    EarnedCovers(work, InvoicePaid(b, post), booked, floor);
    ReadsRow(ws[at[k]].assignments, WorksRead(b, post), w);
  }

  lemma ReadsRow(s: seq<Assignment>, works: seq<Work>, w: nat)
    requires Reads(s, works) && w < |works|
    ensures works[w].assignment < |s| && Billable(s[works[w].assignment])
    ensures works[w].window == RowWindow(s[works[w].assignment])
  {
  }

  lemma {:induction false} EarningCovers(
    ws: seq<World>, steps: seq<Step>, bs: seq<Books>, posts: seq<BooksStep>, at: seq<nat>, booked: Window, floor: real,
    m: nat, e: nat) returns (t: nat)
    requires JointRun(ws, steps, bs, posts, at) && PaidFrom(bs, posts, booked, floor) && 0.0 <= floor
    requires m < |bs| && e < |bs[m].earnings|
    ensures t < |ws| && Covers(ws, t, bs[m].earnings[e], booked, floor)
  {
    var k := m - 1;
    assert m != 0;
    if e < |bs[k].earnings| {
      t := EarningCovers(ws, steps, bs, posts, at, booked, floor, k, e);
      BooksRunInv(bs, posts, k);
      assert Posted(bs, posts, k);
      OldEarningStays(bs[k], posts[k], e);
      CoversAlike(ws, t, bs[k].earnings[e], bs[m].earnings[e], booked, floor);
    } else {
      t := at[k];
      NewEarningCovers(ws, steps, bs, posts, at, booked, floor, k, e);
    }
  }

  lemma CoversAlike(ws: seq<World>, t: nat, e: Earning, f: Earning, booked: Window, floor: real)
    requires t < |ws| && Covers(ws, t, e, booked, floor) && f.assignment == e.assignment && f.amount == e.amount
    ensures Covers(ws, t, f, booked, floor)
  {
  }

  lemma OldEarningStays(b: Books, post: BooksStep, e: nat)
    requires BooksInv(b) && e < |b.earnings|
    ensures e < |Post(b, post).earnings|
    ensures Post(b, post).earnings[e].assignment == b.earnings[e].assignment
    ensures Post(b, post).earnings[e].amount == b.earnings[e].amount
  {
    EarningsObey(b, post);
  }

  // What is owed for one assignment, and for those listed.
  function OwedFor(s: seq<Earning>, a: nat): real {
    if s == [] then 0.0
    else OwedFor(s[..|s| - 1], a) + (if s[|s| - 1].assignment == a then s[|s| - 1].amount else 0.0)
  }

  function EachOwed(s: seq<Earning>, rows: seq<nat>): seq<real> {
    seq(|rows|, k requires 0 <= k < |rows| => OwedFor(s, rows[k]))
  }

  lemma {:induction false} OwedOnce(s: seq<Earning>, e: nat)
    requires OneEarningEach(s) && e < |s|
    ensures OwedFor(s, s[e].assignment) == s[e].amount
  {
    var n := |s| - 1;
    if e == n {
      OwedNothing(s[..n], s[e].assignment);
    } else {
      OwedOnce(s[..n], e);
    }
  }

  lemma {:induction false} OwedNothing(s: seq<Earning>, a: nat)
    requires forall e :: 0 <= e < |s| ==> s[e].assignment != a
    ensures OwedFor(s, a) == 0.0
  {
    if s != [] {
      OwedNothing(s[..|s| - 1], a);
    }
  }

  lemma RowCovered(
    ws: seq<World>, steps: seq<Step>, bs: seq<Books>, posts: seq<BooksStep>, at: seq<nat>, booked: Window, floor: real,
    m: nat, n: nat, i: nat)
    requires JointRun(ws, steps, bs, posts, at) && PaidFrom(bs, posts, booked, floor) && 0.0 <= floor
    requires m < |bs| && n < |ws| && i < |ws[n].assignments| && Billable(ws[n].assignments[i])
    requires HasEarning(bs[m].earnings, i)
    ensures floor * Worked(booked, RowWindow(ws[n].assignments[i])) <= OwedFor(bs[m].earnings, i)
  {
    var e :| 0 <= e < |bs[m].earnings| && bs[m].earnings[e].assignment == i;
    BooksRunInv(bs, posts, m);
    OwedOnce(bs[m].earnings, e);
    var t := EarningCovers(ws, steps, bs, posts, at, booked, floor, m, e);
    if t <= n {
      BillableForEver(ws, steps, t, n, i);
    } else {
      BillableForEver(ws, steps, n, t, i);
    }
  }

  // Pay for the hours worked within the booking, and no more.
  function Plain(n: nat): seq<PayTerms> {
    seq(n, _ => PayTerms(PayActualTime, 0.0, false, false))
  }

  // The hours of each officer within the booking.
  ghost function Stays(s: seq<Assignment>, rows: seq<nat>, booked: Window): seq<real>
    requires AllBillable(s, rows)
  {
    seq(|rows|, k requires 0 <= k < |rows| => Worked(booked, RowWindow(s[rows[k]])))
  }

  lemma {:induction false} StaysAddUp(s: seq<Assignment>, rows: seq<nat>, booked: Window)
    requires AllBillable(s, rows)
    ensures TotalPayable(Plain(|rows|), booked, Windows(s, rows)) == Sum(Stays(s, rows, booked))
  {
    if rows != [] {
      var last := |rows| - 1;
      StaysAddUp(s, rows[..last], booked);
      assert Windows(s, rows)[..last] == Windows(s, rows[..last]) && Plain(|rows|)[..last] == Plain(last);
      assert Stays(s, rows, booked)[..last] == Stays(s, rows[..last], booked);
    }
  }

  lemma BillBelowStays(ws: seq<World>, steps: seq<Step>, n: nat, rows: seq<nat>, booked: Window, minimum: real)
    requires RelievedRun(ws, steps) && n < |ws| && QueryResult(ws[n].assignments, rows) && rows != []
    ensures BillableHours(BillActualTime, minimum, booked, InvoiceWindow(ws[n].assignments, rows)) <=
            Sum(Stays(ws[n].assignments, rows, booked))
  {
    PayCoversTheBill(ws, steps, n, rows, booked, minimum, Plain(|rows|));
    StaysAddUp(ws[n].assignments, rows, booked);
  }

  lemma StaysCovered(
    ws: seq<World>, steps: seq<Step>, bs: seq<Books>, posts: seq<BooksStep>, at: seq<nat>, booked: Window, floor: real,
    m: nat, n: nat, rows: seq<nat>)
    requires JointRun(ws, steps, bs, posts, at) && PaidFrom(bs, posts, booked, floor) && 0.0 <= floor
    requires m < |bs| && n < |ws| && AllBillable(ws[n].assignments, rows)
    requires forall k :: 0 <= k < |rows| ==> HasEarning(bs[m].earnings, rows[k])
    ensures Covered(floor, Stays(ws[n].assignments, rows, booked), EachOwed(bs[m].earnings, rows))
  {
    forall k | 0 <= k < |rows|
      ensures floor * Stays(ws[n].assignments, rows, booked)[k] <= EachOwed(bs[m].earnings, rows)[k]
    {
      RowCovered(ws, steps, bs, posts, at, booked, floor, m, n, rows[k]);
    }
  }

  /** Once everyone on the invoice of a one-slot job relieved by handoffs has an earning, the earnings together come to at
  least the hours billed by actual time at the lowest rate paid: whatever the terms of pay and the order of the rows, and
  however many accruals it took. */
  lemma EarningsCoverTheBill(
    ws: seq<World>, steps: seq<Step>, bs: seq<Books>, posts: seq<BooksStep>, at: seq<nat>, booked: Window, floor: real,
    m: nat, n: nat, rows: seq<nat>, minimum: real)
    requires JointRun(ws, steps, bs, posts, at) && PaidFrom(bs, posts, booked, floor) && 0.0 <= floor
    requires RelievedRun(ws, steps) && m < |bs| && n < |ws|
    requires QueryResult(ws[n].assignments, rows) && rows != []
    requires forall k :: 0 <= k < |rows| ==> HasEarning(bs[m].earnings, rows[k])
    ensures floor * BillableHours(BillActualTime, minimum, booked, InvoiceWindow(ws[n].assignments, rows)) <=
            Sum(EachOwed(bs[m].earnings, rows))
  {
    StaysCovered(ws, steps, bs, posts, at, booked, floor, m, n, rows);
    BillBelowStays(ws, steps, n, rows, booked, minimum);
    LessIsCovered(floor, BillableHours(BillActualTime, minimum, booked, InvoiceWindow(ws[n].assignments, rows)),
                  Stays(ws[n].assignments, rows, booked), EachOwed(bs[m].earnings, rows));
  }
}
