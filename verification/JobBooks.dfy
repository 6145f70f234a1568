/** A job and its books together: who is owed an earning, and when. */
module JobBooks {
  import opened Domain
  import opened Counting
  import opened Protocol
  import opened Invariants
  import opened Runs
  import opened Coverage
  import opened Durations
  import opened Ledger
  import opened LedgerInvariants
  import opened LedgerRuns
  import opened InvoiceHours
  import LedgerService
  import Relief
  import Folding

  // ---------- reading the job ----------

  /** The completed assignments of the job as an accrual reads them: all of them, in any order, with whatever terms. */
  ghost predicate Reads(s: seq<Assignment>, works: seq<Work>) {
    && (forall k :: 0 <= k < |works| ==>
          && works[k].assignment < |s| && Billable(s[works[k].assignment])
          && works[k].guardian == s[works[k].assignment].guardian
          && works[k].window == RowWindow(s[works[k].assignment]))
    && (forall i :: 0 <= i < |s| && Billable(s[i]) ==> Lists(works, i))
  }

  ghost predicate Lists(works: seq<Work>, i: nat) {
    exists k :: 0 <= k < |works| && works[k].assignment == i
  }

  // What an operation on the books accrues for, if it accrues at all.
  function AccruesFor(b: Books, post: BooksStep): Option<seq<Work>> {
    match post
    case DoConfirmPayment(p, _, works) =>
      if p < |b.payments| && b.payments[p].invoice < |b.invoices| then Some(works) else None
    case DoAccrue(i, _, works) => if i < |b.invoices| && b.invoices[i].status.Paid? then Some(works) else None
    case _ => None
  }

  /** A run of one job and a run of its books: the k-th operation on the books happens when the job is in its `at[k]`-th
  state, and an accrual reads the completed assignments from that state. */
  ghost predicate JointRun(
    ws: seq<World>, steps: seq<Step>, bs: seq<Books>, posts: seq<BooksStep>, at: seq<nat>)
  {
    && Run(ws, steps) && BooksRun(bs, posts) && |at| == |posts|
    && (forall k :: 0 <= k < |at| ==> at[k] < |ws|)
    && (forall j, k :: 0 <= j < k < |at| ==> at[j] <= at[k])
    && (forall k :: 0 <= k < |posts| && AccruesFor(bs[k], posts[k]).Some? ==>
          Reads(ws[at[k]].assignments, AccruesFor(bs[k], posts[k]).value))
  }

  // The k-th operation on the books accrued, and assignment `i` was completed by then.
  ghost predicate AccruedAt(ws: seq<World>, bs: seq<Books>, posts: seq<BooksStep>, at: seq<nat>, k: nat, i: nat)
    requires k < |posts| == |at| && k < |bs| && at[k] < |ws|
  {
    AccruesFor(bs[k], posts[k]).Some? && i < |ws[at[k]].assignments| && Billable(ws[at[k]].assignments[i])
  }

  // ---------- who is owed ----------

  lemma {:induction false} AccrueMembers(s: seq<Earning>, works: seq<Work>, i: nat, scheduled: Window, a: nat)
    ensures HasEarning(AccrueAll(s, works, i, scheduled), a) <==> HasEarning(s, a) || Lists(works, a)
    decreases |works|
  {
    if works != [] {
      var e := NewEarning(works[0], i, scheduled);
      var s' := if HasEarning(s, works[0].assignment) then s else s + [e];
      LedgerService.EarningAdded(s, e);
      AccrueMembers(s', works[1..], i, scheduled, a);
      if Lists(works, a) && works[0].assignment != a {
        var k :| 0 <= k < |works| && works[k].assignment == a;
        assert works[1..][k - 1].assignment == a;
      }
      if Lists(works[1..], a) {
        var k :| 0 <= k < |works[1..]| && works[1..][k].assignment == a;
        assert works[k + 1].assignment == a;
      }
    }
  }

  lemma SameAssignments(s: seq<Earning>, t: seq<Earning>, a: nat)
    requires |s| == |t| && forall e :: 0 <= e < |s| ==> t[e].assignment == s[e].assignment
    ensures HasEarning(t, a) <==> HasEarning(s, a)
  {
  }

  lemma PostOwes(b: Books, post: BooksStep, a: nat)
    requires BooksInv(b)
    ensures HasEarning(Post(b, post).earnings, a) <==>
            HasEarning(b.earnings, a) || (AccruesFor(b, post).Some? && Lists(AccruesFor(b, post).value, a))
  {
    match post
    case DoConfirmPayment(p, scheduled, works) =>
      if p < |b.payments| {
        AccrueMembers(b.earnings, works, b.payments[p].invoice, scheduled, a);
      }
    case DoAccrue(i, scheduled, works) => AccrueMembers(b.earnings, works, i, scheduled, a);
    case DoCreatePayout(_, _, _) => SameAssignments(b.earnings, Post(b, post).earnings, a);
    case DoConfirmPayout(_) => SameAssignments(b.earnings, Post(b, post).earnings, a);
    case DoVoid(_, _) => SameAssignments(b.earnings, Post(b, post).earnings, a);
    case DoVoidDispute(_, _) => SameAssignments(b.earnings, Post(b, post).earnings, a);
    case _ =>
  }

  /** An officer is owed an earning exactly when the assignment was completed by the time of some accrual. */
  lemma {:induction false} OwedExactly(
    ws: seq<World>, steps: seq<Step>, bs: seq<Books>, posts: seq<BooksStep>, at: seq<nat>, m: nat, i: nat)
    requires JointRun(ws, steps, bs, posts, at) && m < |bs|
    ensures HasEarning(bs[m].earnings, i) <==> exists k: nat :: k < m && AccruedAt(ws, bs, posts, at, k, i)
  {
    if 0 < m {
      var k := m - 1;
      OwedExactly(ws, steps, bs, posts, at, k, i);
      BooksRunInv(bs, posts, k);
      assert Posted(bs, posts, k);
      PostOwes(bs[k], posts[k], i);
      if AccruesFor(bs[k], posts[k]).Some? {
        ReadsExactly(ws[at[k]].assignments, AccruesFor(bs[k], posts[k]).value, i);
      }
      assert AccruedAt(ws, bs, posts, at, k, i) ==> HasEarning(bs[m].earnings, i);
    }
  }

  lemma ReadsExactly(s: seq<Assignment>, works: seq<Work>, i: nat)
    requires Reads(s, works)
    ensures Lists(works, i) <==> i < |s| && Billable(s[i])
  {
  }

  // ---------- completed after the fact ----------

  // A completed assignment never changes.
  lemma CompletedStays(w: World, step: Step, i: nat)
    requires Inv(w) && i < |w.assignments| && w.assignments[i].status.Completed?
    ensures i < |Apply(w, step).assignments| && Apply(w, step).assignments[i] == w.assignments[i]
  {
    if step.StepArriveOnSite? {
    } else if step.StepComplete? {
      CompleteEffect(w, step.i, step.g);
      CompleteSparesOthers(w, step.i, step.g);
    } else if IsJobStep(step) {
      JobStepIsQuiet(w, step);
    } else if IsRequestStep(step) {
      RequestStepIsQuiet(w, step);
    } else {
      OfferStepIsQuiet(w, step);
    }
  }

  lemma CompleteSparesOthers(w: World, i: nat, g: nat)
    ensures i < |w.assignments| && w.assignments[i].status.Completed? ==> Complete(w, i, g).world == w
  {
  }

  lemma {:induction false} BillableForEver(ws: seq<World>, steps: seq<Step>, k: nat, m: nat, i: nat)
    requires Run(ws, steps) && k <= m < |ws| && i < |ws[k].assignments| && Billable(ws[k].assignments[i])
    ensures i < |ws[m].assignments| && ws[m].assignments[i] == ws[k].assignments[i]
    decreases m - k
  {
    if k < m {
      BillableForEver(ws, steps, k, m - 1, i);
      RunInv(ws, steps, m - 1);
      assert Follows(ws, steps, m - 1);
      CompletedStays(ws[m - 1], steps[m - 1], i);
    }
  }

  /** An officer who had not completed when the job was in its t-th state, a substitute who outlives the job say, is owed
  an earning exactly when there has been an accrual since, by when the assignment was completed. */
  lemma LateOfficerOwedExactly(
    ws: seq<World>, steps: seq<Step>, bs: seq<Books>, posts: seq<BooksStep>, at: seq<nat>, m: nat, i: nat, t: nat)
    requires JointRun(ws, steps, bs, posts, at) && m < |bs| && t < |ws|
    requires i < |ws[t].assignments| ==> !Billable(ws[t].assignments[i])
    ensures HasEarning(bs[m].earnings, i) <==>
            exists k: nat :: k < m && t < at[k] && AccruedAt(ws, bs, posts, at, k, i)
  {
    OwedExactly(ws, steps, bs, posts, at, m, i);
    forall k: nat | k < m && AccruedAt(ws, bs, posts, at, k, i) ensures t < at[k] {
      if at[k] <= t {
        BillableForEver(ws, steps, at[k], t, i);
      }
    }
  }

  // ---------- a run ----------

  function WorkOf(a: Assignment, i: nat): Work
    requires Billable(a)
  {
    Work(i, a.guardian, RowWindow(a), PayTerms(PayActualTime, 0.0, false, false), Some(10.0))
  }

  // On the two-slot job of `Relief` the substitute completes after the job has settled.
  lemma LateCompletion() returns (ws: seq<World>, steps: seq<Step>)
    ensures Run(ws, steps) && 1 < |steps|
    ensures var settled, last := ws[|steps| - 1], ws[|steps|];
            && |settled.assignments| == |last.assignments| == 3
            && settled.job.status.AwaitingConfirmation? && settled.invoiceDrafted
            && Billable(settled.assignments[0]) && Billable(settled.assignments[1])
            && settled.assignments[2].status.OnSite?
            && last.assignments[0] == settled.assignments[0] && last.assignments[1] == settled.assignments[1]
            && Billable(last.assignments[2])
  {
    var w := Relief.NewJob(2);
    Relief.PairRuns();
    var before := Relief.After(w, Relief.PairRun());
    Relief.LastCompletes(before);
    Relief.Completes(before, 1, 1);
    Folding.OneMore(Apply, w, Relief.PairRun(), StepComplete(1, 1));
    var settled := Complete(before, 1, 1).world;
    SubstituteCompletes(settled);
    Relief.Completes(settled, 2, 2);
    Relief.NewJobIsInitial(2);
    ws, steps := Relief.LastStep(w, Relief.PairRun() + [StepComplete(1, 1)], StepComplete(2, 2));
  }

  lemma SubstituteCompletes(w: World)
    requires |w.assignments| == 3 && w.assignments[2].status.OnSite? && w.assignments[2].guardian == 2
    requires w.assignments[2].arrivedAt.Some?
    ensures var t := Complete(w, 2, 2).world.assignments;
            |t| == 3 && t[0] == w.assignments[0] && t[1] == w.assignments[1] && Billable(t[2])
  {
  }

  // Draft, issue, start a payment, confirm it, and confirm it again.
  function ConfirmedAgain(first: seq<Work>, second: seq<Work>): seq<BooksStep> {
    [DoCreateDraft(0, 0, 10.0), DoIssue(0), DoCreatePayment(0, "pay", 10.0),
     DoConfirmPayment(0, Hour(), first), DoConfirmPayment(0, Hour(), second)]
  }

  lemma BooksOfConfirmedAgain(a: Work, b: Work, c: Work) returns (bs: seq<Books>)
    requires a.assignment == 0 && b.assignment == 1 && c.assignment == 2
    ensures BooksRun(bs, ConfirmedAgain([a, b], [a, b, c]))
    ensures |bs[4].earnings| == 2 && |bs[5].earnings| == 3
    ensures forall k :: 0 <= k < 3 ==> AccruesFor(bs[k], ConfirmedAgain([a, b], [a, b, c])[k]).None?
    ensures AccruesFor(bs[3], ConfirmedAgain([a, b], [a, b, c])[3]) == Some([a, b])
    ensures AccruesFor(bs[4], ConfirmedAgain([a, b], [a, b, c])[4]) == Some([a, b, c])
  {
    var posts := ConfirmedAgain([a, b], [a, b, c]);
    var v := Invoice(0, 0, 10.0, Draft, None);
    var p := Payment(0, "pay", 10.0, PaymentPending);
    var paid, done := [v.(status := Paid)], [p.(status := PaymentCompleted)];
    var x, y, z := NewEarning(a, 0, Hour()), NewEarning(b, 0, Hour()), NewEarning(c, 0, Hour());
    TwoAccrue(a, b);
    ThirdAccrues(a, b, c);
    bs := [Books([], [], [], []), Books([v], [], [], []), Books([v.(status := Issued)], [], [], []),
           Books([v.(status := Issued)], [p], [], []), Books(paid, done, [x, y], []), Books(paid, done, [x, y, z], [])];
    forall k | 0 <= k < |posts| ensures Posted(bs, posts, k) {
    }
  }

  lemma TwoAccrue(a: Work, b: Work)
    requires a.assignment != b.assignment
    ensures AccrueAll([], [a, b], 0, Hour()) == [NewEarning(a, 0, Hour()), NewEarning(b, 0, Hour())]
  {
    var x, y := NewEarning(a, 0, Hour()), NewEarning(b, 0, Hour());
    assert [a, b][1..] == [b] && [b][1..] == [];
    LedgerService.EarningAdded([], x);
    assert [] + [x] == [x] && [x] + [y] == [x, y];
    assert !HasEarning([x], b.assignment);
    assert AccrueAll([x], [b], 0, Hour()) == AccrueAll([x, y], [], 0, Hour());
  }

  lemma ThirdAccrues(a: Work, b: Work, c: Work)
    requires a.assignment == 0 && b.assignment == 1 && c.assignment == 2
    ensures var x, y, z := NewEarning(a, 0, Hour()), NewEarning(b, 0, Hour()), NewEarning(c, 0, Hour());
            AccrueAll([x, y], [a, b, c], 0, Hour()) == [x, y, z]
  {
    var x, y, z := NewEarning(a, 0, Hour()), NewEarning(b, 0, Hour()), NewEarning(c, 0, Hour());
    var s := [x, y];
    assert s[0].assignment == 0 && s[1].assignment == 1;
    assert HasEarning(s, 0) && HasEarning(s, 1) && !HasEarning(s, 2);
    assert [a, b, c][1..] == [b, c] && [b, c][1..] == [c] && [c][1..] == [];
    assert AccrueAll(s, [a, b, c], 0, Hour()) == AccrueAll(s, [b, c], 0, Hour());
    assert AccrueAll(s, [b, c], 0, Hour()) == AccrueAll(s, [c], 0, Hour());
    assert s + [z] == [x, y, z];
    assert AccrueAll(s, [c], 0, Hour()) == AccrueAll([x, y, z], [], 0, Hour());
  }

  /** A run of a job and its books in which confirming a confirmed payment again does change something: the substitute
  completed after the job had settled and the invoice been paid, and is owed an earning only from the second time. */
  lemma ReconfirmingCanAccrue()
    returns (ws: seq<World>, steps: seq<Step>, bs: seq<Books>, posts: seq<BooksStep>, at: seq<nat>)
    ensures JointRun(ws, steps, bs, posts, at) && |posts| == 5
    ensures at[3] < at[4] && Past(ws[at[3]].job.status)
    ensures posts[3].DoConfirmPayment? && posts[4].DoConfirmPayment? && posts[3].p == posts[4].p
    ensures !HasEarning(bs[4].earnings, 2) && HasEarning(bs[5].earnings, 2)
    ensures |bs[4].earnings| == 2 && |bs[5].earnings| == 3
  {
    ws, steps := LateCompletion();
    var n := |steps|;
    var s, t := ws[n - 1].assignments, ws[n].assignments;
    var a, b, c := WorkOf(t[0], 0), WorkOf(t[1], 1), WorkOf(t[2], 2);
    posts := ConfirmedAgain([a, b], [a, b, c]);
    bs := BooksOfConfirmedAgain(a, b, c);
    at := [n - 1, n - 1, n - 1, n - 1, n];
    ReadsTwo(s, a, b);
    ReadsThree(t, a, b, c);
    LateOfficerOwedExactly(ws, steps, bs, posts, at, 4, 2, n - 1);
    OwedExactly(ws, steps, bs, posts, at, 5, 2);
    assert AccruedAt(ws, bs, posts, at, 4, 2);
  }

  lemma ReadsTwo(s: seq<Assignment>, a: Work, b: Work)
    requires |s| == 3 && Billable(s[0]) && Billable(s[1]) && !Billable(s[2])
    requires a == WorkOf(s[0], 0) && b == WorkOf(s[1], 1)
    ensures Reads(s, [a, b])
  {
    var works := [a, b];
    assert works[0].assignment == 0 && works[1].assignment == 1;
  }

  lemma ReadsThree(s: seq<Assignment>, a: Work, b: Work, c: Work)
    requires |s| == 3 && Billable(s[0]) && Billable(s[1]) && Billable(s[2])
    requires a == WorkOf(s[0], 0) && b == WorkOf(s[1], 1) && c == WorkOf(s[2], 2)
    ensures Reads(s, [a, b, c])
  {
    var works := [a, b, c];
    assert works[0].assignment == 0 && works[1].assignment == 1 && works[2].assignment == 2;
  }
}
