/** What every operation on the books does, told field by field. */
module LedgerLaws {
  import opened Domain
  import opened Durations
  import opened Ledger
  import opened LedgerInvariants

  // ---------- invoices ----------

  // A job gets its invoice drafted once.
  predicate Drafts(b: Books, step: BooksStep) {
    step.DoCreateDraft? && forall i :: 0 <= i < |b.invoices| ==> b.invoices[i].jobId != step.jobId
  }

  // An invoice named as the replacement of another exists, is not the same, and is of the same organisation.
  predicate Replaces(b: Books, i: nat, replacement: Option<nat>)
    requires i < |b.invoices|
  {
    replacement.Some? ==>
      && replacement.value < |b.invoices| && replacement.value != i
      && b.invoices[replacement.value].organization == b.invoices[i].organization
  }

  // The status an invoice takes with this operation, if it takes another.
  predicate InvoiceBecomes(b: Books, step: BooksStep, i: nat, to: InvoiceStatus)
    requires i < |b.invoices|
  {
    var v := b.invoices[i];
    var restored := step.DoClearDispute? && step.i == i && v.status.Disputed?;
    match to
    case Draft => restored && v.beforeDispute == Some(Draft)
    case PendingConfirmation =>
      (step.DoView? && step.i == i && v.status.Draft?) || (restored && v.beforeDispute == Some(PendingConfirmation))
    case Issued =>
      || (step.DoIssue? && step.i == i && (v.status.Draft? || v.status.PendingConfirmation?))
      || (restored && v.beforeDispute == Some(Issued))
    case Paid => step.DoConfirmPayment? && step.p < |b.payments| && b.payments[step.p].invoice == i
    case Disputed =>
      && step.DoDispute? && step.i == i
      && (v.status.Draft? || v.status.PendingConfirmation? || v.status.Issued?)
    case Void =>
      || (step.DoVoid? && step.i == i && !v.status.Paid? && Replaces(b, i, step.replacement))
      || (step.DoVoidDispute? && step.i == i && v.status.Disputed? && Replaces(b, i, step.replacement))
    case PartiallyPaid => false
    case Overdue => false
  }

  ghost predicate InvoiceLaw(b: Books, step: BooksStep, i: nat, v: Invoice)
    requires i < |b.invoices|
  {
    var u := b.invoices[i];
    && (forall to :: to != u.status ==> (v.status == to <==> InvoiceBecomes(b, step, i, to)))
    && v == u.(status := v.status,
               beforeDispute := if v.status.Disputed? && !u.status.Disputed? then Some(u.status) else u.beforeDispute)
  }

  ghost predicate InvoicesLaw(b: Books, step: BooksStep, c: Books) {
    && |c.invoices| == |b.invoices| + (if Drafts(b, step) then 1 else 0)
    && (forall i :: 0 <= i < |b.invoices| ==> InvoiceLaw(b, step, i, c.invoices[i]))
    && (Drafts(b, step) ==>
          c.invoices[|b.invoices|] == Invoice(step.jobId, step.organization, step.total, Draft, None))
  }

  // ---------- payments ----------

  // A payment is started, under a key of its own, for an issued invoice.
  predicate Starts(b: Books, step: BooksStep) {
    && step.DoCreatePayment? && step.i < |b.invoices| && b.invoices[step.i].status.Issued?
    && forall p :: 0 <= p < |b.payments| ==> b.payments[p].key != step.key
  }

  ghost predicate PaymentsLaw(b: Books, step: BooksStep, c: Books) {
    && |c.payments| == |b.payments| + (if Starts(b, step) then 1 else 0)
    && (forall p :: 0 <= p < |b.payments| ==>
          c.payments[p] ==
          if step.DoConfirmPayment? && step.p == p then b.payments[p].(status := PaymentCompleted) else b.payments[p])
    && (Starts(b, step) ==> c.payments[|b.payments|] == Payment(step.i, step.key, step.amount, PaymentPending))
  }

  // ---------- payouts ----------

  predicate Unused(b: Books, key: string) {
    forall p :: 0 <= p < |b.payouts| ==> b.payouts[p].key != key
  }

  // The amounts of the earnings listed, added up.
  function Total(s: seq<Earning>, ids: seq<nat>): real
    requires forall k :: 0 <= k < |ids| ==> ids[k] < |s|
  {
    if ids == [] then 0.0 else Total(s, ids[..|ids| - 1]) + s[ids[|ids| - 1]].amount
  }

  // Every earning listed is the guardian's and waits to be paid out, none is listed twice, and they are worth something.
  predicate MayPay(b: Books, guardian: nat, ids: seq<nat>) {
    && (forall x, y :: 0 <= x < y < |ids| ==> ids[x] != ids[y])
    && (forall k :: 0 <= k < |ids| ==>
          && ids[k] < |b.earnings| && b.earnings[ids[k]].guardian == guardian
          && b.earnings[ids[k]].status.PendingPayout?)
    && 0.0 < Total(b.earnings, ids)
  }

  predicate Bundles(b: Books, step: BooksStep) {
    step.DoCreatePayout? && Unused(b, step.key) && MayPay(b, step.guardian, step.ids)
  }

  predicate PaysOut(b: Books, step: BooksStep) {
    step.DoConfirmPayout? && step.p < |b.payouts| && b.payouts[step.p].status.PayoutPending?
  }

  ghost predicate PayoutsLaw(b: Books, step: BooksStep, c: Books) {
    && |c.payouts| == |b.payouts| + (if Bundles(b, step) then 1 else 0)
    && (forall p :: 0 <= p < |b.payouts| ==>
          c.payouts[p] ==
          if step.DoConfirmPayout? && step.p == p then b.payouts[p].(status := PayoutCompleted) else b.payouts[p])
    && (Bundles(b, step) ==>
          c.payouts[|b.payouts|] == Payout(step.guardian, step.key, Total(b.earnings, step.ids), PayoutPending))
  }

  // ---------- earnings ----------

  // The lesser of the hours booked and worked; or the minimum, if that is more and guaranteed, which on an approved early
  // release it may not be.
  function PaidHours(t: PayTerms, booked: Window, worked: Window): real {
    var lesser := LesserHours(booked, worked);
    var guaranteed := t.model.PayMinimumGuaranteed? && (!t.earlyReleaseApproved || t.applyOnEarlyRelease);
    if guaranteed && lesser < t.minimum then t.minimum else lesser
  }

  function Earned(work: Work, i: nat, booked: Window): Earning {
    match work.rate
    case None => Earning(work.guardian, work.assignment, i, 0.0, Blocked, None)
    case Some(rate) =>
      Earning(work.guardian, work.assignment, i, rate * PaidHours(work.terms, booked, work.window), PendingPayout, None)
  }

  lemma EarnedExactly(work: Work, i: nat, booked: Window)
    ensures NewEarning(work, i, booked) == Earned(work, i, booked)
  {
  }

  // The completed assignments an operation accrues for, the invoice and the booked window.
  function WorksRead(b: Books, step: BooksStep): seq<Work> {
    match step
    case DoConfirmPayment(p, _, works) => if p < |b.payments| then works else []
    case DoAccrue(i, _, works) => if i < |b.invoices| && b.invoices[i].status.Paid? then works else []
    case _ => []
  }

  function InvoicePaid(b: Books, step: BooksStep): nat
    requires WorksRead(b, step) != []
  {
    if step.DoConfirmPayment? then b.payments[step.p].invoice else step.i
  }

  // The first work listed for an assignment that has no earning.
  predicate Unearned(s: seq<Earning>, works: seq<Work>, w: nat)
    requires w < |works|
  {
    && (forall e :: 0 <= e < |s| ==> s[e].assignment != works[w].assignment)
    && (forall v :: 0 <= v < w ==> works[v].assignment != works[w].assignment)
  }

  // How many of the first `n` works are.
  function UnearnedBefore(s: seq<Earning>, works: seq<Work>, n: nat): nat
    requires n <= |works|
  {
    if n == 0 then 0 else UnearnedBefore(s, works, n - 1) + (if Unearned(s, works, n - 1) then 1 else 0)
  }

  // One earning for each of them, in order.
  ghost predicate Accrues(s: seq<Earning>, works: seq<Work>, i: nat, booked: Window, t: seq<Earning>) {
    && |t| == |s| + UnearnedBefore(s, works, |works|)
    && (forall w :: 0 <= w < |works| && Unearned(s, works, w) ==>
          && |s| + UnearnedBefore(s, works, w) < |t|
          && t[|s| + UnearnedBefore(s, works, w)] == Earned(works[w], i, booked))
  }

  ghost predicate EarningsLaw(b: Books, step: BooksStep, c: Books) {
    var works := WorksRead(b, step);
    && |b.earnings| <= |c.earnings|
    && (forall e :: 0 <= e < |b.earnings| ==>
          c.earnings[e] == b.earnings[e].(
            payout := if Bundles(b, step) && e in step.ids then Some(|b.payouts|) else b.earnings[e].payout,
            status := if PaysOut(b, step) && b.earnings[e].payout == Some(step.p) then PaidOut else b.earnings[e].status))
    && (if works == [] then |c.earnings| == |b.earnings|
        else Accrues(b.earnings, works, InvoicePaid(b, step), step.scheduled, c.earnings))
  }

  ghost predicate BooksLaw(b: Books, step: BooksStep, c: Books) {
    InvoicesLaw(b, step, c) && PaymentsLaw(b, step, c) && PayoutsLaw(b, step, c) && EarningsLaw(b, step, c)
  }

  // ---------- accruals obey ----------

  // After the first work has been seen to, the rest go on as before.
  ghost predicate SeenTo(s: seq<Earning>, works: seq<Work>, t: seq<Earning>)
    requires works != []
  {
    if Unearned(s, works, 0) then |t| == |s| + 1 && t[..|s|] == s && t[|s|].assignment == works[0].assignment else t == s
  }

  lemma UnearnedLater(s: seq<Earning>, works: seq<Work>, t: seq<Earning>, w: nat)
    requires works != [] && SeenTo(s, works, t) && w < |works| - 1
    ensures Unearned(t, works[1..], w) <==> Unearned(s, works, w + 1)
  {
    var rest, a := works[1..], works[w + 1].assignment;
    assert forall e :: 0 <= e < |s| ==> t[e] == s[e];
    if Unearned(t, rest, w) {
      forall v | 0 <= v < w + 1 ensures works[v].assignment != a {
        if v == 0 {
          HasFirst(s, works, t);
        } else {
          assert rest[v - 1] == works[v];
        }
      }
    }
    if Unearned(s, works, w + 1) {
      assert forall v :: 0 <= v < w ==> rest[v] == works[v + 1];
    }
  }

  lemma HasFirst(s: seq<Earning>, works: seq<Work>, t: seq<Earning>)
    requires works != [] && SeenTo(s, works, t)
    ensures exists e :: 0 <= e < |t| && t[e].assignment == works[0].assignment
  {
    if Unearned(s, works, 0) {
      assert t[|s|].assignment == works[0].assignment;
    }
  }

  lemma {:induction false} CountLater(s: seq<Earning>, works: seq<Work>, t: seq<Earning>, n: nat)
    requires works != [] && SeenTo(s, works, t) && n < |works|
    ensures UnearnedBefore(s, works, n + 1) ==
            UnearnedBefore(t, works[1..], n) + (if Unearned(s, works, 0) then 1 else 0)
  {
    if n == 0 {
      assert UnearnedBefore(s, works, 1) == UnearnedBefore(s, works, 0) + (if Unearned(s, works, 0) then 1 else 0);
    } else {
      CountLater(s, works, t, n - 1);
      UnearnedLater(s, works, t, n - 1);
    }
  }

  lemma FirstEarning(s: seq<Earning>, works: seq<Work>)
    requires works != []
    ensures Unearned(s, works, 0) <==> !HasEarning(s, works[0].assignment)
  {
  }

  lemma PlaceFromStart(
    s: seq<Earning>, works: seq<Work>, s': seq<Earning>, i: nat, booked: Window, t: seq<Earning>, w: nat)
    requires works != [] && SeenTo(s, works, s') && Accrues(s', works[1..], i, booked, t)
    requires 0 < w < |works| && Unearned(s, works, w)
    ensures |s| + UnearnedBefore(s, works, w) < |t|
    ensures t[|s| + UnearnedBefore(s, works, w)] == Earned(works[w], i, booked)
  {
    CountLater(s, works, s', w - 1);
    UnearnedLater(s, works, s', w - 1);
    assert works[1..][w - 1] == works[w];
  }

  // What obeys once the first work has been seen to obeys from the start.
  lemma AccruesFromStart(
    s: seq<Earning>, works: seq<Work>, s': seq<Earning>, i: nat, booked: Window, t: seq<Earning>)
    requires works != [] && SeenTo(s, works, s') && s' <= t && Accrues(s', works[1..], i, booked, t)
    requires |s'| == |s| + 1 ==> s'[|s|] == Earned(works[0], i, booked)
    ensures Accrues(s, works, i, booked, t)
  {
    CountLater(s, works, s', |works| - 1);
    forall w | 0 <= w < |works| && Unearned(s, works, w)
      ensures |s| + UnearnedBefore(s, works, w) < |t|
      ensures t[|s| + UnearnedBefore(s, works, w)] == Earned(works[w], i, booked)
    {
      if w == 0 {
        assert t[|s|] == s'[|s|];
      } else {
        PlaceFromStart(s, works, s', i, booked, t, w);
      }
    }
  }

  lemma {:induction false} AccrueAllObeys(s: seq<Earning>, works: seq<Work>, i: nat, booked: Window)
    ensures s <= AccrueAll(s, works, i, booked)
    ensures Accrues(s, works, i, booked, AccrueAll(s, works, i, booked))
    decreases |works|
  {
    if works != [] {
      var s' := if HasEarning(s, works[0].assignment) then s else s + [NewEarning(works[0], i, booked)];
      AccrueAllObeys(s', works[1..], i, booked);
      FirstEarning(s, works);
      EarnedExactly(works[0], i, booked);
      AccruesFromStart(s, works, s', i, booked, AccrueAll(s, works, i, booked));
    }
  }

  // ---------- payouts obey ----------

  lemma {:induction false} SumMore(s: seq<Earning>, ids: set<nat>, e: nat)
    requires e < |s| && e !in ids
    ensures SumIn(s, ids + {e}) == SumIn(s, ids) + s[e].amount
  {
    var n := |s| - 1;
    if e == n {
      SumAlike(s[..n], ids + {e}, ids);
    } else {
      SumMore(s[..n], ids, e);
    }
  }

  lemma {:induction false} SumAlike(s: seq<Earning>, a: set<nat>, b: set<nat>)
    requires forall e :: 0 <= e < |s| ==> (e in a <==> e in b)
    ensures SumIn(s, a) == SumIn(s, b)
  {
    if s != [] {
      SumAlike(s[..|s| - 1], a, b);
    }
  }

  lemma {:induction false} SumNothing(s: seq<Earning>)
    ensures SumIn(s, {}) == 0.0
  {
    if s != [] {
      SumNothing(s[..|s| - 1]);
    }
  }

  lemma {:induction false} TotalIsSum(s: seq<Earning>, ids: seq<nat>)
    requires Distinct(ids) && forall k :: 0 <= k < |ids| ==> ids[k] < |s|
    ensures Total(s, ids) == SumIn(s, Members(ids)) && |Members(ids)| == |ids|
  {
    if ids == [] {
      SumNothing(s);
      assert Members(ids) == {};
    } else {
      var n := |ids| - 1;
      TotalIsSum(s, ids[..n]);
      assert Members(ids) == Members(ids[..n]) + {ids[n]};
      assert ids[n] !in Members(ids[..n]);
      SumMore(s, Members(ids[..n]), ids[n]);
    }
  }

  /** The selection is as it should be exactly when as many earnings are found as asked for. */
  lemma MayPayExactly(b: Books, guardian: nat, ids: seq<nat>)
    ensures MayBundle(b, guardian, ids) <==> MayPay(b, guardian, ids)
    ensures MayPay(b, guardian, ids) ==>
              && Found(b.earnings, guardian, ids) == Members(ids)
              && SumIn(b.earnings, Members(ids)) == Total(b.earnings, ids)
  {
    var s, found := b.earnings, Found(b.earnings, guardian, ids);
    if |found| == |ids| {
      AllFound(s, guardian, ids);
      assert forall k :: 0 <= k < |ids| ==> ids[k] in ids;
      TotalIsSum(s, ids);
    }
    if MayPay(b, guardian, ids) {
      TotalIsSum(s, ids);
      assert found == Members(ids);
    }
  }

  // ---------- at most one answer ----------

  // Every place is taken.
  lemma {:induction false} PlaceTaken(s: seq<Earning>, works: seq<Work>, n: nat, k: nat) returns (w: nat)
    requires n <= |works| && k < UnearnedBefore(s, works, n)
    ensures w < n && Unearned(s, works, w) && UnearnedBefore(s, works, w) == k
  {
    if k < UnearnedBefore(s, works, n - 1) {
      w := PlaceTaken(s, works, n - 1, k);
    } else {
      w := n - 1;
    }
  }

  lemma AccrualDetermined(s: seq<Earning>, works: seq<Work>, i: nat, booked: Window, t: seq<Earning>, u: seq<Earning>)
    requires Accrues(s, works, i, booked, t) && Accrues(s, works, i, booked, u)
    ensures |t| == |u| && forall e :: |s| <= e < |t| ==> t[e] == u[e]
  {
    forall e | |s| <= e < |t| ensures t[e] == u[e] {
      var w := PlaceTaken(s, works, |works|, e - |s|);
    }
  }

  lemma InvoiceDetermined(b: Books, step: BooksStep, i: nat, u: Invoice, v: Invoice)
    requires i < |b.invoices| && InvoiceLaw(b, step, i, u) && InvoiceLaw(b, step, i, v)
    ensures u == v
  {
    var was := b.invoices[i].status;
    assert u.status == was || InvoiceBecomes(b, step, i, u.status);
    assert v.status == was || InvoiceBecomes(b, step, i, v.status);
  }

  lemma InvoicesDetermined(b: Books, step: BooksStep, c: Books, d: Books)
    requires InvoicesLaw(b, step, c) && InvoicesLaw(b, step, d)
    ensures c.invoices == d.invoices
  {
    forall i | 0 <= i < |b.invoices| ensures c.invoices[i] == d.invoices[i] {
      InvoiceDetermined(b, step, i, c.invoices[i], d.invoices[i]);
    }
  }

  lemma BooksDetermined(b: Books, step: BooksStep, c: Books, d: Books)
    requires BooksLaw(b, step, c) && BooksLaw(b, step, d)
    ensures c == d
  {
    InvoicesDetermined(b, step, c, d);
    assert c.payments == d.payments;
    assert c.payouts == d.payouts;
    var works := WorksRead(b, step);
    if works != [] {
      AccrualDetermined(b.earnings, works, InvoicePaid(b, step), step.scheduled, c.earnings, d.earnings);
    }
    assert c.earnings == d.earnings;
  }

  // ---------- every operation obeys ----------

  lemma InvoicesObey(b: Books, step: BooksStep)
    requires BooksInv(b)
    ensures InvoicesLaw(b, step, Post(b, step))
  {
    forall i | 0 <= i < |b.invoices| ensures InvoiceLaw(b, step, i, Post(b, step).invoices[i]) {
      assert InvoiceOk(b.invoices[i]);
    }
  }

  lemma PaymentsObey(b: Books, step: BooksStep)
    requires BooksInv(b)
    ensures PaymentsLaw(b, step, Post(b, step))
  {
    forall i | 0 <= i < |b.invoices| ensures !b.invoices[i].status.PartiallyPaid? {
      assert InvoiceOk(b.invoices[i]);
    }
  }

  lemma PayoutsObey(b: Books, step: BooksStep)
    ensures PayoutsLaw(b, step, Post(b, step))
  {
    if step.DoCreatePayout? {
      MayPayExactly(b, step.guardian, step.ids);
    }
  }

  lemma AppendedObeys(b: Books, step: BooksStep, c: Books)
    requires (step.DoConfirmPayment? || step.DoAccrue?) && b.earnings <= c.earnings
    requires var works := WorksRead(b, step);
             if works == [] then c.earnings == b.earnings
             else Accrues(b.earnings, works, InvoicePaid(b, step), step.scheduled, c.earnings)
    ensures EarningsLaw(b, step, c)
  {
  }

  lemma AccrualStepObeys(b: Books, i: nat, scheduled: Window, works: seq<Work>)
    ensures EarningsLaw(b, DoAccrue(i, scheduled, works), Accrue(b, i, scheduled, works))
  {
    AccrueAllObeys(b.earnings, works, i, scheduled);
    AppendedObeys(b, DoAccrue(i, scheduled, works), Accrue(b, i, scheduled, works));
  }

  lemma ConfirmationAccrues(b: Books, p: nat, scheduled: Window, works: seq<Work>)
    requires BooksInv(b)
    ensures ConfirmPayment(b, p, scheduled, works).books.earnings ==
            if p < |b.payments| then AccrueAll(b.earnings, works, b.payments[p].invoice, scheduled) else b.earnings
  {
  }

  lemma ConfirmationObeys(b: Books, p: nat, scheduled: Window, works: seq<Work>)
    requires BooksInv(b)
    ensures EarningsLaw(b, DoConfirmPayment(p, scheduled, works), ConfirmPayment(b, p, scheduled, works).books)
  {
    ConfirmationAccrues(b, p, scheduled, works);
    if p < |b.payments| {
      AccrueAllObeys(b.earnings, works, b.payments[p].invoice, scheduled);
    }
    AppendedObeys(b, DoConfirmPayment(p, scheduled, works), ConfirmPayment(b, p, scheduled, works).books);
  }

  lemma BundlingObeys(b: Books, step: BooksStep)
    requires step.DoCreatePayout? || step.DoConfirmPayout?
    ensures EarningsLaw(b, step, Post(b, step))
  {
    if step.DoCreatePayout? {
      MayPayExactly(b, step.guardian, step.ids);
    }
  }

  lemma EarningsObey(b: Books, step: BooksStep)
    requires BooksInv(b)
    ensures EarningsLaw(b, step, Post(b, step))
  {
    match step
    case DoConfirmPayment(p, scheduled, works) => ConfirmationObeys(b, p, scheduled, works);
    case DoAccrue(i, scheduled, works) => AccrualStepObeys(b, i, scheduled, works);
    case DoCreatePayout(_, _, _) => BundlingObeys(b, step);
    case DoConfirmPayout(_) => BundlingObeys(b, step);
    case DoVoid(i, replacement) => VoidMeetsNoEarning(b, i, replacement);
    case DoVoidDispute(i, replacement) => VoidMeetsNoEarning(b, i, replacement);
    case _ =>
  }

  lemma PostObeys(b: Books, step: BooksStep)
    requires BooksInv(b)
    ensures BooksLaw(b, step, Post(b, step))
  {
    InvoicesObey(b, step);
    PaymentsObey(b, step);
    PayoutsObey(b, step);
    EarningsObey(b, step);
  }

  /** In every reachable state every operation leaves exactly the books that obey the laws: there are no others. */
  lemma PostIsLaw(bs: seq<Books>, steps: seq<BooksStep>, k: nat, step: BooksStep, c: Books)
    requires BooksRun(bs, steps) && k < |bs|
    ensures BooksLaw(bs[k], step, c) <==> c == Post(bs[k], step)
  {
    BooksRunInv(bs, steps, k);
    PostObeys(bs[k], step);
    if BooksLaw(bs[k], step, c) {
      BooksDetermined(bs[k], step, c, Post(bs[k], step));
    }
  }

  // ---------- what a payout takes ----------

  /** A payout under an unused key changes the books if and only if no earning is listed twice and every one listed exists,
  is this guardian's, waits to be paid out, and together they are worth something. */
  lemma PayoutTakenExactly(b: Books, guardian: nat, ids: seq<nat>, key: string)
    requires forall p :: 0 <= p < |b.payouts| ==> b.payouts[p].key != key
    ensures CreatePayout(b, guardian, ids, key).books != b <==>
            && (forall x, y :: 0 <= x < y < |ids| ==> ids[x] != ids[y])
            && (forall k :: 0 <= k < |ids| ==>
                  && ids[k] < |b.earnings| && b.earnings[ids[k]].guardian == guardian
                  && b.earnings[ids[k]].status.PendingPayout?)
            && 0.0 < Total(b.earnings, ids)
  {
    MayPayExactly(b, guardian, ids);
  }

  // Whatever is in a payout is its guardian's.
  ghost predicate OwnBundles(b: Books) {
    forall e :: 0 <= e < |b.earnings| && b.earnings[e].payout.Some? ==>
      && b.earnings[e].payout.value < |b.payouts|
      && b.payouts[b.earnings[e].payout.value].guardian == b.earnings[e].guardian
  }

  lemma PostKeepsOwn(b: Books, step: BooksStep)
    requires BooksInv(b) && OwnBundles(b)
    ensures OwnBundles(Post(b, step))
  {
    var c := Post(b, step);
    PayoutsObey(b, step);
    EarningsObey(b, step);
    forall e | 0 <= e < |c.earnings| && c.earnings[e].payout.Some?
      ensures c.earnings[e].payout.value < |c.payouts|
      ensures c.payouts[c.earnings[e].payout.value].guardian == c.earnings[e].guardian
    {
      if |b.earnings| <= e {
        NewIsUnbundled(b, step, e);
      }
    }
  }

  lemma NewIsUnbundled(b: Books, step: BooksStep, e: nat)
    requires EarningsLaw(b, step, Post(b, step)) && |b.earnings| <= e < |Post(b, step).earnings|
    ensures Post(b, step).earnings[e].payout.None?
  {
    var works := WorksRead(b, step);
    var w := PlaceTaken(b.earnings, works, |works|, e - |b.earnings|);
  }

  /** In every reachable state each earning in a payout is an earning of the payout's guardian. */
  lemma {:induction false} PayoutsAreOwn(bs: seq<Books>, steps: seq<BooksStep>, k: nat)
    requires BooksRun(bs, steps) && k < |bs|
    ensures OwnBundles(bs[k])
  {
    if 0 < k {
      PayoutsAreOwn(bs, steps, k - 1);
      BooksRunInv(bs, steps, k - 1);
      assert Posted(bs, steps, k - 1);
      PostKeepsOwn(bs[k - 1], steps[k - 1]);
    }
  }

  // ---------- what an earning is worth ----------

  // The earning is for this work and its guardian: blocked, and for nothing, exactly when the work has no rate; otherwise
  // the rate times the hours paid.
  predicate PaysFor(e: Earning, work: Work, i: nat, booked: Window) {
    && e.assignment == work.assignment && e.guardian == work.guardian && e.invoice == i && e.payout.None?
    && (e.status.Blocked? <==> work.rate.None?)
    && (work.rate.None? ==> e.amount == 0.0)
    && (work.rate.Some? ==>
          e.status.PendingPayout? && e.amount == work.rate.value * PaidHours(work.terms, booked, work.window))
  }

  lemma EarnedPaysFor(work: Work, i: nat, booked: Window)
    ensures PaysFor(Earned(work, i, booked), work, i, booked)
  {
  }

  /** Every new earning pays for the work listed first for its assignment. */
  lemma NewEarningExactly(s: seq<Earning>, works: seq<Work>, i: nat, booked: Window, e: nat) returns (w: nat)
    requires |s| <= e < |AccrueAll(s, works, i, booked)|
    ensures w < |works| && Unearned(s, works, w) && PaysFor(AccrueAll(s, works, i, booked)[e], works[w], i, booked)
  {
    AccrueAllObeys(s, works, i, booked);
    w := PlaceTaken(s, works, |works|, e - |s|);
    EarnedPaysFor(works[w], i, booked);
  }
}
