/** When payouts add up to the earnings they pay, and the other laws of the books. */
module Conservation {
  import opened Domain
  import opened Durations
  import opened Ledger
  import opened LedgerInvariants

  // ---------- sums ----------

  // The amounts of the earnings in a payout that have a given status, added up.
  function Owed(s: seq<Earning>, p: nat, status: EarningStatus): real {
    if s == [] then 0.0
    else
      var e := s[|s| - 1];
      Owed(s[..|s| - 1], p, status) + (if e.payout == Some(p) && e.status == status then e.amount else 0.0)
  }

  // What bundling the listed earnings takes away from payout `p`.
  function Taken(s: seq<Earning>, ids: set<nat>, p: nat): real {
    if s == [] then 0.0
    else
      var e := s[|s| - 1];
      Taken(s[..|s| - 1], ids, p) + (if |s| - 1 in ids && e.payout == Some(p) then e.amount else 0.0)
  }

  /** A pending payout is worth its pending earnings; a completed one, its paid ones. */
  predicate PayoutAddsUp(b: Books, p: nat)
    requires p < |b.payouts|
  {
    b.payouts[p].amount == Owed(b.earnings, p, if b.payouts[p].status.PayoutPending? then PendingPayout else PaidOut)
  }

  ghost predicate Conserved(b: Books) {
    forall p {:trigger PayoutAddsUp(b, p)} :: 0 <= p < |b.payouts| ==> PayoutAddsUp(b, p)
  }

  lemma {:induction false} OwedNone(s: seq<Earning>, p: nat, status: EarningStatus)
    requires forall e :: 0 <= e < |s| ==> s[e].payout != Some(p) || s[e].status != status
    ensures Owed(s, p, status) == 0.0
  {
    if s != [] {
      OwedNone(s[..|s| - 1], p, status);
    }
  }

  lemma {:induction false} OwedAppend(s: seq<Earning>, t: seq<Earning>, p: nat, status: EarningStatus)
    requires s <= t && forall e :: |s| <= e < |t| ==> t[e].payout.None?
    ensures Owed(t, p, status) == Owed(s, p, status)
  {
    if s == t {
    } else {
      OwedAppend(s, t[..|t| - 1], p, status);
    }
  }

  lemma {:induction false} OwedBundled(s: seq<Earning>, ids: set<nat>, np: nat)
    requires forall e :: 0 <= e < |s| ==> s[e].payout != Some(np) && (e in ids ==> s[e].status.PendingPayout?)
    ensures Owed(Bundle(s, ids, np), np, PendingPayout) == SumIn(s, ids)
  {
    if s != [] {
      var last := |s| - 1;
      assert Bundle(s, ids, np)[..last] == Bundle(s[..last], ids, np);
      OwedBundled(s[..last], ids, np);
    }
  }

  lemma {:induction false} OwedAfterBundle(s: seq<Earning>, ids: set<nat>, np: nat, p: nat, status: EarningStatus)
    requires p != np && forall e :: 0 <= e < |s| && e in ids ==> s[e].status.PendingPayout?
    ensures Owed(Bundle(s, ids, np), p, status) ==
            Owed(s, p, status) - (if status.PendingPayout? then Taken(s, ids, p) else 0.0)
  {
    if s != [] {
      var last := |s| - 1;
      assert Bundle(s, ids, np)[..last] == Bundle(s[..last], ids, np);
      OwedAfterBundle(s[..last], ids, np, p, status);
    }
  }

  lemma {:induction false} OwedAfterPaying(s: seq<Earning>, p: nat, q: nat, status: EarningStatus)
    requires forall e :: 0 <= e < |s| && s[e].payout == Some(p) ==> s[e].status.PendingPayout?
    ensures q != p ==> Owed(PayAll(s, p), q, status) == Owed(s, q, status)
    ensures Owed(PayAll(s, p), p, PaidOut) == Owed(s, p, PendingPayout)
  {
    if s != [] {
      var last := |s| - 1;
      assert PayAll(s, p)[..last] == PayAll(s[..last], p);
      OwedAfterPaying(s[..last], p, q, status);
    }
  }

  // ---------- conservation, step by step ----------

  // What a new payout does to an old one: it is worth its earnings still just when nothing of value is taken from it.
  lemma OldPayoutAfterwards(b: Books, guardian: nat, ids: seq<nat>, key: string, p: nat)
    requires BooksInv(b) && Conserved(b) && MayBundle(b, guardian, ids) && p < |b.payouts|
    ensures PayoutAddsUp(NewPayout(b, guardian, ids, key), p) <==> Taken(b.earnings, Members(ids), p) == 0.0
  {
    var s := b.earnings;
    AllFound(s, guardian, ids);
    assert PayoutAddsUp(b, p);
    var status := if b.payouts[p].status.PayoutPending? then PendingPayout else PaidOut;
    OwedAfterBundle(s, Members(ids), |b.payouts|, p, status);
    if status.PaidOut? {
      forall e | 0 <= e < |s| && e in Members(ids) ensures s[e].payout != Some(p) {
        assert EarningOk(b, s[e]);
      }
      TakenNone(s, Members(ids), p);
    }
  }

  lemma NewPayoutAddsUp(b: Books, guardian: nat, ids: seq<nat>, key: string)
    requires BooksInv(b) && MayBundle(b, guardian, ids)
    ensures PayoutAddsUp(NewPayout(b, guardian, ids, key), |b.payouts|)
  {
    var s, np := b.earnings, |b.payouts|;
    AllFound(s, guardian, ids);
    forall e | 0 <= e < |s| ensures s[e].payout != Some(np) {
      assert EarningOk(b, s[e]);
    }
    OwedBundled(s, Members(ids), np);
  }

  // Nothing of value is taken from any payout.
  ghost predicate NothingTaken(b: Books, ids: set<nat>) {
    forall p {:trigger Taken(b.earnings, ids, p)} :: 0 <= p < |b.payouts| ==> Taken(b.earnings, ids, p) == 0.0
  }

  lemma ConservedTakesNothing(b: Books, guardian: nat, ids: seq<nat>, key: string)
    requires BooksInv(b) && Conserved(b) && MayBundle(b, guardian, ids)
    requires Conserved(NewPayout(b, guardian, ids, key))
    ensures NothingTaken(b, Members(ids))
  {
    var b' := NewPayout(b, guardian, ids, key);
    forall p | 0 <= p < |b.payouts| ensures Taken(b.earnings, Members(ids), p) == 0.0 {
      assert PayoutAddsUp(b', p);
      OldPayoutAfterwards(b, guardian, ids, key, p);
    }
  }

  lemma TakingNothingConserves(b: Books, guardian: nat, ids: seq<nat>, key: string)
    requires BooksInv(b) && Conserved(b) && MayBundle(b, guardian, ids)
    requires NothingTaken(b, Members(ids))
    ensures Conserved(NewPayout(b, guardian, ids, key))
  {
    var b' := NewPayout(b, guardian, ids, key);
    forall p | 0 <= p < |b.payouts| ensures PayoutAddsUp(b', p) {
      OldPayoutAfterwards(b, guardian, ids, key, p);
      assert Taken(b.earnings, Members(ids), p) == 0.0;
    }
    NewPayoutAddsUp(b, guardian, ids, key);
    AllAddUp(b', |b.payouts|);
  }

  lemma AllAddUp(b: Books, n: nat)
    requires |b.payouts| == n + 1 && PayoutAddsUp(b, n)
    requires forall p {:trigger PayoutAddsUp(b, p)} :: 0 <= p < n ==> PayoutAddsUp(b, p)
    ensures Conserved(b)
  {
  }

  /** Creating a payout keeps every payout worth its earnings exactly when it takes nothing of value out of another
  payout. The selection asks only that the earnings are pending, so it can. */
  lemma CreatePayoutConservesExactly(b: Books, guardian: nat, ids: seq<nat>, key: string)
    requires BooksInv(b) && Conserved(b) && MayBundle(b, guardian, ids)
    ensures Conserved(NewPayout(b, guardian, ids, key)) <==> NothingTaken(b, Members(ids))
  {
    if Conserved(NewPayout(b, guardian, ids, key)) {
      ConservedTakesNothing(b, guardian, ids, key);
    }
    if NothingTaken(b, Members(ids)) {
      TakingNothingConserves(b, guardian, ids, key);
    }
  }

  lemma {:induction false} TakenNone(s: seq<Earning>, ids: set<nat>, p: nat)
    requires forall e :: 0 <= e < |s| && e in ids ==> s[e].payout != Some(p)
    ensures Taken(s, ids, p) == 0.0
  {
    if s != [] {
      TakenNone(s[..|s| - 1], ids, p);
    }
  }

  // Where every amount is positive, taking nothing of value means taking nothing.
  lemma {:induction false} TakenPositive(s: seq<Earning>, ids: set<nat>, p: nat)
    requires forall e :: 0 <= e < |s| && e in ids ==> 0.0 < s[e].amount
    ensures 0.0 <= Taken(s, ids, p)
    ensures (exists e :: 0 <= e < |s| && e in ids && s[e].payout == Some(p)) ==> 0.0 < Taken(s, ids, p)
  {
    if s != [] {
      var rest := s[..|s| - 1];
      TakenPositive(rest, ids, p);
      if e :| 0 <= e < |s| && e in ids && s[e].payout == Some(p) && e != |s| - 1 {
        assert rest[e].payout == Some(p);
      }
    }
  }

  /** For earnings worth something the condition is the plain one: none of them is in a payout already. */
  lemma RebundlingBreaksConservation(b: Books, guardian: nat, ids: seq<nat>, key: string)
    requires BooksInv(b) && Conserved(b) && MayBundle(b, guardian, ids)
    requires forall e :: e in ids && e < |b.earnings| ==> 0.0 < b.earnings[e].amount
    ensures Conserved(NewPayout(b, guardian, ids, key)) <==>
            forall e :: e in ids && e < |b.earnings| ==> b.earnings[e].payout.None?
  {
    CreatePayoutConservesExactly(b, guardian, ids, key);
    var s := b.earnings;
    AllFound(s, guardian, ids);
    assert forall e :: e in ids <==> e in Members(ids);
    if forall e :: e in ids && e < |s| ==> s[e].payout.None? {
      forall p | 0 <= p < |b.payouts| ensures Taken(s, Members(ids), p) == 0.0 {
        TakenNone(s, Members(ids), p);
      }
    } else {
      var e :| e in ids && e < |s| && s[e].payout.Some?;
      assert EarningOk(b, s[e]);
      TakenPositive(s, Members(ids), s[e].payout.value);
    }
  }

  /** A payout of fresh earnings conserves, whatever they are worth. */
  lemma FreshPayoutConserves(b: Books, guardian: nat, ids: seq<nat>, key: string)
    requires BooksInv(b) && Conserved(b)
    requires forall e :: e in ids && e < |b.earnings| ==> b.earnings[e].payout.None?
    ensures Conserved(CreatePayout(b, guardian, ids, key).books)
  {
    if MayBundle(b, guardian, ids) {
      CreatePayoutConservesExactly(b, guardian, ids, key);
      forall p | 0 <= p < |b.payouts| ensures Taken(b.earnings, Members(ids), p) == 0.0 {
        assert forall e :: e in Members(ids) ==> e in ids;
        TakenNone(b.earnings, Members(ids), p);
      }
    }
  }

  lemma ConfirmPayoutConserves(b: Books, p: nat)
    requires BooksInv(b) && Conserved(b)
    ensures Conserved(ConfirmPayout(b, p).books)
  {
    var b' := ConfirmPayout(b, p).books;
    if b' != b {
      forall e | 0 <= e < |b.earnings| && b.earnings[e].payout == Some(p)
        ensures b.earnings[e].status.PendingPayout?
      {
        assert EarningOk(b, b.earnings[e]);
      }
      forall q | 0 <= q < |b'.payouts| ensures PayoutAddsUp(b', q) {
        assert PayoutAddsUp(b, q);
        OwedAfterPaying(b.earnings, p, q, if b'.payouts[q].status.PayoutPending? then PendingPayout else PaidOut);
      }
    }
  }

  lemma AppendingConserves(b: Books, b': Books)
    requires Conserved(b) && b'.payouts == b.payouts
    requires b.earnings <= b'.earnings
    requires forall e :: |b.earnings| <= e < |b'.earnings| ==> b'.earnings[e].payout.None?
    ensures Conserved(b')
  {
    forall p | 0 <= p < |b'.payouts| ensures PayoutAddsUp(b', p) {
      assert PayoutAddsUp(b, p);
      OwedAppend(b.earnings, b'.earnings, p, if b.payouts[p].status.PayoutPending? then PendingPayout else PaidOut);
    }
  }

  // No payout is made of an earning that is in one already.
  ghost predicate NoRebundle(b: Books, step: BooksStep) {
    step.DoCreatePayout? ==> forall e :: e in step.ids && e < |b.earnings| ==> b.earnings[e].payout.None?
  }

  lemma PostConserves(b: Books, step: BooksStep)
    requires BooksInv(b) && Conserved(b) && NoRebundle(b, step)
    ensures Conserved(Post(b, step))
  {
    match step
    case DoCreatePayout(guardian, ids, key) => FreshPayoutConserves(b, guardian, ids, key);
    case DoConfirmPayout(p) => ConfirmPayoutConserves(b, p);
    case DoVoid(i, replacement) =>
      VoidMeetsNoEarning(b, i, replacement);
      AppendingConserves(b, Post(b, step));
    case DoVoidDispute(i, replacement) =>
      VoidMeetsNoEarning(b, i, replacement);
      AppendingConserves(b, Post(b, step));
    case DoConfirmPayment(p, scheduled, works) =>
      if p < |b.payments| {
        AccrueShape(b.earnings, works, b.payments[p].invoice, scheduled);
      }
      AppendingConserves(b, Post(b, step));
    case DoAccrue(i, scheduled, works) =>
      AccrueShape(b.earnings, works, i, scheduled);
      AppendingConserves(b, Post(b, step));
    case _ => AppendingConserves(b, Post(b, step));
  }

  // ---------- the runs ----------

  // All that has been paid out, and all the earnings marked paid.
  function TotalPaidOut(payouts: seq<Payout>): real {
    if payouts == [] then 0.0
    else
      var p := payouts[|payouts| - 1];
      TotalPaidOut(payouts[..|payouts| - 1]) + (if p.status.PayoutCompleted? then p.amount else 0.0)
  }

  function TotalEarned(s: seq<Earning>): real {
    if s == [] then 0.0
    else TotalEarned(s[..|s| - 1]) + (if s[|s| - 1].status.PaidOut? then s[|s| - 1].amount else 0.0)
  }

  // The paid earnings of the first `n` payouts, those completed.
  function PaidOfFirst(s: seq<Earning>, payouts: seq<Payout>, n: nat): real
    requires n <= |payouts|
  {
    if n == 0 then 0.0
    else PaidOfFirst(s, payouts, n - 1) + (if payouts[n - 1].status.PayoutCompleted? then Owed(s, n - 1, PaidOut) else 0.0)
  }

  lemma {:induction false} PaidOutIsPaidOfFirst(b: Books, n: nat)
    requires Conserved(b) && n <= |b.payouts|
    ensures TotalPaidOut(b.payouts[..n]) == PaidOfFirst(b.earnings, b.payouts, n)
  {
    if 0 < n {
      PaidOutIsPaidOfFirst(b, n - 1);
      assert b.payouts[..n][..n - 1] == b.payouts[..n - 1];
      assert PayoutAddsUp(b, n - 1);
    }
  }

  lemma {:induction false} PaidOfFirstStep(s: seq<Earning>, payouts: seq<Payout>, n: nat)
    requires s != [] && n <= |payouts|
    ensures var e := s[|s| - 1];
            PaidOfFirst(s, payouts, n) == PaidOfFirst(s[..|s| - 1], payouts, n) +
            (if e.status.PaidOut? && e.payout.Some? && e.payout.value < n && payouts[e.payout.value].status.PayoutCompleted?
             then e.amount else 0.0)
  {
    if 0 < n {
      PaidOfFirstStep(s, payouts, n - 1);
    }
  }

  lemma {:induction false} EarnedIsPaidOfFirst(s: seq<Earning>, payouts: seq<Payout>)
    requires forall e :: 0 <= e < |s| && s[e].status.PaidOut? ==>
               s[e].payout.Some? && s[e].payout.value < |payouts| && payouts[s[e].payout.value].status.PayoutCompleted?
    ensures TotalEarned(s) == PaidOfFirst(s, payouts, |payouts|)
  {
    if s == [] {
      PaidOfNothing(payouts, |payouts|);
    } else {
      EarnedIsPaidOfFirst(s[..|s| - 1], payouts);
      PaidOfFirstStep(s, payouts, |payouts|);
    }
  }

  lemma {:induction false} PaidOfNothing(payouts: seq<Payout>, n: nat)
    requires n <= |payouts|
    ensures PaidOfFirst([], payouts, n) == 0.0
  {
    if 0 < n {
      PaidOfNothing(payouts, n - 1);
    }
  }

  lemma {:induction false} RunConserves(bs: seq<Books>, steps: seq<BooksStep>, k: nat)
    requires BooksRun(bs, steps) && k < |bs|
    requires forall j :: 0 <= j < |steps| ==> NoRebundle(bs[j], steps[j])
    ensures Conserved(bs[k])
  {
    if 0 < k {
      RunConserves(bs, steps, k - 1);
      BooksRunInv(bs, steps, k - 1);
      assert Posted(bs, steps, k - 1);
      PostConserves(bs[k - 1], steps[k - 1]);
    }
  }

  /** Over every run in which no payout re-bundles an earning, each pending payout is the sum of its pending earnings and
  each completed one the sum of its paid ones; so all that was paid out is all that was marked paid. */
  lemma PayoutsAddUp(bs: seq<Books>, steps: seq<BooksStep>, k: nat)
    requires BooksRun(bs, steps) && k < |bs|
    requires forall j :: 0 <= j < |steps| ==> NoRebundle(bs[j], steps[j])
    ensures Conserved(bs[k])
    ensures TotalPaidOut(bs[k].payouts) == TotalEarned(bs[k].earnings)
  {
    var b := bs[k];
    RunConserves(bs, steps, k);
    BooksRunInv(bs, steps, k);
    assert b.payouts[..|b.payouts|] == b.payouts;
    PaidOutIsPaidOfFirst(b, |b.payouts|);
    forall e | 0 <= e < |b.earnings| && b.earnings[e].status.PaidOut?
      ensures && b.earnings[e].payout.Some? && b.earnings[e].payout.value < |b.payouts|
              && b.payouts[b.earnings[e].payout.value].status.PayoutCompleted?
    {
      assert EarningOk(b, b.earnings[e]);
    }
    EarnedIsPaidOfFirst(b.earnings, b.payouts);
  }

  // ---------- invoices over a run ----------

  /** The moves an invoice can make. */
  predicate InvoiceEdge(from: InvoiceStatus, to: InvoiceStatus) {
    match from
    case Draft => to.PendingConfirmation? || to.Issued? || to.Disputed? || to.Void?
    case PendingConfirmation => to.Issued? || to.Disputed? || to.Void?
    case Issued => to.Paid? || to.Disputed? || to.Void?
    case Disputed => to.Draft? || to.PendingConfirmation? || to.Issued? || to.Paid? || to.Void?
    case Void => to.Paid?
    case Paid => false
    case PartiallyPaid => false
    case Overdue => false
  }

  lemma PostMovesInvoices(b: Books, step: BooksStep, i: nat)
    requires BooksInv(b) && i < |b.invoices|
    ensures i < |Post(b, step).invoices|
    ensures Post(b, step).invoices[i].status == b.invoices[i].status ||
            InvoiceEdge(b.invoices[i].status, Post(b, step).invoices[i].status)
  {
  }

  /** Once paid, an invoice stays paid; every other change of status is an edge of the table, so a payment reaches only
  an invoice that had been issued, even one disputed or voided since. */
  lemma {:induction false} PaidIsForEver(bs: seq<Books>, steps: seq<BooksStep>, k: nat, m: nat, i: nat)
    requires BooksRun(bs, steps) && k <= m < |bs| && i < |bs[k].invoices|
    ensures i < |bs[m].invoices|
    ensures bs[k].invoices[i].status.Paid? ==> bs[m].invoices[i].status.Paid?
    ensures m == k + 1 ==> bs[m].invoices[i].status == bs[k].invoices[i].status ||
                           InvoiceEdge(bs[k].invoices[i].status, bs[m].invoices[i].status)
    decreases m - k
  {
    if k < m {
      PaidIsForEver(bs, steps, k, m - 1, i);
      BooksRunInv(bs, steps, m - 1);
      assert Posted(bs, steps, m - 1);
      PostMovesInvoices(bs[m - 1], steps[m - 1], i);
    }
  }

  /** In every reachable state a disputed invoice remembers a disputable status, a dispute that goes through and is then
  cleared restores the status exactly, each assignment has at most one earning, and earnings exist only for paid
  invoices. */
  lemma DisputesAreReversible(bs: seq<Books>, steps: seq<BooksStep>, k: nat, i: nat)
    requires BooksRun(bs, steps) && k < |bs| && i < |bs[k].invoices|
    ensures bs[k].invoices[i].status.Disputed? ==>
              bs[k].invoices[i].beforeDispute.Some? && Disputable(bs[k].invoices[i].beforeDispute.value)
    ensures var v := bs[k].invoices[i];
            var cleared := ClearDispute(Dispute(bs[k], i).books, i);
            Disputable(v.status) ==>
              && cleared.reply.Ok?
              && cleared.books == SetInvoice(bs[k], i, v.(beforeDispute := Some(v.status)))
    ensures forall e, f :: 0 <= e < f < |bs[k].earnings| ==> bs[k].earnings[e].assignment != bs[k].earnings[f].assignment
    ensures forall e :: 0 <= e < |bs[k].earnings| ==>
              bs[k].earnings[e].invoice < |bs[k].invoices| && bs[k].invoices[bs[k].earnings[e].invoice].status.Paid?
  {
    BooksRunInv(bs, steps, k);
    assert InvoiceOk(bs[k].invoices[i]);
    forall e | 0 <= e < |bs[k].earnings|
      ensures bs[k].earnings[e].invoice < |bs[k].invoices| && bs[k].invoices[bs[k].earnings[e].invoice].status.Paid?
    {
      assert EarningOk(bs[k], bs[k].earnings[e]);
    }
  }
}
