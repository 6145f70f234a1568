/** What later operations do to what earlier ones left, and runs of the books in which money goes astray. */
module LedgerRuns {
  import opened Domain
  import opened Durations
  import opened Ledger
  import opened LedgerInvariants
  import opened Conservation

  // ---------- what lasts ----------

  // Payments, earnings and payouts are never removed or renamed, and paid, completed and confirmed are for ever.
  ghost predicate Lasts(b: Books, c: Books) {
    && |b.invoices| <= |c.invoices| && |b.payments| <= |c.payments|
    && |b.earnings| <= |c.earnings| && |b.payouts| <= |c.payouts|
    && (forall i :: 0 <= i < |b.invoices| && b.invoices[i].status.Paid? ==> c.invoices[i].status.Paid?)
    && (forall p :: 0 <= p < |b.payments| ==>
          && c.payments[p].key == b.payments[p].key && c.payments[p].invoice == b.payments[p].invoice
          && (b.payments[p].status.PaymentCompleted? ==> c.payments[p].status.PaymentCompleted?))
    && (forall e :: 0 <= e < |b.earnings| ==> c.earnings[e].assignment == b.earnings[e].assignment)
    && (forall p :: 0 <= p < |b.payouts| ==>
          && c.payouts[p].key == b.payouts[p].key
          && (b.payouts[p].status.PayoutCompleted? ==> c.payouts[p].status.PayoutCompleted?))
  }

  lemma AccrueLasts(b: Books, i: nat, scheduled: Window, works: seq<Work>)
    requires BooksInv(b)
    ensures Lasts(b, Accrue(b, i, scheduled, works))
  {
    AccrueShape(b.earnings, works, i, scheduled);
  }

  lemma ConfirmPaymentLasts(b: Books, p: nat, scheduled: Window, works: seq<Work>)
    requires BooksInv(b)
    ensures Lasts(b, ConfirmPayment(b, p, scheduled, works).books)
  {
    if p < |b.payments| {
      AccrueShape(b.earnings, works, b.payments[p].invoice, scheduled);
    }
  }

  lemma PostLasts(b: Books, step: BooksStep)
    requires BooksInv(b)
    ensures Lasts(b, Post(b, step))
  {
    match step
    case DoConfirmPayment(p, scheduled, works) => ConfirmPaymentLasts(b, p, scheduled, works);
    case DoAccrue(i, scheduled, works) => AccrueLasts(b, i, scheduled, works);
    case _ =>
  }

  lemma LastsOn(a: Books, b: Books, c: Books)
    requires Lasts(a, b) && Lasts(b, c)
    ensures Lasts(a, c)
  {
  }

  lemma {:induction false} RunLasts(bs: seq<Books>, steps: seq<BooksStep>, k: nat, m: nat)
    requires BooksRun(bs, steps) && k <= m < |bs|
    ensures Lasts(bs[k], bs[m])
    decreases m - k
  {
    if k < m {
      RunLasts(bs, steps, k, m - 1);
      BooksRunInv(bs, steps, m - 1);
      assert Posted(bs, steps, m - 1);
      PostLasts(bs[m - 1], steps[m - 1]);
      LastsOn(bs[k], bs[m - 1], bs[m]);
    }
  }

  // ---------- repeated calls ----------

  /** Once a payout or a payment has been created under a key, no later call under that key changes anything, whatever it
  asks for. */
  lemma KeysAreSpentForEver(bs: seq<Books>, steps: seq<BooksStep>, k: nat, m: nat, p: nat)
    requires BooksRun(bs, steps) && k <= m < |bs|
    ensures p < |bs[k].payouts| ==>
              forall guardian, ids :: CreatePayout(bs[m], guardian, ids, bs[k].payouts[p].key).books == bs[m]
    ensures p < |bs[k].payments| ==>
              forall i, amount :: CreatePayment(bs[m], i, bs[k].payments[p].key, amount).books == bs[m]
  {
    RunLasts(bs, steps, k, m);
    if p < |bs[k].payouts| {
      assert KeyUsed(bs[m].payouts, bs[k].payouts[p].key) by {
        assert bs[m].payouts[p].key == bs[k].payouts[p].key;
      }
    }
    if p < |bs[k].payments| {
      assert bs[m].payments[p].key == bs[k].payments[p].key;
    }
  }

  /** Confirming a payout again, at any later time, changes nothing. */
  lemma PayoutConfirmationsAreFinal(bs: seq<Books>, steps: seq<BooksStep>, k: nat, m: nat, p: nat)
    requires BooksRun(bs, steps) && k <= m < |bs| && p < |bs[k].payouts| && bs[k].payouts[p].status.PayoutCompleted?
    ensures ConfirmPayout(bs[m], p).books == bs[m]
  {
    RunLasts(bs, steps, k, m);
  }

  // ---------- paid means confirmed ----------

  ghost predicate ConfirmedFor(b: Books, i: nat) {
    exists p :: 0 <= p < |b.payments| && b.payments[p].invoice == i && b.payments[p].status.PaymentCompleted?
  }

  lemma PostKeepsPaid(b: Books, step: BooksStep, i: nat)
    requires BooksInv(b)
    requires i < |b.invoices| ==> (b.invoices[i].status.Paid? <==> ConfirmedFor(b, i))
    requires i < |Post(b, step).invoices|
    ensures Post(b, step).invoices[i].status.Paid? <==> ConfirmedFor(Post(b, step), i)
  {
    var c := Post(b, step);
    PostLasts(b, step);
    if step.DoConfirmPayment? && step.p < |b.payments| {
      assert c.payments[step.p].status.PaymentCompleted?;
    }
    if i < |b.invoices| && ConfirmedFor(b, i) {
      var p :| 0 <= p < |b.payments| && b.payments[p].invoice == i && b.payments[p].status.PaymentCompleted?;
      assert c.payments[p].invoice == i && c.payments[p].status.PaymentCompleted?;
    }
    if ConfirmedFor(c, i) {
      NewlyConfirmed(b, step, i);
    }
  }

  // A completed payment was completed before, or is the one confirmed by this step.
  lemma NewlyConfirmed(b: Books, step: BooksStep, i: nat)
    requires BooksInv(b) && ConfirmedFor(Post(b, step), i)
    ensures i < |b.invoices|
    ensures ConfirmedFor(b, i) || (step.DoConfirmPayment? && step.p < |b.payments| && b.payments[step.p].invoice == i)
  {
    var c := Post(b, step);
    var p :| 0 <= p < |c.payments| && c.payments[p].invoice == i && c.payments[p].status.PaymentCompleted?;
    assert p < |b.payments|;
    assert b.payments[p].invoice == i;
  }

  /** In every reachable state an invoice is paid if and only if one of its payments has been confirmed. */
  lemma {:induction false} PaidExactly(bs: seq<Books>, steps: seq<BooksStep>, k: nat, i: nat)
    requires BooksRun(bs, steps) && k < |bs| && i < |bs[k].invoices|
    ensures bs[k].invoices[i].status.Paid? <==> ConfirmedFor(bs[k], i)
  {
    if 0 < k {
      if i < |bs[k - 1].invoices| {
        PaidExactly(bs, steps, k - 1, i);
      }
      BooksRunInv(bs, steps, k - 1);
      assert Posted(bs, steps, k - 1);
      PostKeepsPaid(bs[k - 1], steps[k - 1], i);
    }
  }

  // ---------- confirming a payment again ----------

  /** What confirming a confirmed payment again does, at any time and whatever completed assignments are then read: it
  changes nothing if and only if each of them has its earning already; and otherwise it adds the missing ones. */
  lemma ReconfirmingAccruesExactly(
    bs: seq<Books>, steps: seq<BooksStep>, m: nat, p: nat, scheduled: Window, works: seq<Work>)
    requires BooksRun(bs, steps) && m < |bs|
    requires p < |bs[m].payments| && bs[m].payments[p].status.PaymentCompleted?
    ensures var after := ConfirmPayment(bs[m], p, scheduled, works).books;
            && (after == bs[m] <==>
                forall w :: 0 <= w < |works| ==> HasEarning(bs[m].earnings, works[w].assignment))
            && after == bs[m].(earnings := after.earnings) && bs[m].earnings <= after.earnings
            && (forall w :: 0 <= w < |works| ==> HasEarning(after.earnings, works[w].assignment))
  {
    var b := bs[m];
    BooksRunInv(bs, steps, m);
    var i := b.payments[p].invoice;
    assert ConfirmedFor(b, i);
    PaidExactly(bs, steps, m, i);
    ReconfirmIsAccrual(b, p, scheduled, works);
    AccrueShape(b.earnings, works, i, scheduled);
    AccrualAddsNothingExactly(b, i, scheduled, works);
  }

  lemma ReconfirmIsAccrual(b: Books, p: nat, scheduled: Window, works: seq<Work>)
    requires p < |b.payments| && b.payments[p].status.PaymentCompleted?
    requires b.payments[p].invoice < |b.invoices| && b.invoices[b.payments[p].invoice].status.Paid?
    ensures ConfirmPayment(b, p, scheduled, works).books == Accrue(b, b.payments[p].invoice, scheduled, works)
  {
    var i := b.payments[p].invoice;
    assert b.payments[p := b.payments[p].(status := PaymentCompleted)] == b.payments;
    assert b.invoices[i := b.invoices[i].(status := Paid)] == b.invoices;
  }

  // ---------- amounts ----------

  /** What is paid need not be what is owed, nor be paid once: for any total and any two amounts there is a run in which
  two payments of those amounts are confirmed for an invoice of that total, and it is paid. */
  lemma AmountsAreUnrelated(total: real, x: real, y: real) returns (bs: seq<Books>, steps: seq<BooksStep>)
    ensures BooksRun(bs, steps)
    ensures var b := bs[|steps|];
            && b.invoices == [Invoice(0, 0, total, Paid, None)]
            && b.payments == [Payment(0, "x", x, PaymentCompleted), Payment(0, "y", y, PaymentCompleted)]
  {
    steps := [DoCreateDraft(0, 0, total), DoIssue(0), DoCreatePayment(0, "x", x), DoCreatePayment(0, "y", y),
              DoConfirmPayment(0, Hour(), []), DoConfirmPayment(1, Hour(), [])];
    var v := Invoice(0, 0, total, Draft, None);
    var issued, paid := v.(status := Issued), v.(status := Paid);
    var p, q := Payment(0, "x", x, PaymentPending), Payment(0, "y", y, PaymentPending);
    assert "x"[0] != "y"[0];
    bs := [Books([], [], [], []), Books([v], [], [], []), Books([issued], [], [], []), Books([issued], [p], [], []),
           Books([issued], [p, q], [], []), Books([paid], [p.(status := PaymentCompleted), q], [], []),
           Books([paid], [p.(status := PaymentCompleted), q.(status := PaymentCompleted)], [], [])];
    forall k | 0 <= k < |steps| ensures Posted(bs, steps, k) {
    }
  }

  // ---------- paying what is not payable ----------

  /** Exactly when a confirmation pays an invoice that is not open for payment: when it has been voided or disputed since
  the payment was created. It had no earnings until then; now every completed assignment of the job gets its own. */
  lemma ConfirmationPaysUnpayableExactly(
    bs: seq<Books>, steps: seq<BooksStep>, k: nat, p: nat, scheduled: Window, works: seq<Work>)
    requires BooksRun(bs, steps) && k < |bs| && p < |bs[k].payments|
    ensures var i := bs[k].payments[p].invoice;
            var after := ConfirmPayment(bs[k], p, scheduled, works).books;
            && i < |bs[k].invoices| && i < |after.invoices| && after.invoices[i].status.Paid?
            && (!bs[k].invoices[i].status.Issued? && !bs[k].invoices[i].status.Paid? <==>
                bs[k].invoices[i].status.Void? || bs[k].invoices[i].status.Disputed?)
            && (bs[k].invoices[i].status.Void? || bs[k].invoices[i].status.Disputed? ==>
                  && (forall e :: 0 <= e < |bs[k].earnings| ==> bs[k].earnings[e].invoice != i)
                  && bs[k].earnings <= after.earnings
                  && (forall e :: |bs[k].earnings| <= e < |after.earnings| ==> after.earnings[e].invoice == i)
                  && (forall w :: 0 <= w < |works| ==> HasEarning(after.earnings, works[w].assignment)))
  {
    BooksRunInv(bs, steps, k);
    var i := bs[k].payments[p].invoice;
    VoidMeetsNoEarning(bs[k], i, None);
    AccrueShape(bs[k].earnings, works, i, scheduled);
  }

  function Hour(): Window {
    Window(0, 3_600_000)
  }

  // One completed hour at 10 an hour.
  function OneHour(): Work {
    Work(0, 7, Hour(), PayTerms(PayActualTime, 0.0, false, false), Some(10.0))
  }

  function OneHourEarned(): Earning {
    Earning(7, 0, 0, 10.0, PendingPayout, None)
  }

  // A draft is issued and a payment started; what then happens to the invoice is given.
  function LatePayment(meanwhile: BooksStep): seq<BooksStep> {
    [DoCreateDraft(0, 0, 10.0), DoIssue(0), DoCreatePayment(0, "pay", 10.0), meanwhile,
     DoConfirmPayment(0, Hour(), [OneHour()])]
  }

  lemma OneHourAccrues(i: nat)
    ensures AccrueAll([], [OneHour()], i, Hour()) == [OneHourEarned().(invoice := i)]
  {
    assert [OneHour()][1..] == [];
    assert Hour().Hours() == 1.0;
    assert AccrueAll([OneHourEarned().(invoice := i)], [], i, Hour()) == [OneHourEarned().(invoice := i)];
  }

  /** Runs from the empty books in which a voided, and a disputed, invoice becomes paid and the guardian's hour is owed. */
  lemma LatePaymentsAreTaken(disputed: bool) returns (bs: seq<Books>, steps: seq<BooksStep>)
    ensures BooksRun(bs, steps) && |steps| == 5
    ensures bs[4].invoices == [Invoice(0, 0, 10.0, if disputed then Disputed else Void,
                                       if disputed then Some(Issued) else None)]
    ensures bs[4].earnings == []
    ensures |bs[5].invoices| == 1 && bs[5].invoices[0].status.Paid? && bs[5].earnings == [OneHourEarned()]
  {
    var meanwhile := if disputed then DoDispute(0) else DoVoid(0, None);
    steps := LatePayment(meanwhile);
    var b0 := Books([], [], [], []);
    var v := Invoice(0, 0, 10.0, Draft, None);
    var b1 := Books([v], [], [], []);
    var b2 := Books([v.(status := Issued)], [], [], []);
    var b3 := Books([v.(status := Issued)], [Payment(0, "pay", 10.0, PaymentPending)], [], []);
    var u := if disputed then v.(status := Disputed, beforeDispute := Some(Issued)) else v.(status := Void);
    var b4 := b3.(invoices := [u]);
    var b5 := Books([u.(status := Paid)], [Payment(0, "pay", 10.0, PaymentCompleted)], [OneHourEarned()], []);
    assert Post(b3, meanwhile) == b4;
    OneHourAccrues(0);
    assert Post(b4, steps[4]) == b5;
    bs := [b0, b1, b2, b3, b4, b5];
    forall k | 0 <= k < |steps| ensures Posted(bs, steps, k) {
    }
  }

  // ---------- paying twice ----------

  function PayTwice(): seq<BooksStep> {
    [DoCreateDraft(0, 0, 10.0), DoIssue(0), DoCreatePayment(0, "pay", 10.0),
     DoConfirmPayment(0, Hour(), [OneHour()]), DoCreatePayout(7, [0], "a"), DoCreatePayout(7, [0], "b"),
     DoConfirmPayout(1), DoConfirmPayout(0)]
  }

  function PaidBooks(e: Earning, payouts: seq<Payout>): Books {
    Books([Invoice(0, 0, 10.0, Paid, None)], [Payment(0, "pay", 10.0, PaymentCompleted)], [e], payouts)
  }

  // Bundling the one earning, wherever it is already.
  lemma BundlesAgain(e: Earning, payouts: seq<Payout>, key: string)
    requires e.guardian == 7 && e.status.PendingPayout? && e.amount == 10.0 && !KeyUsed(payouts, key)
    ensures Post(PaidBooks(e, payouts), DoCreatePayout(7, [0], key)) ==
            PaidBooks(e.(payout := Some(|payouts|)), payouts + [Payout(7, key, 10.0, PayoutPending)])
  {
    assert Members([0]) == {0};
    assert Found([e], 7, [0]) == {0};
    assert [e][..0] == [] && SumIn([e], {0}) == 10.0;
    assert Bundle([e], {0}, |payouts|) == [e.(payout := Some(|payouts|))];
  }

  lemma PaysOnce(e: Earning, payouts: seq<Payout>, p: nat)
    requires p < |payouts| && payouts[p].status.PayoutPending?
    ensures Post(PaidBooks(e, payouts), DoConfirmPayout(p)) ==
            PaidBooks(if e.payout == Some(p) then e.(status := PaidOut) else e,
                      payouts[p := payouts[p].(status := PayoutCompleted)])
  {
    assert PayAll([e], p) == [if e.payout == Some(p) then e.(status := PaidOut) else e];
  }

  lemma PaidUp()
    ensures Post(Books([Invoice(0, 0, 10.0, Issued, None)], [Payment(0, "pay", 10.0, PaymentPending)], [], []),
                 DoConfirmPayment(0, Hour(), [OneHour()])) == PaidBooks(OneHourEarned(), [])
  {
    OneHourAccrues(0);
  }

  function Pending(key: string): Payout {
    Payout(7, key, 10.0, PayoutPending)
  }

  function Confirmed(key: string): Payout {
    Payout(7, key, 10.0, PayoutCompleted)
  }

  // The books before and after each of those steps.
  function TwicePaid(): seq<Books> {
    var v := Invoice(0, 0, 10.0, Draft, None);
    var e := OneHourEarned();
    var paid := e.(payout := Some(1), status := PaidOut);
    [Books([], [], [], []), Books([v], [], [], []), Books([v.(status := Issued)], [], [], []),
     Books([v.(status := Issued)], [Payment(0, "pay", 10.0, PaymentPending)], [], []),
     PaidBooks(e, []), PaidBooks(e.(payout := Some(0)), [Pending("a")]),
     PaidBooks(e.(payout := Some(1)), [Pending("a"), Pending("b")]),
     PaidBooks(paid, [Pending("a"), Confirmed("b")]), PaidBooks(paid, [Confirmed("a"), Confirmed("b")])]
  }

  lemma BilledAndPaid(k: nat)
    requires k < 4
    ensures Post(TwicePaid()[k], PayTwice()[k]) == TwicePaid()[k + 1]
  {
    PaidUp();
  }

  lemma BundledTwice()
    ensures Post(TwicePaid()[4], PayTwice()[4]) == TwicePaid()[5]
    ensures Post(TwicePaid()[5], PayTwice()[5]) == TwicePaid()[6]
  {
    var e := OneHourEarned();
    BundlesAgain(e, [], "a");
    assert "a"[0] != "b"[0];
    BundlesAgain(e.(payout := Some(0)), [Pending("a")], "b");
    assert [] + [Pending("a")] == [Pending("a")];
    assert [Pending("a")] + [Pending("b")] == [Pending("a"), Pending("b")];
  }

  lemma ConfirmedTwice()
    ensures Post(TwicePaid()[6], PayTwice()[6]) == TwicePaid()[7]
    ensures Post(TwicePaid()[7], PayTwice()[7]) == TwicePaid()[8]
  {
    var e := OneHourEarned().(payout := Some(1));
    var a, b := Pending("a"), Pending("b");
    PaysOnce(e, [a, b], 1);
    PaysOnce(e.(status := PaidOut), [a, Confirmed("b")], 0);
    assert [a, b][1 := Confirmed("b")] == [a, Confirmed("b")];
    assert [a, Confirmed("b")][0 := Confirmed("a")] == [Confirmed("a"), Confirmed("b")];
  }

  lemma TwiceTheMoney()
    ensures TotalPaidOut([Confirmed("a"), Confirmed("b")]) == 20.0
    ensures TotalEarned([OneHourEarned().(payout := Some(1), status := PaidOut)]) == 10.0
  {
    var a, b := Confirmed("a"), Confirmed("b");
    assert [a, b][..1] == [a] && [a][..0] == [];
    assert TotalPaidOut([a]) == 10.0;
    assert [OneHourEarned().(payout := Some(1), status := PaidOut)][..0] == [];
  }

  /** A run from the empty books that breaks conservation: one earning of 10 is put in two payouts, both are confirmed, and
  20 is paid out. */
  lemma RebundledEarningIsPaidTwice() returns (bs: seq<Books>, steps: seq<BooksStep>)
    ensures BooksRun(bs, steps)
    ensures TotalPaidOut(bs[|steps|].payouts) == 20.0 && TotalEarned(bs[|steps|].earnings) == 10.0
  {
    bs, steps := TwicePaid(), PayTwice();
    BundledTwice();
    ConfirmedTwice();
    forall k | 0 <= k < |steps| ensures Posted(bs, steps, k) {
      if k < 4 {
        BilledAndPaid(k);
      }
    }
    TwiceTheMoney();
  }
}
