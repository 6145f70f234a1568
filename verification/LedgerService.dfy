/** The invoice, payment, earning and payout operations as methods that update the ledger's tables in place. */
module LedgerService {
  import opened Domain
  import opened Durations
  import opened Ledger
  import opened LedgerInvariants
  import opened LedgerLaws

  // Whoever had an earning has it still when one is added, and so has the one it is added for.
  lemma EarningAdded(s: seq<Earning>, e: Earning)
    ensures forall a :: HasEarning(s + [e], a) <==> HasEarning(s, a) || a == e.assignment
  {
    assert (s + [e])[|s|] == e;
    forall a | HasEarning(s, a) ensures HasEarning(s + [e], a) {
      var k :| 0 <= k < |s| && s[k].assignment == a;
      assert (s + [e])[k].assignment == a;
    }
  }

  class LedgerTables {
    var invoices: seq<Invoice>
    var payments: seq<Payment>
    var earnings: seq<Earning>
    var payouts: seq<Payout>

    function State(): Books
      reads this
    {
      Books(invoices, payments, earnings, payouts)
    }

    ghost predicate Valid()
      reads this
    {
      BooksInv(State())
    }

    constructor ()
      ensures State() == Books([], [], [], []) && Valid()
    {
      invoices, payments, earnings, payouts := [], [], [], [];
    }

    // ---------- invoices ----------

    method CreateDraftInvoice(jobId: nat, organization: nat, total: real)
      modifies this
      ensures State() == CreateDraft(old(State()), jobId, organization, total)
    {
      if exists i :: 0 <= i < |invoices| && invoices[i].jobId == jobId {
        return;
      }
      invoices := invoices + [Invoice(jobId, organization, total, Draft, None)];
    }

    method ApplyPendingConfirmationOnView(i: nat)
      modifies this
      ensures State() == View(old(State()), i)
    {
      if |invoices| <= i || !invoices[i].status.Draft? {
        return;
      }
      invoices := invoices[i := invoices[i].(status := PendingConfirmation)];
    }

    method IssueIfDraft(i: nat) returns (reply: BooksReply)
      modifies this
      ensures BooksOutcome(State(), reply) == Issue(old(State()), i)
    {
      if |invoices| <= i {
        return Missing;
      }
      if invoices[i].status.Disputed? {
        return Refused;
      }
      if Issuable(invoices[i].status) {
        invoices := invoices[i := invoices[i].(status := Issued)];
      }
      return Ok;
    }

    method Void(i: nat, replacement: Option<nat>) returns (reply: BooksReply)
      modifies this
      ensures BooksOutcome(State(), reply) == VoidInvoice(old(State()), i, replacement)
    {
      if |invoices| <= i {
        return Missing;
      }
      if invoices[i].status.Void? {
        return Ok;
      }
      if invoices[i].status.Paid? {
        return Refused;
      }
      if replacement.Some? && |invoices| <= replacement.value {
        return Missing;
      }
      if !ReplacementInvoiceOk(State(), i, replacement) {
        return Refused;
      }
      invoices := invoices[i := invoices[i].(status := InvoiceStatus.Void)];
      CancelEarningsForInvoice(i);
      return Ok;
    }

    method CancelEarningsForInvoice(i: nat)
      modifies this`earnings
      ensures earnings == CancelEarnings(old(earnings), i)
    {
      if forall e :: 0 <= e < |earnings| ==> !(earnings[e].invoice == i && earnings[e].status.PendingPayout?) {
        assert CancelEarnings(earnings, i) == earnings;
        return;
      }
      earnings := CancelEarnings(earnings, i);
    }

    method DisputeInvoice(i: nat) returns (reply: BooksReply)
      modifies this
      ensures BooksOutcome(State(), reply) == Dispute(old(State()), i)
    {
      if |invoices| <= i {
        return Missing;
      }
      var status := invoices[i].status;
      if status.Disputed? {
        return Ok;
      }
      if !Disputable(status) {
        return Refused;
      }
      invoices := invoices[i := invoices[i].(status := Disputed, beforeDispute := Some(status))];
      return Ok;
    }

    method ResolveDispute(i: nat, voiding: bool, replacement: Option<nat>) returns (reply: BooksReply)
      modifies this
      ensures BooksOutcome(State(), reply) ==
              if voiding then VoidDispute(old(State()), i, replacement) else ClearDispute(old(State()), i)
    {
      if |invoices| <= i {
        return Missing;
      }
      if !invoices[i].status.Disputed? {
        return Refused;
      }
      if voiding {
        reply := Void(i, replacement);
        return;
      }
      var restored := PendingConfirmation;
      if invoices[i].beforeDispute.Some? {
        restored := invoices[i].beforeDispute.value;
      }
      invoices := invoices[i := invoices[i].(status := restored)];
      return Ok;
    }

    // ---------- payments and earnings ----------

    method CreatePayment(i: nat, key: string, amount: real) returns (reply: BooksReply)
      modifies this
      ensures BooksOutcome(State(), reply) == Ledger.CreatePayment(old(State()), i, key, amount)
    {
      if exists p :: 0 <= p < |payments| && payments[p].key == key {
        return Ok;
      }
      if |invoices| <= i {
        return Missing;
      }
      if !invoices[i].status.Issued? && !invoices[i].status.PartiallyPaid? {
        return Refused;
      }
      payments := payments + [Payment(i, key, amount, PaymentPending)];
      return Ok;
    }

    /** One earning for every completed assignment that has none yet: on a paid invoice nobody is left without, nobody is
    given a second one, and nothing recorded before changes. */
    method AccrueForPaidInvoice(i: nat, scheduled: Window, works: seq<Work>)
      modifies this
      ensures State() == Accrue(old(State()), i, scheduled, works)
      ensures i < |invoices| && invoices[i].status.Paid? ==>
                && (forall w :: 0 <= w < |works| ==> HasEarning(earnings, works[w].assignment))
                && Accrues(old(earnings), works, i, scheduled, earnings)
      ensures OneEarningEach(old(earnings)) ==> OneEarningEach(earnings)
      ensures old(earnings) <= earnings
      ensures forall e :: |old(earnings)| <= e < |earnings| ==> earnings[e].invoice == i && earnings[e].payout.None?
    {
      if |invoices| <= i || !invoices[i].status.Paid? {
        return;
      }
      AccrueAllObeys(earnings, works, i, scheduled);
      for n := 0 to |works|
        invariant AccrueAll(earnings, works[n..], i, scheduled) == AccrueAll(old(earnings), works, i, scheduled)
        invariant invoices == old(invoices) && payments == old(payments) && payouts == old(payouts)
        invariant forall w :: 0 <= w < n ==> HasEarning(earnings, works[w].assignment)
        invariant OneEarningEach(old(earnings)) ==> OneEarningEach(earnings)
        invariant old(earnings) <= earnings
        invariant forall e :: |old(earnings)| <= e < |earnings| ==> earnings[e].invoice == i && earnings[e].payout.None?
      {
        assert works[n..][1..] == works[n + 1..];
        EarningAdded(earnings, NewEarning(works[n], i, scheduled));
        if HasEarning(earnings, works[n].assignment) {
          continue;
        }
        earnings := earnings + [NewEarning(works[n], i, scheduled)];
      }
    }

    method ConfirmPayment(p: nat, scheduled: Window, works: seq<Work>) returns (reply: BooksReply)
      modifies this
      ensures BooksOutcome(State(), reply) == Ledger.ConfirmPayment(old(State()), p, scheduled, works)
    {
      if |payments| <= p || |invoices| <= payments[p].invoice {
        return Missing;
      }
      var i := payments[p].invoice;
      payments := payments[p := payments[p].(status := PaymentCompleted)];
      invoices := invoices[i := invoices[i].(status := Paid)];
      AccrueForPaidInvoice(i, scheduled, works);
      return Ok;
    }

    // ---------- payouts ----------

    method CreatePayout(guardian: nat, ids: seq<nat>, key: string) returns (reply: BooksReply)
      modifies this
      ensures BooksOutcome(State(), reply) == Ledger.CreatePayout(old(State()), guardian, ids, key)
      ensures State() != old(State()) <==> Unused(old(State()), key) && MayPay(old(State()), guardian, ids)
      ensures State() != old(State()) ==>
                payouts == old(payouts) + [Payout(guardian, key, Total(old(earnings), ids), PayoutPending)]
    {
      MayPayExactly(State(), guardian, ids);
      if KeyUsed(payouts, key) {
        return Ok;
      }
      var found := Found(earnings, guardian, ids);
      if |found| != |ids| {
        return Refused;
      }
      var amount := 0.0;
      for e := 0 to |earnings|
        invariant amount == SumIn(earnings[..e], found)
      {
        assert earnings[..e + 1][..e] == earnings[..e];
        if e in found {
          amount := amount + earnings[e].amount;
        }
      }
      assert earnings[..|earnings|] == earnings;
      if amount <= 0.0 {
        return Refused;
      }
      var payout := |payouts|;
      payouts := payouts + [Payout(guardian, key, amount, PayoutPending)];
      earnings := Bundle(earnings, Members(ids), payout);
      return Ok;
    }

    method ConfirmPayout(p: nat) returns (reply: BooksReply)
      modifies this
      ensures BooksOutcome(State(), reply) == Ledger.ConfirmPayout(old(State()), p)
    {
      if |payouts| <= p {
        return Missing;
      }
      if payouts[p].status.PayoutCompleted? {
        return Ok;
      }
      payouts := payouts[p := payouts[p].(status := PayoutCompleted)];
      earnings := PayAll(earnings, p);
      return Ok;
    }

    /** Any operation on the books does what the specification says and keeps every invariant of the books. */
    method Perform(step: BooksStep)
      requires Valid()
      modifies this
      ensures State() == Post(old(State()), step) && BooksLaw(old(State()), step, State())
      ensures Valid()
    {
      PostObeys(State(), step);
      PostKeeps(State(), step);
      match step {
        case DoCreateDraft(jobId, organization, total) => CreateDraftInvoice(jobId, organization, total);
        case DoView(i) => ApplyPendingConfirmationOnView(i);
        case DoIssue(i) => var _ := IssueIfDraft(i);
        case DoVoid(i, replacement) => var _ := Void(i, replacement);
        case DoDispute(i) => var _ := DisputeInvoice(i);
        case DoClearDispute(i) => var _ := ResolveDispute(i, false, None);
        case DoVoidDispute(i, replacement) => var _ := ResolveDispute(i, true, replacement);
        case DoCreatePayment(i, key, amount) => var _ := CreatePayment(i, key, amount);
        case DoConfirmPayment(p, scheduled, works) => var _ := ConfirmPayment(p, scheduled, works);
        case DoAccrue(i, scheduled, works) => AccrueForPaidInvoice(i, scheduled, works);
        case DoCreatePayout(guardian, ids, key) => var _ := CreatePayout(guardian, ids, key);
        case DoConfirmPayout(p) => var _ := ConfirmPayout(p);
      }
    }
  }
}
