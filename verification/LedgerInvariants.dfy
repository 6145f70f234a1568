/** What every run of the books keeps, and when payouts add up to the earnings they pay. */
module LedgerInvariants {
  import opened Domain
  import opened Durations
  import opened Ledger

  // ---------- the invariants ----------

  // The code never sets Overdue or PartiallyPaid, and a disputed invoice remembers a status it can go back to.
  predicate InvoiceOk(v: Invoice) {
    && !v.status.Overdue? && !v.status.PartiallyPaid?
    && (v.beforeDispute.Some? ==> Disputable(v.beforeDispute.value) &&
                                  !v.beforeDispute.value.Overdue? && !v.beforeDispute.value.PartiallyPaid?)
    && (v.status.Disputed? ==> v.beforeDispute.Some?)
  }

  // An invoice somebody started to pay has been issued and is never taken back to before that.
  predicate BeenIssued(v: Invoice) {
    v.status.Issued? || v.status.Paid? || v.status.Void? || (v.status.Disputed? && v.beforeDispute == Some(Issued))
  }

  // An earning belongs to a paid invoice; bundled, it is pending or paid out with its payout; and it is never cancelled.
  predicate EarningOk(b: Books, e: Earning) {
    && e.invoice < |b.invoices| && b.invoices[e.invoice].status.Paid?
    && !e.status.EarningCancelled?
    && (e.payout.None? ==> !e.status.PaidOut?)
    && (e.payout.Some? ==>
          && e.payout.value < |b.payouts|
          && (b.payouts[e.payout.value].status.PayoutPending? ==> e.status.PendingPayout?)
          && (b.payouts[e.payout.value].status.PayoutCompleted? ==> e.status.PaidOut?))
  }

  ghost predicate OneEarningEach(s: seq<Earning>) {
    forall e, f :: 0 <= e < f < |s| ==> s[e].assignment != s[f].assignment
  }

  ghost predicate BooksInv(b: Books) {
    && (forall i :: 0 <= i < |b.invoices| ==> InvoiceOk(b.invoices[i]))
    && (forall p :: 0 <= p < |b.payments| ==>
          b.payments[p].invoice < |b.invoices| && BeenIssued(b.invoices[b.payments[p].invoice]))
    && (forall e :: 0 <= e < |b.earnings| ==> EarningOk(b, b.earnings[e]))
    && OneEarningEach(b.earnings)
  }

  // ---------- accrual ----------

  // Accrual only appends earnings of the invoice, each for an assignment that had none, and leaves none of the works
  // without one.
  lemma {:induction false} AccrueShape(s: seq<Earning>, works: seq<Work>, i: nat, scheduled: Window)
    requires OneEarningEach(s)
    ensures var t := AccrueAll(s, works, i, scheduled);
            && s <= t
            && OneEarningEach(t)
            && (forall e :: |s| <= e < |t| ==>
                  && t[e].invoice == i && t[e].payout.None?
                  && (t[e].status.PendingPayout? || (t[e].status.Blocked? && t[e].amount == 0.0)))
            && (forall w :: 0 <= w < |works| ==> HasEarning(t, works[w].assignment))
    decreases |works|
  {
    if works != [] {
      var s' := if HasEarning(s, works[0].assignment) then s else s + [NewEarning(works[0], i, scheduled)];
      AccrueShape(s', works[1..], i, scheduled);
      var t := AccrueAll(s', works[1..], i, scheduled);
      assert HasEarning(s', works[0].assignment) by {
        if !HasEarning(s, works[0].assignment) {
          assert s'[|s|].assignment == works[0].assignment;
        }
      }
      forall w | 0 <= w < |works| ensures HasEarning(t, works[w].assignment) {
        if w == 0 {
          var e :| 0 <= e < |s'| && s'[e].assignment == works[0].assignment;
          assert t[e] == s'[e];
        } else {
          assert works[w] == works[1..][w - 1];
        }
      }
    }
  }

  lemma {:induction false} NothingToAccrue(s: seq<Earning>, works: seq<Work>, i: nat, scheduled: Window)
    requires forall w :: 0 <= w < |works| ==> HasEarning(s, works[w].assignment)
    ensures AccrueAll(s, works, i, scheduled) == s
    decreases |works|
  {
    if works != [] {
      assert HasEarning(s, works[0].assignment);
      forall w | 0 <= w < |works[1..]| ensures HasEarning(s, works[1..][w].assignment) {
        assert works[1..][w] == works[w + 1];
      }
      NothingToAccrue(s, works[1..], i, scheduled);
    }
  }

  /** Exactly when an accrual adds nothing: the invoice is not paid, or everyone on the list it is given has an earning
  already. The list is read afresh each time, so a second accrual adds whoever has completed since the first. */
  lemma AccrualAddsNothingExactly(b: Books, i: nat, scheduled: Window, works: seq<Work>)
    requires OneEarningEach(b.earnings)
    ensures Accrue(b, i, scheduled, works) == b <==>
            (i < |b.invoices| && b.invoices[i].status.Paid? ==>
               forall w :: 0 <= w < |works| ==> HasEarning(b.earnings, works[w].assignment))
  {
    AccrueShape(b.earnings, works, i, scheduled);
    if forall w :: 0 <= w < |works| ==> HasEarning(b.earnings, works[w].assignment) {
      NothingToAccrue(b.earnings, works, i, scheduled);
    }
  }

  // ---------- every step keeps the invariants ----------

  lemma AccrueKeeps(b: Books, i: nat, scheduled: Window, works: seq<Work>)
    requires BooksInv(b)
    ensures BooksInv(Accrue(b, i, scheduled, works))
  {
    AccrueShape(b.earnings, works, i, scheduled);
  }

  lemma ConfirmPaymentKeeps(b: Books, p: nat, scheduled: Window, works: seq<Work>)
    requires BooksInv(b)
    ensures BooksInv(ConfirmPayment(b, p, scheduled, works).books)
  {
    if ConfirmPayment(b, p, scheduled, works).reply.Ok? {
      var i := b.payments[p].invoice;
      var b1 := b.(payments := b.payments[p := b.payments[p].(status := PaymentCompleted)]);
      var b2 := SetInvoice(b1, i, b1.invoices[i].(status := Paid));
      assert BooksInv(b2);
      AccrueKeeps(b2, i, scheduled, works);
    }
  }

  /** Voiding never meets a pending earning: an invoice that can be voided has no earnings at all. */
  lemma VoidMeetsNoEarning(b: Books, i: nat, replacement: Option<nat>)
    requires BooksInv(b)
    ensures VoidInvoice(b, i, replacement).books.earnings == b.earnings
    ensures i < |b.invoices| && !b.invoices[i].status.Paid? ==>
              forall e :: 0 <= e < |b.earnings| ==> b.earnings[e].invoice != i
  {
    forall e | 0 <= e < |b.earnings| && i < |b.invoices| && !b.invoices[i].status.Paid?
      ensures b.earnings[e].invoice != i
    {
      assert EarningOk(b, b.earnings[e]);
    }
    if i < |b.invoices| && !b.invoices[i].status.Paid? {
      assert CancelEarnings(b.earnings, i) == b.earnings;
    }
  }

  lemma VoidKeeps(b: Books, i: nat, replacement: Option<nat>)
    requires BooksInv(b)
    ensures BooksInv(VoidInvoice(b, i, replacement).books)
  {
    VoidMeetsNoEarning(b, i, replacement);
  }

  lemma CreatePayoutKeeps(b: Books, guardian: nat, ids: seq<nat>, key: string)
    requires BooksInv(b)
    ensures BooksInv(CreatePayout(b, guardian, ids, key).books)
  {
    var b' := CreatePayout(b, guardian, ids, key).books;
    if b' != b {
      AllFound(b.earnings, guardian, ids);
      forall e | 0 <= e < |b'.earnings| ensures EarningOk(b', b'.earnings[e]) {
        assert EarningOk(b, b.earnings[e]);
      }
    }
  }

  // When as many earnings are found as asked for, every one asked for was found, and none was asked for twice.
  lemma AllFound(s: seq<Earning>, guardian: nat, ids: seq<nat>)
    requires |Found(s, guardian, ids)| == |ids|
    ensures Distinct(ids) && forall e :: e in ids ==> Selectable(s, guardian, e)
    ensures Found(s, guardian, ids) == Members(ids)
  {
    MembersFit(ids);
    SubsetSize(Found(s, guardian, ids), Members(ids));
    assert forall e :: e in ids ==> e in Members(ids);
  }

  lemma SubsetSize(a: set<nat>, b: set<nat>)
    requires a <= b
    ensures |a| <= |b|
    ensures |b| <= |a| ==> a == b
  {
    assert b == a + (b - a);
    assert |b| == |a| + |b - a|;
  }

  // The members of a list number at most its length, and fewer when one is repeated.
  lemma {:induction false} MembersFit(ids: seq<nat>)
    ensures |Members(ids)| <= |ids|
    ensures |Members(ids)| == |ids| ==> Distinct(ids)
  {
    if ids != [] {
      var last := |ids| - 1;
      var rest := ids[..last];
      MembersFit(rest);
      assert Members(ids) == Members(rest) + {ids[last]};
      if ids[last] in Members(rest) {
        assert Members(ids) == Members(rest);
      } else if |Members(ids)| == |ids| {
        forall i, j | 0 <= i < j < |ids| ensures ids[i] != ids[j] {
          assert ids[i] == rest[i] && ids[i] in Members(rest);
          assert j < last ==> ids[j] == rest[j];
        }
      }
    }
  }

  // An invoice may move, to a sound state, if it was not paid and nothing it has been issued for is lost.
  lemma SetInvoiceKeeps(b: Books, i: nat, v: Invoice)
    requires BooksInv(b) && i < |b.invoices| && InvoiceOk(v) && !b.invoices[i].status.Paid?
    requires BeenIssued(b.invoices[i]) ==> BeenIssued(v)
    ensures BooksInv(SetInvoice(b, i, v))
  {
    forall e | 0 <= e < |b.earnings| ensures EarningOk(SetInvoice(b, i, v), b.earnings[e]) {
      assert EarningOk(b, b.earnings[e]);
    }
  }

  lemma DisputeKeeps(b: Books, i: nat)
    requires BooksInv(b)
    ensures BooksInv(Dispute(b, i).books)
  {
    if i < |b.invoices| && Disputable(b.invoices[i].status) {
      var v := b.invoices[i];
      SetInvoiceKeeps(b, i, v.(status := Disputed, beforeDispute := Some(v.status)));
    }
  }

  lemma ClearKeeps(b: Books, i: nat)
    requires BooksInv(b)
    ensures BooksInv(ClearDispute(b, i).books)
  {
    if i < |b.invoices| && b.invoices[i].status.Disputed? {
      SetInvoiceKeeps(b, i, b.invoices[i].(status := b.invoices[i].beforeDispute.value));
    }
  }

  lemma IssueKeeps(b: Books, i: nat)
    requires BooksInv(b)
    ensures BooksInv(Issue(b, i).books) && BooksInv(View(b, i))
  {
    if i < |b.invoices| && Issuable(b.invoices[i].status) {
      SetInvoiceKeeps(b, i, b.invoices[i].(status := Issued));
      SetInvoiceKeeps(b, i, b.invoices[i].(status := PendingConfirmation));
    }
  }

  lemma ConfirmPayoutKeeps(b: Books, p: nat)
    requires BooksInv(b)
    ensures BooksInv(ConfirmPayout(b, p).books)
  {
    var b' := ConfirmPayout(b, p).books;
    forall e | 0 <= e < |b'.earnings| && b' != b ensures EarningOk(b', b'.earnings[e]) {
      assert EarningOk(b, b.earnings[e]);
    }
  }

  lemma PostKeeps(b: Books, step: BooksStep)
    requires BooksInv(b)
    ensures BooksInv(Post(b, step))
  {
    match step
    case DoVoid(i, replacement) => VoidKeeps(b, i, replacement);
    case DoVoidDispute(i, replacement) => VoidKeeps(b, i, replacement);
    case DoConfirmPayment(p, scheduled, works) => ConfirmPaymentKeeps(b, p, scheduled, works);
    case DoAccrue(i, scheduled, works) => AccrueKeeps(b, i, scheduled, works);
    case DoCreatePayout(guardian, ids, key) => CreatePayoutKeeps(b, guardian, ids, key);
    case DoConfirmPayout(p) => ConfirmPayoutKeeps(b, p);
    case DoDispute(i) => DisputeKeeps(b, i);
    case DoClearDispute(i) => ClearKeeps(b, i);
    case DoIssue(i) => IssueKeeps(b, i);
    case DoView(i) => IssueKeeps(b, i);
    case DoCreateDraft(_, _, _) =>
    case DoCreatePayment(_, _, _) =>
  }

  lemma {:induction false} BooksRunInv(bs: seq<Books>, steps: seq<BooksStep>, k: nat)
    requires BooksRun(bs, steps) && k < |bs|
    ensures BooksInv(bs[k])
  {
    if 0 < k {
      BooksRunInv(bs, steps, k - 1);
      assert Posted(bs, steps, k - 1);
      PostKeeps(bs[k - 1], steps[k - 1]);
    }
  }
}
