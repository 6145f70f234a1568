/** Invoices, payments, guardian earnings and payouts, and every operation on them as a function of the ledger. */
module Ledger {
  import opened Domain
  import opened Durations

  datatype InvoiceStatus =
    | Draft
    | PendingConfirmation
    | Issued
    | Paid
    | PartiallyPaid
    | Overdue
    | Disputed
    | Void

  datatype Invoice = Invoice(
    jobId: nat, organization: nat, total: real, status: InvoiceStatus, beforeDispute: Option<InvoiceStatus>)

  datatype PaymentStatus = PaymentPending | PaymentCompleted

  datatype Payment = Payment(invoice: nat, key: string, amount: real, status: PaymentStatus)

  datatype EarningStatus = PendingPayout | PaidOut | Blocked | EarningCancelled

  datatype Earning = Earning(
    guardian: nat, assignment: nat, invoice: nat, amount: real, status: EarningStatus, payout: Option<nat>)

  datatype PayoutStatus = PayoutPending | PayoutCompleted

  datatype Payout = Payout(guardian: nat, key: string, amount: real, status: PayoutStatus)

  /** All rows; a row's position is its identity. */
  datatype Books = Books(
    invoices: seq<Invoice>, payments: seq<Payment>, earnings: seq<Earning>, payouts: seq<Payout>)

  /** One completed assignment of the invoice's job, with what the earning is computed from. */
  datatype Work = Work(assignment: nat, guardian: nat, window: Window, terms: PayTerms, rate: Option<real>)

  datatype BooksReply = Ok | Missing | Refused

  datatype BooksOutcome = BooksOutcome(books: Books, reply: BooksReply)

  predicate Issuable(s: InvoiceStatus) {
    s.Draft? || s.PendingConfirmation?
  }

  predicate Disputable(s: InvoiceStatus) {
    s.Draft? || s.PendingConfirmation? || s.Issued? || s.Overdue? || s.PartiallyPaid?
  }

  // ---------- invoices ----------

  function SetInvoice(b: Books, i: nat, v: Invoice): Books
    requires i < |b.invoices|
  {
    b.(invoices := b.invoices[i := v])
  }

  function CreateDraft(b: Books, jobId: nat, organization: nat, total: real): Books {
    if exists i :: 0 <= i < |b.invoices| && b.invoices[i].jobId == jobId then b
    else b.(invoices := b.invoices + [Invoice(jobId, organization, total, Draft, None)])
  }

  function View(b: Books, i: nat): Books {
    if i < |b.invoices| && b.invoices[i].status.Draft?
    then SetInvoice(b, i, b.invoices[i].(status := PendingConfirmation))
    else b
  }

  function Issue(b: Books, i: nat): BooksOutcome {
    if |b.invoices| <= i then BooksOutcome(b, Missing)
    else if b.invoices[i].status.Disputed? then BooksOutcome(b, Refused)
    else if !Issuable(b.invoices[i].status) then BooksOutcome(b, Ok)
    else BooksOutcome(SetInvoice(b, i, b.invoices[i].(status := Issued)), Ok)
  }

  predicate ReplacementInvoiceOk(b: Books, i: nat, replacement: Option<nat>)
    requires i < |b.invoices|
  {
    replacement.Some? ==>
      && replacement.value != i && replacement.value < |b.invoices|
      && b.invoices[replacement.value].organization == b.invoices[i].organization
  }

  // The pending earnings of a voided invoice are cancelled.
  function CancelEarnings(s: seq<Earning>, i: nat): seq<Earning> {
    seq(|s|, e requires 0 <= e < |s| =>
      if s[e].invoice == i && s[e].status.PendingPayout? then s[e].(status := EarningCancelled) else s[e])
  }

  function VoidInvoice(b: Books, i: nat, replacement: Option<nat>): BooksOutcome {
    if |b.invoices| <= i then BooksOutcome(b, Missing)
    else if b.invoices[i].status.Void? then BooksOutcome(b, Ok)
    else if b.invoices[i].status.Paid? then BooksOutcome(b, Refused)
    else if replacement.Some? && |b.invoices| <= replacement.value then BooksOutcome(b, Missing)
    else if !ReplacementInvoiceOk(b, i, replacement) then BooksOutcome(b, Refused)
    else
      BooksOutcome(
        SetInvoice(b, i, b.invoices[i].(status := Void)).(earnings := CancelEarnings(b.earnings, i)), Ok)
  }

  function Dispute(b: Books, i: nat): BooksOutcome {
    if |b.invoices| <= i then BooksOutcome(b, Missing)
    else
      var v := b.invoices[i];
      if v.status.Disputed? then BooksOutcome(b, Ok)
      else if !Disputable(v.status) then BooksOutcome(b, Refused)
      else BooksOutcome(SetInvoice(b, i, v.(status := Disputed, beforeDispute := Some(v.status))), Ok)
  }

  function ClearDispute(b: Books, i: nat): BooksOutcome {
    if |b.invoices| <= i then BooksOutcome(b, Missing)
    else
      var v := b.invoices[i];
      if !v.status.Disputed? then BooksOutcome(b, Refused)
      else
        var restored := if v.beforeDispute.Some? then v.beforeDispute.value else PendingConfirmation;
        BooksOutcome(SetInvoice(b, i, v.(status := restored)), Ok)
  }

  function VoidDispute(b: Books, i: nat, replacement: Option<nat>): BooksOutcome {
    if |b.invoices| <= i then BooksOutcome(b, Missing)
    else if !b.invoices[i].status.Disputed? then BooksOutcome(b, Refused)
    else VoidInvoice(b, i, replacement)
  }

  // ---------- payments and earnings ----------

  function CreatePayment(b: Books, i: nat, key: string, amount: real): BooksOutcome {
    if exists p :: 0 <= p < |b.payments| && b.payments[p].key == key then BooksOutcome(b, Ok)
    else if |b.invoices| <= i then BooksOutcome(b, Missing)
    else if !b.invoices[i].status.Issued? && !b.invoices[i].status.PartiallyPaid? then BooksOutcome(b, Refused)
    else BooksOutcome(b.(payments := b.payments + [Payment(i, key, amount, PaymentPending)]), Ok)
  }

  predicate HasEarning(s: seq<Earning>, assignment: nat) {
    exists e :: 0 <= e < |s| && s[e].assignment == assignment
  }

  // Without a pay rate the earning is recorded as blocked, for nothing.
  function NewEarning(work: Work, invoice: nat, scheduled: Window): Earning {
    var t := work.terms;
    var hours :=
      PayableHours(t.model, t.minimum, scheduled, work.window, t.earlyReleaseApproved, t.applyOnEarlyRelease);
    match work.rate
    case None => Earning(work.guardian, work.assignment, invoice, 0.0, Blocked, None)
    case Some(rate) => Earning(work.guardian, work.assignment, invoice, hours * rate, PendingPayout, None)
  }

  function AccrueAll(s: seq<Earning>, works: seq<Work>, invoice: nat, scheduled: Window): seq<Earning>
    decreases |works|
  {
    if works == [] then s
    else
      var s' := if HasEarning(s, works[0].assignment) then s else s + [NewEarning(works[0], invoice, scheduled)];
      AccrueAll(s', works[1..], invoice, scheduled)
  }

  function Accrue(b: Books, i: nat, scheduled: Window, works: seq<Work>): Books {
    if |b.invoices| <= i || !b.invoices[i].status.Paid? then b
    else b.(earnings := AccrueAll(b.earnings, works, i, scheduled))
  }

  // The invoice becomes paid whatever its status was.
  function ConfirmPayment(b: Books, p: nat, scheduled: Window, works: seq<Work>): BooksOutcome {
    if |b.payments| <= p || |b.invoices| <= b.payments[p].invoice then BooksOutcome(b, Missing)
    else
      var i := b.payments[p].invoice;
      var b1 := b.(payments := b.payments[p := b.payments[p].(status := PaymentCompleted)]);
      BooksOutcome(Accrue(SetInvoice(b1, i, b1.invoices[i].(status := Paid)), i, scheduled, works), Ok)
  }

  // ---------- payouts ----------

  predicate Selectable(s: seq<Earning>, guardian: nat, e: nat) {
    e < |s| && s[e].guardian == guardian && s[e].status.PendingPayout?
  }

  function Members(ids: seq<nat>): set<nat> {
    set e | e in ids
  }

  function Found(s: seq<Earning>, guardian: nat, ids: seq<nat>): set<nat> {
    set e | e in Members(ids) && Selectable(s, guardian, e)
  }

  // The amounts of the listed earnings added up.
  function SumIn(s: seq<Earning>, ids: set<nat>): real {
    if s == [] then 0.0
    else SumIn(s[..|s| - 1], ids) + (if |s| - 1 in ids then s[|s| - 1].amount else 0.0)
  }

  function Bundle(s: seq<Earning>, ids: set<nat>, payout: nat): seq<Earning> {
    seq(|s|, e requires 0 <= e < |s| => if e in ids then s[e].(payout := Some(payout)) else s[e])
  }

  predicate KeyUsed(s: seq<Payout>, key: string) {
    exists p :: 0 <= p < |s| && s[p].key == key
  }

  // Asks only that the earnings are the guardian's and pending, not whether they are already in another payout.
  predicate MayBundle(b: Books, guardian: nat, ids: seq<nat>) {
    var found := Found(b.earnings, guardian, ids);
    |found| == |ids| && 0.0 < SumIn(b.earnings, found)
  }

  function NewPayout(b: Books, guardian: nat, ids: seq<nat>, key: string): Books {
    var amount := SumIn(b.earnings, Found(b.earnings, guardian, ids));
    b.(payouts := b.payouts + [Payout(guardian, key, amount, PayoutPending)],
       earnings := Bundle(b.earnings, Members(ids), |b.payouts|))
  }

  function CreatePayout(b: Books, guardian: nat, ids: seq<nat>, key: string): BooksOutcome {
    if KeyUsed(b.payouts, key) then BooksOutcome(b, Ok)
    else if !MayBundle(b, guardian, ids) then BooksOutcome(b, Refused)
    else BooksOutcome(NewPayout(b, guardian, ids, key), Ok)
  }

  function PayAll(s: seq<Earning>, payout: nat): seq<Earning> {
    seq(|s|, e requires 0 <= e < |s| => if s[e].payout == Some(payout) then s[e].(status := PaidOut) else s[e])
  }

  function ConfirmPayout(b: Books, p: nat): BooksOutcome {
    if |b.payouts| <= p then BooksOutcome(b, Missing)
    else if b.payouts[p].status.PayoutCompleted? then BooksOutcome(b, Ok)
    else
      BooksOutcome(
        b.(payouts := b.payouts[p := b.payouts[p].(status := PayoutCompleted)],
           earnings := PayAll(b.earnings, p)), Ok)
  }

  // ---------- steps and runs ----------

  datatype BooksStep =
    | DoCreateDraft(jobId: nat, organization: nat, total: real)
    | DoView(i: nat)
    | DoIssue(i: nat)
    | DoVoid(i: nat, replacement: Option<nat>)
    | DoDispute(i: nat)
    | DoClearDispute(i: nat)
    | DoVoidDispute(i: nat, replacement: Option<nat>)
    | DoCreatePayment(i: nat, key: string, amount: real)
    | DoConfirmPayment(p: nat, scheduled: Window, works: seq<Work>)
    | DoAccrue(i: nat, scheduled: Window, works: seq<Work>)
    | DoCreatePayout(guardian: nat, ids: seq<nat>, key: string)
    | DoConfirmPayout(p: nat)

  function Post(b: Books, step: BooksStep): Books {
    match step
    case DoCreateDraft(jobId, organization, total) => CreateDraft(b, jobId, organization, total)
    case DoView(i) => View(b, i)
    case DoIssue(i) => Issue(b, i).books
    case DoVoid(i, replacement) => VoidInvoice(b, i, replacement).books
    case DoDispute(i) => Dispute(b, i).books
    case DoClearDispute(i) => ClearDispute(b, i).books
    case DoVoidDispute(i, replacement) => VoidDispute(b, i, replacement).books
    case DoCreatePayment(i, key, amount) => CreatePayment(b, i, key, amount).books
    case DoConfirmPayment(p, scheduled, works) => ConfirmPayment(b, p, scheduled, works).books
    case DoAccrue(i, scheduled, works) => Accrue(b, i, scheduled, works)
    case DoCreatePayout(guardian, ids, key) => CreatePayout(b, guardian, ids, key).books
    case DoConfirmPayout(p) => ConfirmPayout(b, p).books
  }

  ghost predicate Posted(bs: seq<Books>, steps: seq<BooksStep>, k: nat)
    requires |bs| == |steps| + 1 && k < |steps|
  {
    bs[k + 1] == Post(bs[k], steps[k])
  }

  /** A run of the books, from empty. */
  ghost predicate BooksRun(bs: seq<Books>, steps: seq<BooksStep>) {
    && |bs| == |steps| + 1
    && bs[0] == Books([], [], [], [])
    && forall k {:trigger Posted(bs, steps, k)} :: 0 <= k < |steps| ==> Posted(bs, steps, k)
  }
}
