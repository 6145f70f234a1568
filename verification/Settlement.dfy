/** Confirming a job: the job is completed first, and its invoice issued after. */
module Settlement {
  import opened Domain
  import opened Protocol
  import opened Invariants
  import opened Runs
  import opened Ledger
  import opened LedgerService
  import opened Tables
  import Jobs = JobService
  import Relief

  function InvoiceOf(invoices: seq<Invoice>, jobId: nat): Option<nat> {
    if invoices == [] then None
    else if invoices[|invoices| - 1].jobId == jobId then Some(|invoices| - 1)
    else InvoiceOf(invoices[..|invoices| - 1], jobId)
  }

  lemma {:induction false} InvoiceFound(invoices: seq<Invoice>, jobId: nat)
    ensures match InvoiceOf(invoices, jobId)
            case Some(i) => i < |invoices| && invoices[i].jobId == jobId
            case None => forall i :: 0 <= i < |invoices| ==> invoices[i].jobId != jobId
  {
    if invoices != [] {
      InvoiceFound(invoices[..|invoices| - 1], jobId);
    }
  }

  datatype Settled = Settled(world: World, books: Books, reply: Reply)

  // Issuing the job's invoice, with the reply the caller sees.
  function IssueForJob(w: World, b: Books, jobId: nat): Settled {
    InvoiceFound(b.invoices, jobId);
    match InvoiceOf(b.invoices, jobId)
    case None => Settled(w, b, NotFound)
    case Some(i) =>
      var issued := Issue(b, i);
      Settled(w, issued.books, if issued.reply.Ok? then Done else BadRequest)
  }

  // The job is completed for good before its invoice is asked for.
  function ConfirmJob(w: World, b: Books, jobId: nat): Settled {
    if w.job.status.JobCompleted? then IssueForJob(w, b, jobId)
    else if !w.job.status.AwaitingConfirmation? then Settled(w, b, BadRequest)
    else IssueForJob(Confirm(w).world, b, jobId)
  }

  function AutoConfirmJob(w: World, b: Books, jobId: nat): Settled {
    InvoiceFound(b.invoices, jobId);
    match InvoiceOf(b.invoices, jobId)
    case None => Settled(w, b, Done)
    case Some(i) =>
      var after := AutoConfirm(w, Issuable(b.invoices[i].status));
      if after == w then Settled(w, b, Done) else IssueForJob(after, b, jobId)
  }

  /** The job's tables and the books agree on whether the job has an invoice. */
  predicate Agree(w: World, b: Books, jobId: nat) {
    w.invoiceDrafted <==> InvoiceOf(b.invoices, jobId).Some?
  }

  predicate InDispute(b: Books, jobId: nat) {
    InvoiceFound(b.invoices, jobId);
    var i := InvoiceOf(b.invoices, jobId);
    i.Some? && b.invoices[i.value].status.Disputed?
  }

  /** Exactly when a confirmation is refused and the job is completed all the same: when the job awaited confirmation and
  its invoice is in dispute. */
  lemma ConfirmationStandsThoughRefused(ws: seq<World>, steps: seq<Step>, k: nat, b: Books, jobId: nat)
    requires Run(ws, steps) && k < |ws| && Agree(ws[k], b, jobId)
    ensures var after := ConfirmJob(ws[k], b, jobId);
            && (!after.reply.Done? && after.world != ws[k] <==>
                ws[k].job.status.AwaitingConfirmation? && InDispute(b, jobId))
            && (after.reply.Done? ==> after.world.job.status.JobCompleted?)
            && (!after.reply.Done? ==> after.books == b)
  {
    RunInv(ws, steps, k);
    InvoiceFound(b.invoices, jobId);
  }

  /** The automatic confirmation does both or neither: a job it completes has its invoice issued with it. */
  lemma AutoConfirmationIsWhole(w: World, b: Books, jobId: nat)
    requires Agree(w, b, jobId)
    ensures var after := AutoConfirmJob(w, b, jobId);
            && (after.world == w <==> after.books == b)
            && (after.world != w ==>
                  && after.world.job.status.JobCompleted? && after.reply.Done?
                  && InvoiceOf(b.invoices, jobId).Some?
                  && InvoiceOf(b.invoices, jobId).value < |after.books.invoices|
                  && after.books.invoices[InvoiceOf(b.invoices, jobId).value].status.Issued?)
  {
    InvoiceFound(b.invoices, jobId);
    var after := AutoConfirmJob(w, b, jobId);
    if after.world != w {
      var i := InvoiceOf(b.invoices, jobId).value;
      assert after.books.invoices[i].status != b.invoices[i].status;
    }
  }

  /** And it happens: a run of a job and books from empty that end with the job's invoice in dispute and the job awaiting
  confirmation; confirming it is refused, and completes it. */
  lemma DisputedJobIsCompleted() returns (ws: seq<World>, steps: seq<Step>, bs: seq<Books>, posts: seq<BooksStep>)
    ensures Run(ws, steps) && BooksRun(bs, posts)
    ensures var w, b := ws[|steps|], bs[|posts|];
            && Agree(w, b, 0)
            && ConfirmJob(w, b, 0).reply.BadRequest? && ConfirmJob(w, b, 0).world.job.status.JobCompleted?
  {
    ws, steps := Relief.SubstituteOutlivesTheJob();
    var v := Invoice(0, 0, 10.0, Draft, None);
    var d := Books([v.(status := Disputed, beforeDispute := Some(Draft))], [], [], []);
    bs, posts := [Books([], [], [], []), Books([v], [], [], []), d], [DoCreateDraft(0, 0, 10.0), DoDispute(0)];
    forall k | 0 <= k < |posts| ensures Posted(bs, posts, k) {
    }
    assert InvoiceOf(d.invoices, 0) == Some(0);
  }

  // ---------- the services ----------

  method IssueDraftForJob(db: JobTables, ledger: LedgerTables, jobId: nat) returns (reply: Reply)
    modifies ledger
    ensures Settled(db.State(), ledger.State(), reply) == IssueForJob(old(db.State()), old(ledger.State()), jobId)
  {
    InvoiceFound(ledger.invoices, jobId);
    var i := InvoiceOf(ledger.invoices, jobId);
    if i.None? {
      return NotFound;
    }
    var issued := ledger.IssueIfDraft(i.value);
    return if issued.Ok? then Done else BadRequest;
  }

  method CompleteJob(db: JobTables, ledger: LedgerTables, jobId: nat) returns (reply: Reply)
    modifies db, ledger
    ensures Settled(db.State(), ledger.State(), reply) == ConfirmJob(old(db.State()), old(ledger.State()), jobId)
  {
    var completed := db.job.status.JobCompleted?;
    if !completed && !db.job.status.AwaitingConfirmation? {
      return BadRequest;
    }
    if !completed {
      var _ := Jobs.Confirm(db);
    }
    reply := IssueDraftForJob(db, ledger, jobId);
  }

  method ProcessAutoConfirm(db: JobTables, ledger: LedgerTables, jobId: nat)
    modifies db, ledger
    ensures db.State() == AutoConfirmJob(old(db.State()), old(ledger.State()), jobId).world
    ensures ledger.State() == AutoConfirmJob(old(db.State()), old(ledger.State()), jobId).books
  {
    InvoiceFound(ledger.invoices, jobId);
    var i := InvoiceOf(ledger.invoices, jobId);
    if i.None? {
      return;
    }
    var before := db.job.status;
    Jobs.ProcessAutoConfirm(db, Issuable(ledger.invoices[i.value].status));
    if db.job.status != before {
      var _ := IssueDraftForJob(db, ledger, jobId);
    }
  }
}
