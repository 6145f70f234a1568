# Verified model of the G2 Sentry Guardian staffing protocol and ledger

A job asks for a number of security officers. Dispatch rounds offer its slots to guardians; guardians accept, decline,
travel, arrive, ask to leave early, are relieved by a substitute, complete, or do not show up; the job is then billed,
the invoice paid, and the guardians paid out. This project models that state machine and that ledger and proves what
they keep.

## How it is laid out

| file | what it holds |
|---|---|
| `Domain.dfy` | the rows: job, assignment, history entry, limits, and the state of one job (`World`) |
| `Counting.dfy` | staffed, active and pending counts, and how a row write changes them |
| `Eligibility.dfy` | exclusion sets, the over-fetching query, the two pick operations |
| `Protocol.dfy` | the specification: every operation as a function from state to state, and runs of them |
| `Invariants.dfy` | the invariants and the proof that every operation keeps them |
| `Runs.dfy` | the theorems over all runs, each operation one atomic step |
| `StepLaws.dfy` | the laws: for each field of the job and of its assignments, in which steps it changes and to what |
| `CallsObey.dfy`, `RoundsObey.dfy`, `StepsObey.dfy` | every operation obeys the laws, and the laws leave no choice; what follows for failing, offers and no-shows |
| `Coverage.dfy` | replacement chains along a run |
| `Relief.dfy` | relief always works when it may; building runs from a new job |
| `Scenes.dfy` | runs from a new job that end where the protocol surprises |
| `Folding.dfy` | performing steps one after another |
| `InvoiceHours.dfy` | the invoice window, and when it is worth the hours of all officers |
| `RetryChain.dfy`, `RetryTotal.dfy` | back-off and the bounds on candidate-less rounds, in one chain and over a run |
| `Interleaving.dfy`, `Races.dfy` | the second level: reads, version-checked commits and bulk releases that interleave freely |
| `JobTables.dfy`, `LifecycleService.dfy`, `StaffingService.dfy`, `DispatchService.dfy`, `AssignmentService.dfy`, `JobService.dfy`, `OptimisticWriter.dfy` | the services as methods that update the rows in place, each proved to do what the specification says |
| `NightShift.dfy`, `Durations.dfy`, `Invoicing.dfy` | night detection, hours, surcharges, the revenue split, invoice amounts and lines |
| `Ledger.dfy`, `LedgerInvariants.dfy`, `Conservation.dfy`, `LedgerRuns.dfy` | invoices, payments, earnings, payouts; their invariants; when money is conserved; what later calls do |
| `JobBooks.dfy` | runs of a job together with its books: who is owed an earning, and when |
| `LedgerLaws.dfy` | the laws of the books, field by field; whose earnings a payout takes, what an earning is worth |
| `JobPay.dfy` | what the officers of a job are owed, against what it is billed |
| `LedgerService.dfy` | the ledger operations as methods that update the tables in place |
| `Settlement.dfy` | confirming a job and issuing its invoice, over both sets of tables |
| `Outbox.dfy` | outbox events, their claims and their retries |

The rows of a job are sequences; an assignment is identified by its position. Time is integer milliseconds and only moves
forward. Which guardians are eligible, how they rank and which are reachable is an arbitrary duplicate-free list given
to each dispatch step. Limits and windows are arbitrary positive integers. Hours and money are exact reals.

Both specifications are given twice. `Protocol.dfy` and `Ledger.dfy` say, operation by operation, what is written, as the
code does; `StepLaws.dfy` and `LedgerLaws.dfy` say, field by field, when it changes and to what, in terms of the rows and
without the functions the operations are made of. `StepsObey.StepIsLaw` and `LedgerLaws.PostIsLaw` prove that in every
reachable state the two have exactly the same one outcome.

## Where the code does not do what one would expect

Each of these is what the code does; the model does the same, and the condition under which the expected property holds
is proved.

- A no-show on a fully assigned job is never recorded: the move back to partially assigned is refused and the report is
  rolled back with it; on a job still pending it is refused as well (`Runs.NoShowExactly`; `Scenes.NoShowIsRefused` is a
  run that ends there).
- An offer refilling a job in progress can never be accepted (`Runs.AcceptExactly`, `Scenes.RefillCannotBeAccepted`):
  only searching jobs and jobs seeking a replacement take an accept.
- A job in progress that is short of officers retries without end, whatever its deadline (`Scenes.EndlessRounds`), and
  fails exactly when a round finds it at its cap of offers (`Runs.InProgressFailsExactly`). It then fails over the
  officers on site, who complete without an invoice (`Scenes.JobFailsOverItsOfficers`).
- Only ordinary assignments are waited for. A job settles, and its invoice is drafted, while a substitute is still on
  site (`Relief.SubstituteOutlivesTheJob` is such a run), exactly when another substitute is at work
  (`Runs.SettlingLeavesSomebodyExactly`); on a one-slot job relieved by handoffs nobody on site
  is left (`InvoiceHours.EveryOfficerIsBilled`). Cancelling leaves exactly such substitutes as well (`Runs.CancelReleasesExactly`).
- A completion can be answered with a refusal and stand all the same (`Runs.CompletionStandsThoughRefused`,
  `Scenes.RefusedCompletionStands`).
- Two approvals of a replacement that were both read while the job was in progress both commit, and two officers then
  await relief (`Interleaving.RacingApprovals`, reached from every new two-slot job by `Races.TwoAwaitRelief`); exactly
  the approvals that commit while no replacement is sought are safe (`Interleaving.ApprovalKeepsOneReliefExactly`).
- The bulk releases of failing and cancelling raise no version, so a commit read before one can take a row out of its
  cancellation (`Interleaving.TerminalIsLeftExactly`, `Interleaving.RevivedRowWasReleased`): a cancelled officer
  completes (`Races.CancelledCanComplete`). And cancelling reads the officers to release before it writes them, whatever
  has become of them since: a completed officer is cancelled (`Races.CompletedCanBeCancelled`).
- The approval of an early release checks no version when it writes, so it can land on an officer whom a rejection has
  put back on site (`Interleaving.LateApprovalLands`); exactly when it does no harm is
  `Interleaving.ResolutionKeepsExactly`.
- An ordinary offer left over by racing rounds can be accepted on a full job by an accept that read the job while a
  replacement was sought, because the count is not checked then (`Interleaving.AcceptOversellsExactly`,
  `Races.NewJobCanBeOversold`); otherwise it cannot (`Interleaving.NeverOversold`), and without races it never happens
  (`Runs.SlotsNeverOversold`).
- A payout may bundle an earning that is in another payout already, and then the same earning is paid twice
  (`LedgerRuns.RebundledEarningIsPaidTwice`); conservation holds exactly when nothing of value is taken from another
  payout (`Conservation.CreatePayoutConservesExactly`, `Conservation.RebundlingBreaksConservation`).
- An invoice that was voided or disputed after a payment was started becomes paid when the payment is confirmed, and its
  guardians' earnings accrue (`LedgerRuns.LatePaymentsAreTaken`, `LedgerRuns.ConfirmationPaysUnpayableExactly`). The
  statuses Overdue and PartiallyPaid are never set.
- An invoice is paid exactly when one of its payments has been confirmed (`LedgerRuns.PaidExactly`), whatever the
  amounts and however often (`LedgerRuns.AmountsAreUnrelated`).
- Confirming a payment a second time is not silent: it accrues for whoever has completed since
  (`LedgerRuns.ReconfirmingAccruesExactly`, `JobBooks.ReconfirmingCanAccrue`). An officer who completes after the
  invoice was paid is owed nothing until then (`JobBooks.LateOfficerOwedExactly`).
- Confirming a job whose invoice is in dispute is refused and completes the job
  (`Settlement.ConfirmationStandsThoughRefused`).
- Two arrivals at the same instant can put an invoice's rows in the wrong order and lose the last officer's hours
  (`InvoiceHours.TiedArrivalsCanLoseHours` is such a run); exactly when is `InvoiceHours.InvoiceRightExactly`. With
  several slots the window also counts the time between one officer leaving and the next arriving, and leaves out the
  time of whoever stays on after the last to arrive (`InvoiceHours.WindowIsTimeOnSiteExactly`, `Scenes.WindowsGoWrong`).
- A failed outbox event is never claimed again, so no event is tried twice and none becomes a dead letter
  (`Outbox.NoDeadLetters`), although five attempts are counted for.
- A shift can touch the night by up to an hour without being told so (`NightShift.MissedExactly`).

Where the repository's documentation says otherwise, the code is followed. `docs/api/multi-guardian-production-review.md`
has a no-show on an assigned job lead to a partially assigned one (line 78) and overstaffing impossible (line 62);
`docs/api/client-integration.md` has a no-show lead to dispatching from assigned and in progress (line 238);
`docs/api/jobs.md` has one offer at a time and a retry about every two seconds (lines 155-159); the comment on `isNightShift` speaks of local time where the code reads UTC hours.

## Model

| member | source | states |
|---|---|---|
| Runs.RunInv | src/jobs/job-staffing.service.ts:32-140 | Every state of every run keeps all invariants at once: sound rows, distinct guardians, exact counters, slots not oversold, status agreeing with the counts, one relief at a time, replayable history, settled jobs billable |
| Runs.SlotsNeverOversold | src/dispatching/dispatching.service.ts:373-433 | In every reachable state ordinary staffed plus ordinary offered assignments never exceed the requested number |
| Runs.StatusAgreesWithCount | src/jobs/job-staffing.service.ts:32-140 | A searching job is short of officers and an assigned one has exactly the number asked for, so the repair branch of a dispatch round is never taken |
| Runs.FillingAcceptFindsNoSurplus | src/jobs/job-staffing.service.ts:66-70 | With atomic steps the accept that fills the job has no surplus offer to cancel: it changes its own assignment only |
| Runs.AcceptExactly | src/assignments/assignments.service.ts:121-224 | An accept goes through if and only if the offer is the caller's, open and unexpired and the job is searching or seeking a replacement; otherwise nothing changes |
| CallsObey.GainedGuardianExactly | src/jobs/job-staffing.service.ts:32-78 | For any job and any status read earlier: exactly when the reaction to an accept is refused, the status it leaves, and exactly when it asks for a round |
| Scenes.RefillCannotBeAccepted | src/assignments/assignments.service.ts:121-151 | A run from a new two-slot job to one in progress whose refill round makes an offer that its guardian cannot accept |
| Runs.NoShowExactly | src/assignments/assignments.service.ts:936-1019 | A no-show is recorded if and only if the guardian has not arrived and the job is dispatching, partially assigned, in progress or seeking a replacement; otherwise everything is rolled back |
| StepsObey.NoShowAsksExactly | src/jobs/job-staffing.service.ts:80-140 | In every reachable state a recorded no-show asks for exactly one round, due at once, if and only if no replacement is sought and fewer officers than asked for are left; from dispatching it also opens a new window and clears the unreachable time |
| CallsObey.LostGuardianExactly | src/jobs/job-staffing.service.ts:80-140 | For any job and any status read earlier: exactly when the reaction to a lost guardian is refused, and exactly when it asks for a round |
| Scenes.NoShowIsRefused | src/assignments/assignments.service.ts:936-1019 | A run from a new one-slot job to a fully assigned one on which a no-show is refused and nothing changes |
| Runs.CompletionStandsThoughRefused | src/assignments/assignments.service.ts:852-897 | The assignment is completed although the call is refused if and only if it was the last active ordinary one and the job is seeking a replacement, completed, failed or cancelled |
| Scenes.RefusedCompletionStands | src/assignments/assignments.service.ts:852-897 | A run from a new one-slot job, relieved and then cancelled, in which the substitute completes and the call is refused |
| Runs.CountersExact | src/dispatching/dispatching.service.ts:463-493 | Offers sent equals the number of assignments, rounds are 1 to n, substitutes stay within their cap over all pauses and resumes, and n is bounded by the two caps and one parallel batch |
| Runs.SeekingExactlyWhenOneAwaitsRelief | src/assignments/assignments.service.ts:670-733 | A job seeks a replacement if and only if exactly one assignment awaits relief, and that one is the departing assignment with an approved resolution |
| Runs.HandoffNeverAborts | src/assignments/assignments.service.ts:735-850 | The arrival of a substitute while a replacement is sought succeeds if and only if it relieves the departing officer; then completion and arrival are the same instant and two different people |
| Runs.PausedUntilResumed | src/dispatching/dispatching.service.ts:971-1035 | A paused replacement search stays paused and makes no offer, whatever happens, until it is resumed or over |
| Runs.DeadlineStays | src/dispatching/dispatching.service.ts:776-795 | Once set, a deadline moves only with a no-show, the approval of a replacement or the resumption of a search |
| Runs.NobodyTwice | src/guardians/guardian-dispatch-eligibility.service.ts:100-156 | Per guardian at most one ordinary assignment that is not a no-show, substitutes are newcomers to the job, and nobody relieves themselves |
| Runs.SettledJobCanBeBilled | src/jobs/job-lifecycle.service.ts:101-129 | A job awaiting confirmation or completed has no active ordinary assignment and a completed one with its times in order, so its invoice can be drafted and no leftover offer can be accepted |
| Runs.OnlySubstitutesOutliveTheJob | src/jobs/job-staffing.util.ts:52-63 | Anybody still at work on a settled job is a substitute |
| Runs.SettlingLeavesSomebodyExactly | src/jobs/job-lifecycle.service.ts:101-116 | A completion that settles the job leaves somebody at work if and only if a substitute other than the one completing was at work before it |
| Relief.SubstituteOutlivesTheJob | src/assignments/assignments.service.ts:876-887 | A run from a new two-slot job whose last ordinary completion settles the job and drafts its invoice while a substitute is on site |
| Relief.ReliefCompletes | src/assignments/assignments.service.ts:670-850 | From any job in progress, an officer on site can be relieved by any guardian new to the job while substitutes are left: six steps put the newcomer in place, the one completed and the other arrived at the same instant, and no other assignment touched |
| Runs.CancelReleasesExactly | src/jobs/jobs.service.ts:405-422 | In every reachable state cancelling releases everyone except exactly the substitutes already on site that are not departing themselves, and leaves no offer |
| Runs.ApprovedEarlyReleaseOnlyWhereDue | src/assignments/assignments.service.ts:310-531 | An approved early release is held only while it is requested or after completion or cancellation |
| Runs.HistoryReplays | src/jobs/job-lifecycle.service.ts:213-255 | The status history starts with the creation, every entry continues the one before by a move of the table, it ends in the current status, and it only grows |
| Runs.FinalStatusesAreFinal | src/jobs/jobs.service.ts:392-422 | Completed and cancelled are never left; awaiting confirmation leads only to completed and failed only to cancelled |
| Runs.InProgressFailsExactly | src/dispatching/dispatching.service.ts:261-272 | A job in progress fails if and only if a dispatch round finds it short of officers and at its cap of offers; neither its deadline nor its pool ever fails it |
| Scenes.JobFailsOverItsOfficers | src/dispatching/dispatching.service.ts:269-272 | A run from a new two-slot job in which such a round fails the job while its officer is on site, who then completes, is refused, and leaves no invoice |
| Runs.StatusStep | src/dispatching/dispatching.service.ts:896-920 | Along a run the job's status moves only by the moves of the table, at most one a step |
| StepsObey.StepIsLaw | src/assignments/assignments.service.ts:121-1019 | From every reachable state each of the 24 operations leaves the one state the laws allow: for every field of every row and of the job, the history, the requests and the draft, exactly in which steps it changes and to what |
| StepLaws.CountsAreSizes | src/jobs/job-staffing.util.ts:3-75 | The counts are the numbers of rows without a predecessor to relieve whose status is one of those that hold a slot, or offered |
| Invariants.StepKeeps | src/assignments/assignments.service.ts:121-1019 | Every one of the 24 operations keeps every invariant |
| Invariants.ProcessDispatchKeeps | src/dispatching/dispatching.service.ts:213-361 | A dispatch round of either kind keeps every invariant, and a searching job is never found full |
| Invariants.AcceptKeeps | src/assignments/assignments.service.ts:121-224 | An accept keeps every invariant |
| Invariants.HandoffKeeps | src/assignments/assignments.service.ts:735-850 | A handoff keeps every invariant and is done if and only if the substitute relieves the departing assignment |
| Invariants.CancelKeeps | src/jobs/jobs.service.ts:392-422 | Cancelling releases offers, substitutes on the way, the departing officer and the ordinary officers, and keeps every invariant |
| Invariants.InitialInv | src/jobs/jobs.service.ts:110-159 | A new job satisfies every invariant |
| Eligibility.OverFetch | src/guardians/guardian-dispatch-eligibility.service.ts:61-98 | Fetching as many extra rows as there are exclusions and then dropping the excluded gives a prefix of the fully filtered ranking, short of the limit only when that ranking is |
| Eligibility.ParallelPickIsBest | src/guardians/guardian-dispatch-eligibility.service.ts:225-259 | A parallel pick is distinct, reachable and not excluded, a prefix of the ideal order, never skips a better-ranked reachable guardian of the pool, and is the ideal choice when the eligible fit the pool |
| Eligibility.NextPickIsBest | src/guardians/guardian-dispatch-eligibility.service.ts:175-223 | The single pick is the best reachable guardian not excluded, and fails only when there is none in a pool that holds all the eligible |
| Eligibility.PickedExactly | src/guardians/guardian-dispatch-eligibility.service.ts:175-259 | Looking at as many of the ranking as the pool size and the exclusions, the pick is those that are reachable and not excluded, in order, as many as wanted; the single pick is the first of them |
| Coverage.RunChain | src/assignments/assignments.service.ts:270-308 | Along such a run everyone who arrived forms one chain in which each officer completes at the instant the next arrives |
| InvoiceHours.CoverageIsContinuous | src/assignments/assignments.service.ts:774-813 | A one-slot job relieved any number of times by handoff has no gap in its coverage, and its invoice shows the officers' hours added up, in every order the query may return, if and only if there is one officer, or nobody arrived together with the last, or the last left on arriving |
| InvoiceHours.InvoiceRightExactly | src/billing/billing.service.ts:138-154 | The same for any officers who took over from each other: the exact condition on ties under which the invoice window is worth their hours |
| InvoiceHours.PayCoversTheBill | src/guardian-payroll/guardian-payroll-calculation.util.ts:35-79 | Along such a run, with or without ties and in any order, total payable hours are at least the hours billed by actual time, under any pay terms |
| InvoiceHours.EveryOfficerIsBilled | src/billing/billing.service.ts:138-154 | Once such a job is past its work, everyone who ever arrived has completed and is on the invoice |
| InvoiceHours.TiedArrivalsCanLoseHours | src/billing/billing.service.ts:138-154 | A run from a new one-slot job, relieved by handoff, whose invoice can come out at no hours where an hour was worked |
| InvoiceHours.WindowIsTimeOnSiteExactly | src/billing/billing.service.ts:138-154 | Over any run, with any number of slots and handoffs, the invoice window holds only time somebody was on site if and only if each later officer arrived before all the earlier ones had left, and holds all of it if and only if nobody stayed on after the one who arrived last |
| Scenes.WindowsGoWrong | src/billing/billing.service.ts:138-154 | Runs from a new two-slot job: one whose window is an hour that nobody worked, and one whose window leaves out the last hour of the longest stay |
| RetryChain.BackoffBounds | src/dispatching/dispatching.service.ts:1049-1054 | The wait lies between base and cap, never shrinks as offers go out, and reaches the cap within four doublings when the cap is at most sixteen times the base |
| RetryChain.BackoffDoubles | src/dispatching/dispatching.service.ts:1049-1054 | The wait starts at the base and doubles with every offer sent until it reaches the cap |
| RetryChain.EmptyRoundReschedules | src/dispatching/dispatching.service.ts:1037-1063 | A round that finds nobody and does not fail the job leaves status and rows alone, sets a deadline only where there is none, and asks for another round 2 to 30 seconds later, before the deadline |
| RetryChain.BoundedRetries | src/dispatching/dispatching.service.ts:797-834 | In one chain, each round claiming the request of the one before, at most as many candidate-less rounds as 2-second waits fit before an unchanged deadline |
| RetryTotal.AllRetriesBounded | src/dispatching/dispatching.service.ts:1037-1063 | Over a whole run all candidate-less rounds together number at most that bound for every request they claimed that no such round had made |
| Scenes.EndlessRounds | src/dispatching/dispatching.service.ts:1037-1063 | A job in progress short of officers and under its cap stays in progress through any number of rounds that see nobody, each claiming the retry of the one before, at any time past its deadline |
| Scenes.EndlessRoundsReached | src/dispatching/dispatching.service.ts:1037-1063 | For every number of such rounds a run from a new two-slot job that makes them |
| RetryChain.DeadlineRoundFails | src/dispatching/dispatching.service.ts:817-834 | Along a run the first round at or after the deadline fails a searching job with a timeout |
| RetryChain.DeadlineFails | src/dispatching/dispatching.service.ts:817-834 | Whatever the pool, such a round leaves the job failed with that reason and no offer open |
| StepsObey.PoolExhaustedExactly | src/dispatching/dispatching.service.ts:836-871 | In every reachable state a searching job in time and not noted unreachable is failed for an exhausted pool, by a round, an expiry or a scan, if and only if no offer is open, the eligible count is positive, the list is not empty, and each of that many guardians, best first, has declined, let an offer expire or been released |
| RoundsObey.FailureExactly | src/dispatching/dispatching.service.ts:797-894 | For any job and any pool: a job fails for its deadline, else for an exhausted pool, else for its grace period, told in the rows, and only while searching |
| StepsObey.RoundOffersExactly | src/dispatching/dispatching.service.ts:363-461 | In every reachable state a round offers a slot if and only if it does not fail the job, a slot is neither held nor offered, and some guardian among those looked at is reachable and not barred |
| StepsObey.NewcomerIsOffered | src/dispatching/dispatching.service.ts:363-461 | One eligible, reachable guardian new to the job is enough for an offer while a slot is free, the job is in time and offers are left |
| Interleaving.CommitLandsOnWhatWasRead | src/assignments/assignments.service.ts:1059-1090 | A commit lands only on rows that still have the status that was read or have been released since, and a refused commit changes nothing |
| Interleaving.EveryChangeIsAnEdge | src/assignments/assignment-transitions.ts:4-49 | However reads, commits, accepts, dispatch rounds and bulk releases interleave, every status change is an edge of the transition table, or from offered to no-show, unless a commit takes a cancelled row or a release cancels a row it read earlier, and raises the version unless a release cancels the row; without releases there is no exception |
| Interleaving.TerminalIsForEver | src/assignments/assignment-transitions.ts:4-49 | Completed, declined, expired and no-show are never left in an interleaving whose releases read and write at once, and no terminal status is ever left in one without releases |
| Interleaving.TerminalIsLeftExactly | src/dispatching/dispatching.service.ts:592-661 | A terminal status is left if and only if a commit writes a cancelled row that still has the version it read, its other row is as read, and the job lets it through; or a release writes a row that had been at work when it was read and is not cancelled yet |
| Interleaving.ListWasRead | src/dispatching/dispatching.service.ts:592-661 | Whoever a release writes was at work or on the way when it read them, earlier in the run |
| Interleaving.CompletedIsCancelled | src/dispatching/dispatching.service.ts:592-613 | Wherever an ordinary officer is on site, a release that read the assignment then cancels it after it has been completed |
| Races.CompletedCanBeCancelled | src/dispatching/dispatching.service.ts:592-613 | From every new one-slot job an interleaving in which that happens |
| Interleaving.RevivedRowWasReleased | src/dispatching/dispatching.service.ts:611-661 | Such a row was cancelled by a bulk release, after the ticket was taken, under the very version that was read |
| Interleaving.CancelledOfficerCompletes | src/dispatching/dispatching.service.ts:592-618 | Wherever an ordinary officer is on site, a completion read before the cancellation of the job commits after it, and the cancelled assignment is completed |
| Races.CancelledCanComplete | src/dispatching/dispatching.service.ts:592-618 | From every new one-slot job an interleaving in which that happens |
| Interleaving.UndisturbedIsAtomic | src/assignments/assignments.service.ts:226-610 | A read and its commit with nothing in between, followed by what the operation does in transactions of its own, is the atomic operation, for all twelve operations |
| Interleaving.AcceptNeverOversells | src/assignments/competing-offer-release.util.ts:8-38 | With any surplus of offers, an accept that did not read a replacement search never passes the requested number, and the accept that fills the job leaves no ordinary offer |
| Interleaving.AcceptOversellsExactly | src/assignments/assignments.service.ts:126-151 | An accept oversells a job if and only if it takes a live ordinary offer of its own on a full job having read, however long before, that a replacement was sought |
| Races.NewJobCanBeOversold | src/assignments/assignments.service.ts:126-151 | From every new one-slot job an interleaving, without releases and without stale reads of the job, that oversells it |
| Interleaving.NeverOversold | src/jobs/job-staffing.service.ts:55-70 | Over any interleaving without releases in which no accept read a replacement search the job is never oversold, however many surplus offers racing rounds create |
| Interleaving.ApprovalKeepsOneReliefExactly | src/jobs/job-lifecycle.service.ts:228-230 | A commit of an approval keeps one officer awaiting relief if and only if no replacement is sought when it commits |
| Interleaving.RacingApprovals | src/assignments/assignments.service.ts:670-704 | Two approvals read together both commit, and two officers await relief |
| Races.TwoAwaitRelief | src/assignments/assignments.service.ts:670-704 | From every new two-slot job an interleaving, without releases, in which that happens |
| Interleaving.ResolutionKeepsExactly | src/assignments/assignments.service.ts:414-447 | The unversioned write of an early-release approval keeps approvals where they are due if and only if the release is still requested, or the assignment over, when it writes |
| Interleaving.LateApprovalLands | src/assignments/assignments.service.ts:414-493 | Wherever an early release is requested, a rejection between the check of an approval and its write leaves an approval on an officer back on site |
| NightShift.IsNightShift | src/common/config/booking-policy.config.ts:36-48 | The hourly loop terminates with yes exactly when the shift starts at night or still runs the whole number of hours later at which the sampled hour reads 22 |
| NightShift.AnswerIsSound | src/common/config/booking-policy.config.ts:36-48 | A yes means the shift meets the 22:00 to 06:00 window, and for a shift starting on the hour yes and meeting are the same |
| NightShift.MissedExactly | src/common/config/booking-policy.config.ts:36-48 | The shifts that meet the night and get a no are exactly those starting by day, off the hour, and ending after dusk by no more than the start's minutes past the hour |
| NightShift.MissIsShort | src/common/config/booking-policy.config.ts:36-48 | A no means less than one hour of the shift is at night |
| NightShift.LongShiftsAreNight | src/common/config/booking-policy.config.ts:36-48 | Any shift longer than 16 hours is night, and one of exactly 16 hours need not be |
| NightShift.MeetsNightExactly | src/common/config/booking-policy.config.ts:36-48 | A shift meets the night if and only if it starts at night or runs past dusk |
| Durations.SurchargeMultiplier | src/common/config/booking-policy.config.ts:50-72 | The multiplier is one plus exactly the surcharges that apply, and the reasons list names exactly those |
| Durations.SplitConservesExactly | src/common/config/booking-policy.config.ts:81-91 | The revenue split hands out the whole amount if and only if the amount is zero or the shares add up to one |
| Durations.BillableBounds | src/billing/billing-calculation.service.ts:109-148 | Billable hours are at most the larger of minimum and booked hours and at least the hours worked within the booking |
| Durations.BillableMonotone | src/billing/billing-calculation.service.ts:113-148 | A longer stay is never billed less |
| Durations.ProrationNeverRaises | src/assignments/early-release.util.ts:15-28 | Early-release proration never raises the bill and lowers it exactly when approved, enabled, booked as a block and cut short |
| Durations.PayMatchesBill | src/guardian-payroll/guardian-payroll-calculation.util.ts:24-79 | With the same effective model and minimum payable hours equal billable hours, and waiving the minimum on early release never pays more |
| Durations.PayCoversCappedTotal | src/guardian-payroll/guardian-payroll-calculation.util.ts:35-79 | Paying several officers separately is never less than the capped total, whatever the terms of each |
| Durations.UnbrokenHoursAddUp | src/billing/billing.service.ts:151-154 | For gapless coverage the hours from first arrival to last completion are the officers' hours added up |
| Invoicing.ComputeInvoiceAmounts | src/billing/billing-calculation.service.ts:150-310 | Without a rate no invoice; an hourly subtotal is rate times surcharge times billable hours times guardians, a flat one fee times guardians, the hours being those of the effective model; the service line carries the subtotal, the optional lines appear exactly when they apply, and each split line is its share of the subtotal |
| Invoicing.LongerStayCostsNoLess | src/billing/billing-calculation.service.ts:186-193 | At a non-negative rate a longer stay never makes the subtotal smaller |
| Invoicing.ProrationCostsNoMore | src/billing/billing-calculation.service.ts:180-184 | Switching early-release proration on never makes the subtotal larger |
| LedgerInvariants.BooksRunInv | src/billing/billing.service.ts:318-595 | Every run of the books keeps: sound invoices, payments only on invoices once issued, earnings only of paid invoices, one earning per assignment, bundled earnings in step with their payout |
| LedgerInvariants.PostKeeps | src/guardian-payroll/guardian-payroll.service.ts:41-189 | Each of the twelve ledger operations keeps those invariants |
| LedgerLaws.PostIsLaw | src/billing/billing.service.ts:318-595 | In every reachable state each of the twelve ledger operations leaves the only books the laws allow: which invoices, payments, earnings and payouts are added, with what fields, and which change their status, exactly |
| LedgerInvariants.AccrualAddsNothingExactly | src/guardian-payroll/guardian-payroll.service.ts:41-149 | An accrual adds nothing if and only if the invoice is not paid or every completed assignment it then reads has an earning already |
| LedgerInvariants.VoidMeetsNoEarning | src/guardian-payroll/guardian-payroll.service.ts:151-189 | An invoice that can be voided has no earnings, so voiding cancels none |
| LedgerInvariants.AccrueShape | src/guardian-payroll/guardian-payroll.service.ts:67-146 | Accrual only appends, one earning per assignment, unbundled, and leaves no completed assignment without one |
| LedgerLaws.NewEarningExactly | src/guardian-payroll/guardian-payroll.service.ts:67-126 | Every new earning is of the work listed first for its assignment: of its guardian, blocked for nothing exactly when it has no rate, and else the rate times the lesser of booked and worked hours, or the minimum if that is more and guaranteed |
| JobPay.EarningsCoverTheBill | src/guardian-payroll/guardian-payroll.service.ts:41-149 | Over any run of a one-slot job relieved by handoffs and of its books, once everyone on the invoice has an earning, the earnings come to at least the hours billed by actual time at the lowest rate paid |
| Conservation.PayoutsAddUp | src/guardian-payroll/guardian-payroll.service.ts:358-504 | Over every run without re-bundling each pending payout is the sum of its pending earnings, each completed one the sum of its paid earnings, and all paid out equals all marked paid |
| Conservation.CreatePayoutConservesExactly | src/guardian-payroll/guardian-payroll.service.ts:370-419 | A new payout keeps every payout worth its earnings if and only if it takes nothing of value from another payout |
| LedgerLaws.PayoutTakenExactly | src/guardian-payroll/guardian-payroll.service.ts:370-396 | Under an unused key a payout changes the books if and only if no earning is listed twice and each exists, is the guardian's and is pending, and together they are worth something |
| LedgerLaws.PayoutsAreOwn | src/guardian-payroll/guardian-payroll.service.ts:370-419 | In every reachable state each earning in a payout has the guardian of the payout |
| Conservation.RebundlingBreaksConservation | src/guardian-payroll/guardian-payroll.service.ts:370-376 | For earnings worth something that is if and only if none of them has a payout already |
| LedgerRuns.RebundledEarningIsPaidTwice | src/guardian-payroll/guardian-payroll.service.ts:358-447 | A run from the empty books in which one earning of 10 is put in two payouts, both are confirmed, and 20 is paid out |
| Conservation.ConfirmPayoutConserves | src/guardian-payroll/guardian-payroll.service.ts:449-504 | Confirming a payout keeps every payout worth its earnings |
| LedgerRuns.KeysAreSpentForEver | src/guardian-payroll/guardian-payroll.service.ts:363-368 | At any later time of a run a call under the key of a payout or payment already created changes nothing, whatever it asks for |
| LedgerRuns.PayoutConfirmationsAreFinal | src/guardian-payroll/guardian-payroll.service.ts:449-504 | At any later time of a run confirming a payout again changes nothing |
| LedgerRuns.ReconfirmingAccruesExactly | src/payments/payments.service.ts:98-161 | In every reachable state, and for any completed assignments then read, confirming a confirmed payment again changes nothing if and only if each of them has an earning; otherwise it adds the missing earnings and nothing else |
| LedgerRuns.PaidExactly | src/payments/payments.service.ts:98-161 | In every reachable state an invoice is paid if and only if one of its payments has been confirmed |
| LedgerRuns.AmountsAreUnrelated | src/payments/payments.service.ts:36-161 | For any total and any two amounts a run from the empty books in which an invoice of that total is paid by two confirmed payments of those amounts |
| JobBooks.OwedExactly | src/guardian-payroll/guardian-payroll.service.ts:52-63 | Over any run of a job and its books an officer is owed an earning if and only if the assignment was completed by the time of some accrual |
| JobBooks.LateOfficerOwedExactly | src/guardian-payroll/guardian-payroll.service.ts:52-63 | An officer not yet completed at some point of the run, such as a substitute who outlives the job, is owed an earning if and only if an accrual since then read the completed assignment |
| JobBooks.ReconfirmingCanAccrue | src/payments/payments.service.ts:98-158 | A run of a new two-slot job and of its books in which the substitute completes after settlement and payment, and the second confirmation of the same payment adds the third earning |
| LedgerRuns.ConfirmationPaysUnpayableExactly | src/payments/payments.service.ts:98-161 | In every reachable state a confirmation pays an invoice that is neither issued nor paid if and only if it is void or disputed; it had no earnings until then, and every completed assignment gets one |
| LedgerRuns.LatePaymentsAreTaken | src/payments/payments.service.ts:116-119 | Runs from the empty books in which a voided, and a disputed, invoice is paid and the guardian's hour becomes owed |
| Conservation.PaidIsForEver | src/payments/payments.service.ts:98-161 | Paid is never left and every other change of an invoice is an edge of its table |
| Conservation.DisputesAreReversible | src/billing/billing.service.ts:452-562 | In every reachable state a disputed invoice remembers a disputable status, dispute then clear restores the status exactly, assignments have at most one earning, and earnings exist only for paid invoices |
| Outbox.NoDeadLetters | src/outbox/outbox.service.ts:46-97 | In every run no event is retried and none becomes a dead letter |
| Outbox.FailureWaits | src/outbox/outbox.service.ts:78-97 | In every run a failed event is put off by two seconds, with one retry counted |
| Outbox.ClaimedOnce | src/outbox/outbox.service.ts:46-69 | An event is claimed at most once and never before it is due |
| Outbox.OutboxTable.ClaimBatch | src/outbox/outbox.service.ts:46-69 | Exactly the chosen events are marked as processing and returned as marked |
| Tables.JobTables.constructor | src/jobs/jobs.service.ts:110-159 | A new job is pending and unstaffed, with a deadline and a dispatch request exactly when dispatched at once, and satisfies every invariant |
| Tables.JobTables.UpdateOptimistic | src/assignments/assignments.service.ts:1059-1090 | The write lands if and only if the version is the one read; then the status is the new one and the version one higher, and otherwise nothing changes |
| Tables.JobTables.TransitionOffered | src/assignments/assignment-accept.util.ts:17-49 | The write lands if and only if the version is the one read and the row is still an offer |
| LifecycleService.RedispatchAfterNoShow | src/jobs/job-lifecycle.service.ts:177-211 | Back to dispatching with a fresh window, or untouched |
| LifecycleService.CompleteFromAssignment | src/jobs/job-lifecycle.service.ts:101-116 | Nothing while an ordinary guardian is active, else the job awaits confirmation or the call is refused |
| StaffingService.CancelExcess | src/assignments/competing-offer-release.util.ts:8-38 | Cancels, with a version raise, exactly the ordinary offers, and returns exactly them |
| StaffingService.ApplyAcceptStaffingUpdate | src/jobs/job-staffing.service.ts:32-78 | With the caller's refill request, does to the job what the protocol says an accept does, or leaves it untouched |
| StaffingService.ApplyUnfilledSlotRedispatch | src/jobs/job-staffing.service.ts:80-140 | Does to the job what the protocol says a lost guardian does, given the status the caller read, or leaves it untouched; asks for a round exactly when the job is short and was not read seeking a replacement |
| DispatchService.GetExcludedGuardianIds | src/guardians/guardian-dispatch-eligibility.service.ts:115-141 | Collects exactly the guardians tried, offered to or staffed on the job |
| DispatchService.ProcessDispatch | src/dispatching/dispatching.service.ts:213-361 | A settled, failed or cancelled job is left alone; a searching or understaffed job is failed when due to fail, else offered around or retried; a job seeking a replacement gets one substitute offer, a pause or a retry; the new state is given exactly in every branch |
| DispatchService.ProcessParallelDispatch | src/dispatching/dispatching.service.ts:363-461 | The offer loop creates one numbered offer per picked guardian, or the round retries or fails the job |
| DispatchService.HandleDispatchFailure | src/dispatching/dispatching.service.ts:1037-1063 | Fails the job if due, else requests a round after the capped doubling wait |
| DispatchService.FailIfTimedOut | src/dispatching/dispatching.service.ts:817-834 | A searching job at or past its deadline fails; nothing else changes |
| DispatchService.FailIfPoolExhausted | src/dispatching/dispatching.service.ts:836-871 | A searching job fails when no offer is open and every eligible guardian has been tried, and there is one; nothing else changes |
| DispatchService.FailIfUnreachableGraceExceeded | src/dispatching/dispatching.service.ts:873-894 | A searching job fails when its pool has been unreachable for the grace period; nothing else changes |
| DispatchService.EvaluateTerminalFailures | src/dispatching/dispatching.service.ts:797-894 | Fails the job for the first of timeout, exhausted pool and unreachable pool that applies, or changes nothing |
| DispatchService.ProcessReplacementDispatch | src/dispatching/dispatching.service.ts:277-360 | One substitute offer relieving the departing officer, or a pause at a limit, or a later retry |
| DispatchService.EvaluateReplacementDispatchLimits | src/dispatching/dispatching.service.ts:971-1001 | Stops, with the job paused, exactly when paused already, out of time or at the substitute cap |
| DispatchService.HandleReplacementDispatchFailure | src/dispatching/dispatching.service.ts:942-969 | Retries later unless paused or at a limit |
| DispatchService.ReleaseReplacementPipeline | src/dispatching/dispatching.service.ts:642-700 | Cancels the offers, the substitutes on the way and the departing officer, and no one else |
| DispatchService.ExpireOffer | src/dispatching/dispatching.service.ts:1110-1181 | An open offer past its time is expired, and the job is then failed if due, or another round requested unless the search is paused; anything else changes nothing |
| DispatchService.ResumeReplacementDispatch | src/dispatching/dispatching.service.ts:173-211 | Clears a pause and opens a new window exactly when an officer awaits relief |
| DispatchService.RequestDispatch | src/dispatching/dispatching.service.ts:88-119 | Moves a searching job to dispatching and asks for a round, or refuses |
| AssignmentService.Accept | src/assignments/assignments.service.ts:121-224 | Either the offer is accepted, the job becomes assigned (surplus offers cancelled) or partially assigned (a refill requested when offers are short), or every row is as before |
| AssignmentService.Decline | src/assignments/assignments.service.ts:226-264 | The offer is declined with a version raise and another round requested unless the replacement search is paused; anyone else, or a closed offer, changes nothing |
| AssignmentService.EnRoute | src/assignments/assignments.service.ts:266-268 | Only the owner of an accepted assignment can set out, and only that row changes |
| AssignmentService.OnSite | src/assignments/assignments.service.ts:270-308 | An arrival is timed and puts the job in progress, or is a handoff for a substitute while a replacement is sought, or is rolled back |
| AssignmentService.ExecuteReplacementHandoff | src/assignments/assignments.service.ts:735-850 | Both writes, the job's move and the cleared departing assignment, or nothing |
| AssignmentService.RequestEarlyRelease | src/assignments/assignments.service.ts:310-412 | Only from on site, with no replacement pending, where the job allows it; approved at once exactly when no client approval is needed |
| AssignmentService.RejectEarlyRelease | src/assignments/assignments.service.ts:449-493 | The guardian is back on site with the rejection recorded and a version raise |
| AssignmentService.RequestReplacement | src/assignments/assignments.service.ts:533-610 | Only from on site on a job in progress; the request is timed and any earlier resolution cleared |
| AssignmentService.DenyReplacement | src/assignments/assignments.service.ts:623-668 | The guardian is back on site with the denial recorded and a version raise |
| AssignmentService.ApproveReplacement | src/assignments/assignments.service.ts:670-733 | The officer awaits relief, the job seeks a replacement for exactly that officer with a fresh ten-minute window, and a round is requested |
| AssignmentService.Complete | src/assignments/assignments.service.ts:852-897 | The completion is timed and stands whatever the job answers; the last active ordinary one moves the job on and drafts its invoice |
| AssignmentService.ApplyNoShow | src/assignments/assignments.service.ts:936-1019 | The no-show is recorded together with what it does to the job, or every row is as before; recorded, it asks for a round exactly when the job is left short and no replacement was sought |
| JobService.Cancel | src/jobs/jobs.service.ts:392-422 | Offers, substitutes on the way, the departing officer and the ordinary officers are cancelled and the move recorded; a completed, cancelled or settling job is left alone |
| Settlement.ConfirmationStandsThoughRefused | src/dispatching/dispatching.service.ts:1183-1205 | A confirmation is refused and the job completed all the same if and only if the job awaited confirmation and its invoice is in dispute |
| Settlement.DisputedJobIsCompleted | src/dispatching/dispatching.service.ts:1203-1204 | Runs of a job and of its books that end where that happens |
| Settlement.AutoConfirmationIsWhole | src/billing/billing-confirmation.service.ts:19-52 | The automatic confirmation completes the job and issues its invoice, or does neither |
| Settlement.CompleteJob | src/dispatching/dispatching.service.ts:1183-1205 | Completes a job awaiting confirmation and then issues its invoice, only issues that of a completed one, and refuses any other |
| Settlement.ProcessAutoConfirm | src/billing/billing-confirmation.service.ts:19-52 | Acts only on a job awaiting confirmation with a completed assignment and an issuable invoice |
| JobService.Perform | src/assignments/assignments.service.ts:121-1019 | Called on rows that satisfy the invariants, any of the 24 operations yields exactly the next state of the run, which obeys the laws, and leaves them satisfied |
| OptimisticWriter.CommitTicket | src/assignments/assignments.service.ts:1059-1090 | The transaction body of a version-checked operation, run on rows others may have changed, lands whole, or ends in a conflict or a refusal with every row as it was |
| LedgerService.LedgerTables.Void | src/billing/billing.service.ts:378-450 | Refused for a paid invoice or an unfit replacement invoice, silent for a voided one; otherwise void with its pending earnings cancelled |
| LedgerService.LedgerTables.ResolveDispute | src/billing/billing.service.ts:520-595 | Resolving restores the remembered status or voids |
| LedgerService.LedgerTables.ConfirmPayment | src/payments/payments.service.ts:98-161 | Confirming marks payment and invoice paid and accrues the earnings |
| LedgerService.LedgerTables.AccrueForPaidInvoice | src/guardian-payroll/guardian-payroll.service.ts:41-149 | On a paid invoice one earning is added for the first work listed of each assignment that had none, in order, each worth its rate times its paid hours or blocked; none gets a second one, and nothing recorded before changes |
| LedgerService.LedgerTables.CreatePayout | src/guardian-payroll/guardian-payroll.service.ts:358-447 | Changes the books if and only if the key is unused, every listed earning is the guardian's, pending and listed once, and they are worth something; the payout is then worth their sum |
| LedgerService.LedgerTables.Perform | src/payments/payments.service.ts:36-161 | Called on books that satisfy the invariants, any of the twelve operations yields exactly the next state of the run, which obeys the laws of the books, and leaves them satisfied |

## Left out

- Interleaving.TerminalIsLeftExactly: cancelling is either one atomic step, or reads of groups of officers to release, each followed at any time by the write of that group, and a change of the job; which rows make up a group is left open. Open offers are cancelled by one conditional write in the code and within the atomic steps here.
- JobBooks.OwedExactly: the books of one job, and every accrual reads all its completed assignments; the terms of pay are free.
- Interleaving.AcceptOversellsExactly: the status an accept read may be any status, not only one the job has had.
- AssignmentService.Accept: guardian and pay-policy lookups, and the terms they write on the assignment, are not modelled; a failing lookup refuses the accept.
- AssignmentService.ApproveReplacement: the post-commit check of the departing assignment is not repeated, because the write just made satisfies it.
- AssignmentService.Complete: the draft's price, VAT and policy lookups are not modelled; only whether a draft exists.
- DispatchService.ProcessDispatch: the pool a step sees is given once per step, so the counts and queries of one round agree with each other.
- DispatchService.GetExcludedGuardianIds: who is eligible, their ranking, districts, certifications and presence are inputs.
- JobService.Cancel: access and verification checks, and billing reads that follow, are not modelled.
- LedgerService.LedgerTables.Perform: the total of a draft is an input; tax, currency and due dates are not modelled.
- LedgerRuns.KeysAreSpentForEver: the booking check on the organisation's location and the providers are not modelled; amounts are not compared with the invoice's total, as in the code.
- LedgerService.LedgerTables.AccrueForPaidInvoice: the completed assignments are read from the job by the caller, with the terms their pay is computed from.
- LedgerService.LedgerTables.ResolveDispute: the missing void reason is refused by the code before anything changes and is not modelled.
- Invoicing.ComputeInvoiceAmounts: labels and printed quantities of the lines are not modelled, and whether the job or the current policy supplies the model and minimum is settled before the call.
- Durations.BillableBounds: hours and money are exact reals; JavaScript floats, Decimal precision and `toFixed` are not modelled.
- Outbox.OutboxTable.ClaimBatch: which due events a claim takes is an input, as rows locked by another worker are skipped.
- InvoiceHours.CoverageIsContinuous: one-slot jobs whose substitutes arrive by handoff; a second substitute may also arrive after the handoff, alongside the first.
- Guardian shift state (busy, available), since declining one offer can make a working guardian available and no invariant ties it to the assignments.
- Timestamps and counters that nothing else reads: when an offer was accepted, when dispatch started, dispatch attempts, auto-approval times, when something was paid.
- The timers and scans that start steps (offer expiry queue, no-show detection, overdue and exhausted scans): a step may happen at any time its own checks allow.
- Emails, notifications, audit rows, controllers, permissions, onboarding and document handling.
- Administrative deletion of users and assignments, which would break the counters.
- Uncalled or deprecated paths: explicit completion of a job, redispatch outside a transaction, create-and-issue in one call.
- Policy and price lookup in priority order, which would only add easy members.
