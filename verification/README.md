# MailFlow background work: a verified model

MailFlow classifies and files mail in background workers. This project models the parts of that work where several
processes share state: the admission controller in front of the language models, the resumable backfill of a mailbox's
history, the review and bulk application of proposals, the memory of confirmed decisions, and the circuit breakers on
the model paths. Each part is a transition system or a specification function, the code's own loops and field updates
are classes and methods proved against it, and the properties are proved of every run.

`dafny verify dfyconfig.toml` checks everything.

## How the parts fit together

**Scheduler.** `Workload` is the Redis store, the two locked sections of `acquire`, the unlocked `release`, lease expiry
and the steps of all processes in any order. `WorkloadSafety`, `WorkloadRates` and `WorkloadFairness` prove capacity,
conservation, rate limits, bounded bypass and progress over all runs, `WorkloadAdmission` the reserve for live work and
the only reasons for which a request waits or is turned away, `WorkloadOverrun` what happens when holders outlive their
leases. `WorkloadController` is the controller as a class with the source's loops; each method equals the specification
step it implements.

**Backfill.** `BackfillStore` holds the job and failure rows and their repository operations, `HistoricalFetch` the
bounded window scan. `BulkBackfill` is dry-run and review backfill as a machine: one committed transaction per step,
with pause, resume, cancel, retries, mail arriving or being expunged, and a crash between any two steps.
`BulkBackfillSafety` proves the frontier invariant, `BulkBackfillCounters` exactly which runs keep the counters
balanced, `BulkBackfillStops` what pausing and cancelling stop and what each step may change, `BulkBackfillConvergence`
that every chain of batches ends with the same rows. `ApplyBackfill`, `ApplyBackfillCounters` and `ApplyBackfillStops`
do the same for apply mode, where counters refine rows. `BulkBackfillCalls` and `ApplyBackfillCalls` say which turns of
the machine the inputs of one call of `run_batch` determine, with other processes acting in between; the two service
modules contain `run_batch` with its loops, flags and early exits and prove that it ends exactly where those turns lead.

**Bulk apply.** `BulkRows` holds the proposals, the apply job and the repository and handler operations on them.
`BulkApply` is the machine: IMAP commands one at a time, results committed one at a time, people deciding and workers
crashing in between. `BulkDecisions` says field by field and row by row what people's decisions do, `BulkApplyEffects`
what applying an approval does to the mailbox. `BulkApplySafety` proves that what is applied is what was approved,
`BulkApplyPosition` whose message a command reaches, `BulkApplyExpunge` what an expunge removes and that no message is
lost, `BulkApplyExclusion` and `BulkApplyHeeded` when an exclusion is heeded, `BulkApplyCounters` that counters are row
counts, `BulkApplyPass`, `BulkApplyReplay`, `BulkApplyConfluence` and `BulkApplyCrashes` what crashes can and cannot
change, `BulkApplyTermination` that the job completes after exactly as many batches as the queue fills. `BulkApplyCalls`
and `BulkApplyServices` are one call of `run_batch`. `BulkReview` is the grouping of proposals into review clusters and
`BulkReviewIdentifiers` which of their identifiers are ambiguous, `BulkReviewFigures` what the figures count.

**Decisions and resilience.** `DecisionMemoryStore` is the repository with its superseding rule,
`DecisionMemoryReferences` the graph of superseding references, `DecisionMemoryLifecycle` what a row holds and who may
change it, `DecisionMemoryMatch` the scoring and the one-pass choice, `DecisionMemoryChoice` and `DecisionMemoryText`
what decides it. `Resilience` is the circuit breaker and the retry loop, `ScheduledLlm` the two-path classification call
over shared breakers.

## Where the obvious claim is false

The code is modelled as it is; these lemmas show the failing case and say exactly when the claim holds.

- A crash between the copy of a move and its expunge leaves one more copy of the message in the destination after the
  restart (`BulkApplyCrashes.CrashRestart`, `BulkApplyReplay.ReplayInsideWindow`). The final mailbox is the crash-free
  one if and only if no crash falls there.
- Excluding a proposal that a batch has already read does not stop it, whether the message is in hand or still listed:
  it can be applied without a crash and its row ends as applied (`BulkApplyExclusion.ExcludedTooLate`).
- An expunge removes every message of the source folder marked deleted, whoever marked it, be it excluded, suspicious or
  never proposed (`BulkApplyExpunge.RemovedExactly`, `BulkApplyHeeded.MoveTakesMarked`). A message excluded after a
  crash just before its expunge is removed by the next move, though no batch holds it
  (`BulkApplyHeeded.ExcludedYetRemoved`). While the job is open an exclusion is heeded, row, commands and message, if
  and only if no batch holds the message and it is not marked deleted (`BulkApplyHeeded.ExclusionHeededIff`).
- A command reaches the mailbox its proposal was made for if and only if the mailbox was not reset since the message was
  fetched (`BulkApplyPosition.ActsUnderProposalIff`); a reset in between lets it reach another message with the same UID
  (`BulkApplyPosition.ResetInHand`).
- An approval that lands while an empty batch is open leaves the job running with work queued and no batch asked for
  (`BulkApplyTermination.LateApprovalWaits`); one that lands after the job is completed is never applied
  (`BulkApplyTermination.LateApprovalNeverApplied`).
- The self-heal keeps the apply counters if and only if no stale row was counted as failed
  (`BulkApplyCounters.HealKeepsCounters`).
- In apply mode a pause the loop observes and a resume before the batch's last transaction complete the job with
  messages skipped (`ApplyBackfillCounters.PauseResumeSkips`, `ApplyBackfillCounters.FinishLosesExactly`).
- In dry-run and review mode `processed == successful + failed` fails when a failure is recovered before it ever
  counted. This happens in a run over any nonempty mailbox with more than one attempt per message
  (`BulkBackfillCounters.RecoveryCountsTwice`), and a run keeps the balance throughout if and only if every recovery and
  every successful retry meets a counted failure (`BulkBackfillCounters.BalancedRuns`); otherwise only the bound holds.
- `initialize_discovery` can move a completed or cancelled job to failed (`BackfillStore.ResetBypassesTransitions`). So
  a cancel fixes the cursor for ever if and only if no batch in flight has still to compare the mailbox's UIDVALIDITY
  with a recorded one (`BulkBackfillStops.CancelledForGoodIff`); in apply mode a message already with the pipeline is
  counted all the same (`ApplyBackfillStops.CancelledForGood`, `ApplyBackfillStops.InHandIsCounted`).
- A configured minimum delay beyond 120 seconds is enforced for 120 seconds only (`WorkloadRates.EnforcedDelay`).
- Leases are the calls really running in every state of a run if and only if no lease expires under its holder
  (`WorkloadSafety.LeasesAreCallsIff`). Otherwise nothing bounds the calls: under any validated limits, without rate
  limits, some run has one more than the global limit, or any number (`WorkloadOverrun.OverTheLimit`,
  `WorkloadOverrun.CallsUnbounded`).
- `superseded_by_id` may form a circle (`DecisionMemoryStore.SupersededInACircle`). A call closes one if and only if it
  enables an entry whose references lead to one that the call disables (`DecisionMemoryReferences.ClosesExactly`,
  `DecisionMemoryReferences.AcyclicIff`), so never while no superseded entry is enabled again
  (`DecisionMemoryReferences.AcyclicWithoutRevival`).
- Cleaning a cleaned key again may change it, exactly when the cut fell just after white space
  (`DecisionMemoryMatch.CleanTwice`).
- A cluster identifier may select more than its cluster: exactly when the destination holds a NUL or the category holds
  one after its first character (`BulkReviewIdentifiers.SelectionExactIff`, with sender domains free of NUL).

## Model

| member | source | states |
|---|---|---|
| `WorkloadSafety.Safety` | apps/api/app/workload.py:305-354 | in every reachable state, whatever the order of queueing, polling, giving up, release and expiry: global, role, account and low-priority leases and the queue stay within their limits, each request stands in one place and is granted at most once, and granted minus completed is the leases not yet exited |
| `WorkloadSafety.StepKeepsCapacity` | apps/api/app/workload.py:207-233 | one step of any process keeps every cap and the queue bound |
| `WorkloadSafety.EligibleLeavesRoom` | apps/api/app/workload.py:216-232 | the eligibility test leaves room in every group the request belongs to |
| `WorkloadSafety.GrantKeepsCapacity` | apps/api/app/workload.py:319-329 | granting the selected candidate exceeds no cap |
| `WorkloadSafety.CleanupShrinks` | apps/api/app/workload.py:175-180 | cleanup only removes leases and requests, so no group grows |
| `WorkloadSafety.StepKeepsConservation` | apps/api/app/workload.py:281-346 | no request is duplicated, granted twice or queued again by any step |
| `WorkloadSafety.StepKeepsBalance` | apps/api/app/workload.py:279-354 | per role, granted minus completed equals the leases held |
| `WorkloadSafety.StepTracksRunning` | apps/api/app/workload.py:343-354 | a step keeps the leases equal to the calls really running if and only if no lease expires under its holder |
| `WorkloadSafety.RunningWithinCaps` | apps/api/app/config.py:82-89 | if every holder releases within its lease the caps bound the calls really running |
| `WorkloadSafety.LeasesAreCallsIff` | apps/api/app/workload.py:343-354 | from the start the leases equal the calls really running in every state of a run if and only if no lease expires under its holder |
| `WorkloadOverrun.CallsUnbounded` | apps/api/app/workload.py:175-180 | under any validated limits, without rate limits, some run from the start has any given number of calls running |
| `WorkloadOverrun.OverTheLimit` | apps/api/app/workload.py:175-180 | in particular one more than the global limit, as two under a limit of one |
| `WorkloadSafety.OneCandidate` | apps/api/app/workload.py:235-263 | in one state at most one waiter can be granted, whoever polls first |
| `WorkloadAdmission.ReserveKept` | apps/api/app/workload.py:224-232 | in every run a grant of priority 4 or lower leaves all leases plus the reserve within the global limit |
| `WorkloadAdmission.RefusedOnlyForLimits` | apps/api/app/workload.py:193-263 | the first in line is refused only if the global, role or account limit or, for low priority, the unreserved part is taken up by leases, or the log of grants shows a full minute or too recent a grant |
| `WorkloadAdmission.JoinsUnlessFull` | apps/api/app/workload.py:305-312 | a caller joins the queue and waits exactly when fewer than the limit of recent requests are queued |
| `WorkloadAdmission.LeavesQueueOnly` | apps/api/app/workload.py:175-180 | a queued request leaves only by its own grant, by giving up or by age |
| `WorkloadAdmission.LeaseGoesOnly` | apps/api/app/workload.py:343-354 | a lease goes only when its holder leaves or it has run out |
| `WorkloadAdmission.LeaseLasts` | apps/api/app/workload.py:319-329 | a grant lasts for the lease time and changes no other lease |
| `WorkloadRates.RatePerMinute` | apps/api/app/workload.py:193-199 | grants of one endpoint and role never exceed rpm in a minute, nor twice that in any 60 seconds |
| `WorkloadRates.MinimumDelay` | apps/api/app/workload.py:200-204 | any two grants of one endpoint and role are at least the configured delay apart, for delays the key lifetime covers |
| `WorkloadRates.EnforcedDelay` | apps/api/app/workload.py:273 | after a grant the next request passes if and only if min(delay, 120 seconds) have gone by |
| `WorkloadFairness.BoundedBypass` | apps/api/app/workload.py:243-279 | while a request waits eligible in the best class, every other account gets at most k + 1 grants in any stretch of the wait no longer than a last-grant key lives (24 hours), k counting the older requests of its account and class |
| `WorkloadFairness.OwnBypass` | apps/api/app/workload.py:253-262 | and its own account at most k, however long the wait |
| `WorkloadFairness.BypassUnderTimeout` | apps/api/app/workload.py:175-180 | if twice the wait timeout plus the lag of a locked section stays below 24 hours, the whole wait is such a stretch |
| `WorkloadFairness.TurnPasses` | apps/api/app/workload.py:253-262 | once another account is served it ranks behind the waiting one |
| `WorkloadFairness.GrantRanking` | apps/api/app/workload.py:243-263 | whoever is granted before a waiting eligible request of the same class ranks before it |
| `WorkloadFairness.RunKeepsGrantKeys` | apps/api/app/workload.py:275-278 | over every run the last-grant keys record the position of each account's latest grant |
| `WorkloadFairness.IdleServes` | apps/api/app/workload.py:235-263 | under the validated limits an idle unthrottled scheduler with a waiting request always has a candidate |
| `WorkloadFairness.Drains` | apps/api/app/workload.py:305-354 | under every schedule of polls and releases the queue is served by class, each request at most once and none before one of a better class, and each grant and each release is one of a fixed number of moves left |
| `WorkloadFairness.NeverStuck` | apps/api/app/config.py:179-193 | under the validated limits and without rate limits no such schedule is stuck before the queue is empty: at each time a holder can release or some waiter, depending on the time, would be granted |
| `WorkloadFairness.RoundServes` | apps/api/app/workload.py:235-263 | once all holders have released, a full round of polls in any order grants somebody, unless a last-grant key of a queued account runs out during it |
| `WorkloadController.RedisWorkloadController.constructor` | apps/api/app/workload.py:113-117 | starts with the empty store |
| `WorkloadController.RedisWorkloadController.RemoveExpired` | apps/api/app/workload.py:175-180 | drops exactly the expired leases and the requests older than the age limit |
| `WorkloadController.RedisWorkloadController.ActiveCounts` | apps/api/app/workload.py:182-191 | the one-pass dictionaries hold the number of leases of every role and account |
| `WorkloadController.RedisWorkloadController.RateAllows` | apps/api/app/workload.py:193-205 | answers the rate rule |
| `WorkloadController.RedisWorkloadController.IsEligible` | apps/api/app/workload.py:207-233 | answers eligibility from the counts |
| `WorkloadController.RedisWorkloadController.HighestPriority` | apps/api/app/workload.py:239 | the least priority number queued |
| `WorkloadController.RedisWorkloadController.SelectCandidate` | apps/api/app/workload.py:235-263 | returns an eligible request of the best class ranked before every other such request, or none if there is none |
| `WorkloadController.RedisWorkloadController.NoteGrant` | apps/api/app/workload.py:265-279 | writes the rate, fairness and metric keys of one grant |
| `WorkloadController.RedisWorkloadController.NewRequest` | apps/api/app/workload.py:291-303 | hands out the next sequence number |
| `WorkloadController.RedisWorkloadController.EnterQueue` | apps/api/app/workload.py:305-312 | first locked section: cleanup, refusal when full, else queued |
| `WorkloadController.RedisWorkloadController.TryAcquire` | apps/api/app/workload.py:319-329 | second locked section: granted exactly when this request is the candidate after cleanup |
| `WorkloadController.RedisWorkloadController.GiveUp` | apps/api/app/workload.py:339-341 | the member leaves the queue |
| `WorkloadController.RedisWorkloadController.ReleaseLease` | apps/api/app/workload.py:343-354 | the lease goes and one completion is counted |
| `BackfillStore.CheckpointKeepsCounters` | apps/api/app/repositories/backfill.py:219-243 | a checkpoint keeps the counter bound and neither makes nor breaks the exact balance |
| `BackfillStore.RetrySuccessCounters` | apps/api/app/repositories/backfill.py:354-374 | a retry success keeps the balance if and only if a failure was still counted |
| `BackfillStore.ResetBypassesTransitions` | apps/api/app/repositories/backfill.py:206-212 | a mailbox reset writes a forbidden state exactly when the job is completed or cancelled |
| `BackfillStore.AllowedMoves` | apps/api/app/repositories/backfill.py:162-194 | only a running job completes, paused and failed ones can be resumed or cancelled, completed and cancelled are final, and a move changes nothing but the state |
| `BackfillStore.BackfillRepository.MoveTo` | apps/api/app/repositories/backfill.py:162-194 | moves along the transition table, or refuses and changes nothing |
| `BackfillStore.BackfillRepository.Discover` | apps/api/app/repositories/backfill.py:196-217 | records UIDVALIDITY and the largest total, or fails the job on a reset |
| `BackfillStore.BackfillRepository.Advance` | apps/api/app/repositories/backfill.py:219-243 | moves the cursor and adds the deltas, or refuses to go back |
| `BackfillStore.BackfillRepository.NoteFailure` | apps/api/app/repositories/backfill.py:281-319 | one more attempt on the message's row |
| `BackfillStore.BackfillRepository.MarkRetrying` | apps/api/app/repositories/backfill.py:321-330 | only an unresolved failure becomes retrying |
| `BackfillStore.BackfillRepository.Resolve` | apps/api/app/repositories/backfill.py:332-352 | the row, if any, becomes resolved |
| `BackfillStore.BackfillRepository.RetrySucceeded` | apps/api/app/repositories/backfill.py:354-374 | row resolved and counters adjusted together |
| `HistoricalFetch.FetchHistoricalBatch` | packages/core/mailflow_core/providers/imap_generic.py:265-328 | returns the first messages after the cursor, all of them up to the scan position, and done exactly at the end of the mailbox |
| `HistoricalFetch.Search` | packages/core/mailflow_core/providers/imap_generic.py:298-305 | the UIDs of one window, ascending |
| `HistoricalFetch.BatchUnique` | packages/core/mailflow_core/providers/imap_generic.py:275-280 | the result does not depend on the window size |
| `BulkBackfillSafety.FrontierSafety` | apps/api/app/services/bulk_backfill.py:151-386 | under every interleaving with pause, resume, cancel, retries and crashes no checkpoint is refused, every scanned message has a proposal or an exhausted failure, only the least unvisited message is touched beyond the cursor, counters stay bounded, and the cursor never goes back |
| `BulkBackfillSafety.FetchOpensWindow` | apps/api/app/services/bulk_backfill.py:151-229 | a fetched batch is every untouched message up to its scan position, at most its head being touched |
| `BulkBackfillSafety.VisitKeeps` | apps/api/app/services/bulk_backfill.py:230-260 | the first pass keeps the frontier |
| `BulkBackfillSafety.CommitKeeps` | apps/api/app/services/bulk_backfill.py:280-354 | committing one classification keeps the frontier, whatever the outcome |
| `BulkBackfillSafety.FinishKeeps` | apps/api/app/services/bulk_backfill.py:356-371 | the jump to the scan position skips nothing |
| `BulkBackfillSafety.RetrySuccessKeepsWorld` | apps/api/app/services/bulk_backfill_failure.py:41-147 | a successful retry of one message keeps the invariant |
| `BulkBackfillSafety.WorldStepKeeps` | apps/api/app/routers/backfill.py:156-259 | request handlers, retry workers and mailbox changes keep the invariant and the cursor |
| `BulkBackfillSafety.RecoveredThenVisited` | apps/api/app/services/bulk_backfill.py:126-144 | from any such state a failure recovered before it counted is processed once and counted successful twice |
| `BulkBackfillCounters.RecoveryCountsTwice` | apps/api/app/services/bulk_backfill.py:74-145 | for every nonempty mailbox and attempt limit above one, an explicit run from the start processes one message and counts two successes |
| `BulkBackfillCounters.BalancedRuns` | apps/api/app/repositories/backfill.py:354-374 | from the start every state of a run is balanced if and only if each recovery and each successful retry of the run met a counted failure |
| `BulkBackfillCounters.StepBalance` | apps/api/app/repositories/backfill.py:219-243 | one step of any process breaks the balance exactly when it recovers a failure while none is counted |
| `BulkBackfillStops.StoppedCommitsNothing` | apps/api/app/services/bulk_backfill.py:280-295 | over every stretch in which the job is not running, steps of the batch other than recovery and discovery change no proposal, failure, counter or cursor |
| `BulkBackfillStops.StoppedCursor` | apps/api/app/services/bulk_backfill.py:230-295 | whatever the batch and others do, cursor and processed stay until the job runs again |
| `BulkBackfillStops.CancelledForGoodIff` | apps/api/app/repositories/backfill.py:196-217 | after a cancel the cursor is fixed in every continuation if and only if no batch in flight has still to compare the UIDVALIDITY with a recorded one |
| `BulkBackfillStops.AttemptsSpent` | apps/api/app/services/bulk_backfill.py:304-338 | a message loses exactly one attempt when a running job commits an error of it that is not transient or its manual retry fails, and none otherwise |
| `BulkBackfillStops.TransientChangesNothing` | apps/api/app/services/bulk_backfill.py:304-315 | a transient error changes no row and ends the batch short of its end |
| `BulkBackfillStops.ProposalsMade` | apps/api/app/services/bulk_backfill.py:316-351 | a proposal appears exactly when a step makes one, with that step's review flag, never goes, and loses its flag only by confirming |
| `BulkBackfillStops.ReviewsFromStart` | apps/api/app/services/bulk_backfill.py:316-354 | over every run from the start the review counter is the number of counted successes that needed review |
| `BulkBackfillStops.FailureRows` | apps/api/app/repositories/backfill.py:281-352 | a failure row fails with one more attempt, is resolved when its message gets a proposal, is retried by hand only once its attempts are used up, and falls back only if no retry is under way |
| `BulkBackfillStops.AtMostFiveRecovered` | apps/api/app/services/bulk_backfill.py:74-99 | a batch recovers at most the first five unresolved failures whose error is known to pass |
| `BulkBackfillStops.JobStates` | apps/api/app/routers/backfill.py:156-259 | a job is completed only by a batch at the end of the mailbox, fails on a reset, and is else paused, resumed, cancelled or failed by others as the table allows |
| `BulkBackfillStops.CursorAndSizeGrow` | apps/api/app/repositories/backfill.py:196-243 | from any state the cursor never goes back and the size recorded is the largest reported |
| `BulkBackfillConvergence.CompletedMeansFinished` | apps/api/app/services/bulk_backfill.py:262-371 | with a fixed mailbox and a deterministic classifier a completed chain has proposals for exactly the good messages, exhausted failures for exactly the bad ones and matching counters, for every batch size, concurrency and crash placement |
| `BulkBackfillConvergence.ChainTerminates` | apps/api/app/repositories/backfill.py:281-319 | a chain over n messages with c crashes takes at most (2 * max * n + 1 + c) * (2n + 10) steps |
| `BulkBackfillConvergence.CanContinue` | apps/api/app/services/bulk_backfill.py:151-229 | until the job is completed the batch can always go on, with any batch size |
| `BulkBackfillConvergence.StepLowersMeasure` | apps/api/app/services/bulk_backfill.py:316-338 | every step other than a crash lowers the measure of messages and attempts left |
| `BulkBackfillServices.BulkBackfillService.RunBatch` | apps/api/app/services/bulk_backfill.py:151-386 | one call ends exactly where the turns its inputs determine end, with others acting between its transactions; it reports a reset if and only if the job was running and had another UIDVALIDITY; from an invariant state its own cursor is never refused |
| `BulkBackfillCalls.CallDetermined` | apps/api/app/services/bulk_backfill.py:151-386 | where a call ends depends on its inputs only: settings, what provider, classifier and recovery answer, and what others do before each step |
| `BulkBackfillCalls.ScriptRuns` | apps/api/app/services/bulk_backfill.py:151-386 | the turns of a call are a run of the machine: the steps of others in order, and the own steps with the outcomes the call supplies between them |
| `BulkBackfillCalls.ScriptHasNoCrash` | apps/api/app/services/bulk_backfill.py:151-386 | and none of them is a crash |
| `BulkBackfillCalls.ListIsFirstRows` | apps/api/app/services/bulk_backfill.py:93-99 | the recoverable failures listed are determined |
| `BulkBackfillServices.BulkBackfillService.RecoverPersistedFailures` | apps/api/app/services/bulk_backfill.py:74-145 | from the listed rows to none left by exactly the turns that recover them, stopping at a transient error |
| `BulkBackfillServices.BulkBackfillService.ListRecoverable` | apps/api/app/services/bulk_backfill.py:93-99 | the first five unresolved rows the policy recognizes |
| `BulkBackfillServices.BulkBackfillService.VisitAll` | apps/api/app/services/bulk_backfill.py:230-260 | the first loop makes exactly the turns that visit the messages and keep those without a proposal, up to a pause or a refused cursor |
| `BulkBackfillServices.BulkBackfillService.CommitAll` | apps/api/app/services/bulk_backfill.py:280-354 | the chunk loop makes exactly the turns that commit what the classifier answers, in order, up to the first yield or pause |
| `BulkBackfillServices.BulkBackfillService.CommitMessage` | apps/api/app/services/bulk_backfill.py:292-351 | one commit transaction |
| `BulkBackfillServices.BulkBackfillService.FinishTransaction` | apps/api/app/services/bulk_backfill.py:356-371 | the last transaction |
| `BulkBackfillServices.BulkBackfillService.Perform` | apps/api/app/routers/backfill.py:156-259 | one transaction of a handler or retry worker |
| `ApplyBackfillCounters.CountersAreRows` | apps/api/app/services/backfill.py:151-267 | in every reachable state failed is the number of unresolved exhausted rows and processed is successful plus failed, and no checkpoint is refused |
| `ApplyBackfillCounters.RetrySuccessKeeps` | apps/api/app/services/backfill_failure.py:46-162 | the guard on failed never hides a mismatch: the retried row is counted |
| `ApplyBackfillCounters.FailKeeps` | apps/api/app/services/backfill.py:198-225 | a failed message keeps counters and rows together, below and at the attempt limit |
| `ApplyBackfillCounters.SucceedKeeps` | apps/api/app/services/backfill.py:159-180 | a handled message does too |
| `ApplyBackfillStops.RaisedTogether` | apps/api/app/services/backfill.py:164-248 | a step that raises successful raises reviewRequired by one if and only if the row of the message it counted has its review flag |
| `ApplyBackfillStops.ReviewsFromStart` | apps/api/app/services/backfill.py:164-248 | over every run the two counters are the numbers of counted successes and of those whose row needed review |
| `ApplyBackfillStops.PassedIsCounted` | apps/api/app/services/backfill.py:151-250 | each message the loop passes is counted processed once, as successful or as failed, and the cursor is there |
| `ApplyBackfillStops.RowsWritten` | apps/api/app/services/backfill.py:182-232 | the pipeline's row is written for the message in hand with the flag the pipeline gives |
| `ApplyBackfillStops.AttemptsSpent` | apps/api/app/repositories/backfill.py:281-319 | a message loses one attempt exactly when the pipeline or its manual retry fails |
| `ApplyBackfillStops.StoppedCursor` | apps/api/app/services/backfill.py:151-163 | while the job is not running no message is given to the pipeline |
| `ApplyBackfillStops.CancelledForGood` | apps/api/app/services/backfill.py:151-163 | after a cancel with no message in hand and no UIDVALIDITY to compare no message is ever processed |
| `ApplyBackfillStops.FailureRows` | apps/api/app/repositories/backfill.py:281-374 | what each step leaves of a failure row |
| `ApplyBackfillStops.JobStates` | apps/api/app/routers/backfill.py:156-259 | how a job changes state |
| `ApplyBackfillCounters.FinishLosesExactly` | apps/api/app/services/backfill.py:252-267 | the last transaction loses a message if and only if it runs on past an observed pause with an unvisited message left |
| `ApplyBackfillCounters.PauseResumeSkips` | apps/api/app/services/backfill.py:157-158 | for every nonempty mailbox a pause and resume inside one batch complete the job with nothing handled |
| `ApplyBackfillCounters.NothingLostWithoutResume` | apps/api/app/services/backfill.py:151-267 | without a resume in flight every scanned message is handled or exhausted, over every run |
| `ApplyBackfillServices.BackfillService.RunBatch` | apps/api/app/services/backfill.py:64-300 | one call ends exactly where the turns its inputs determine end; it reports a reset if and only if the job was running and had another UIDVALIDITY; from an invariant state its own cursor is never refused |
| `ApplyBackfillCalls.CallDetermined` | apps/api/app/services/backfill.py:64-300 | where a call ends depends on its inputs only |
| `ApplyBackfillCalls.ScriptRuns` | apps/api/app/services/backfill.py:64-300 | the turns of a call are a run of the machine |
| `ApplyBackfillServices.BackfillService.ProcessAll` | apps/api/app/services/backfill.py:151-250 | the message loop makes exactly the turns of its messages, with the pipeline results supplied, up to its yield, pause or refused exit |
| `ApplyBackfillServices.BackfillService.ProcessMessage` | apps/api/app/services/backfill.py:182-250 | one message makes exactly the turns of the pipeline result supplied: handled and counted, yielded, or failed |
| `ApplyBackfillServices.BackfillService.FinishTransaction` | apps/api/app/services/backfill.py:252-267 | the last transaction |
| `ApplyBackfillServices.BackfillService.Perform` | apps/worker/worker/main.py:123-160 | one transaction of a handler, retry worker or state write |
| `BulkRows.BulkRepository.constructor` | apps/api/app/repositories/bulk.py:20-22 | starts without rows or job |
| `BulkRows.BulkRepository.CreateProposal` | apps/api/app/repositories/bulk.py:53-78 | a new proposed row, or the existing one unchanged |
| `BulkRows.BulkRepository.EditProposal` | apps/api/app/repositories/bulk.py:126-166 | only a proposed row changes, and only its edited snapshot |
| `BulkRows.BulkRepository.ExcludeProposal` | apps/api/app/repositories/bulk.py:168-191 | proposed or approved becomes excluded without snapshot |
| `BulkRows.BulkRepository.ApproveProposal` | apps/api/app/repositories/bulk.py:193-219 | stores the effective snapshot unless it needs review |
| `BulkRows.BulkRepository.ApproveAllSafe` | apps/api/app/repositories/bulk.py:221-230 | every approvable row becomes approved and the answer is how many did |
| `BulkRows.BulkRepository.ApproveCluster` | apps/api/app/routers/bulk.py:290-333 | selected rows are confirmed and approved, suspicious ones left and counted |
| `BulkRows.BulkRepository.ConsiderProposal` | apps/api/app/routers/bulk.py:307-329 | one turn of the cluster loop |
| `BulkRows.BulkRepository.EditSelected` | apps/api/app/routers/bulk.py:180-218 | exactly the proposed rows selected are edited and counted as such, the other selected ones are counted as skipped |
| `BulkRows.BulkRepository.CreateApplyJob` | apps/api/app/repositories/bulk.py:255-298 | the existing job, or a new one over the approved rows, or an error if there are none |
| `BulkRows.BulkRepository.MarkResult` | apps/api/app/repositories/bulk.py:315-345 | row and counters change together |
| `BulkRows.BulkRepository.FinalizeIfDone` | apps/api/app/repositories/bulk.py:347-377 | completes exactly a running job with an empty queue |
| `BulkRows.BulkRepository.HealStale` | apps/api/app/services/attention_operational.py:72-99 | every stale row becomes skipped and the counters move by how many there were |
| `BulkDecisions.OnlyNamedRowsChange` | apps/api/app/repositories/bulk.py:126-230 | a decision touches only rows it names that are still proposed, but that an approved one can be excluded |
| `BulkDecisions.EditsSetFields` | apps/api/app/repositories/bulk.py:126-166 | an edit sets just the fields it names in what is seen of a proposed row, and suspicion is never changed |
| `BulkDecisions.ApprovedForFolderGiven` | apps/api/app/repositories/bulk.py:193-219 | over every run a message is approved for the folder last given to it while it was proposed |
| `BulkDecisions.ApprovedExactly` | apps/api/app/repositories/bulk.py:193-230 | a proposed row is approved exactly by a decision that names it and may, and stores what is seen |
| `BulkDecisions.ExcludedExactly` | apps/api/app/repositories/bulk.py:168-191 | only a proposed or an approved row is excluded, and it loses its approval |
| `BulkDecisions.HealsJustMissing` | apps/api/app/services/attention_operational.py:72-99 | the self-heal turns just the rows that failed or wait for a missing message into skipped ones |
| `BulkDecisions.StartsOnce` | apps/api/app/repositories/bulk.py:255-298 | starting makes one running job over the approved rows |
| `BulkDecisions.ApplyJobStates` | apps/api/app/repositories/bulk.py:347-377 | a job is completed only by closing a batch of a running job with nothing queued, and never changes its size |
| `BulkDecisions.EveryApprovalProcessed` | apps/api/app/repositories/bulk.py:315-377 | a job carried out by its batches alone completes with as many results as rows were approved |
| `BulkApplySafety.AppliedFromStart` | apps/api/app/services/bulk_apply.py:86-163 | every command ever sent is one its approval's snapshot calls for, at the position of the proposal after a fetch under its UIDVALIDITY, for a message never created suspicious |
| `BulkApplyPosition.ActsUnderProposalIff` | packages/core/mailflow_core/providers/imap_generic.py:380-408 | a command is sent while the mailbox has the UIDVALIDITY of its proposal if and only if the mailbox was not reset since this message was fetched |
| `BulkApplyPosition.AllUnderTheirProposals` | apps/api/app/services/bulk_apply.py:112-125 | if no reset falls while a message is in hand, every command of the run reached the mailbox its proposal was made for |
| `BulkApplyPosition.ResetInHand` | packages/core/mailflow_core/providers/imap_generic.py:391-408 | a run from the start in which a reset makes the first command reach the message that has the same UID afterwards |
| `BulkApplyExpunge.RemovedExactly` | packages/core/mailflow_core/providers/imap_generic.py:384-386 | a message leaves the source folder exactly when an expunge is sent while it is marked deleted, or by another user of the mailbox |
| `BulkApplyExpunge.NothingLost` | packages/core/mailflow_core/providers/imap_generic.py:380-389 | from a mailbox without marked messages that nobody else uses, over every run with crashes and failing calls: each message is still in the source folder, or its row was approved with a move for this UIDVALIDITY and the approved folder holds its content |
| `BulkApplySafety.AppliedIsApproved` | apps/api/app/repositories/bulk.py:126-219 | over every run original snapshots, positions and stored approvals never change |
| `BulkApplySafety.DecisionsKeep` | apps/api/app/routers/bulk.py:180-333 | no human decision rewrites an earlier approval or an original snapshot |
| `BulkApplySafety.ApprovalStoresWhatWasSeen` | apps/api/app/routers/bulk.py:307-329 | an approval stores the snapshot the person saw, but for a review flag confirmed with it, and never a suspicious one |
| `BulkApplySafety.ExcludedInTime` | apps/api/app/repositories/bulk.py:168-191 | no command is ever addressed to a message excluded before a batch reads it, and its row stays excluded |
| `BulkApplyExclusion.ExcludedTooLate` | apps/api/app/repositories/bulk.py:325-333 | a message excluded while a batch holds it, in hand or still listed, can be applied without a crash: all commands its approval still calls for are sent and its row ends applied |
| `BulkApplyHeeded.ExclusionHeededIff` | apps/api/app/services/bulk_apply.py:38-176 | while the job is open, in every continuation whose other mailbox users leave the message alone the row stays excluded, no command is addressed to the message and the message stays as it is, if and only if no batch holds it and it is not marked deleted |
| `BulkApplyHeeded.ExcludedUntouched` | apps/api/app/repositories/bulk.py:168-191 | a message excluded before a batch reads it and not marked deleted keeps its place, content and flags |
| `BulkApplyHeeded.MoveTakesMarked` | packages/core/mailflow_core/providers/imap_generic.py:383-386 | the move of another message removes every message marked deleted, whatever became of its proposal, if it ever had one |
| `BulkApplyHeeded.MarkedIsRemoved` | packages/core/mailflow_core/providers/imap_generic.py:383-386 | from every state of an open job some continuation removes a given marked message |
| `BulkApplyHeeded.ExcludedYetRemoved` | apps/api/app/services/bulk_apply.py:126-163 | a run from the start of a mailbox nobody else uses: a message is excluded while no batch holds it, its row stays excluded, and the next batch removes it without a crash |
| `BulkApplySafety.SendAll` | apps/api/app/services/bulk_apply.py:126-163 | uninterrupted, the batch sends the whole plan and records applied exactly when there was something to do |
| `BulkApplyEffects.OnlyApprovedMoves` | apps/api/app/services/bulk_apply.py:140-158 | in every run a folder is created, copied to, marked deleted from or expunged only under a snapshot with do_move and a nonempty folder other than the source, and just that folder |
| `BulkApplyEffects.PassWithMove` | apps/api/app/services/bulk_apply.py:131-160 | an uninterrupted pass over such a snapshot ends with the message out of the source folder and last in that folder, as it was but for its keywords and mark, and no other folder changed |
| `BulkApplyEffects.PassWithoutMove` | apps/api/app/services/bulk_apply.py:131-160 | a pass without such a move leaves the message in place with its old flags, one keyword for each nonempty tag and, if there is a tag at all, the processed mark, and changes nothing else |
| `BulkApplyEffects.TagFlagsAreKeywords` | packages/core/mailflow_core/providers/imap_generic.py:391-404 | each nonempty tag gives one keyword: the prefix and its first eighty characters made safe |
| `BulkApplyEffects.NothingUnclearedApplied` | apps/api/app/services/bulk_apply.py:99-110 | from any rows, no command is sent for a suspicious or unreviewed snapshot |
| `BulkApplyCounters.CountersFromStart` | apps/api/app/repositories/bulk.py:315-345 | in every reachable state each counter is the number of rows with that result and processed is their sum |
| `BulkApplyCounters.CountersStayRows` | apps/api/app/services/attention_operational.py:66-99 | the same from any state left by older versions whose stale rows were counted as review |
| `BulkApplyCounters.HealKeepsCounters` | apps/api/app/services/attention_operational.py:80-99 | the self-heal keeps counters equal to rows if and only if no stale row is failed, and its lower bound is then never reached |
| `BulkApplyCounters.ResultsAreFinal` | apps/api/app/repositories/bulk.py:126-219 | only the self-heal changes a row that has a result |
| `BulkApplyCrashes.CrashRestart` | apps/api/app/services/bulk_apply.py:86-176 | with successful provider calls and crashes anywhere the source folder ends as one uninterrupted pass leaves it, every other folder has one extra copy per crash between copy and expunge, namely the message in hand as it stood then, the mailboxes are equal if and only if there was no such crash, and rows agree but that one applied may end skipped after a crash |
| `BulkApplyCrashes.DuplicatesAreCopies` | packages/core/mailflow_core/providers/imap_generic.py:380-408 | whatever is duplicated in a run is the message of a row with an approved move, in the folder approved for it, with its tags and the processed mark |
| `BulkApplyConfluence.StepAims` | apps/api/app/services/bulk_apply.py:86-186 | no step of a batch changes the outcome it is bound for, but for a crash, and a crash inside the window changes it by one copy |
| `BulkApplyCrashes.MovedAtMostOnce` | packages/core/mailflow_core/providers/imap_generic.py:380-389 | each message is copied at most once, but for one more time per such crash |
| `BulkApplyReplay.StartOver` | apps/api/app/services/bulk_apply.py:112-163 | stopping after any command and starting the message over repeats nothing, but for the copy inside the window |
| `BulkApplyReplay.ReplayOutsideWindow` | apps/api/app/services/bulk_apply.py:126-158 | repeating tags, marks and folder creation changes nothing |
| `BulkApplyReplay.ReplayInsideWindow` | packages/core/mailflow_core/providers/imap_generic.py:383-386 | repeating a copied but not expunged move files exactly one more copy of the message, with the flags it has by then |
| `BulkApplyReplay.WindowFlags` | packages/core/mailflow_core/providers/imap_generic.py:383-408 | between copy and expunge the message carries its tags and the processed mark, and right before the expunge the deleted flag |
| `BulkApplyReplay.NextInSource` | packages/core/mailflow_core/providers/imap_generic.py:384-386 | the expunge that ends a move removes the message, and no other command does |
| `BulkApplyReplay.PlanShape` | packages/core/mailflow_core/providers/imap_generic.py:380-408 | a plan is flag additions followed, for a move, by create, copy, mark deleted, expunge |
| `BulkApplyPass.FinishNear` | apps/api/app/services/bulk_apply.py:86-176 | a pass over mailboxes that differ by extra copies keeps exactly that difference |
| `BulkApplyTermination.ChainTerminates` | apps/api/app/services/bulk_apply.py:38-186 | chains of effective steps are bounded and end with the job completed, nothing queued, and one batch per batch size of queued proposals, rounded up, even when provider calls fail |
| `BulkApplyTermination.StepWorks` | apps/api/app/services/bulk_apply.py:86-186 | every step other than a crash lowers the work left, and only a read lowers the batches left |
| `BulkApplyTermination.CompletedIffEmpty` | apps/api/app/repositories/bulk.py:347-363 | closing a batch completes the job if and only if nothing is queued |
| `BulkApplyTermination.CanMove` | apps/api/app/services/bulk_apply.py:38-186 | until then some step is possible |
| `BulkApplyTermination.LateApprovalWaits` | apps/api/app/services/bulk_apply.py:49-55 | an approval during an empty batch leaves the job running with work queued |
| `BulkApplyTermination.LateApprovalNeverApplied` | apps/api/app/repositories/bulk.py:255-298 | a completed job stays completed and sends nothing more whatever happens, so a row approved after it and not excluded stays approved for ever |
| `BulkApplyTermination.BatchesIsCeiling` | apps/api/app/repositories/bulk.py:300-313 | the batch count is the quotient rounded up |
| `BulkApplyServices.BulkApplyService.RunBatch` | apps/api/app/services/bulk_apply.py:38-186 | one call ends exactly where the turns determined by its inputs end, keeps the approval and counter invariants, and asks for another batch exactly when the job still runs, work is queued and this batch had read some |
| `BulkApplyCalls.CallDetermined` | apps/api/app/services/bulk_apply.py:38-186 | where a call ends depends only on what others do before each step and which provider calls raise |
| `BulkApplyCalls.ScriptRuns` | apps/api/app/services/bulk_apply.py:38-186 | the turns of a call are a run of the machine: the steps of others in order, and the own steps between them |
| `BulkApplyServices.BulkApplyService.NextApplyBatch` | apps/api/app/repositories/bulk.py:300-313 | the first queued proposals by UID, up to the batch size |
| `BulkApplyServices.BulkApplyService.ApplyOne` | apps/api/app/services/bulk_apply.py:86-176 | one proposal makes exactly the turns of its snapshot checks, fetch, commands and committed result |
| `BulkApplyServices.BulkApplyService.FetchMessage` | apps/api/app/services/bulk_apply.py:112-125 | a raise or a UIDVALIDITY that changed on this connection is failed, one that differs from the proposal's is review, a missing message is skipped, and the message is found exactly otherwise |
| `BulkApplyServices.BulkApplyService.Act` | apps/api/app/services/bulk_apply.py:126-160 | sends exactly the plan of the snapshot if none of its calls raises, else stops with failed at the first that does |
| `BulkApplyServices.BulkApplyService.MoveEmail` | packages/core/mailflow_core/providers/imap_generic.py:380-389 | create, copy, mark deleted, expunge, in this order, completed if and only if none of the four calls raises |
| `BulkApplyServices.BulkApplyService.RecordResult` | apps/api/app/services/bulk_apply.py:168-176 | the committed result of one proposal |
| `BulkApplyServices.BulkApplyService.Perform` | apps/api/app/routers/bulk.py:149-392 | one transaction of a handler, or a change of the mailbox |
| `BulkApplyServices.ProbeFindsUid` | apps/api/app/services/bulk_apply.py:113-122 | asking for one message after the preceding UID answers whether the UID is there |
| `BulkReview.SelectionIsTheGroup` | apps/api/app/services/bulk_review.py:193-202 | selecting by an identifier returns exactly the members of that cluster or child, given an injective digest and fields without NUL |
| `BulkReview.JoinInjective` | apps/api/app/services/bulk_review.py:23-43 | joining such fields loses nothing, not even their number |
| `BulkReview.NulCollides` | apps/api/app/services/bulk_review.py:23-43 | one pair of a cluster and another cluster's child that share an identifier under every digest |
| `BulkReviewIdentifiers.SelectionExactIff` | apps/api/app/services/bulk_review.py:193-202 | under an injective digest a cluster's identifier selects exactly the cluster from every list of rows if and only if its destination holds no NUL and its category none after the first character |
| `BulkReviewIdentifiers.ListedSelection` | apps/api/app/services/bulk_review.py:193-202 | so among listed proposals an unambiguous identifier selects its cluster and nothing else |
| `BulkReviewIdentifiers.SharedByClusters` | apps/api/app/services/bulk_review.py:23-43 | two clusters share an identifier exactly when their actions and their joined categories and destinations agree |
| `BulkReviewIdentifiers.SharedWithChild` | apps/api/app/services/bulk_review.py:33-43 | a cluster and a child share one exactly when the child's domain is the cluster's action and what precedes agrees |
| `BulkReview.DomainFollowsLastAt` | apps/api/app/services/bulk_review.py:56-60 | the domain is what follows the last at sign |
| `BulkReview.SelectClusterProposals` | apps/api/app/services/bulk_review.py:193-202 | the one-pass selection by either identifier |
| `BulkReview.BuildReviewSummary` | apps/api/app/services/bulk_review.py:137-190 | one counted entry per cluster, in the stated order, each with its children in order, cut at fifty |
| `BulkReview.SummaryAddsUp` | apps/api/app/services/bulk_review.py:137-152 | count, review, suspicious, safe, edited and every status total are the sums over the clusters |
| `BulkReviewFigures.SummaryFigures` | apps/api/app/services/bulk_review.py:137-152 | the figures count the listed proposals by what is seen of them: all, to review, suspicious, safe, edited and by status |
| `BulkReviewFigures.SharedExactly` | apps/api/app/services/bulk_review.py:63-78 | two proposals share a cluster exactly if category, destination and move agree, and a child if their domains do too |
| `BulkReviewFigures.NamedByFields` | apps/api/app/services/bulk_review.py:63-68 | a cluster is named by these three, with other for a missing category and the source folder for a missing destination |
| `BulkReviewFigures.ClustersInOrder` | apps/api/app/services/bulk_review.py:173-181 | more to review first, then more suspicious, then larger, then by category |
| `BulkReviewFigures.ChildrenInOrder` | apps/api/app/services/bulk_review.py:169-170 | children by size and domain, at most fifty |
| `BulkReview.EntriesAddUp` | apps/api/app/services/bulk_review.py:154-170 | before the cut the children of a cluster partition it |
| `BulkReview.CutKeepsLargest` | apps/api/app/services/bulk_review.py:169-170 | no child left out is larger than a listed one |
| `BulkReview.CountRows` | apps/api/app/services/bulk_review.py:86-104 | the one-pass counters are the totals of the rows |
| `BulkReview.GroupRows` | apps/api/app/services/bulk_review.py:144-146 | the dictionary holds each group's members in order, and every row is in one |
| `BulkReview.SortEntries` | apps/api/app/services/bulk_review.py:173-181 | a sorted rearrangement |
| `DecisionMemoryStore.EntriesFollowLatestDecision` | apps/api/app/repositories/decision_memory.py:76-198 | over every sequence of calls each enabled trusted entry carries the latest human decision logged for its account and identity |
| `DecisionMemoryStore.NeverTwoDecisions` | apps/api/app/repositories/decision_memory.py:164-198 | two enabled trusted entries of one account and identity never differ in the decision |
| `DecisionMemoryStore.SupersededInACircle` | apps/api/app/repositories/decision_memory.py:126-145 | three calls after which two entries supersede each other |
| `DecisionMemoryReferences.ClosesExactly` | apps/api/app/repositories/decision_memory.py:164-198 | a call on an acyclic table closes a circle if and only if it enables an entry whose references lead to one the call disables |
| `DecisionMemoryReferences.AcyclicIff` | apps/api/app/repositories/decision_memory.py:76-198 | no state of a run has a circle of references if and only if no call of the run closes one |
| `DecisionMemoryReferences.AcyclicWithoutRevival` | apps/api/app/repositories/decision_memory.py:126-145 | from an empty table references never form a circle while no call enables an entry that carries a reference |
| `DecisionMemoryLifecycle.DeleteRemoves` | apps/api/app/repositories/decision_memory.py:147-148 | deleting removes the row, clears the references to it, and changes nothing else |
| `DecisionMemoryLifecycle.GoneUntilCreated` | apps/api/app/repositories/decision_memory.py:147-148 | a deleted entry is absent until it is created again |
| `DecisionMemoryLifecycle.DeletedNeverMatched` | apps/api/app/repositories/decision_memory.py:49-74 | whatever the calls before and after, no match has a deleted entry as its candidate |
| `DecisionMemoryLifecycle.HoldsLastWritten` | apps/api/app/repositories/decision_memory.py:76-145 | an entry holds what was last written to it, for the account it was created for |
| `DecisionMemoryLifecycle.EnabledBy` | apps/api/app/repositories/decision_memory.py:126-198 | an entry is enabled and disabled by its own writes, and else only disabled, by a newer trusted one of its account and identity that decides otherwise |
| `DecisionMemoryLifecycle.HitsAreUses` | apps/api/app/repositories/decision_memory.py:150-162 | while an entry lives its hits are its uses by its own account while enabled |
| `DecisionMemoryStore.DecisionMemoryRepository.CreateEntry` | apps/api/app/repositories/decision_memory.py:76-110 | insert, then supersede |
| `DecisionMemoryStore.DecisionMemoryRepository.UpdateEntry` | apps/api/app/repositories/decision_memory.py:112-145 | rewrite, then supersede if enabled |
| `DecisionMemoryStore.DecisionMemoryRepository.DeleteEntry` | apps/api/app/repositories/decision_memory.py:147-148 | the row goes and references to it are cleared |
| `DecisionMemoryStore.DecisionMemoryRepository.MarkUsedBy` | apps/api/app/repositories/decision_memory.py:150-162 | counts a hit on an enabled entry of the account |
| `DecisionMemoryStore.DecisionMemoryRepository.SupersedeConflicts` | apps/api/app/repositories/decision_memory.py:164-198 | disables exactly the other enabled trusted entries of the same account and identity with another decision, points them at the new entry, and changes nothing else |
| `DecisionMemoryMatch.FindMatch` | packages/core/mailflow_core/decision_memory.py:78-98 | the loop returns the first candidate maximal in confidence and source rank, or none exactly when no enabled candidate reaches the hint threshold |
| `DecisionMemoryMatch.OrderDoesNotMatter` | packages/core/mailflow_core/decision_memory.py:83-98 | confidence and rank of the choice depend on the set of candidates only |
| `DecisionMemoryMatch.FirstBestUnique` | packages/core/mailflow_core/decision_memory.py:83-98 | the choice is determined |
| `DecisionMemoryChoice.CorrectedFirst` | packages/core/mailflow_core/decision_memory.py:89-97 | no offer is more confident than the choice, and among equals a corrected decision goes before a confirmed one and both before an observed one |
| `DecisionMemoryChoice.EarliestAmongEquals` | packages/core/mailflow_core/decision_memory.py:83-98 | among offers equal in confidence and source the first given is chosen |
| `DecisionMemoryChoice.HintIff` | packages/core/mailflow_core/decision_memory.py:122-163 | with the shipped hint threshold, exactly which evidence makes a fully trusted decision a hint while fresh, at unknown age and in the end |
| `DecisionMemoryChoice.StrongerEvidence` | packages/core/mailflow_core/decision_memory.py:122-144 | of two fresh decisions of equal trust the one with the stronger evidence is the more confident |
| `DecisionMemoryChoice.SimilarityIsFair` | packages/core/mailflow_core/decision_memory.py:205-212 | similarity is symmetric, between nothing and one, one exactly for the same words and nothing exactly for none shared |
| `DecisionMemoryText.SameParties` | packages/core/mailflow_core/decision_memory.py:100-119 | sender and domain are compared trimmed and without case, threads trimmed, and a missing one matches nothing |
| `DecisionMemoryText.SameSubjectIff` | packages/core/mailflow_core/decision_memory.py:111-119 | uncut subjects are the same exactly if they have the same words in the same order |
| `DecisionMemoryText.SharedWords` | packages/core/mailflow_core/decision_memory.py:118-119 | similarity is the share of words that both subjects have |
| `DecisionMemoryText.TokensSplit` | packages/core/mailflow_core/decision_memory.py:205-212 | every character that is no letter or digit separates words |
| `DecisionMemoryText.JoinedAndTaken` | packages/core/mailflow_core/decision_memory.py:205-212 | joining words and taking them apart gives the words back |
| `DecisionMemoryText.NormalizedOnce` | packages/core/mailflow_core/decision_memory.py:111-119 | normalising an uncut subject twice changes nothing |
| `DecisionMemoryText.KeyMissingIffBlank` | apps/api/app/repositories/decision_memory.py:230-239 | a stored key is missing exactly if it was blank, and is else the trimmed text up to the limit |
| `DecisionMemoryMatch.DirectReuseIff` | packages/core/mailflow_core/decision_memory.py:122-147 | with a reuse threshold above 0.91 a decision is reused directly exactly when it is trusted and the thread, or the sender and subject, match with trust enough |
| `DecisionMemoryMatch.ConfidenceBounds` | packages/core/mailflow_core/decision_memory.py:141-144 | confidence exceeds neither the reason's score nor the trust, and clamping never acts |
| `DecisionMemoryMatch.DecayBounds` | packages/core/mailflow_core/decision_memory.py:155-163 | decay lies between one half and one, never grows with age, and is one half from ten thirds of the period on |
| `DecisionMemoryMatch.ReuseRepeatsLatestDecision` | apps/api/app/repositories/decision_memory.py:49-74 | after any calls a direct reuse repeats the latest human decision of this account and the matched identity |
| `DecisionMemoryMatch.CleanTwice` | apps/api/app/repositories/decision_memory.py:230-239 | cleaning a cleaned key changes it exactly when the cut fell just after white space |
| `Resilience.CountersAreLog` | packages/core/mailflow_core/resilience.py:143-156 | the counters say how many results failed since the last success, when the last threshold results all failed, and when the last success and failure were |
| `Resilience.StateIsLog` | packages/core/mailflow_core/resilience.py:120-126 | the breaker is open exactly when the last threshold results failed and the last one is less than the timeout ago |
| `Resilience.QuietAfterTrip` | packages/core/mailflow_core/resilience.py:158-169 | in every interleaving of calls on many paths none begins on a path within the timeout of a tripping failure before a success |
| `Resilience.CircuitBreaker.RecordSuccess` | packages/core/mailflow_core/resilience.py:143-148 | logs a success |
| `Resilience.CircuitBreaker.RecordFailure` | packages/core/mailflow_core/resilience.py:150-156 | logs a failure |
| `Resilience.CircuitBreaker.CurrentState` | packages/core/mailflow_core/resilience.py:120-126 | open and closed as the log says |
| `Resilience.CircuitBreaker.Call` | packages/core/mailflow_core/resilience.py:158-169 | runs the operation exactly when the log does not block it, and logs its result, none if cancelled, after whatever others recorded meanwhile |
| `Resilience.DelayBounds` | packages/core/mailflow_core/resilience.py:59-65 | delays never shrink, never exceed the maximum, and jitter adds at most its fraction |
| `Resilience.DelaysMultiply` | packages/core/mailflow_core/resilience.py:59-65 | the first delay is the base delay and each further one the factor times the one before, up to the maximum, with the draw's share of jitter on top |
| `Resilience.RetryWithBackoff` | packages/core/mailflow_core/resilience.py:68-94 | ends at the first attempt that succeeds or fails for good, or at the last one, after the stated delays |
| `ScheduledLlm.ScheduledLLMClient.CallClassification` | apps/api/app/scheduled_llm.py:89-140 | calls each role under the model and address configured for it; succeeds on the primary path if it is let through and works, else on a different other path if that does, else raises the primary's error; counts a fallback exactly for the second; every call ever begun was let through by its breaker |
| `ScheduledLlm.ScheduledLLMClient.TryPath` | apps/api/app/scheduled_llm.py:113-128 | one path is skipped, succeeds or fails |
| `ScheduledLlm.ScheduledLLMClient.Begin` | apps/api/app/scheduled_llm.py:116-121 | a call begins exactly when the path's log does not block it |
| `ScheduledLlm.ScheduledLLMClient.Finish` | apps/api/app/scheduled_llm.py:124-129 | a result is logged on its path only |
| `ScheduledLlm.AdmittedIsGuarded` | apps/api/app/scheduled_llm.py:112-129 | the client's trace meets what the quiet-period property asks |

## Left out

- Redis, SQLAlchemy, ARQ, LiteLLM and IMAP libraries: sorted sets, rows under atomic transactions, steps and an abstract mailbox stand for them. The lock of the scheduler is taken to hold for a whole section (`workload.py:305`, `workload.py:319`).
- At most one batch per backfill or apply job and one retry per failure are in flight; ARQ's redelivery and job-id de-duplication, on which the source relies for this, are not part of this model.
- Scheduler: a request's random token is represented by its sequence number, the order of sorted-set members is not observable, and the polling loop of `acquire` is the repeated step `TryAcquire`; an unknown role raising an error, malformed members and an exception in the middle of recording a grant are not modelled.
- Rate and delay properties assume that a locked section runs at most the stated lag after its wall clock was read.
- Backfill rows are keyed by UID: after `initialize_discovery` a job sees one UIDVALIDITY. One search and fetch is one step, so a message expunged between the two is not modelled.
- Error texts are represented by whether the recovery policy recognizes them; `classification_stage` and `review_required` of `record_failure` always have their default values at the modelled call sites.
- The message pipeline `_process_one`, the preview classifier, the rule engine and the model client are outcomes chosen freely at each message.
- BulkBackfillConvergence.CompletedMeansFinished: holds for classifiers that answer each message the same way every time, with errors that are neither transient nor recoverable; with other classifiers only the invariants hold.
- Bulk apply: a nested destination is one folder; creating its parents one by one is not modelled. Folder creation, copy, flag and expunge either take effect or raise. Letters and digits of tags are ASCII.
- BulkApplyCrashes.CrashRestart: does not say which applied rows end as skipped, only that no other difference is possible.
- Source folder and UIDVALIDITY are those of one source folder per job; `connect` and `disconnect` and their errors are a crash before the first command.
- Starting an apply job is the step that creates it; the routing of an existing job's state, enqueueing and its failure are not modelled.
- BulkReview.BuildReviewSummary: does not carry confidence figures, sample messages and identifiers in its entries.
- Review summary: the order of clusters that tie in all five sort keys; decoding and parsing of the sender header (the parsed address is an input). SHA-256 is a digest function given as a parameter.
- Decision memory: two calls that commit concurrently without seeing each other; parsing of sender addresses and domains; the limit of one hundred candidates, which can only hide matches. Text is ASCII and scores are exact reals.
- Breakers of the shared registry are records, not objects; two callers that both find a breaker half-open may both probe, as in the source. A rejection by the admission controller is a failed call, as in the source.
- Audit events, timestamps of rows, notifications, authentication, encryption and the user interface.
