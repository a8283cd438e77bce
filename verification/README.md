# CloudOps Sentinel in Dafny

A model of the three parts of CloudOps Sentinel whose correctness is hardest to see by reading, and
proofs of what they keep.

- **The leased job queue** (`JobQueue`, `LeaseProtocol`, `LeaseTheorems`, `LeaseOutcomes`,
  `LeaseBackoff`, `LeaseWitnesses`, `JobService`, `Processor`, `ExactlyOnce`, `LeasedResults`,
  `QueueRefinement`, `WorkerLoop`).
  `JobQueue` is the queue class over a collection of documents. `LeaseProtocol` runs its atomic
  updates as a distributed protocol: any number of jobs and workers, each with its own clock, any
  interleaving, with `fail` split into its read and its write, and with completions that are applied
  but report an error; `QueueRefinement` performs its events by calling the classes. `ExactlyOnce`
  interleaves the upserts of any number of worker runs, each listing its findings in its own order.
  `LeasedResults` joins the two: each claim has its run of upserts, and may complete the job only
  when that run is done.
- **Guarded remediation** (`Policy`, `RemediationEngine`, `ResultStore`, `RemediationDb`,
  `RemediationService`, `RemediationRuns`, `RemediationRefinement`, `EndToEnd`, `WorkspaceIsolation`).
  The Python rules and the TypeScript actions share one resource type, so that `EndToEnd` can follow a
  finding from its diagnosis through plan, approval and execution to the next diagnosis.
- **Circuit breaker and backoff** (`CircuitBreaker`, `Backoff`).

Code that updates objects is a class whose methods are proved against functions on its documents;
the theorems over whole runs are lemmas about those functions. A run is a sequence of events, each
enabled when it comes. Random draws, clock readings, identifiers, tokens and the order in which the
database returns documents are inputs.

What the model takes for granted:

- Clock readings given to one circuit breaker do not decrease. The queue assumes nothing of clocks,
  except in the lemmas that say `Disciplined`: there every clock reading, latency until the database
  applies it included, is within `epsilon` of true time, and a claim still at work on a running job
  renewed its lease less than `leaseMs - 2 * epsilon` ago. A claim is at work until `complete` has
  succeeded, or the second step of `fail` has written; the heartbeat timer does run that long
  (apps/worker/src/processor.ts:76-78). `LeaseWitnesses.RenewalGapIsTight` shows the bound is exact.
- Each request to the remediation service, and `JobService.retry`, is one step. An execution may
  nevertheless die after any of its writes.
- In `ExactlyOnce` and `LeasedResults` a job's query finds the same resources on every run of it, in
  any order.
- Identifiers are not handed out twice, and token hashing is injective.
- Rates, CPU figures and jitter are real numbers.

Where the code and its documentation differ, the model follows the code:

- The repository's own README, at line 73, promises a maximum attempt ceiling. Claiming and
  recovering never look at it. Over all runs with a given number of recoveries of the job, manual
  retries and stale claims included, it is guaranteed exactly when that number is zero
  (`LeaseWitnesses.CeilingHoldsIff`). Each recovery since the last manual retry can add one attempt,
  and so can each failure of a claim from before it (`AttemptBoundIsAttained`).
- Its line 71 says leases and heartbeats prevent duplicate processing. With clocks within `epsilon` of
  true time they do exactly when holders renew within `leaseMs - 2 * epsilon`
  (`LeaseWitnesses.ExclusionHoldsIff`).
- Completed is not terminal: `fail` writes by id alone. A completed job is final exactly when no
  claim of it is still at work (`LeaseOutcomes.CompletedIsFinalIff`); it can be put back in the queue exactly when some claim of
  it can still requeue it (`LeaseBackoff.CompletedIsReopenedIff`). A holder that renews any later than
  tolerated can do that (`LeaseWitnesses.StaleFailReopensCompletedJob`), and, with every renewal in
  time, a claim whose `complete` was applied but reported an error
  (`LostCompleteReopensCompletedJob`).
- Backoff can be cut short by another claim's failure, exactly when that claim can still requeue the
  job: `LeaseBackoff.BackoffIsCutShortIff`, and `BackoffIsCutShortInTimeIff` for clocks that do not
  go back.
- The cap on backoff is applied before jitter, so a wait can exceed it, whether it had reached the
  cap or not: `Backoff.CapIsOvershotIff`, `Backoff.UncappedWaitOvershoots`.
- docs/operational-runbook.md:37 speaks of a half-open probe. The half-open breaker admits every
  call until one settles: `CircuitBreaker.HalfOpenAdmitsEveryProbe`.
- Line 89 of the repository's README promises the before state. In a live run it is the state before
  the last action on the resource, which is the original one exactly when the actions before it
  found their work done: `RemediationDb.BeforeIsOriginalIff`.

## Model

| member | source | states |
|---|---|---|
| Backoff.JitteredDelayBounds | packages/shared/src/observability/retry.ts:8-13 | for every draw and jitter ratio, the wait is at least the capped exponential and at most that plus the ratio of it, rounded |
| Backoff.DelayBounds | packages/shared/src/observability/retry.ts:8-13 | the same at the default ratio of one fifth |
| Backoff.DelayDoubles | packages/shared/src/observability/retry.ts:9 | at the lowest draw the first wait is the base or the cap, whichever is smaller, and each further attempt doubles it until the cap |
| Backoff.DelayIsNearest | packages/shared/src/observability/retry.ts:10-12 | at any draw the wait is the nearest millisecond, halves going up, to that least wait and the draw's part of a fifth of it |
| Backoff.CapIsOvershotIff | packages/shared/src/observability/retry.ts:9-12 | for every attempt, base and cap, some draw waits longer than maxMs exactly when a fifth more than the wait before jitter rounds past it |
| Backoff.CappedWaitOvershootsIff | packages/shared/src/observability/retry.ts:9-12 | a wait that reached the cap can overshoot it exactly from a cap of 3 ms on |
| Backoff.UncappedWaitOvershoots | packages/shared/src/observability/retry.ts:9-12 | a wait of 95 ms below a cap of 100 ms can last 112 |
| Backoff.DelayGrows | packages/shared/src/observability/retry.ts:8-13 | while the cap is not reached, each attempt waits strictly longer than the one before, whatever is drawn |
| Backoff.TotalDelayBound | packages/shared/src/observability/retry.ts:8-13 | n waits together are bounded by the geometric sum and by n caps, each with its jitter and half a millisecond per rounding |
| Backoff.WithRetry | packages/shared/src/observability/retry.ts:42-59 | calls fn at most maxAttempts times, sleeps the backoff once between calls, stops at the first success or final error and returns that, and makes no call below one attempt |
| CircuitBreaker.RefinesHistory | packages/shared/src/observability/circuit-breaker.ts:6-8 | after any history of overlapping calls the three fields are functions of the completed calls: failures since the last success, closed below the threshold, opened at the last failure |
| CircuitBreaker.ConsultedState | packages/shared/src/observability/circuit-breaker.ts:35-39 | consulted at a time, the breaker is open iff the failures reached the threshold and the last was less than the reset time ago |
| CircuitBreaker.SettledState | packages/shared/src/observability/circuit-breaker.ts:41-52 | a settled call leaves the breaker closed iff the failures since the last success are below the threshold |
| CircuitBreaker.OpensAtThreshold | packages/shared/src/observability/circuit-breaker.ts:46-51 | a new breaker opens with exactly the threshold's number of failures in a row, or one where the threshold is below one |
| CircuitBreaker.ResetsAfterTimeout | packages/shared/src/observability/circuit-breaker.ts:35-52 | an open breaker admits from exactly the reset time on; a failure then opens it again at once, and a success closes it and forgets the failures |
| CircuitBreaker.HalfOpenAdmitsEveryProbe | packages/shared/src/observability/circuit-breaker.ts:20-24 | once the reset time has passed, any number of calls at any later times are all admitted in the half-open state until one settles |
| CircuitBreaker.CircuitBreaker.constructor | packages/shared/src/observability/circuit-breaker.ts:5-13 | a new breaker has an empty history |
| CircuitBreaker.CircuitBreaker.GetState | packages/shared/src/observability/circuit-breaker.ts:15-18 | reports the state the history of completed calls determines at that time |
| CircuitBreaker.CircuitBreaker.Admit | packages/shared/src/observability/circuit-breaker.ts:20-24 | exec refuses a call iff the history rejects; a refusal is not counted as a failure |
| CircuitBreaker.CircuitBreaker.Settle | packages/shared/src/observability/circuit-breaker.ts:25-32 | the second half of exec counts a success or a failure of an admitted call |
| JobQueue.JobQueue.Claim | packages/shared/src/jobs/queue.ts:15-35 | takes some due waiting job and only if there is one, for leaseMs from now, counting an attempt and a version, and changes nothing else |
| JobQueue.JobQueue.Heartbeat | packages/shared/src/jobs/queue.ts:37-45 | a running job of that worker gets a lease of leaseMs from now, and nothing changes otherwise |
| JobQueue.JobQueue.Complete | packages/shared/src/jobs/queue.ts:47-64 | marks the job completed by id alone, whoever holds it |
| JobQueue.JobQueue.Fail | packages/shared/src/jobs/queue.ts:66-101 | undisturbed, requeues with backoff below the ceiling and dead-letters at it or when not retryable |
| JobQueue.JobQueue.FailWrite | packages/shared/src/jobs/queue.ts:70-100 | the write, by the attempt count read earlier, whatever the job has become since |
| JobQueue.JobQueue.RecoverAbandoned | packages/shared/src/jobs/queue.ts:103-119 | exactly the running jobs whose lease ran out become due at once, unheld, and are counted |
| LeaseProtocol.StepKeepsConsistent | packages/shared/src/jobs/queue.ts:15-119 | every queue event, stale ones included, keeps the protocol's invariant |
| LeaseProtocol.ReachableConsistent | packages/shared/src/jobs/queue.ts:15-119 | the invariant holds in every reachable state |
| QueueRefinement.Perform | packages/shared/src/jobs/queue.ts:15-101 | every claim, heartbeat, completion and either half of a failure in the protocol is the queue's method on the collection, a claim taking whichever due job the database picks |
| QueueRefinement.Recover | packages/shared/src/jobs/queue.ts:103-119 | recovering the collection is one recovery event for each job it counts |
| QueueRefinement.Serve | apps/api/src/services/job-service.ts:15-63 | the job service's create is a replay that changes nothing or a creation event |
| QueueRefinement.Retry | apps/api/src/services/job-service.ts:81-94 | its retry is a refusal that changes nothing or a manual retry event |
| LeaseTheorems.ReachableShape | packages/shared/src/jobs/queue.ts:19-32 | in every reachable state a job has a lease iff it is running, a holder if running, a version of one plus its claims, one of five statuses, and the lease clause of the claim filter never decides |
| LeaseTheorems.LeaseIsDated | packages/shared/src/jobs/queue.ts:15-45 | in every reachable state a running job's lease ends exactly leaseMs after the clock of the last claim of it or heartbeat by its holder, so that a recovery is enabled from then on and not before |
| LeaseTheorems.NoStrandedJob | packages/shared/src/jobs/queue.ts:18-32 | every reachable job is completed, or claimable once due, or recoverable once its lease ends and then claimable, or retriable by hand |
| LeaseTheorems.AttemptBound | packages/shared/src/jobs/queue.ts:66-101 | under any interleaving, attempts since the last manual retry exceed the ceiling by at most the recoveries and the requeues by claims older than that retry |
| LeaseTheorems.RequeueOnlyBelowCeiling | packages/shared/src/jobs/queue.ts:69-70 | a claim's one failure requeues only if the claim's index is below the ceiling |
| LeaseTheorems.AttemptBoundBetweenRetries | packages/shared/src/jobs/queue.ts:66-101 | with nothing pending from before the last manual retry, attempts exceed the ceiling by at most the recoveries of that job |
| LeaseTheorems.UnrecoveredIsWithinCeiling | packages/shared/src/jobs/queue.ts:66-101 | a run that never recovers the job keeps its attempts within the ceiling, whatever the manual retries, stale writers and clocks |
| LeaseTheorems.ProcessingTerminates | packages/shared/src/jobs/queue.ts:15-101 | a run without manual retries of a job makes at most two moves of it, a claim and the write that ends it, per allowed attempt and recovery |
| LeaseTheorems.StepKeepsHolds | packages/shared/src/jobs/queue.ts:37-45 | each event leaves a live claim the one its job's document names, with lease to spare, unless that claim's own unacknowledged complete has ended the job |
| LeaseTheorems.LeaseExclusion | packages/shared/src/jobs/queue.ts:15-45 | when holders renew in time, no job ever has two live claims, for any number of workers and jobs |
| LeaseTheorems.RecoverySparesLiveClaims | packages/shared/src/jobs/queue.ts:103-119 | under the same discipline recovery never takes a live claim's job |
| LeaseOutcomes.CompletedIsFinalIff | packages/shared/src/jobs/queue.ts:47-101 | whatever the clocks, nothing that can follow changes a completed job exactly when no claim of it is at work |
| LeaseOutcomes.DeadLetteredIsFinalIff | packages/shared/src/jobs/queue.ts:66-101 | nothing short of a manual retry changes a dead-lettered job exactly when no claim of it is at work |
| LeaseOutcomes.TerminalForever | packages/shared/src/jobs/queue.ts:47-101 | after a disciplined run a dead-lettered job changes only by manual retry, and a completed one never if no complete has reported an error, whatever follows |
| LeaseBackoff.BackoffHonoured | packages/shared/src/jobs/queue.ts:84-97 | the next claim after a requeue waits out the capped backoff, whatever else happens, unless another failing claim requeues the job for earlier |
| LeaseBackoff.BackoffHonouredUnderDiscipline | packages/shared/src/jobs/queue.ts:84-97 | when holders renew in time the next claim always waits it out, short of a manual retry |
| LeaseBackoff.BackoffIsCutShortIff | packages/shared/src/jobs/queue.ts:66-100 | after a requeue some continuation without a claim or manual retry leads to a claim before the due time exactly when another claim can still requeue the job: it has read an attempt count below the ceiling, or is at work while the count is below it |
| LeaseBackoff.BackoffIsCutShortInTimeIff | packages/shared/src/jobs/queue.ts:66-100 | the same when failing claims write no earlier than the first requeue was written: exactly when another such claim counts its wait from an attempt with a shorter one |
| LeaseBackoff.CompletedIsReopenedIff | packages/shared/src/jobs/queue.ts:66-100 | a completed job can return to retry_wait exactly when some claim of it can still requeue it |
| LeaseWitnesses.AttemptBoundIsAttained | packages/shared/src/jobs/queue.ts:15-119 | for every configuration, r, k and ceiling m (at least 1 unless k is 0), some run makes m + r + k attempts with r recoveries and k requeues by older claims since the last manual retry, and without a manual retry when k is 0 |
| LeaseWitnesses.CeilingHoldsIff | packages/shared/src/jobs/queue.ts:15-119 | every run with r recoveries of the job stays within the ceiling exactly when r is 0 |
| LeaseWitnesses.ExclusionHoldsIff | packages/shared/src/jobs/queue.ts:15-119 | for clocks within epsilon, no run in which every live holder renewed less than gap ago gives a job two live claims exactly when gap is at most leaseMs - 2 * epsilon, or 0 where that is negative |
| LeaseWitnesses.StaleFailReopensCompletedJob | packages/shared/src/jobs/queue.ts:89-100 | for every configuration, epsilon and gap beyond the tolerated one, a run with nothing else at fault in which the late holder's failure requeues a completed job |
| LeaseWitnesses.StaleFailShortensBackoff | packages/shared/src/jobs/queue.ts:84-97 | such a run in which the late holder's failure has the job claimed before its backoff ends, whenever the first wait is shorter than the second |
| LeaseWitnesses.RenewalGapIsTight | packages/shared/src/jobs/queue.ts:103-119 | for every leaseMs and epsilon, letting exactly leaseMs - 2 * epsilon pass lets a recovery take a live claim's job |
| LeaseWitnesses.LostCompleteReopensCompletedJob | apps/worker/src/processor.ts:44-62 | a disciplined run in which a complete that was applied but reported an error is followed by its claim's fail, which requeues the completed job |
| JobService.JobService.Create | apps/api/src/services/job-service.ts:15-63 | undisturbed, answers with the job of that workspace and key, inserting iff there was none a pending one, due now, with the caller's selection and names and the service's limits |
| JobService.JobService.Retry | apps/api/src/services/job-service.ts:81-104 | requeues a failed or dead-lettered job of the workspace with no attempts made, and refuses others as missing or in conflict |
| JobService.CreatedJobKeepsItsLimits | apps/api/src/services/job-service.ts:29-42 | over any run of the queue a created job keeps its selection, names, timeout and ceiling, and if never recovered makes at most that many attempts |
| JobService.ReachableConsistent | apps/api/src/services/job-service.ts:21-62 | racing creations keep the key unique and every caller's progress tied to the one job |
| JobService.CreationsAgree | apps/api/src/services/job-service.ts:21-62 | interleaved calls with one workspace and key that return get the same only job, at most one is told it is new, and none sees the duplicate-key error |
| JobService.ExactlyOneCreates | apps/api/src/services/job-service.ts:21-62 | when all of them have returned, exactly one was told it is new |
| Policy.Evaluate | services/diagnostics/app/engine.py:231-237 | the loop over RULES returns the findings of the rules in order |
| Policy.FindingsAreTheTriggeredRules | services/diagnostics/app/engine.py:23-237 | a resource has a finding for a rule iff the rule triggers on it, at most one, in rule order, with the rule's severity and action |
| Policy.FindingsInRuleOrder | services/diagnostics/app/engine.py:218-237 | of two findings on a resource the earlier one's rule comes earlier in the list of nine |
| Policy.RulesFindIff | services/diagnostics/app/engine.py:23-215 | a resource has each of the nine findings exactly under that rule's thresholds, given on the untruncated metrics and with missing values spelled out |
| Policy.FindingSays | services/diagnostics/app/engine.py:23-215 | every finding is about its resource and has its rule's severity and recommended action |
| Policy.IsProdIff | services/diagnostics/app/engine.py:18-20 | a resource counts as production iff its Environment tag is one of the two hints or its name holds the first, whatever the case of their letters |
| Policy.Analyze | services/diagnostics/app/main.py:43-53 | an analysis is the findings of each resource in turn |
| Policy.AnalysisHasDistinctKeys | services/diagnostics/app/engine.py:218-237 | over resources with distinct ids no two findings share resource and rule, and each recommends what its rule always does |
| Policy.OrderDoesNotMatter | services/diagnostics/app/main.py:43-53 | the same resources in any order give the same findings, each as often |
| RemediationEngine.ApplySimulatedAction | packages/shared/src/remediation/engine.ts:5-99 | refuses what is not allowlisted and otherwise returns the updated copy of the resource |
| RemediationEngine.ApplyAllIsEffect | packages/shared/src/remediation/engine.ts:26-95 | a sequence of default actions on a resource has the effect of its set of action types, given in closed form |
| RemediationEngine.DefaultActionsCommute | packages/shared/src/remediation/engine.ts:26-95 | order and repetition of default actions do not matter |
| RemediationEngine.DefaultActionsIdempotent | packages/shared/src/remediation/engine.ts:26-95 | running a resource's actions again changes nothing |
| RemediationEngine.ActionTablesAgree | apps/api/src/services/remediation-service.ts:23-33 | the planner's table of actions agrees with the recommendation of every rule, and leaves an unknown rule to manual review |
| RemediationEngine.NoNewFindings | packages/shared/src/remediation/engine.ts:26-95 | default actions trigger no rule that was not triggered before |
| RemediationEngine.RecommendedActionClears | services/diagnostics/app/engine.py:73-175 | public access, missing alarms, unhealthy service, missing backup and repeated errors are cleared by their recommended action, whatever else is applied |
| RemediationEngine.TaggingClearsIff | services/diagnostics/app/engine.py:53-70 | the tagging action clears missing_tags exactly when no required tag but Owner is missing |
| RemediationEngine.SymptomsRemain | services/diagnostics/app/engine.py:178-215 | utilisation, latency and failure rate findings are unaffected by any default action |
| Processor.JobProcessor.StoreAnalysis | apps/worker/src/processor.ts:109-153 | the loop upserts each finding and its recommendation, appends a health check for each, and counts them; an error after any number of writes leaves exactly those |
| Processor.JobProcessor.StoreFinding | apps/worker/src/processor.ts:112-150 | one finding's upserts keep existing identifiers and tie the recommendation to the stored finding, as far as they get |
| Processor.JobProcessor.ProcessNext | apps/worker/src/processor.ts:24-80 | undisturbed, a claimed job ends completed with its analysis, health checks and counts stored, or, with the part of them written before the error, in retry_wait no earlier than its backoff or dead-lettered, as its attempts and the error decide |
| ExactlyOnce.ReachableConsistent | apps/worker/src/processor.ts:92-141 | the invariant of interleaved upserts, each run in its own order: stored documents come from the analyses and no identifier moves |
| ExactlyOnce.StoredIsTheAnalysis | apps/worker/src/processor.ts:92-141 | once some run of a job finished, its findings are exactly its analysis, each with its recommendation, whatever other runs of it did in whatever order |
| ExactlyOnce.ExactlyOnceResults | apps/worker/src/processor.ts:111-141 | any two histories with a finished run of a job agree on what it stored, up to identifiers |
| ExactlyOnce.RecommendationsBelong | apps/worker/src/processor.ts:126-140 | each recommendation answers exactly one stored finding, on the same resource and for its rule |
| ExactlyOnce.AloneIsPersistPart | apps/worker/src/processor.ts:109-141 | after any history, a run that starts and makes n upserts undisturbed leaves what the loop leaves after n upserts |
| ExactlyOnce.AloneIsPersistAll | apps/worker/src/processor.ts:109-141 | after any history, an undisturbed loop, on a first run or a retry, is a continuation of it in which the job has finished |
| ExactlyOnce.CountsAreDocuments | apps/worker/src/processor.ts:109-153 | after any history, the counts a finished run reports are the number of findings stored for the job, each with a recommendation |
| LeasedResults.IsRunOfBoth | apps/worker/src/processor.ts:24-80 | a run of claims with their upserts is at once a run of the queue's protocol and one of the interleaved upserts |
| LeasedResults.ReachableConsistent | apps/worker/src/processor.ts:24-153 | the invariant that ties each claim to its run of upserts and each completed job to a finished one |
| LeasedResults.CompletedMeansAnalysed | apps/worker/src/processor.ts:33-44 | in every reachable state a completed job's stored findings are exactly its analysis, each with its recommendation, and its summary counts the resources and those documents |
| LeasedResults.ClaimCanComplete | apps/worker/src/processor.ts:32-44 | after any history, a claim at work that has not begun its analysis can store it and complete the job |
| WorkerLoop.Worker.Poll | apps/worker/src/index.ts:73-89 | a poll recovers, then fills free slots, never beyond the concurrency, and leaves a slot free only if no due or abandoned job is left; after shutdown it does nothing |
| RemediationDb.StatesCoverOkResults | apps/api/src/services/remediation-service.ts:179-220 | one result per action, ok iff its resource is in the workspace, and the two recorded states have exactly the ok resources |
| RemediationDb.AfterIsLastActionOnBefore | apps/api/src/services/remediation-service.ts:191-219 | in dry runs and live mock runs the after value is the plan's last action on the resource applied to the before value |
| RemediationDb.BeforeIsOriginalIff | apps/api/src/services/remediation-service.ts:191-194 | for each resource an execution meets, the before value is its original state iff nothing is rewritten, or one action is on it, or all but the last find every field they set as they leave it, alarm list included |
| RemediationDb.BeforeIsAlwaysOriginalIff | apps/api/src/services/remediation-service.ts:191-194 | for any actions, default or not, it is the original state whatever that was iff nothing is rewritten or there is one action |
| RemediationDb.ResourcesChangeOnlyWhenLiveMock | apps/api/src/services/remediation-service.ts:163-216 | an execution, crashed or not, changes a stored resource only in a live mock run and only in its workspace |
| RemediationDb.PlannedActionsAreDefaulted | apps/api/src/services/remediation-service.ts:62-77 | a plan's actions are exactly those of its findings that have an allowlisted action, with default parameters |
| RemediationDb.PlannedUnlessUnlisted | apps/api/src/services/remediation-service.ts:62-69 | planning is refused, as forbidden, exactly when some finding's action is neither allowlisted nor for manual review |
| RemediationDb.PlannedAsRecommended | apps/api/src/services/remediation-service.ts:64-75 | a finding is planned the action its stored recommendation names, whatever that is, and without one the action its rule recommends, on its resource and with default parameters |
| RemediationDb.ExecutionSays | apps/api/src/services/remediation-service.ts:222-239 | the record names its plan, token, key, actor and mode, has one result per action in order, ok iff the resource is in the workspace, succeeded iff all are ok and failed iff there are some and none is |
| RemediationDb.PlansCommute | apps/api/src/services/remediation-service.ts:167-220 | plans with the same pairs of resource and action leave every resource's tags, config and metrics the same, whatever order and repetition |
| RemediationService.RemediationService.CreatePlan | apps/api/src/services/remediation-service.ts:38-100 | replays an existing key, refuses missing findings and unlisted actions, and otherwise stores a plan awaiting approval with the request's workspace, findings, mode, actor, correlation id and key |
| RemediationService.RemediationService.PlanActions | apps/api/src/services/remediation-service.ts:57-77 | the planned actions, or refusal at the first one not allowlisted |
| RemediationService.RemediationService.Approve | apps/api/src/services/remediation-service.ts:102-133 | issues a token that expires the time to live from now and approves a plan that awaits approval or is approved, and refuses others |
| RemediationService.RemediationService.Execute | apps/api/src/services/remediation-service.ts:135-252 | the reply, replayed, refused for the first reason there is or new, the final database, and that every database the execution passes through is one of the listed crash points |
| RemediationService.RemediationService.PerformActions | apps/api/src/services/remediation-service.ts:170-220 | the execution loop leaves each resource, and records each before and after value, as the fold of the plan's actions on it says, its version grown by their number |
| RemediationService.RemediationService.PerformAction | apps/api/src/services/remediation-service.ts:180-219 | one turn of the loop |
| RemediationService.RemediationService.Record | apps/api/src/services/remediation-service.ts:222-241 | succeeded iff every result is ok, failed iff there are results and none is, and the plan completed or failed accordingly |
| RemediationService.OneMoreTurn | apps/api/src/services/remediation-service.ts:179-220 | the per-resource folds over n + 1 actions are one turn of the loop after those over n |
| RemediationService.FailuresMeanStatus | apps/api/src/services/remediation-service.ts:222-224 | counting failures decides between all ok, none ok and a mixture |
| RemediationRuns.ReachableConsistent | apps/api/src/services/remediation-service.ts:102-241 | the invariant over runs with crashes, tying plans, tokens, approvals and executions |
| RemediationRuns.SingleUse | apps/api/src/services/remediation-service.ts:142-177 | over any run with crashes each plan begins executing at most once, each token begins at most one execution, and each execution has an earlier approval of the same plan and workspace, no older than the time to live |
| RemediationRuns.ApprovedInTime | apps/api/src/services/remediation-service.ts:108-161 | every request to execute that writes anything comes after a request that approved its plan in its workspace and issued its token, at most the time to live before |
| RemediationRuns.PerformedOnce | apps/api/src/services/remediation-service.ts:151-177 | no two requests to execute that write anything share their plan or their token |
| RemediationRuns.TokenWorksIff | apps/api/src/services/remediation-service.ts:150-165 | after any requests an issued token is accepted for its plan exactly while the plan is approved, the token unused, no more than the time to live has passed, and the mode is allowed |
| RemediationRuns.NewPlanIsAsAsked | apps/api/src/services/remediation-service.ts:79-89 | a new plan has its request's workspace, findings, mode, actor, correlation id and key, whatever requests follow |
| RemediationRuns.DryRunChangesNothing | apps/api/src/services/remediation-service.ts:204-216 | no execution, whole or crashed, of a plan asked for as a dry run changes a stored resource |
| RemediationRefinement.Serve | apps/api/src/services/remediation-service.ts:38-252 | serving a request of a run is calling the service |
| RemediationRefinement.CrashesAreOnTheTrail | apps/api/src/services/remediation-service.ts:174-241 | a crash leaves the database untouched or as one of the execution's writes left it, and every write is such a point |
| RemediationRuns.NothingUnlogged | apps/api/src/services/remediation-service.ts:174-239 | every used token and every stored execution is one of those counted |
| RemediationRuns.StartedForever | apps/api/src/services/remediation-service.ts:105-107 | a plan that reached executing never becomes approved again, and approving or executing it is refused for good |
| RemediationRuns.ReplayedForever | apps/api/src/services/remediation-service.ts:142-148 | a stored execution answers its key from then on, and asking again changes nothing |
| EndToEnd.PlannedTypeIsRecommended | apps/api/src/services/remediation-service.ts:61-67 | however worker runs interleaved, the action planned for a stored finding is its rule's recommendation, recommendation found or not |
| EndToEnd.DiagnosedFindingsArePlanned | apps/api/src/services/remediation-service.ts:62-77 | planning over diagnosed findings never trips the allowlist and holds each recommended action |
| EndToEnd.ExecutionsNeverWorsen | apps/api/src/services/remediation-service.ts:179-220 | in any reachable state no execution, live or dry, whole or crashed, gives a resource a finding it did not have |
| EndToEnd.PlanIsKept | apps/api/src/services/remediation-service.ts:79-89 | a new plan keeps its actions, workspace, findings, mode, actor, correlation id and key whatever requests follow |
| EndToEnd.RecommendationsAreApplied | apps/api/src/services/remediation-service.ts:179-220 | a live mock execution applies each planned finding's recommended action to its resource |
| EndToEnd.PlannedFindingsAreCleared | apps/api/src/services/remediation-service.ts:179-220 | diagnosed, planned and executed live on the mock provider, five rules' findings are gone at the next diagnosis, missing_tags goes iff only Owner was missing, and the symptom rules are unchanged |
| EndToEnd.EveryFindingHasAStory | apps/api/src/services/remediation-service.ts:38-252 | for every resource and every rule that triggers on it, there is such a diagnosis, plan, approval and execution of that finding |
| WorkspaceIsolation.OthersLeaveNoTrace | apps/api/src/services/remediation-service.ts:44-60 | a request changes nothing of another workspace |
| WorkspaceIsolation.OwnRequestsSeeOnlyTheirPart | apps/api/src/services/remediation-service.ts:142-168 | a request is answered, and acts, as if its workspace were the only one, an execution that dies after any of its writes included |
| WorkspaceIsolation.WorkspaceProjection | apps/api/src/services/job-service.ts:21-24 | over any run, a workspace's documents and its callers' answers are those of the run of its requests alone |

## Left out

- Interleaved `execute` and `approve` requests: their checks and saves are separate, so the single-use lemmas are about requests served one at a time.
- Manual retries of one job that overlap each other or a claim of it: `retry` reads and then saves the fields it changed.
- A crash inside `approve` or `createPlan`, between the token or plan insert and what follows.
- Choosing the resources of a job by ids and types, and the job timeout: the resources and how far the run got before an error are inputs of `ProcessNext`; a run that outlives its timeout is covered by `ExactlyOnce`.
- Which job a claim takes when several are due: the database's choice.
- Health check rows in `ExactlyOnce`: they are appended once per upserted finding, so repeated runs repeat them.
- Titles, descriptions, evidence, explanations and confidence of findings and recommendations, and the messages of action results.
- Audit events, metrics, logging, authentication, roles, HTTP routing, input validation, pagination and list queries, and serialization.
- The AWS and mock providers, resource sync and the HTTP client of the diagnostics service; its calls appear only as the analysis they return or the error they raise.
- Case folding beyond ASCII in the production test of the rules.
- Floating-point rounding and clocks that run backwards within one circuit breaker.
