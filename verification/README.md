# Verification of the assessment runner and its safety-critical helpers

This project models, in Dafny 4.11, the parts of the Cynux backend whose behaviour is hardest to
see from the code, and proves what they keep.

- **The run-recovery protocol.** `RunRecovery` is a state machine over one run: the run row, the
  checkpoint, the assessment and the one live driver, cut into the transactions that
  `AgentRunner.advance` commits. A crash may fall between any two of them and any delivery may be
  repeated. `AgentRunners.AgentRunner` is the runner itself, a class whose methods assign those
  fields; each method is proved to be one step of the state machine and `Advance` a sequence of
  them. `PipelineGraph` wires the node graph in place and relates it to the two fixed paths.
  `RecoveredPaths` proves what recovery achieves when checkpoints can be read,
  `ReseededPaths` what it achieves when they cannot.
- **The outbound reliability spine.** `TokenBuckets` (the Lua token bucket), `CircuitBreakers` (three
  expiring keys, also under every interleaving of single commands) and `ResilientClients` (the
  retry loop, which calls the breaker and waits for the bucket).
- **Text and data handling.** `ObjectExtractor` (string-aware brace scanner against every
  spelling of a JSON object),
  `TargetPolicy` (endpoint tests for aligned address blocks), `PromptBudget` and `ChatTurns` (length
  arithmetic and turn merging), `ReconAssets` (keyed merge in an ordered dictionary), `ClaimGuard`
  and `GuardedText` (the claim filter on sentences and on whole texts).

Code that updates state step by step is a class or a method with a loop, proved against a
specification function; the properties are lemmas about those functions. `dafny verify
dfyconfig.toml` checks everything.

## Where the code and its documentation differ

The model follows the code. The proofs say exactly how far the documentation is right.

- A pause can be swallowed. If the worker dies after the checkpoint before the scanner node is
  written and before the run is recorded as interrupted, the next delivery finds a running run with a
  checkpoint, resumes it, and enters the scanner node without the run ever having been interrupted.
  `CrashSkipsPauseIff` shows that this gap is the only such place, `SwallowedPauseHappens` that it is
  real. That the scan node reads the granted approval itself is not part of this model.
- A run can be reported twice, and wrongly. The worker's teardown announces a cancellation whatever it
  finds, so a run that failed while its cancellation was on the way is announced as failed and as
  cancelled (`SecondEventHappens`); `OneEventUnlessTeardownLate` says exactly when. The runner itself
  reports once (`RunnerReportsOnce`).
- A completed assessment can belong to a cancelled run. If the worker dies after the report node and
  before the run is settled, the next delivery finds a finished assessment, records the run as
  cancelled and sends no terminal event, and nor had the dead worker (`CompletedRunEndsSilent`;
  `EndsSilentIff` says exactly when a run ends unreported).
- `RunOutcome` is documented as never reporting a status other than interrupted, completed or failed;
  a run that is already cancelled is reported as cancelled. `Advance` promises one of the three only
  for runs that were not terminal.
- The NVD bucket is described as leaving headroom below the published allowance; it lets through up
  to `2 * per_30s - 1` calls in 30 seconds (`NvdWindow`).
- A failed half-open probe re-opens the circuit only while the failure counter lives. Without
  interleaving the default configuration guarantees that and the NVD client's does not
  (`ReopeningGuaranteedIff`). A success that falls between another process's count and its write of the
  open key takes the guarantee from both (`InterleavedReopeningIff`, `DefaultReopensWithinAMinute`).
- The probe is documented as admitted exactly once. That holds per lifetime of the probe key
  (`OneWinnerPerClaim`), but a check is two commands, so a process that read half-open earlier can be
  admitted while the circuit is open again (`StaleProbeHappens`; `StaleClaimIff` says exactly when).
- A recorded success closes the circuit, but a failure counted before it can still open it afterwards
  (`SuccessSticksIff`, `SuccessIsOvertaken`).
- A truncated tool output may be one character longer than its limit (`TruncationExceedsLimitIff`,
  `LimitIsExceeded`), and longer than that when the limit is too small for the notice (`TruncatedLength`).
- The prompt budget does not always drop the oldest turns first: a long turn is skipped and shorter
  older ones are kept (`OldestDroppedFirstIff`, `TurnKeptIff`, `MiddleTurnIsSkippedHere`).
- A prompt over its budget is not always made to fit, or changed at all: system messages are never cut,
  and a newest turn of up to 2000 characters never is (`SystemMessagesAlone`, `ShortPromptExceedsLimit`).
  `SentSize` bounds what is sent, and `SentUnchangedIff` says exactly which prompts are sent as they are.
- The guard's result is not always stable under a second pass: an indented line right behind a replaced
  claim loses its indentation (`SecondPassReadsTheSameIff`).
- "A private range's endpoints are private" justifies testing a network's endpoints only together
  with the size limit enforced first, and only for ranges that are large or at an edge
  (`EndpointsSufficeIff`, `InnerRangeIsAccepted`, `WideRangeIsAcceptedWithoutLimit`). An allow-list match
  through an endpoint means containment only for a network that is no larger (`AllowMatchMeansInside`,
  `LargerNetworkIsAllowed`), and an entry that is a dotted ending of the network's text matches too
  (`DottedEndingIsAllowed`).

## Model

| member | source | states |
|---|---|---|
| `PipelineGraph.BuildGraph` | backend/app/agent/graph.py:143-200 | the wired graph starts at the first node, pauses before the scanner node, and from every node and state goes exactly where `Successor` says |
| `PipelineGraph.StepAlongPath` | backend/app/agent/graph.py:115-191 | following one edge advances by exactly one node along the path that depth and selection choose, the two paths being written down independently of the edges |
| `PipelineGraph.StepDecreases` | backend/app/agent/graph.py:165-191 | every edge leaves strictly fewer nodes to run, so an invocation ends |
| `AssessmentLifecycle.NoResurrection` | backend/app/db/enums.py:144-192 | along any history of listed moves an assessment never goes back, never revisits a status it left, and stays where it ended |
| `AssessmentLifecycle.FailureAlwaysAllowed` | backend/app/db/enums.py:144-192 | the move to failed is listed exactly for the statuses that are not terminal, and only terminal statuses list nothing |
| `AssessmentLifecycle.MovesReadBackwards` | backend/app/db/enums.py:144-192 | the table agrees, entry by entry, with its transpose: from where each status can be reached |
| `AssessmentLifecycle.CancellableIff` | backend/app/services/assessment.py:381-406 | cancelling is a listed move exactly while the assessment has not ended |
| `RunRecovery.SafeStep` | backend/app/agent/runner.py:230-587 | one transaction, crash or cancellation keeps the invariant: gate respected, the runner's event before any other, at most one alert, neither before the run is terminal, a failed run has a cause and a terminal assessment |
| `RunRecovery.SafeAlways` | backend/app/agent/runner.py:230-587 | that invariant holds after any sequence of deliveries, crashes, cancellations and node results |
| `RunRecovery.GateOnlyPassedByResume` | backend/app/agent/graph.py:178-193 | in every run the scanner node is entered only by a resume of a checkpoint already parked at it, with an approval request earlier in the history; no seeded invocation reaches it, even when checkpoints cannot be read |
| `RunRecovery.TerminalIsAbsorbing` | backend/app/agent/runner.py:252-259 | once a run is terminal no further delivery, crash or cancellation changes its row, checkpoint, history or alerts; its assessment can only be moved by a cancellation, and once the driver is idle only a teardown adds an event |
| `RunRecovery.EventsMatchRow` | backend/app/agent/runner.py:489-498 | every event the runner sent or is about to send reports the status and the cause the row ended with |
| `RunRecovery.RunnerReportsOnce` | backend/app/agent/runner.py:476-587 | over a run's whole life the runner sends at most one terminal event and raises at most one failure alert, none while the run is live; its event is the first and tells how the run ended |
| `RunRecovery.OneEventUnlessTeardownLate` | backend/app/worker/worker.py:480-522 | counting the teardown's events too, a run is reported once and truthfully if and only if no teardown announces itself that started on a run completed, failed or already reported |
| `RunRecovery.SecondEventHappens` | backend/app/worker/worker.py:433-471 | such a run: a cancellation makes a node's move be refused, the run fails and says so, and the teardown announces the failed run as cancelled |
| `RunRecovery.EndsSilentIff` | backend/app/worker/worker.py:524-547 | over every run: it has ended with nobody driving it and no terminal event sent if and only if the worker ended it behind an ended assessment or a crash lost its first event, and no teardown followed |
| `RecoveredPaths.CompletedRunEndsSilent` | backend/app/worker/worker.py:359-362 | such a run, for every depth: the nodes make their moves up to the completed assessment, the worker dies before the run is settled, and the run is recorded as cancelled and never reported |
| `RunRecovery.CompletionCanGoUnreported` | backend/app/worker/worker.py:524-547 | whatever is delivered after that step, short of a teardown, the run stays cancelled and unreported |
| `RunRecovery.AssessmentOnlyMovesForward` | backend/app/services/assessment.py:274-310 | over a whole run the assessment only moves forward and stays where it ended, although a failure and a cancellation write it without asking its node |
| `RunRecovery.CancellationIsNeverUndone` | backend/app/services/assessment.py:381-406 | once cancellation was asked for, nothing a node or the runner does brings the assessment back to work or completes it |
| `RunRecovery.TeardownEndsTheRun` | backend/app/worker/worker.py:480-522 | the worker's teardown ends a cancelling run for good: no later delivery runs a node, and exactly the teardown's own event is added |
| `RunRecovery.RowStaysTruthful` | backend/app/agent/runner.py:360-386 | an interrupted row points at its approval and at the node it will run next, a queued, running, completed or failed row at no approval, a completed one at no node, and the resume counter counts exactly the entries other than the first |
| `RunRecovery.CancelledKeepsApprovalIff` | backend/app/worker/worker.py:509-513 | a cancelled row still points at an approval if and only if the run was cancelled while it waited |
| `RunRecovery.OnlyTheStarterIsAlerted` | backend/app/agent/runner.py:512-552 | when every delivery that carries a principal carries the one who started the run, nobody else is ever alerted |
| `RunRecovery.StarterIsAlertedIff` | backend/app/agent/runner.py:541-579 | over every run, the starter is alerted of its failure, once, if and only if the failure was committed while the delivery or a readable checkpoint named him |
| `RunRecovery.RaisingNodeIsNamed` | backend/app/agent/runner.py:547-587 | a raising node stays named on the failed row; its error, or the refusal of a move it asked for before, is recorded and reported; the checkpoint is untouched |
| `RunRecovery.CheckpointKeepsDepth` | backend/app/agent/runner.py:384-399 | in every run a checkpoint holds the assessment's own depth, and an approval only after one was requested |
| `RunRecovery.PassiveRunsNeverScan` | backend/app/agent/graph.py:115-140 | whatever happens to it, a passive run never visits one of the five nodes of the active block |
| `RunRecovery.DeliveryGoesOn` | backend/app/agent/runner.py:322-410 | a delivery starts over from the first node, with the assessment's depth and no selection, or resumes where the checkpoint stands, and what that does to the row |
| `RunRecovery.FirstDeliveryStartsClean` | backend/app/agent/runner.py:283-410 | a first delivery sets a clean run going at the first node, under the principal it carries |
| `RunRecovery.PauseNamesItsApproval` | backend/app/agent/runner.py:441-465 | the approval node's own answer is the approval a paused row names, next to the scanner node |
| `RunRecovery.CompletionTellsTheStatus` | backend/app/agent/runner.py:467-498 | a finished graph completes the run and reports the assessment's status |
| `RunRecovery.CancellationMoves` | backend/app/worker/worker.py:480-513 | what a request to cancel and the teardown do to assessment and run |
| `RunRecovery.NodesWriteTheirOwn` | backend/app/agent/state.py:57-64 | a node's answer changes the channels it owns and no others: selection and approval are written by their own nodes, depth and principal by none |
| `AgentRunners.AgentRunner.Inspect` | backend/app/agent/runner.py:283-300 | a terminal run stops here; the step equals the state machine's delivery |
| `AgentRunners.AgentRunner.Enter` | backend/app/agent/runner.py:322-410 | seed or resume as the seen status and the checkpoint decide; the new row, checkpoint and driver are those of the state machine's step |
| `AgentRunners.AgentRunner.RunNode` | backend/app/agent/runner.py:275-278 | one node's execution: cursor, committed assessment moves up to a refusal, then merged channels and successor, or an exception |
| `AgentRunners.AgentRunner.SaveNode` | backend/app/agent/graph.py:180-193 | the checkpoint holds the merged channels and the next node; the graph goes on unless it ended or reached its gate |
| `AgentRunners.AgentRunner.Invoke` | backend/app/agent/runner.py:275-279 | the graph runs until it ends, pauses or raises, within 14 nodes, as a sequence of state machine steps |
| `AgentRunners.AgentRunner.SettleInterrupt` | backend/app/agent/runner.py:441-465 | the pause is recorded with its approval and its next node |
| `AgentRunners.AgentRunner.SettleComplete` | backend/app/agent/runner.py:467-510 | the end is recorded and the completion event carries the assessment's status |
| `AgentRunners.AgentRunner.SettleFailure` | backend/app/agent/runner.py:512-587 | the failure is recorded, a live assessment fails, and the delivery's or the checkpoint's principal is alerted |
| `AgentRunners.AgentRunner.Conclude` | backend/app/agent/runner.py:429-439 | the checkpoint alone decides between pause and completion; every settlement but a pause sends one event |
| `AgentRunners.AgentRunner.Advance` | backend/app/agent/runner.py:230-279 | from whatever state a crash left, one uninterrupted call ends in interrupted, completed or failed; a run already terminal is left exactly as it was; the whole call is a sequence of state machine steps |
| `RecoveredPaths.OnTrackAlways` | backend/app/agent/runner.py:341-410 | checkpoint, driver and history stay in step through any crashes and redeliveries |
| `RecoveredPaths.HistoryFollowsOnePath` | backend/app/agent/graph.py:115-193 | the executed nodes without adjacent repeats are a prefix of a fixed path; past discovery it is the path the checkpointed depth and selection choose and no other |
| `RecoveredPaths.SettledRunsStopWhereTheySay` | backend/app/agent/runner.py:429-439 | a completed run has executed the whole of its path, an interrupted one exactly the nodes up to the approval request |
| `RecoveredPaths.CrashesLeaveNoMark` | backend/app/agent/runner.py:239-247 | with nodes that compute from their channels, a completed run holds exactly the channels of one undisturbed execution, however often it crashed, resumed or was seeded again |
| `RecoveredPaths.ScansOnlyAfterPause` | backend/app/agent/runner.py:441-465 | if no crash falls between the gate's checkpoint and its record, every run that scans was recorded as interrupted first |
| `RecoveredPaths.CrashSkipsPauseIff` | backend/app/agent/runner.py:341-348 | before its first recorded pause, a crashed and redelivered run walks straight into the scanner node if and only if the crash fell into that gap |
| `RecoveredPaths.SwallowedPauseHappens` | backend/app/agent/runner.py:429-465 | for every depth that scans there is such a run: with the moves the nodes make, the scanner node executes and takes the assessment to scanning although the run was never recorded as interrupted |
| `ReseededPaths.EverySegmentFollowsAPath` | backend/app/agent/runner.py:412-425 | whatever crashes, redeliveries, unreadable checkpoints and new seeds come, at every moment the nodes executed since the seed in use are a prefix of a fixed path |
| `ReseededPaths.SettledSegmentsStopWhereTheySay` | backend/app/agent/runner.py:429-439 | without assuming readable checkpoints: a completed run has executed its whole path since the seed in use, an interrupted one exactly the nodes up to the approval request |
| `ReseededPaths.AbandonedSeedFallsBack` | backend/app/agent/runner.py:412-425 | a new seed that left no checkpoint is abandoned: the next readable delivery goes on where the older checkpoint is parked |
| `TokenBuckets.TokenBucket.Acquire` | backend/app/core/redis_client.py:112-142 | the answer and the stored record of one call, given what the store still holds at that time |
| `TokenBuckets.LevelInRange` | backend/app/core/redis_client.py:127-139 | the level never leaves the range from zero to the capacity |
| `TokenBuckets.LevelGrowsAtRefill` | backend/app/core/redis_client.py:119-128 | between calls the level grows at the refill rate up to the capacity, whether or not the record expired meanwhile |
| `TokenBuckets.WindowBound` | backend/app/core/redis_client.py:119-140 | in any stretch of any run the cost let through is at most the capacity plus the refill over the stretch |
| `TokenBuckets.BusiestReachesBound` | backend/app/core/redis_client.py:119-140 | a concrete caller reaches the largest whole number within that bound |
| `TokenBuckets.AllowanceKeptIff` | backend/app/core/redis_client.py:145-150 | an allowance per window is kept by every caller if and only if capacity plus one window's refill stays within it |
| `TokenBuckets.NvdWindow` | backend/app/integrations/nvd.py:223-232 | the NVD sizing lets through up to `2 * per30s - 1` calls in 30 seconds (two for an allowance of one), that limit is exact, and the published allowance is never kept |
| `TokenBuckets.ForgettingIsUnobservable` | backend/app/core/redis_client.py:119-140 | a store that drops expired records answers every run of calls exactly as one that never forgets |
| `TokenBuckets.AlikeAnswerAlike` | backend/app/core/redis_client.py:119-141 | two stores with equal levels answer every later run alike |
| `TokenBuckets.DeniedCallLeavesNoTrace` | backend/app/core/redis_client.py:130-140 | leaving a denied call out of a run changes no later answer |
| `TokenBuckets.WaitIsExact` | backend/app/core/redis_client.py:130-141 | a denied caller alone on the bucket is let through at a later time if and only if at least the returned wait has passed |
| `TokenBuckets.OversizedCostNeverAdmitted` | backend/app/core/redis_client.py:128-137 | some later time lets a cost through if and only if it is at most the capacity |
| `TokenBuckets.WaitsIffDenied` | backend/app/core/redis_client.py:130-137 | a caller is let through if and only if the level covers the cost, and told to wait if and only if not |
| `TokenBuckets.RecordLives` | backend/app/core/redis_client.py:138-140 | a record outlives its call by a minute and the time the bucket takes to fill, in whole seconds |
| `CircuitBreakers.CircuitBreaker.GetStatus` | backend/app/integrations/circuit.py:93-123 | state and failure count as the unexpired keys give them, closed when the store is down |
| `CircuitBreakers.CircuitBreaker.Check` | backend/app/integrations/circuit.py:127-144 | pass, refuse or claim the probe, and the keys afterwards |
| `CircuitBreakers.CheckAnswers` | backend/app/integrations/circuit.py:127-144 | the answer of a check after every history: passed when nothing tripped yet or four cooldowns are over, refused within one, in between the probe for whoever finds it free |
| `CircuitBreakers.FewFailuresPass` | backend/app/integrations/circuit.py:127-131 | with fewer failures in a row than the threshold every check passes |
| `CircuitBreakers.ReopensInIsExact` | backend/app/integrations/circuit.py:107-123 | the circuit stays open for exactly the seconds it names and is half-open when they are over |
| `CircuitBreakers.CircuitBreaker.RecordSuccess` | backend/app/integrations/circuit.py:148-152 | all three keys are gone |
| `CircuitBreakers.CircuitBreaker.RecordFailure` | backend/app/integrations/circuit.py:154-176 | the counter grows and its expiry is renewed; at the threshold the circuit opens anew and the probe claim is released |
| `CircuitBreakers.CircuitBreaker.Reset` | backend/app/integrations/circuit.py:178-181 | the circuit is as good as new |
| `CircuitBreakers.OpenRefusesForCooldown` | backend/app/integrations/circuit.py:111-133 | a trip at `o` refuses every check before `o + cooldown`, whatever failures arrive, unless a success is recorded or the store is down |
| `CircuitBreakers.TripRunsOut` | backend/app/integrations/circuit.py:107-123 | without further records a trip is open for one cooldown, half-open until four, closed from then on, whoever checks meanwhile |
| `CircuitBreakers.ProbeExcludesOthers` | backend/app/integrations/circuit.py:135-144 | an admitted probe keeps every other check from probing for `max(cooldown, 5)` seconds unless an outcome is recorded, and no longer |
| `CircuitBreakers.OnlyStreaksOpen` | backend/app/integrations/circuit.py:154-166 | with whole calls as steps, the circuit is open or half-open only after a threshold's worth of failures with no success among them |
| `CircuitBreakers.OnlyCountedStreaksOpen` | backend/app/integrations/circuit.py:154-166 | with single commands as steps, it is open or half-open only after a threshold's worth of failures was counted with no success among them |
| `CircuitBreakers.CounterIsStreak` | backend/app/integrations/circuit.py:154-166 | as long as no counter can run out, the failure counter is the number of failures since the last success |
| `CircuitBreakers.CounterIsCountedInARow` | backend/app/integrations/circuit.py:148-166 | the same for single commands as long as no time passes |
| `CircuitBreakers.SuccessSticksIff` | backend/app/integrations/circuit.py:148-166 | a success keeps the circuit closed until the next failure if and only if no process then stands between counting a failure and writing the open key |
| `CircuitBreakers.SuccessIsOvertaken` | backend/app/integrations/circuit.py:148-166 | it happens in every configuration: a success closes the circuit and a failure counted before it opens it, with no failure in between |
| `CircuitBreakers.OpenReadIff` | backend/app/integrations/circuit.py:107-133 | within a cooldown of a trip a process that reads the status finds it open if and only if the open key was not wiped last, whatever the others did |
| `CircuitBreakers.FailuresAddUp` | backend/app/integrations/circuit.py:156-166 | failures less than the failure window apart add up, whoever records them and whatever is checked in between, and from the threshold on the last one leaves the circuit freshly tripped |
| `CircuitBreakers.ReopeningGuaranteedIff` | backend/app/integrations/circuit.py:49-60 | with whole calls as steps, a failed probe re-opens the circuit in every history if and only if the threshold is at most one or four cooldowns fit into the failure window |
| `CircuitBreakers.InterleavedReopeningIff` | backend/app/integrations/circuit.py:49-176 | with single commands as steps, a failed probe is sure to re-open the circuit if and only if: the threshold is at most one, when a success may fall between a count and the write of the open key; that or four cooldowns and the delay fit into the failure window, when none may and the write follows within a given delay; the threshold is at most one, when the write may take any time |
| `CircuitBreakers.DefaultReopensNvdDoesNot` | backend/app/integrations/nvd.py:243 | as long as calls do not interleave, the default configuration has that guarantee and the NVD client's does not |
| `CircuitBreakers.DefaultReopensWithinAMinute` | backend/app/integrations/circuit.py:49-60 | with interleaving, an overtaking success takes it from the default configuration; without one it is kept as long as the open key is written within a minute; the NVD client never has it |
| `CircuitBreakers.OneWinnerPerClaim` | backend/app/integrations/circuit.py:135-144 | for any number of processes and any interleaving of their single commands, probes admitted equal claims released plus the one held |
| `CircuitBreakers.UninterruptedCheckIsAtomic` | backend/app/integrations/circuit.py:127-144 | a read and a claim with nothing in between are the check as one step, in the store and in what the process learns |
| `CircuitBreakers.UninterruptedFailureIsAtomic` | backend/app/integrations/circuit.py:154-166 | the commands of one recorded failure with nothing in between are the record as one step |
| `CircuitBreakers.StaleClaimIff` | backend/app/integrations/circuit.py:129-144 | a process that read half-open is admitted although the circuit is no longer half-open if and only if, whatever the other processes did in between, the probe key is free and an expiry, a wipe or a new trip ended the half-open state |
| `CircuitBreakers.StaleProbeHappens` | backend/app/integrations/circuit.py:127-176 | it happens in every configuration from an empty store: two readers of one half-open phase are both admitted, the second while the circuit is open again |
| `ResilientClients.AwaitToken` | backend/app/integrations/http.py:227-245 | whatever the limiter answers, at most 200 sleeps and ten seconds in all, each exactly what was asked for but at least 0.05 s, giving up only on a wait that would not fit |
| `ResilientClients.LoneCallerWaitsOnce` | backend/app/integrations/http.py:227-245 | on the modelled bucket a lone caller gets its token at once, after exactly one pause, or is told to come back without sleeping |
| `ResilientClients.ResilientClient.Attempts` | backend/app/integrations/http.py:394-478 | the loop of attempts, calling the token wait and the breaker, does what `From` says and leaves the breaker's keys as its own reports and those of the others in between make them |
| `ResilientClients.ResilientClient.Request` | backend/app/integrations/http.py:360-478 | the whole request: cache, breaker's check, attempts, and the breaker's keys afterwards |
| `ResilientClients.RequestIsBounded` | backend/app/integrations/http.py:395-464 | against any limiter and provider at most `max_attempts` sends, one for a request that may not be repeated, and total sleep within `10 * attempts + (attempts - 1) * max(2, 1 + jitter) * backoff_max` |
| `ResilientClients.RequestReportsFaithfully` | backend/app/integrations/http.py:407-443 | the breaker hears, in order, of exactly the transport errors, counted statuses and the success that came back; a request returns if and only if its last reply was below 400; every earlier reply allowed another try |
| `ResilientClients.StopsOnlyWhenSpent` | backend/app/integrations/http.py:394-464 | a retryable request whose last reply was a transport error or a listed status without a long hint has spent its attempts or was refused a token; one that is not retryable is sent once |
| `ResilientClients.OutlivesTransientReplies` | backend/app/integrations/http.py:411-464 | a retryable request gets the first good reply behind any number of transient ones that its attempts allow |
| `ResilientClients.HealthyProviderIsReached` | backend/app/integrations/http.py:385-432 | with fewer failures in a row than the threshold and a token, a request gets past the breaker and returns the provider's reply |
| `ResilientClients.RetryableIff` | backend/app/integrations/http.py:374-375 | retryable are GET, HEAD, OPTIONS, PUT, DELETE and whatever carries an idempotency key |
| `ResilientClients.OneSendWithoutKey` | backend/app/integrations/http.py:70-70 | any other method without a key is sent at most once |
| `ResilientClients.CacheAnswersIff` | backend/app/integrations/http.py:377-383 | a request is answered from the cache, and nothing sent or slept, exactly for a cacheable GET that is cached |
| `ResilientClients.StatusesByNumber` | backend/app/integrations/http.py:308-356 | which statuses count for and against the provider, and which error each one raises |
| `ResilientClients.SleepAddsUp` | backend/app/integrations/http.py:227-245 | the time slept is the token waits and one pause between sends, each fitting the reply it follows |
| `ResilientClients.RequestSleepAddsUp` | backend/app/integrations/http.py:227-464 | the same for a whole request; one that the cache or the breaker answers neither sleeps nor sends |
| `ResilientClients.ReturnedReplyClosesCircuit` | backend/app/integrations/http.py:427-432 | a request that returns a reply leaves the breaker's keys empty, whatever they held before and whatever others did meanwhile |
| `ResilientClients.DeadProviderTrips` | backend/app/integrations/http.py:394-424 | against a dead provider every send is counted, whatever others check or fail between the rounds, and from the threshold on the last send leaves the circuit freshly tripped |
| `ResilientClients.DeadProviderIsCutOff` | backend/app/integrations/http.py:385-388 | every request that then starts before the cooldown is over is refused without a send, whoever issues it, unless somebody succeeds or the cache answers |
| `ResilientClients.ErrorsNameTheirCause` | backend/app/integrations/http.py:308-345 | every raised error fits the last reply, or the limiter's refusal of the next token; a policy without attempts ends as unreachable |
| `ResilientClients.NapBounded` | backend/app/integrations/http.py:111-120 | one retry pause takes at most `max(2, 1 + jitter) * backoff_max` |
| `ResilientClients.BackoffDoubles` | backend/app/integrations/http.py:111-120 | without a hint the pause starts at the base, doubles from attempt to attempt up to the cap, and moves by at most the jitter fraction |
| `ResilientClients.HintWins` | backend/app/integrations/http.py:114-118 | a provider's hint is taken as it is if and only if it is at most four times the cap, and never exceeded |
| `ResilientClients.OneSleepSuffices` | backend/app/integrations/http.py:239-245 | a caller alone on a large enough bucket sleeps at most once |
| `ObjectExtractor.FindBrace` | backend/app/llm/gateway.py:64-66 | the first opening brace, or its absence |
| `ObjectExtractor.ExtractObject` | backend/app/llm/gateway.py:56-88 | the result is the part of the reply from its first brace to where the string-aware scan first stops |
| `ObjectExtractor.SpellingStaysInside` | backend/app/llm/gateway.py:72-79 | the body of a string literal keeps the scanner inside its string, in every spelling section 7 of RFC 8259 allows |
| `ObjectExtractor.PrintTransparent` | backend/app/llm/gateway.py:70-87 | inside an object every value, nested to any depth and with any spelling and blanks, leaves the scanner where it was |
| `ObjectExtractor.PrintedObjectIsExtracted` | backend/app/llm/gateway.py:56-88 | for every JSON text of an object, brace-free prefix and any suffix, the result is that text and nothing else |
| `ObjectExtractor.TruncatedObjectIsKeptWhole` | backend/app/llm/gateway.py:70-88 | a printed object cut off anywhere is returned as far as it goes, never at an inner brace |
| `TargetPolicy.NestedOrDisjoint` | backend/app/core/targets.py:364-370 | aligned blocks that share an address are nested |
| `TargetPolicy.EndpointsDecide` | backend/app/core/targets.py:364-370 | against a range at least as large, testing the two endpoints gives the answer for every single address |
| `TargetPolicy.EndpointsSufficeIff` | backend/app/core/targets.py:336-353 | testing the endpoints of all blocks up to a size is exact for a range if and only if the range is at least that large or lies at an edge of the block around it |
| `TargetPolicy.AcceptedNetworkIsPublic` | backend/app/core/targets.py:324-353 | an accepted network holds no address of any covered range that is large or at an edge |
| `TargetPolicy.DefaultLimitKeepsOutWideRanges` | backend/app/core/targets.py:376-385 | with the default limit no address of an accepted IPv4 or IPv6 network is private (section 3 of RFC 1918), loopback, link-local, shared, unique-local, multicast or in a reserved block |
| `TargetPolicy.InnerRangeIsAccepted` | backend/app/core/targets.py:344-370 | the default policy accepts 198.51.96.0/20, which holds all of 198.51.100.0/24, a range its own address test covers |
| `TargetPolicy.WideRangeIsAcceptedWithoutLimit` | backend/app/core/targets.py:336-370 | with a raised limit the policy accepts 8.0.0.0/6, which holds all of 10.0.0.0/8 |
| `TargetPolicy.AllowMatchMeansInside` | backend/app/core/targets.py:388-403 | an endpoint match with an allow-listed range means containment if and only if the network is no larger |
| `TargetPolicy.AcceptedNetworkAvoidsDenied` | backend/app/core/targets.py:355-356 | an accepted network holds no address of a deny-listed range that is large or at an edge |
| `TargetPolicy.AcceptedNetworkInsideAllowed` | backend/app/core/targets.py:358-403 | against an allow-list whose ranges are all at least as large, an accepted network lies wholly inside one of them, unless an entry is a dotted ending of its text |
| `TargetPolicy.LargerNetworkIsAllowed` | backend/app/core/targets.py:358-403 | under the allow-list 8.8.8.0/28 the whole of 8.8.8.0/24 is accepted |
| `TargetPolicy.DottedEndingIsAllowed` | backend/app/core/targets.py:391-395 | under the allow-list 0/24, which denotes no network, 8.8.8.0/24 is accepted |
| `TargetPolicy.AddressAcceptedIff` | backend/app/core/targets.py:324-403 | a single address is accepted if and only if it is no metadata target, has no denied suffix, lies in no non-public range while those are blocked, is on no deny list, and is on the allow list if there is one |
| `TargetPolicy.NameAcceptedIff` | backend/app/core/targets.py:324-403 | the same for a host name, which only lists can name |
| `TargetPolicy.NamesIff` | backend/app/core/targets.py:391-395 | a pattern names a text that equals it or ends with it behind a dot |
| `TargetPolicy.RefusedBecause` | backend/app/core/targets.py:324-360 | which refusal a target gets: metadata before denied suffix before size, and what the list refusals mean |
| `TargetPolicy.WideV4` | backend/app/core/targets.py:376-385 | the wide IPv4 ranges hold exactly the addresses between the bounds written out |
| `TargetPolicy.WideV6` | backend/app/core/targets.py:376-385 | the wide IPv6 ranges hold exactly the addresses with the leading bits written out |
| `TargetPolicy.NetworkOf` | backend/app/core/targets.py:224-238 | clearing the host bits of any address gives an aligned block that contains it |
| `TargetPolicy.ExpandCidr` | backend/app/core/targets.py:421-431 | the usable addresses in order from the first, as many as the limit allows but at least one, all inside the network |
| `TargetPolicy.EdgesAreLeftOut` | backend/app/core/targets.py:421-431 | network and broadcast address are left out up to IPv4 prefix 30, the network address alone up to IPv6 prefix 126, and nothing beyond |
| `PromptBudget.DecimalReadsBack` | backend/app/llm/budget.py:36-40 | a numeral in the notice reads back as its number |
| `PromptBudget.WidthMonotone` | backend/app/llm/budget.py:69-72 | larger numbers never have shorter numerals |
| `PromptBudget.TruncationKeepsBothEnds` | backend/app/llm/budget.py:56-80 | a truncated output is a true prefix, the notice and a true suffix that do not overlap, two thirds of it in front, and the notice's numbers account for every character |
| `PromptBudget.TruncatedLength` | backend/app/llm/budget.py:69-80 | the exact length, and its bound `max(limit, limit / 2 + notice) + 1` |
| `PromptBudget.TruncationExceedsLimitIff` | backend/app/llm/budget.py:56-62 | the limit is exceeded if and only if the digits saved in the notice are no more than what the limit lacks for half of it and the notice; with room for both, if and only if no digit is saved, and then by one character |
| `PromptBudget.LimitIsExceeded` | backend/app/llm/budget.py:69-80 | with the configured limit of 60000, every output of 500000 characters comes back with 60001 |
| `PromptBudget.TruncatedIff` | backend/app/llm/budget.py:63-67 | a limit must be positive, and exactly the longer outputs are cut |
| `PromptBudget.TruncatedReads` | backend/app/llm/budget.py:36-80 | a cut output word for word: two thirds of what is kept, the notice with the numbers omitted, shown and in all as numerals, the rest; what is kept follows from the limit |
| `PromptBudget.KeepNewest` | backend/app/llm/budget.py:101-121 | the newest-first loop computes the selection `Keep` |
| `PromptBudget.EnforcePromptBudget` | backend/app/llm/budget.py:83-134 | refusal of a non-positive limit, an untouched prompt within it, otherwise system messages, marker with the exact dropped count, survivors |
| `PromptBudget.NewestTurnSurvives` | backend/app/llm/budget.py:104-121 | the survivors are an order-preserving selection that always ends with the newest turn, whole or cut down, within `max(budget, 2000) + 1` characters |
| `PromptBudget.SystemPromptUntouched` | backend/app/llm/budget.py:97-134 | all system messages come back, in order, first, and no other system message appears |
| `PromptBudget.FittedSize` | backend/app/llm/budget.py:83-134 | the total is at most `max(limit, system + 2000) + 1` plus the marker |
| `PromptBudget.FittingPromptIsSent` | backend/app/llm/budget.py:90-95 | a prompt is refused exactly for a limit that is not positive, and sent as it is when it fits |
| `PromptBudget.PromptOverBudget` | backend/app/llm/budget.py:97-134 | a prompt over its budget: all system messages, the marker when turns are missing, the older turns kept in order, and the newest turn, whole or cut to what is left and at least 2000 |
| `PromptBudget.SystemMessagesAlone` | backend/app/llm/budget.py:97-134 | system messages alone are sent as they are, however long |
| `PromptBudget.SystemMessagesSurvive` | backend/app/llm/budget.py:86-88 | for every positive limit the system messages of what is sent are those of the prompt, in order |
| `PromptBudget.SentSize` | backend/app/llm/budget.py:83-134 | the size of what is sent, for every positive limit |
| `PromptBudget.SentUnchangedIff` | backend/app/llm/budget.py:83-134 | a prompt is sent unchanged if and only if it fits, or its system messages stand first and only its newest turn has any text, at most 2000 characters, or only a first turn that reads like the marker is dropped |
| `PromptBudget.ShortPromptExceedsLimit` | backend/app/llm/budget.py:111-117 | a prompt over its limit that is sent whole |
| `PromptBudget.MarkerReads` | backend/app/llm/budget.py:123-132 | the marker word for word, with the number dropped as a numeral |
| `PromptBudget.OldestDroppedFirstIff` | backend/app/llm/budget.py:86-88 | once a turn is dropped, exactly the newer turns survive if and only if no older one would fit into what is left |
| `PromptBudget.NothingOlderKeptIff` | backend/app/llm/budget.py:104-120 | nothing older survives if and only if every older turn is longer than what is left |
| `PromptBudget.TurnKeptIff` | backend/app/llm/budget.py:104-120 | every older turn is kept if and only if it fits beside the newer turns that were kept |
| `PromptBudget.MiddleTurnIsSkipped` | backend/app/llm/budget.py:104-120 | a middle turn too long for the rest of the budget is skipped and the turn before it kept |
| `PromptBudget.MiddleTurnIsSkippedHere` | backend/app/llm/budget.py:104-120 | a prompt of three turns where that happens |
| `ChatTurns.CoalesceTurns` | backend/app/llm/base.py:101-115 | the in-place loop computes `Coalesce` |
| `ChatTurns.CoalescedTurnsAlternate` | backend/app/llm/base.py:101-115 | no two neighbours share a role, and the total size grows by exactly one gap for every turn merged away |
| `ChatTurns.CoalescedIsTheOnlyOne` | backend/app/llm/base.py:101-115 | the result is the one and only list that alternates and reads, speaker changes and gaps included, like the original turns |
| `ChatTurns.AlternatingTurnsStay` | backend/app/llm/base.py:101-115 | turns that already alternate are left as they are |
| `ChatTurns.CoalesceInPieces` | backend/app/llm/base.py:101-115 | merging a prefix early changes nothing |
| `ChatTurns.RunBecomesOneTurn` | backend/app/llm/base.py:101-115 | every run of one speaker's turns becomes one turn, its contents in order with a blank line between them |
| `ReconAssets.MergeKeepsKey` | backend/app/scanners/recon_assets.py:98-121 | merging keeps the key |
| `ReconAssets.MergeAssociates` | backend/app/scanners/recon_assets.py:103-121 | merging is associative |
| `ReconAssets.Inventory.Observe` | backend/app/scanners/recon_assets.py:413-415 | after one more observation the dictionary is what the per-key specification says, in first-seen order |
| `ReconAssets.ParseReconOutput` | backend/app/scanners/recon_assets.py:379-421 | the rows are, for each distinct key in first-seen order, the merge of that key's observations in the shortest part of the stream that reaches the cap |
| `ReconAssets.ResultIsCappedAndKeyed` | backend/app/scanners/recon_assets.py:408-421 | at most 5000 rows and no key twice |
| `ReconAssets.RowsMergeSightings` | backend/app/scanners/recon_assets.py:98-421 | observations share a row if and only if name, port and protocol are equal: a row for everything read, each the merge of all its sightings in order, rows as first seen, cut short only at 5000 |
| `ReconAssets.RowsMergeInPieces` | backend/app/scanners/recon_assets.py:408-415 | two streams may be merged on their own first: each row over both is the merge of its rows |
| `ReconAssets.RowTakesLastValues` | backend/app/scanners/recon_assets.py:106-120 | every field of a row is the last value any observation had for it, or the first observation's when none had one |
| `ReconAssets.RowKeepsFirstStatus` | backend/app/scanners/recon_assets.py:110-120 | status and key are the first observation's; a row is exposed if and only if some observation was |
| `ClaimGuard.VerifyClaims` | backend/app/llm/guard.py:127-153 | claims with their sources, unsupported claims and rebuilt sentences in order; accepted if and only if no sentence is unsupported |
| `ClaimGuard.ClaimKeptIff` | backend/app/llm/guard.py:136-146 | a claim is kept if and only if a marker in it or in a direct neighbour resolves |
| `ClaimGuard.SourceIsNamedEvidence` | backend/app/llm/guard.py:96-141 | a claim's source is a piece of evidence, the first one named by the claim itself, else by its predecessor, else by its successor |
| `ClaimGuard.ClaimsListed` | backend/app/llm/guard.py:132-141 | the claims are exactly the sentences the patterns call claims, trimmed and in order, each with the source cited by itself, else by the one before, else by the one after |
| `ClaimGuard.UnsupportedListed` | backend/app/llm/guard.py:142-143 | the unsupported ones are exactly the claims with no citing sentence among the three, trimmed and in order |
| `ClaimGuard.ReplacedWhereUnsupported` | backend/app/llm/guard.py:132-146 | those are replaced where they stand and no other sentence changes |
| `ClaimGuard.SourcesSurvive` | backend/app/llm/guard.py:142-146 | replacing sentences removes and adds no source |
| `ClaimGuard.GuardIsFixpoint` | backend/app/llm/guard.py:113-153 | a second pass accepts the rebuilt sentences and changes nothing |
| `ClaimGuard.EvidenceOnlySupports` | backend/app/llm/guard.py:96-110 | adding evidence never makes a sentence unsupported |
| `GuardedText.VerifyText` | backend/app/llm/guard.py:113-153 | the guard on a whole text: split, checked, replaced and joined again; a blank text passes as it is |
| `GuardedText.SplitIsClean` | backend/app/llm/guard.py:70-72 | no sentence of a split is blank or could be split again, and none behind the end of a sentence is indented |
| `GuardedText.SplitKeepsInk` | backend/app/llm/guard.py:118-118 | a split loses nothing but white space and keeps the order of the rest |
| `GuardedText.SplitsBehindIff` | backend/app/llm/guard.py:70-72 | a sentence ends at a full stop, an exclamation or a question mark that white space follows, and at no other character short of a line break |
| `GuardedText.SplitUndoesJoinIff` | backend/app/llm/guard.py:118-152 | joined sentences split into the same sentences if and only if they look like a split |
| `GuardedText.SecondPassReadsTheSameIff` | backend/app/llm/guard.py:113-153 | a second pass over the text reads the same sentences if and only if no indented sentence was kept right behind a replaced one; it then accepts the text and changes nothing |
| `GuardedText.IndentationIsLost` | backend/app/llm/guard.py:118-152 | every unsupported claim with an indented line behind it is such a text |

## Left out

- RecoveredPaths.HistoryFollowsOnePath: assumes that checkpoints can be read when a running run is reclaimed (`ReadsCheckpoints`), because an unreadable one restarts the run from the first node over its old history; `ReseededPaths.EverySegmentFollowsAPath` is the form without that assumption, and the gate, absorption and channel theorems do not need it either.
- RecoveredPaths.SettledRunsStopWhereTheySay: the same assumption; `ReseededPaths.SettledSegmentsStopWhereTheySay` is the form without it.
- RecoveredPaths.CrashesLeaveNoMark: assumes nodes whose update depends on the channels alone and deliveries that name one principal; nodes that ask a model or a scanner may differ between executions.
- PromptBudget.FittedSize: assumes turns of at most 2^63 - 1 characters, which no interpreter exceeds; the numerals in the notice would otherwise grow without bound.
- PromptBudget.NewestTurnSurvives: the same assumption.
- PromptBudget.PromptOverBudget: the same assumption.
- PromptBudget.SentSize: the same assumption.
- PromptBudget.SentUnchangedIff: the same assumption.
- TokenBuckets.WindowBound: amounts and times are real numbers and the caller's and the store's clocks agree and never run backwards; the rounding and number formatting of the script are not modelled.
- AgentRunners.AgentRunner.RunNode: the bodies of the nodes and services are not modelled; a node may commit any assessment moves, write its cursor or not, and then return any update of its own channels, raise, or die with its worker in between.
- ResilientClients.ResilientClient.Request: the limiter's answers, the provider's replies, the clock, the jitter and what other processes tell the breaker between the rounds (whole calls) are parameters; a client without a limiter is the case of one that always allows.
- CircuitBreakers.OnlyStreaksOpen: takes a recorded failure as one step; `OnlyCountedStreaksOpen` is the form for single commands.
- CircuitBreakers.ReopeningGuaranteedIff: takes calls as steps; `InterleavedReopeningIff` is the form for single commands.
- CircuitBreakers.OpenRefusesForCooldown: takes calls as steps; `OpenReadIff` and `StaleClaimIff` are the forms for single commands.
- CircuitBreakers.ProbeExcludesOthers: takes calls as steps; `OneWinnerPerClaim` is the form for single commands.
- CircuitBreakers.TripRunsOut: takes calls as steps.
- ResilientClients.DeadProviderIsCutOff: takes the breaker's calls as steps.
- TargetPolicy.DefaultLimitKeepsOutWideRanges: covers the ranges listed in `WIDE_RANGES`; the small special-purpose ranges inside permitted blocks (for example 198.51.100.0/24) are not among them, and cannot be, as `InnerRangeIsAccepted` shows.
- ClaimGuard.VerifyClaims: works on the list of sentences, which `GuardedText.VerifyText` splits and joins; the claim, marker and trimming patterns, and what counts as white space, are parameters.
- ReconAssets.ParseReconOutput: the files are given as the asset lists their parsers return; the ReconFTW parsers, directory walk, cleaning and host name tests are left out.
- ObjectExtractor.ExtractObject: the code fence pattern is a parameter; the repair loop of `complete_json` is left out because what it validates is a schema library's.
- LangGraph, Postgres, Redis and httpx: a checkpoint is the channels plus the next node, written after each node, with the input checkpoint of a seeded run optional; a resume passes the gate only when parked there; Redis is a few keys with expiry times, and one key's increment with its expiry is one command.
- Two live drivers of one run, which `advance` excludes: the settling methods write the status unconditionally.
- `expire_stale` of the approval service, which would fail a waiting assessment; nothing calls it.
- Timestamps, heartbeat, worker id and duration of the run row, and notification delivery: no control flow depends on them.
- The worker's claim loop and its monitor: an operator's request, the teardown and the settlement of a run whose assessment already ended are steps of the model, possible at any time (the last one only between deliveries), which is more than the worker does.
- A store that fails halfway through one breaker method: it answers for a whole call or not at all; the interleaving model covers partly executed failure records.
- Host name, URL and repository target grammars, the text and the reading of networks, metadata host names and denied suffixes: parameters of the policy; patterns are taken as already trimmed.
- `split_system`, token estimates, `summarize_for_prompt`, `assert_no_invented_cve` and `assert_no_invented_cvss`: they would add easy members.
- `FixedWindowLimiter`, `TokenDenyList`, `ResponseCache`, permissions, storage keys, reports, templates, schemas and settings: wrappers, tables and I/O.
