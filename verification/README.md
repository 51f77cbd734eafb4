# Verified model of the RabbitMQ extension

This project models the parts of the RabbitMQ chaos-engineering extension in which the order of
events, arithmetic or text handling decides whether an experiment's verdict can be trusted.

- `Engine.dfy` is one publish run as a state machine: the caller of Start, the ticker goroutine,
  the worker pool, any number of concurrent Stop and Status calls, and the broker. Every event is
  one atomic action, so a statement about all runs is a statement about all interleavings. Panics
  (send on a closed channel, double close, nil channel) are states of the model, and are proved
  unreachable instead of being ruled out by guards.
- `EngineControl`, `EngineHandles`, `EngineDelivery`, `EngineCounts`, `EngineOutcomes`,
  `EngineChannels`, `EngineAnswers`, `EngineThrottle`, `EngineVerdict`, `EngineStatus` and
  `EngineStop` prove, over all reachable states and all runs: safe shutdown; the handles of a
  worker; attribution of acks and returns, and that answers are heard; conservation of jobs,
  counters, messages and redials; that abandoned channels are closed; the reconnect throttle; what
  stops and Status calls report; and that no run panics and a stop always gets through.
- `EngineLeak.dfy` shows that the one condition on runs the attribution needs is needed, and
  `EngineTimeout.dfy` is a complete run in which a stop reports a success rate of 200 percent.
- `Doubles.dfy` and `SuccessRate.dfy` are the success rate in double precision, with every rounding.
- `PublisherWorker.dfy` is the worker as sequential code that updates its handles, the shared
  counters and the channels in place, with other processes acting between any two of its atomic
  actions and while it sleeps. It is proved to be a run of the engine.
- `ExchangeGuard.dfy` is the guard on the number of targets publishing to one exchange.
- `NodeCheck.dfy`, `NodeCheckRuns.dfy` and `BacklogCheck.dfy` are the poll-driven checks.
- `PolicyPattern.dfy` and `PolicyAttack.dfy` are the temporary max-length policy.
- `Paging.dfy` and `Pacing.dfy` are the two paging loops and the tick interval.

`dafny verify dfyconfig.toml` checks everything. Nothing was executed.

## Assumptions

- Start comes after Prepare; Status comes after Start has returned; Stop comes after Start has
  returned or on a run that is never started.
- The broker sends a return only before the ack of the same message and never with a nack.
- Attribution is proved for runs in which no failing retry leaves its message with the broker on an
  open channel with confirms (`Engine.LeakFree`), a condition on the run's events. A first publish
  that reports an error may leave its message behind: the redial that follows replaces the channel.
  Nothing else about the engine needs the condition, and `EngineLeak.EveryLeakMisleads` shows that
  from the first such event on the run can go wrong, if another job comes.
- A stopped ticker delivers no further tick, as in the Go version of `go.mod`.
- `maxConcurrent` is at least 1. Zero is rejected by the source; a negative value makes it panic.
- The broker's regular-expression engine gives literals, escapes and anchors their usual meaning;
  its dollar also matches before a final newline. Nothing is assumed about other constructs.
- The name an attack chooses for its policy is new to the vhost and left alone by others, and no
  policy has an empty name.
- A server that is paged through fails or meets the stop condition at some page. Against one that
  never does, the loops of the source do not end either.

## Where the code and its documentation differ

- The success rate is described as a minimum below which the experiment fails
  (`extrabbitmq/common.go:96`). Double precision also fails runs that are exactly at it:
  `SuccessRate.VerdictIff` proves that this happens at 29, 57 and 58 percent and at no other
  percentage, and `SuccessRate.ExactlyAtTheRateCanFail` is 29 successes out of 100.
- A stop that times out reads the attempts before the successes
  (`extrabbitmq/publish.go:574-575`). `EngineVerdict.VerdictOfWhatWasRead` says what the two numbers
  are; they can be 1 and 2 (`EngineTimeout.RateAboveHundredPercent`), but only if an attempt is
  counted between the two reads, and never for a stop that saw the workers finish
  (`EngineVerdict.DrainedVerdict`).
- An ack is meant to be counted for the message just published (`extrabbitmq/publish.go:327-330`).
  A retry that reports an error keeps the channel (`extrabbitmq/publish.go:437-445`); if its message
  reached the broker all the same, its ack can be credited to the next job
  (`EngineLeak.EveryLeakMisleads`, with the run in `EngineLeak.LateAckCredited`). Without such an
  event it cannot (`EngineDelivery.Attribution`).
- `rabbitsafeRegex` is described as escaping all metacharacters, but leaves the backslash alone
  (`extrabbitmq/alter_queue_max_length.go:236-256`). `PolicyPattern.EscapeRoundTrip` gives the
  exact condition under which the pattern still means the name, and for
  `PolicyAttack.BackslashBreaksIsolation` the policy reaches another queue and not the target.
- The new policy is meant to have a priority above any existing policy that matches. The scan skips
  empty patterns and other apply-to values; `PolicyAttack.TargetAffectedIff` says exactly when the
  new policy still wins and `PolicyAttack.EmptyPatternOutranks` is a case where it does not.
- A failing put is meant to be cleaned up (`extrabbitmq/alter_queue_max_length.go:170-173`), but the
  cleanup uses the recorded name, which is still empty. `PolicyAttack.Attack.StartToStop` says
  exactly when an attack leaves its policy behind.
- The node check's "All the time" mode is described as requiring the change in every poll
  (`extrabbitmq/check_node.go:113`). The code fails on an unexpected change in any poll, and on a
  missing change only in a poll after the end (`extrabbitmq/check_node.go:293-306`).
  `NodeCheckRuns.DocumentedVerdictIff` says on exactly which runs the two verdicts agree, and
  `NodeCheckRuns.ChangeMissedAtFirst` is a run on which they do not.
- The guard is described as counting per execution, exchange and routing key
  (`extrabbitmq/publish.go:96-99`). The joined key does not keep them apart:
  `ExchangeGuard.HeadsShareBudgetIff` and `ExchangeGuard.ExchangesShareBudgetIff` say exactly which
  destinations can share a budget, and `ExchangeGuard.SlashInExchangeCollides` is a pair that does.
- The guard's window is meant to run out after an hour without a call. The clock is read before the
  lock is taken (`extrabbitmq/publish.go:111-119`), so another key's call can evict an entry early:
  `ExchangeGuard.WindowIffPrompt` is the exact condition, `ExchangeGuard.LateCallLosesItsWindow` a
  history in which it happens.
- A fixed-amount run is meant to spread its messages over the duration. With more than one message
  per millisecond the interval falls back to 100 ms: `Pacing.TicksFitIffAMillisecondEach` is the
  exact condition and `Pacing.RunOutlastsItsDuration` a run of 200 times its duration.

## Model

| member | source | states |
|---|---|---|
| EngineControl.ShutdownIsSafe | extrabbitmq/publish.go:481-605 | In every reachable state nothing was sent on closed jobs and jobs, stopTicker and tickerDone were closed at most once; Start never returns early; its first send finds room in an open channel; the buffer never exceeds its capacity |
| EngineControl.AtMostOneMoreJob | extrabbitmq/publish.go:497-514 | Over any run from a stopped ticker at most one more job is enqueued, and only if a tick was already held |
| EngineControl.TickWaitsOnlyForRoom | extrabbitmq/publish.go:497-514 | A held tick is enqueued exactly while fewer than maxConcurrent jobs are buffered, and the stop reaches the ticker either way |
| EngineDelivery.Attribution | extrabbitmq/publish.go:415-472 | After every leak-free run each logged outcome is the truth about that job's own message (routed and acked, acked but returned, nacked), no job is resolved twice, and the success counter is the number of logged successes |
| EngineDelivery.ConfirmedSuccesses | extrabbitmq/publish.go:452-459 | After such a run with confirms on every channel, each counted success names a message of its own job that the broker routed and acked |
| EngineAnswers.AnswersAreHeard | extrabbitmq/publish.go:344-371 | The converse: in a leak-free run a worker that finds an answer in time counts its own message as the broker decided it, credited if routed and acked and a failure if returned or rejected |
| EngineDelivery.StreamsStayInSync | extrabbitmq/publish.go:338-413 | After such a run no channel, live or abandoned, has more than one unread confirm or return; a worker about to publish holds a non-nil channel with nothing unread and, while it is open, every earlier message answered |
| EngineHandles.UnknownReplacesChannel | extrabbitmq/publish.go:460-469 | In every run, a worker that found an outcome unknown holds neither channel nor streams, and all its later publishes are on channels opened after that |
| EngineDelivery.BrokerKeepsShape | extrabbitmq/publish.go:338-343 | No answer of the broker takes a channel out of sync, and answered messages keep their fate |
| EngineLeak.EveryLeakMisleads | extrabbitmq/publish.go:437-450 | From every leak-free run that ends with a failing retry leaving its message behind, if the run has not ended and another job comes, the engine can count that job as a success although the broker rejected its message |
| EngineLeak.LateAckCredited | extrabbitmq/publish.go:437-450 | Such a state is reachable |
| EngineCounts.Conservation | extrabbitmq/publish.go:415-471 | In every reachable state enqueued jobs = buffered + skipped as ended + held uncounted + counted; counted = resolved + held unresolved; successes never exceed requests |
| EngineCounts.DrainedBalance | extrabbitmq/publish.go:554-577 | With all workers done, enqueued = buffered + skipped + counted, counted = successes + failures, and the buffer is empty if any worker connected |
| EngineOutcomes.SkippedOnlyWhenEnded | extrabbitmq/publish.go:416-423 | In every reachable state a job was dropped uncounted only if the attempt counter has reached the limit; in a periodic run every job taken is an attempt or still held |
| EngineOutcomes.PublishedAreAccounted | extrabbitmq/publish.go:430-470 | Every message published without error belongs to an attempt logged as delivered, unconfirmed, unroutable, rejected or unknown or still awaiting its answer; successes never exceed published messages |
| EngineOutcomes.FailuresFollowRedials | extrabbitmq/publish.go:390-449 | Attempts given up as not connected or not published are at most the redials made, so each was preceded by one |
| EngineChannels.AbandonedChannelsAreClosed | extrabbitmq/publish.go:398-478 | In every reachable state an open channel is the one its owner uses, each worker has at most one, and none is open once all workers are done; only a worker that has connected takes jobs |
| EngineChannels.SmoothRunsNeverRedial | extrabbitmq/publish.go:415-471 | While the network does not fail no worker redials, every attempt is decided by the broker's answer, and no worker gives up |
| EngineCounts.OvershootBound | extrabbitmq/publish.go:415-450 | Counted attempts plus workers past the check never exceed n + maxConcurrent - 1, nor do published messages; with one worker an ended run counted exactly n |
| EngineCounts.PublishedWithinAttempts | extrabbitmq/publish.go:430-450 | In every reachable state successful publishes, plus those a retry still has to make, are at most the counted attempts plus those about to be counted; so never more than the attempts once the workers are done |
| EngineCounts.EachJobOnce | extrabbitmq/publish.go:415-471 | In every reachable state no two workers hold the same job, and no job is logged twice or while it is held |
| EngineCounts.AttemptsAfterStop | extrabbitmq/publish.go:497-514 | Over any run after the ticker is stopped, new attempts are at most the buffered jobs, the jobs in workers' hands, and one |
| EngineThrottle.RedialsPerWindow | extrabbitmq/publish.go:389-413 | Redials of one worker within any window of T ms number at most T/1000 + 1, whatever fails |
| EngineVerdict.DrainedVerdict | extrabbitmq/publish.go:554-590 | A stop that saw all workers finish read the final counters, with no more successes than attempts, and fails exactly if 100 * successes < rate * attempts, or they are equal and the rate is 29, 57 or 58 (0 percent if no attempts) |
| EngineVerdict.DrainedVerdictsAgree | extrabbitmq/publish.go:548-590 | Any two stops that saw the workers finish report the same verdict |
| EngineVerdict.VerdictOfWhatWasRead | extrabbitmq/publish.go:572-590 | For every verdict, also after the timeout, the total was the attempt counter at one moment of the run and the successes the success counter at a later one, when there were at least as many attempts; the verdict compares these two |
| EngineTimeout.RateAboveHundredPercent | extrabbitmq/publish.go:563-577 | A complete run in which a stop after the timeout reads one attempt and two successes |
| SuccessRate.VerdictIff | extrabbitmq/publish.go:572-581 | For every rate and fewer than 2^45 successes, and no more successes than attempts if the rate is above 100, the double-precision comparison is the whole-number one except that a run exactly at 29, 57 or 58 percent fails |
| SuccessRate.RateError | extrabbitmq/publish.go:573-575 | The computed rate is off from the true one by less than one part in the number of attempts |
| SuccessRate.ExactlyAtTheRateCanFail | extrabbitmq/publish.go:573-581 | 29 successes in 100 attempts are below 29 percent |
| Doubles.NearestError | extrabbitmq/publish.go:575 | A quotient of doubles is off from the true one by at most a part in 2^53 |
| EngineVerdict.CompletedMeansPublished | extrabbitmq/publishBehavior.go:27-45 | A Status that reports completion implies between n and n + maxConcurrent - 1 counted attempts, so exactly n with one worker |
| EngineStatus.EndIsNeverDenied | extrabbitmq/publishBehavior.go:34-45 | From the moment the attempts have reached the target, no Status call not yet answered and no later one reports the run as going on |
| EngineStatus.EndedRunsComplete | extrabbitmq/publishBehavior.go:27-45 | From every reachable state of an ended run whose data is there, a Status call not yet answered can be run to reporting completion |
| EngineStatus.ResultsMeanWhatTheySay | extrabbitmq/publishBehavior.go:27-45 | A Status that reported completion has stopped the ticker; a stop that gave a verdict has removed the run; a call finds no run only after a stop judged it |
| EngineStatus.StoppedRunsAreJudged | extrabbitmq/publish.go:538-590 | Once any stop call has returned, some stop has given a verdict |
| EngineStop.NoPanic | extrabbitmq/publish.go:373-605 | No reachable state has panicked, including use of a nil channel |
| EngineStop.StopTerminates | extrabbitmq/publish.go:415-605 | After the ticker is stopped, in every run without new calls the number of engine steps is bounded by a measure of the state |
| EngineStop.StopNeverStuck | extrabbitmq/publish.go:538-605 | From every reachable state with a stop requested, the run can be completed until every call returned, the ticker is gone and all workers are done, without any stop giving up its wait on the way |
| PublisherWorker.Worker.Live | extrabbitmq/publish.go:373-479 | The worker from its first dial to its n-th look at the jobs channel or its exit, under any interference and any network results, is a run of the engine |
| PublisherWorker.Worker.HandleJob | extrabbitmq/publish.go:416-471 | The loop body, under any interference between its actions and while it sleeps, and any network results, is a run of the engine from taking the job to asking for the next one, and the job is counted as an attempt unless the run has ended |
| PublisherWorker.OthersLeaveWorker | extrabbitmq/publish.go:373-472 | No run of the other processes, the broker and the clock changes a worker's program point or its handles |
| PublisherWorker.Worker.CheckEnded | extrabbitmq/publish.go:416-418 | The ended check and the test for a channel are one engine step |
| PublisherWorker.Worker.Redial | extrabbitmq/publish.go:390-413 | Throttle, stamp, close and dial, with others acting in between and during the sleep, are a run of the engine ending with a fresh channel or none |
| PublisherWorker.Worker.Throttle | extrabbitmq/publish.go:391-396 | On return at least a second has passed since the last redial, with others acting before, during and after the sleep |
| PublisherWorker.Worker.PublishJob | extrabbitmq/publish.go:430-470 | Publish, count, at most one retry and the wait for the answer are a run of the engine, and the attempt is counted |
| PublisherWorker.Worker.CountSkip | extrabbitmq/publish.go:418-423 | A failed redial counts as one attempt and no success |
| PublisherWorker.Worker.RetryPublish | extrabbitmq/publish.go:437-450 | The single retry, which may leave its message behind when it fails, ends in the wait for the answer or in the next job |
| PublisherWorker.Worker.ReadConfirm | extrabbitmq/publish.go:345-370 | Delivered or not delivered is what the oldest confirm says; without one, or at the timeout, the outcome is unknown and nothing is read |
| PublisherWorker.Worker.ReadReturn | extrabbitmq/publish.go:355-366 | The job is credited iff no return is readable, and a readable one is taken |
| PublisherWorker.Worker.DropConnection | extrabbitmq/publish.go:460-469 | An unknown outcome leaves the worker without channel and streams |
| ExchangeGuard.Guard.Prepare | extrabbitmq/publish.go:104-131 | The sweep and update in place equal a function of the old map; without an execution context the call is accepted and nothing changes |
| ExchangeGuard.GuardCountsLockWindow | extrabbitmq/publish.go:113-130 | For every history, in any order of clock readings, a preparation is accepted iff at most ten distinct targets are in its key's lock window, which forgets its calls at the first call of any key more than an hour after the last of them |
| ExchangeGuard.WindowIffPrompt | extrabbitmq/publish.go:111-119 | The lock window of each call of a key is the key's calls since its last gap of over an hour iff no other key's call evicted the entry within an hour of the key's next call |
| ExchangeGuard.ChronologicalIsPrompt | extrabbitmq/publish.go:111-119 | That never happens if calls take the lock in the order of their clock readings |
| ExchangeGuard.GuardRefinesWindow | extrabbitmq/publish.go:113-130 | Without such an eviction a preparation is accepted iff at most ten distinct targets occur among its key's calls since that key's last gap of over an hour, and the guard holds exactly these |
| ExchangeGuard.WindowIsMaximalSuffix | extrabbitmq/publish.go:115-126 | The window of that specification is the maximal suffix of calls without such a gap |
| ExchangeGuard.OtherKeysDoNotMatter | extrabbitmq/publish.go:115-124 | A call for another key, inserted anywhere in the past with its sweep, changes no answer |
| ExchangeGuard.RetryIsFree | extrabbitmq/publish.go:100-101 | Preparing a target the window knows leaves the guard's targets for the key unchanged |
| ExchangeGuard.LateCallLosesItsWindow | extrabbitmq/publish.go:111-119 | A call that enters the lock late can lose targets that are not an hour old for it |
| ExchangeGuard.HeadsShareBudgetIff | extrabbitmq/publish.go:110 | For any two experiments, executions and exchanges, some routing keys give them one budget iff the joined names are equal or one starts the other up to a slash |
| ExchangeGuard.ExchangesShareBudgetIff | extrabbitmq/publish.go:96-110 | Two different exchanges of one execution can share a budget iff one of them is the other up to one of its slashes |
| ExchangeGuard.KeysShareBudgetIffEqual | extrabbitmq/publish.go:110 | With experiment keys without slashes, two preparations share a budget iff execution, and exchange and routing key joined by a slash, agree; that is all four parts if the exchanges have no slash |
| ExchangeGuard.SlashInExchangeCollides | extrabbitmq/publish.go:110 | Two different exchanges and routing keys that share a key |
| NodeCheck.DetectChanges | extrabbitmq/check_node.go:237-269 | The detected changes are exactly the down nodes and raised alarms of the selected nodes, in order |
| NodeCheck.DownIffSomeNodeDown | extrabbitmq/check_node.go:241-267 | A node-down change is reported iff some selected node that ran at the baseline fails its lookup or no longer runs |
| NodeCheck.AlarmIffSomeNodeAlarmed | extrabbitmq/check_node.go:249-263 | An alarm change is reported iff some selected node that answers has a memory or disk alarm |
| NodeCheck.DownNamesAre | extrabbitmq/check_node.go:241-267 | The names listed as down are those that ran at the baseline and whose lookup fails, or that answer as stopped |
| NodeCheck.AlarmsAre | extrabbitmq/check_node.go:249-263 | The alarms listed are name and raised alarms of the selected nodes that answer with one |
| NodeCheck.ListedInOrder | extrabbitmq/check_node.go:241-269 | Both lists are in the order of the selected nodes, with at most one entry each |
| NodeCheck.CheckNodesState.Status | extrabbitmq/check_node.go:226-348 | One poll, for any iteration order of the changes, moves the sticky state and reports as the specification of one poll says |
| NodeCheck.CheckNodesState.RecordDeviation | extrabbitmq/check_node.go:282-291 | Fails at once, or remembers the first title only |
| NodeCheckRuns.VerdictIsDeclarative | extrabbitmq/check_node.go:293-337 | A run of polls, in either mode, fails iff a stateless predicate over its polls holds |
| NodeCheckRuns.FailEarlyAgreesWithFailAtEnd | extrabbitmq/check_node.go:279-337 | For every mode, expected set and run, both modes agree on failing, independent of the order in which changes are listed |
| NodeCheckRuns.VerdictByMode | extrabbitmq/check_node.go:293-330 | The verdict of each check mode over the polls up to the first one after the end |
| NodeCheckRuns.ReportIff | extrabbitmq/check_node.go:282-337 | Failing early, a poll reports an error iff it deviates or misses the expected change; failing at the end, iff it is after the end and it misses it or some poll so far deviated |
| NodeCheckRuns.StopsAt | extrabbitmq/check_node.go:271-348 | Failing early stops at the first deviating or missing poll, failing at the end at no poll before the end and at the first one after it that misses or follows a deviation |
| NodeCheckRuns.ReportSays | extrabbitmq/check_node.go:282-337 | The text of a reported error: the missing change, else an unexpected change of this poll, or failing at the end the first one of the first deviating poll |
| NodeCheckRuns.DocumentedVerdictIff | extrabbitmq/check_node.go:113 | For every run in the All the time mode, the code's verdict is the documented one iff no poll is empty, or some poll has an unexpected change, or some poll after the end is empty |
| NodeCheckRuns.ChangeMissedAtFirst | extrabbitmq/check_node.go:113 | A run that passes although its first poll showed no change |
| NodeCheckRuns.RememberedTitle | extrabbitmq/check_node.go:279-291 | A remembered title comes from the first deviating poll, and none is remembered iff none deviated |
| NodeCheckRuns.SeenMeansExpected | extrabbitmq/check_node.go:307-312 | The at-least-once flag says exactly that some poll saw an expected change |
| BacklogCheck.QueueBacklogCheckState.CheckStatus | extrabbitmq/check_queue_backlog.go:191-243 | One poll updates the flags and reports completion and failure; a failed lookup changes nothing |
| BacklogCheck.FailedFlagIsSticky | extrabbitmq/check_queue_backlog.go:211-215 | The failed flag is set iff some poll so far exceeded the threshold |
| BacklogCheck.BothModesFailOnBreach | extrabbitmq/check_queue_backlog.go:209-232 | Over every run both modes fail iff some poll exceeded the threshold |
| BacklogCheck.FailEarlyStopsAtFirstBreach | extrabbitmq/check_queue_backlog.go:216-222 | Failing early completes as failed at the first breach and not before |
| BacklogCheck.FailAtEndWaitsForTheEnd | extrabbitmq/check_queue_backlog.go:209-232 | Failing at the end, a poll completes iff it is after the end, and fails iff also some poll so far exceeded the threshold |
| BacklogCheck.SuccessFlagIsSticky | extrabbitmq/check_queue_backlog.go:211-215 | The success flag is set iff some poll so far was within the threshold |
| PolicyPattern.EscapeRoundTrip | extrabbitmq/alter_queue_max_length.go:147-149 | The pattern reads as the anchored literals of the name iff every backslash in the name stands before one of / ] { } |
| PolicyPattern.EscapeInjective | extrabbitmq/alter_queue_max_length.go:238-256 | Different names have different escaped forms |
| PolicyPattern.BackslashIsNotEscaped | extrabbitmq/alter_queue_max_length.go:238-256 | A name whose pattern does not mean the name |
| PolicyPattern.AnchoredMatches | extrabbitmq/alter_queue_max_length.go:147-149 | The anchored literals match exactly the name, and in the broker's engine also the name followed by a newline |
| PolicyAttack.HighestPriorityForQueue | extrabbitmq/alter_queue_max_length.go:57-82 | The result bounds the priority of every listed policy with apply-to empty, queues or all and a non-empty pattern that compiles and matches, and is 0 or the priority of one |
| PolicyAttack.PolicyNamesDiffer | extrabbitmq/alter_queue_max_length.go:145 | Policy names with suffixes of one length agree only for the same queue and suffix |
| PolicyAttack.Attack.Start | extrabbitmq/alter_queue_max_length.go:134-194 | On success one policy is added above the highest recognised priority and its name recorded; a put that fails may have been applied, and the cleanup deletes only what was recorded before |
| PolicyAttack.Attack.Stop | extrabbitmq/alter_queue_max_length.go:196-222 | Deletes the attack's policy, reports a missing policy or a failed delete, or does nothing if none was recorded |
| PolicyAttack.Attack.StartToStop | extrabbitmq/alter_queue_max_length.go:134-222 | For all outcomes of all calls and all edits by others, the attack leaves what the edits alone would have left, plus its own policy iff the delete did not reach the broker or the put did and reported an error |
| PolicyAttack.TempPolicyApplies | extrabbitmq/alter_queue_max_length.go:147-149 | The policy applies to the target, to its name with a newline after it, and to no other queue |
| PolicyAttack.OthersUnaffected | extrabbitmq/alter_queue_max_length.go:147-169 | Every other queue keeps its effective policies |
| PolicyAttack.TargetAffectedIff | extrabbitmq/alter_queue_max_length.go:57-82 | The new policy is the target's only effective one iff every policy that applies to it and ranks above the scan's result has apply-to empty, queues or all and a non-empty pattern that compiles and matches; that is, none the scan passed over ranks above |
| PolicyAttack.TargetAffected | extrabbitmq/alter_queue_max_length.go:155-161 | It is the only effective one if the scan sees every policy that applies to the target |
| PolicyAttack.EmptyPatternOutranks | extrabbitmq/alter_queue_max_length.go:64-66 | A policy with an empty pattern outranks the new one |
| PolicyAttack.BackslashBreaksIsolation | extrabbitmq/alter_queue_max_length.go:147-149 | For a queue named backslash dash, the policy applies to the queue named dash and not to the target |
| PolicyAttack.StopRestores | extrabbitmq/alter_queue_max_length.go:196-214 | Edits of other policies commute with putting the attack's policy, and deleting it leaves what the edits alone would have left |
| PolicyAttack.AttackIsIsolatedAndUndone | extrabbitmq/alter_queue_max_length.go:134-222 | With the policy in place and any edits of others, every other queue has the effective policies it would have without it, and it is the target's only one iff no other applicable policy ranks above it; deleting it leaves the edits alone |
| Paging.ListAllExchanges | clients/clients.go:137-167 | The loop ends at the first failing or stopping page and returns the pages up to it, in order |
| Paging.GetAllQueues | extrabbitmq/queue_discovery.go:98-129 | The same for queues: one target for each queue of the pages read, in order, each converted from its own queue |
| Paging.CollectedPageByPage | clients/clients.go:137-167 | What is collected from any server are the items of its pages in the order of the pages, and nothing else |
| Paging.GoesOnIff | clients/clients.go:161-166 | The loops go on after a page iff it is answered, not empty, announces more than is fetched, and is not the last |
| Paging.PagedEqualsUnpaged | clients/clients.go:137-167 | Against a server of a fixed list, exactly that list in max(1, ceil(total/500)) requests |
| Paging.RequestsBounded | clients/clients.go:161-166 | Against any server with bounded page count B, at most max(1, B) requests |
| Paging.BoundedServerStops | clients/clients.go:161-166 | Such a server has a page that stops the loops |
| Pacing.DelayIsPositive | extrabbitmq/publish.go:220-230 | The interval is at least 1 ms |
| Pacing.TicksFitIffAMillisecondEach | extrabbitmq/publishFixedAmount.go:66-73 | The ticks fit the duration iff there is a millisecond for each, the interval is then the longest that fits, and otherwise 100 ms |
| Pacing.RunOutlastsItsDuration | extrabbitmq/publish.go:220-230 | 2000 messages in one second take almost 200 |
| Pacing.RateIsKeptIffAtMostAThousand | extrabbitmq/publishPeriodically.go:70-76 | A periodic run keeps up with its rate iff the rate is at most 1000 per second, with the longest whole interval that does; beyond that the interval is 100 ms, and without a rate one second |
| Pacing.SingleMessage | extrabbitmq/publishFixedAmount.go:66-73 | A single message keeps the interval of one second |

## Left out

- AMQP dialing, TLS, HTTP, JSON and the management API: their results are inputs or choices of the model.
- The engine's concurrent processes other than the worker body are a state machine, not code: goroutines and channel selects have no counterpart in Dafny.
- Counters wrap at 2^64 in the source and are unbounded here; the verdict lemmas in whole numbers speak of fewer than 2^45 attempts, a thousand years at one a millisecond.
- PublisherWorker.Worker.Live: bounds the number of looks at the jobs channel by a parameter, since a worker whose run is never stopped does not end.
- EngineDelivery.Attribution: promises nothing after a leak; what can then go wrong is in `EngineLeak.dfy`.
- Workers without publisher confirms count success without evidence by design; they are in the counters and appear as unconfirmed in the log, but carry no attribution.
- The node metric and its tooltip, and the recorded alarm baseline, which no verdict reads.
- ExecutionRunDataMap beyond the presence of this run's entry, and the metrics channel, to which nothing is ever written.
- Polls that fail before any node or queue is looked up: they report an error and change no state.
- Describe functions, discovery targets, attribute excludes, the retrying transport, configuration and URL building: static data or straight-line code.
