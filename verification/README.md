# Verified models of the agent server's stateful parts

This project models the parts of the agent server whose behaviour only shows over many steps, and
proves what holds over whole runs:

- the audit outbox: its bounded retry cache, its batch mover with rolled-back and cancelled batches,
  the drain loop, and any number of movers at once (`LruRetryCache`, `OutboxProtocol`, `OutboxBatch`,
  `AuditOutbox`, `OutboxRuns`, `OutboxProgress`, `Traces`, `OutboxDrain`, `OutboxMovers`);
- the rule-driven rate limiter: the sliding window against the full log of admissions, the burst
  window, the dry run, and the interleaved fallback (`SlidingWindow`, `RateLimitEnforcer`,
  `FallbackWindow`, `FallbackRate`);
- the in-memory fixed-window limiter, the circuit breaker and retrying with backoff (`FixedWindow`,
  `CircuitBreaker`, `RetryBackoff`);
- the human-in-the-loop agent graph and its message history (`HitlGraph`);
- runs as background tasks, thread statuses, the registry of tasks and event ids (`RunLifecycle`,
  `RunOutcomes`, `RunHistories`, `EventId`);
- what a client that connects again is sent of a run's events (`EventReplay`);
- the framing of server-sent events, against the interpreter of section 9.2.6 of the WHATWG HTML
  Living Standard (`Sse`).

Objects that the program updates in place are classes; each of their methods is proved equal to a
function of the old state, and the theorems are about that function. Calls into a database, Redis, the
broker, the model or a tool become parameters that say how the call ended, so that the theorems range
over the ways in which they can fail. Clocks and random draws are parameters too.

`dafny verify dfyconfig.toml` checks everything.

## Where the code and its documentation differ

Each entry names the lemma with the exact condition, and one with a concrete input.

- `_move_batch` documents its result as the number of records moved. It also returns a positive number
  when the transaction does not take effect (`OutboxDrain.ReportedCountIsTrueIffApplied`,
  `OutboxDrain.FailedCommitStillReports`). While that goes on, the drain loop repeats the batch without
  sleeping (`OutboxDrain.FailingCommitsSpinIff`).
- `stop_mover` documents that it flushes the remaining records. It runs one batch, and none at all when
  its mover is not live, so that a second call flushes nothing that the first left behind
  (`OutboxDrain.StopEmptiesIff`, `OutboxDrain.FlushLeavesRows`, `OutboxDrain.FlushLeavesRefusedRow`,
  `OutboxDrain.StopWithoutMoverLeavesRow`).
- `stream_run_execution` documents that events already sent are skipped, and `_stream_live_events` that
  replayed ones are not sent again. The replay does not advance the number that the live part compares
  with, so what store and queue both hold is sent twice (`EventReplay.SentTwiceIff`,
  `EventReplay.BackgroundRunSentTwice`). `_replay_stored_events` documents that it recovers missed events.
  It does not recover those that wait in a batch (`EventReplay.NeverSentIff`,
  `EventReplay.BatchedEventNeverSent`).
- `_parse_args` documents a dictionary as its result. A string holding another JSON value yields that
  value, and the approval step then raises (`HitlGraph.EditGoesThroughIff`, `HitlGraph.EditToListRaises`).
- `execute_run_async` documents that its `finally` block guarantees the removal from `active_runs`. It
  is skipped when the broker cleanup raises (`RunHistories.OnlyLiveTasksIff`,
  `RunHistories.RegistryKeepsDeadTask`).
- `check_and_increment` announces a reset time rounded down to a second, at which a rejected client can
  still be rejected (`FixedWindow.RetryAtResetIff`, `FixedWindow.RejectedAtReset`); it also lets a first
  request through when the limit is zero (`FixedWindow.FirstIsAlwaysLetThrough`).
- `extract_event_sequence` is documented to read back the sequence of an event id. It does so exactly
  when the run id ends in an even number of `_event` blocks (`EventId.RoundTripIff`,
  `EventId.EventSuffixLosesSequence`).
- The dry run of the rule endpoint ignores bursts and non-rejecting actions
  (`RateLimitEnforcer.DryRunAgreesIff`, `RateLimitEnforcer.DryRunDisagrees`).

## Model

| member | source | states |
|---|---|---|
| LruRetryCache.LRURetryCache.constructor | src/agent_server/services/audit_outbox_service.py:119-123 | A new cache tracks nothing. |
| LruRetryCache.LRURetryCache.Increment | src/agent_server/services/audit_outbox_service.py:125-143 | Counts the key, moves or appends it to the recent end and evicts from the old end; returns one more than the key's count, whatever is evicted. |
| LruRetryCache.LRURetryCache.Get | src/agent_server/services/audit_outbox_service.py:145-154 | The count of a key, 0 when untracked, without touching the order. |
| LruRetryCache.LRURetryCache.Clear | src/agent_server/services/audit_outbox_service.py:156-162 | Forgets one key and keeps the order of the others. |
| LruRetryCache.LRURetryCache.Reset | src/agent_server/services/audit_outbox_service.py:164-166 | Forgets every key. |
| LruRetryCache.RunRefinesHistory | src/agent_server/services/audit_outbox_service.py:103-170 | For every history: the size stays within the bound, a key is tracked exactly while fewer than the bound of others have gathered behind it, and its count is the number of its increments since it was last untracked. |
| LruRetryCache.EvictedOnlyAfterMaxOthers | src/agent_server/services/audit_outbox_service.py:138-141 | A key that was incremented and then not cleared is lost only after at least as many other distinct keys as the bound were incremented. |
| OutboxProtocol.SelectedIsOldest | src/agent_server/services/audit_outbox_service.py:449-459 | With rows in strict order of creation and no lock held, the batch query has one answer: the first 500 unprocessed rows. |
| OutboxProtocol.SettledPending | src/agent_server/services/audit_outbox_service.py:597-609 | After deleting successes and marking poison pills, what is unprocessed is what was, without both lists, in the same order. |
| OutboxBatch.BatchVerdicts | src/agent_server/services/audit_outbox_service.py:465-595 | A batch poisons exactly the rows with three recorded failures, moves exactly the others whose insert worked (at once, or after a partition was created), counts the rest, and forgets no count. |
| OutboxBatch.BoundInvisible | src/agent_server/services/audit_outbox_service.py:138-141 | Any two cache bounds with room for the keys involved give the same batch. |
| OutboxBatch.ListsWithinBatch | src/agent_server/services/audit_outbox_service.py:441-443 | Whatever the cache forgets, successes and poison pills are disjoint, without duplicates and within the batch, and the rows inserted are the successes. |
| AuditOutbox.AuditOutboxService.constructor | src/agent_server/services/audit_outbox_service.py:197-203 | A new service: an empty cache of 1000 keys, no metrics. |
| AuditOutbox.AuditOutboxService.StartMover | src/agent_server/services/audit_outbox_service.py:260-278 | Starts the mover unless it is live; a live mover that was told to stop is not started again. |
| AuditOutbox.AuditOutboxService.Insert | src/agent_server/services/audit_outbox_service.py:209-258 | Returns an id exactly when the insert is known to be stored, and then the row waits in the outbox; after a timeout or an exception the entry counts as dropped even if the row is there; a cancellation raises and counts nothing, whether the row is there or not. The log stays as it is. |
| AuditOutbox.AuditOutboxService.InsertWithSavepoint | src/agent_server/services/audit_outbox_service.py:482-585 | A row lands exactly when its insert works at once, or fails for want of a partition that is then created and works the second time; a row that does not land leaves no trace in the transaction. |
| AuditOutbox.AuditOutboxService.WorkThrough | src/agent_server/services/audit_outbox_service.py:464-595 | The row loop computes the batch's cache, its two id lists, its count and its inserts. |
| AuditOutbox.AuditOutboxService.FinishBatch | src/agent_server/services/audit_outbox_service.py:597-618 | Tables change only if the transaction takes effect; metrics change regardless. |
| AuditOutbox.AuditOutboxService.MoveBatch | src/agent_server/services/audit_outbox_service.py:423-620 | The whole batch under every fate: committed, broken or cancelled after any row, or with a failing commit that did or did not take effect. The cache and the metrics are never rolled back. |
| OutboxRuns.HeadIsSelected | src/agent_server/services/audit_outbox_service.py:449-459 | The next batch of a run is what the query answers. |
| OutboxRuns.StepKeepsInv | src/agent_server/services/audit_outbox_service.py:423-620 | Arrivals, batches of every fate and restarts keep all tracked keys within the next batch, with counts of at most three. |
| OutboxRuns.CacheNeverEvicts | src/agent_server/services/audit_outbox_service.py:53-58 | In every run of one mover the cache tracks only rows of the next batch, holds at most 500 keys, and the mover behaves as with an unbounded cache. |
| OutboxRuns.CommitVerdict | src/agent_server/services/audit_outbox_service.py:465-611 | A committed batch removes exactly the rows of the head that landed or had three failures; the others of the head age by one and stay in the head. |
| OutboxRuns.RowAfterBatch | src/agent_server/services/audit_outbox_service.py:465-611 | In every reachable state, what a batch whose transaction takes effect does to each waiting row: nothing outside the batch; in it, with three recorded failures it becomes a poison pill; with fewer it leaves the outbox for the log, once, if its insert works at once or after its missing partition was created, and otherwise stays with one failure more. |
| OutboxRuns.RowAfterFailedBatch | src/agent_server/services/audit_outbox_service.py:465-620 | A batch whose transaction does not take effect leaves the tables alone, but the rows it got to are counted or forgotten all the same. |
| OutboxRuns.RetriedInsertMoves | src/agent_server/services/audit_outbox_service.py:524-567 | A row whose first insert finds no partition and whose second one works is moved to the log. |
| OutboxRuns.RoundShrinks | src/agent_server/services/audit_outbox_service.py:465-611 | Four committed batches remove the whole first batch. |
| OutboxRuns.DrainBound | src/agent_server/services/audit_outbox_service.py:336-346 | Whichever rows fail, 4 * ceil(N / 500) committed batches leave none of N rows unprocessed. |
| OutboxRuns.ReachableOutboxDrains | src/agent_server/services/audit_outbox_service.py:327-354 | The same from every state a run can reach, whatever broke before. |
| OutboxProgress.RetriesAreFailures | src/agent_server/services/audit_outbox_service.py:587-595 | While batches commit, the recorded retries of an unprocessed row grow by exactly the batches in which it failed. |
| OutboxProgress.FailuresAreBounded | src/agent_server/services/audit_outbox_service.py:469-480 | While batches commit, a row fails in at most three batches. |
| OutboxProgress.PoisonedAfterExactlyMaxFailures | src/agent_server/services/audit_outbox_service.py:469-480 | A row is poisoned exactly when it is in the batch and has failed in three committed batches. |
| OutboxProgress.BatchLowersBudget | src/agent_server/services/audit_outbox_service.py:423-620 | The sum of what the rows have left, 4 - retries each, falls by at least one per row of every committed batch. |
| OutboxDrain.ReportedCountIsTrueIffApplied | src/agent_server/services/audit_outbox_service.py:611-620 | The reported count is the number of rows added to the log exactly when the transaction takes effect, or no row the batch gets to is below its retry limit and lands. |
| OutboxDrain.FailedCommitStillReports | src/agent_server/services/audit_outbox_service.py:616-620 | A concrete batch that reports and counts a row although nothing was moved. |
| OutboxDrain.FlushEmptiesIff | src/agent_server/services/audit_outbox_service.py:298-313 | A single batch like the flush at shutdown, under every fate, leaves nothing unprocessed exactly when nothing was, or its transaction takes effect, at most 500 rows were waiting, and each of them lands or is at its retry limit. |
| OutboxDrain.FlushLeavesRows | src/agent_server/services/audit_outbox_service.py:298-304 | A flush of 501 rows, all of which would land, that leaves one behind. |
| OutboxDrain.FlushLeavesRefusedRow | src/agent_server/services/audit_outbox_service.py:298-304 | A flush of one row, which is refused and stays. |
| OutboxProgress.RefusalsRemoveNothing | src/agent_server/services/audit_outbox_service.py:469-480 | A row of the first batch that is always refused outlives three committed batches, whatever happens to the others. |
| OutboxProgress.DrainBoundIsReached | src/agent_server/services/audit_outbox_service.py:336-346 | If every row is refused, fewer than 4 * ceil(N / 500) committed batches leave some of N rows unprocessed: the drain bound cannot be lowered. |
| OutboxDrain.MoveOldest | src/agent_server/services/audit_outbox_service.py:423-620 | One batch of any fate over the oldest rows keeps the invariant, and returns its count unless it is cancelled. |
| OutboxDrain.DrainBatches | src/agent_server/services/audit_outbox_service.py:338-345 | The inner loop over batches of every fate, with rows that arrive between them: it runs only while the service does, and ends exactly with the first batch that is cancelled, reports nothing or finds the service stopped; with N rows pending, a that arrive and k transactions that do not take effect, within N + a + k + 1 batches. |
| OutboxDrain.FailingCommitsSpinIff | src/agent_server/services/audit_outbox_service.py:338-345 | While commits fail and the database otherwise answers alike, the loop ends with its first batch or runs on through any number of them, the tables changing only by the rows that arrive; the latter exactly when some row of the first batch is below its retry limit and lands. |
| OutboxDrain.StopMover | src/agent_server/services/audit_outbox_service.py:280-313 | Stops the service: with a live mover, after the batch that the cancellation cuts short, one more batch; without one, none. The mover is then no longer live. |
| OutboxDrain.StopEmptiesIff | src/agent_server/services/audit_outbox_service.py:280-313 | Stopping leaves nothing unprocessed exactly when, without a live mover, nothing was; and with one, nothing is when the flush begins, or its transaction takes effect, it finds at most 500 rows, and each of them lands or is at its retry limit. |
| OutboxDrain.StopWithoutMoverLeavesRow | src/agent_server/services/audit_outbox_service.py:292-292 | One row that a flush would have moved, and stays because the mover is not live. |
| OutboxMovers.StepKeepsInv | src/agent_server/services/audit_outbox_service.py:445-620 | Every step of any mover (lock, row, commit, rollback, crash) and every arrival keeps locked rows disjoint and waiting, and the log counting exactly the arrived rows no longer in the outbox. |
| OutboxMovers.ExactlyOnePlace | src/agent_server/services/audit_outbox_service.py:445-620 | In every reachable state with any number of movers, an id ever committed to the outbox is in exactly one place, once: waiting, marked as poison, or in the audit log. |
| OutboxMovers.SettledEntriesStay | src/agent_server/services/audit_outbox_service.py:597-609 | No step takes an entry out of the log or a poison pill out of the outbox. |
| OutboxMovers.MoversHoldDifferentRows | src/agent_server/services/audit_outbox_service.py:449-456 | Two movers never hold the same row. |
| SlidingWindow.CheckIsExact | src/agent_server/core/rate_limit_enforcer.py:67-89 | One run of the script admits exactly when fewer than the limit of logged admissions lie in the window, reports their number, and keeps the set faithful to the log, through pruning and expiry. |
| SlidingWindow.UsageIsExact | src/agent_server/core/rate_limit_enforcer.py:406-408 | A usage query counts exactly the logged admissions in the window and keeps the set faithful. |
| SlidingWindow.RunIsExact | src/agent_server/core/rate_limit_enforcer.py:67-89 | For every run on one key with non-decreasing times, log and answers are those of the ideal limiter that keeps every admission forever. |
| SlidingWindow.WindowBound | src/agent_server/core/rate_limit_enforcer.py:67-89 | Every interval (T-W, T] holds at most the limit of admissions. |
| SlidingWindow.QueriesAreInvisible | src/agent_server/core/rate_limit_enforcer.py:387-408 | Leaving all usage queries out of a run changes no decision. |
| RateLimitEnforcer.Enforcer.RunCommands | src/agent_server/core/rate_limit_enforcer.py:204-216 | The fallback's commands, of which any number take effect before an exception: none leaves the set, the first two what a usage query leaves, and all of them the script's result. |
| RateLimitEnforcer.Enforcer.SlidingWindowCheck | src/agent_server/core/rate_limit_enforcer.py:164-222 | Script and undisturbed fallback do the same to the set and answer the same; an unreachable server or an exception, before or after any command has taken effect, lets the request through with a count of 0. |
| RateLimitEnforcer.Enforcer.CheckRateLimit | src/agent_server/core/rate_limit_enforcer.py:285-342 | The decision, its remaining counts and its retry time from the main and the burst check, each of which can fail by itself; both windows are charged even when one rejects; other keys are untouched. |
| RateLimitEnforcer.EnforceAllowsIff | src/agent_server/core/rate_limit_enforcer.py:292-342 | A request is let through exactly when there is room in the main window and, if burst limit and window are both set and not zero, in the burst window, or when the rule does not reject; a retry time is announced exactly when there is not; and the counts reported. |
| RateLimitEnforcer.FullBurstRejects | src/agent_server/core/rate_limit_enforcer.py:309-335 | A rejecting rule with a full burst window turns a request away, however empty its main window is. |
| RateLimitEnforcer.Enforcer.CheckAll | src/agent_server/core/rate_limit_enforcer.py:240-372 | Any number of checks of a rule, one after the other: their decisions are those of the runs of the two windows. |
| RateLimitEnforcer.Enforcer.GetCurrentUsage | src/agent_server/core/rate_limit_enforcer.py:374-412 | The live count of a key; 0 when the server is unreachable or an exception comes before or after the prune. |
| RateLimitEnforcer.Enforcer.DryRun | src/agent_server/api/rate_limit_rules.py:285-321 | The dry-run decision from the usage count, charging nothing. |
| RateLimitEnforcer.DryRunAgreesWithoutBurst | src/agent_server/api/rate_limit_rules.py:308-319 | For a rejecting rule without burst the dry run allows what the enforcer would allow, with the same retry time. |
| RateLimitEnforcer.DryRunAgreesIff | src/agent_server/api/rate_limit_rules.py:308-321 | For any rule, exactly when the two agree. |
| RateLimitEnforcer.DryRunDisagrees | src/agent_server/api/rate_limit_rules.py:308-321 | A full burst window that rejects what the dry run allows, and a logging rule that allows what the dry run rejects. |
| RateLimitEnforcer.DryRunForetells | src/agent_server/api/rate_limit_rules.py:298-309 | After any run of requests and queries, the dry run says what the enforcer then answers, and that is decided by the full log. |
| RateLimitEnforcer.BothWindowsHold | src/agent_server/core/rate_limit_enforcer.py:302-323 | Under a rejecting rule with burst, the requests let through keep within the limits of both windows. |
| RateLimitEnforcer.LetThroughIff | src/agent_server/core/rate_limit_enforcer.py:302-323 | In every run a request is let through exactly when both logs have room for it. |
| FallbackWindow.OvershootBound | src/agent_server/core/rate_limit_enforcer.py:199-216 | With k checks in flight, under every interleaving of their commands, with usage queries, key expiry and clients giving up, the set never holds more than limit + k - 1 entries. |
| FallbackWindow.OvershootIsReached | src/agent_server/core/rate_limit_enforcer.py:199-216 | For every k and every limit, some interleaving reaches that number. |
| FallbackRate.RateBound | src/agent_server/core/rate_limit_enforcer.py:164-222 | On a clock, with k checks in flight, usage queries and a key that expires a window and a minute after an admission last set it: at most limit + 2k - 1 entries with a time in any window, and one more for each lost with an expiring key before the window ended; limit + k - 1 and those until it has ended. At most k and the clients that gave up between adding and setting the expiry can be lost. |
| FallbackRate.RateBoundIsReached | src/agent_server/core/rate_limit_enforcer.py:164-222 | For every k and limit, an interleaving with limit + 2k - 1 entries in one window and nothing lost. |
| FixedWindow.InMemoryRateLimiter.constructor | src/agent_server/core/rate_limiter.py:205-210 | A new limiter has no counters. |
| FixedWindow.InMemoryRateLimiter.CheckAndIncrement | src/agent_server/core/rate_limiter.py:212-253 | The answer and the new table of one check, with cleanup first when the table is over its bound. |
| FixedWindow.InMemoryRateLimiter.CleanupExpired | src/agent_server/core/rate_limiter.py:255-263 | Pops the first expired keys, at most half of the table, and keeps the order of the rest. |
| FixedWindow.InMemoryRateLimiter.Reset | src/agent_server/core/rate_limiter.py:265-268 | No counters remain. |
| FixedWindow.AnswerIsExact | src/agent_server/core/rate_limiter.py:228-253 | While windows are at most 3600 seconds, every answer of every trace, from the calls before it: a call is let through exactly when it finds no window of its key, or one that has ended, or at most limit - 1 calls of the key in it; what remains counts down from the limit to 0; and the reset time is the whole second in which the window began plus its length. |
| FixedWindow.LimitOfTwo | src/agent_server/core/rate_limiter.py:237-249 | Three calls within one window under a limit of two: the first two are let through and the third is not. |
| FixedWindow.CleanupRemoves | src/agent_server/core/rate_limiter.py:255-263 | A cleanup removes only keys past 3600 seconds, the first in the table first, and as many as there are or half of the table, whichever is less; all other keys keep their counts. |
| FixedWindow.TablesAreCoherent | src/agent_server/core/rate_limiter.py:212-263 | The table of every trace holds each key once, so that a cleanup in it does just that. |
| FixedWindow.CleanupIsInvisible | src/agent_server/core/rate_limiter.py:227-263 | While windows are at most 3600 seconds, a limiter that cleans up answers every trace over all keys as one that never does. |
| FixedWindow.LongWindowsAreForgotten | src/agent_server/core/rate_limiter.py:257-263 | For every longer window there is a trace on which the two answer differently. |
| FixedWindow.AtMostTwice | src/agent_server/core/rate_limiter.py:212-253 | On every trace over any keys, a key with limit and window of at least 1 gets at most twice its limit through in any closed interval one window long. |
| FixedWindow.FirstIsAlwaysLetThrough | src/agent_server/core/rate_limiter.py:250-253 | A first request is let through whatever the limit, so that bound holds for it exactly when the limit is at least 1. |
| FixedWindow.RetryAtResetIff | src/agent_server/core/rate_limiter.py:243-248 | A rejected client that returns at the announced reset time gets through exactly when its window began on a whole second. |
| FixedWindow.RejectedAtReset | src/agent_server/core/rate_limiter.py:243-248 | A client that returns at the announced reset time and is rejected. |
| CircuitBreaker.CircuitBreaker.constructor | src/agent_server/core/resilience.py:29-44 | Each setting is stored as given, raised to 1, 0 and 1 if it is below; a new breaker is closed. |
| CircuitBreaker.CircuitBreaker.AllowRequest | src/agent_server/core/resilience.py:50-64 | The new state and the answer of one request. |
| CircuitBreaker.CircuitBreaker.RecordSuccess | src/agent_server/core/resilience.py:66-71 | The new state after a success. |
| CircuitBreaker.CircuitBreaker.RecordFailure | src/agent_server/core/resilience.py:73-83 | The new state after a failure. |
| CircuitBreaker.StateIsHistory | src/agent_server/core/resilience.py:50-83 | On every history the state follows from the failures since the last success, the time of the last failure and the requests after it; closed exactly below the threshold. |
| CircuitBreaker.AnswerIsHistory | src/agent_server/core/resilience.py:50-64 | A request is let through exactly when the failures are below the threshold or it is one of the first probes after a reset timeout, within the quota. |
| CircuitBreaker.MadeBreakerAnswers | src/agent_server/core/resilience.py:37-64 | The same from the arguments a breaker is made with: it is closed exactly when nothing has failed since the last success or fewer than the threshold have, and otherwise lets through the first request once the reset timeout has passed, and further ones up to its quota. |
| CircuitBreaker.OpensAtThreshold | src/agent_server/core/resilience.py:73-83 | A new breaker with a threshold n of at least 1 is closed through n - 1 failures in a row and open from the n-th on. |
| CircuitBreaker.HalfOpenQuota | src/agent_server/core/resilience.py:50-64 | Half-open has admitted between 1 request and its quota; open has an opening time. |
| CircuitBreaker.RateBound | src/agent_server/core/resilience.py:50-83 | Once open and without a success, every interleaving on a monotone clock admits at most the quota per elapsed reset timeout. |
| CircuitBreaker.LostProbesBlockForever | src/agent_server/core/resilience.py:59-62 | A half-open breaker whose probes never report stays shut for all later requests. |
| RetryBackoff.RetryAsync | src/agent_server/core/resilience.py:102-126 | At least one and at most max(1, max_attempts) calls, one sleep of the computed delay between consecutive calls; it stops at the first return, at the first exception that is not retryable, or when asking whether it is, the callback or a sleep raises. After the last attempt nobody asks. |
| RetryBackoff.DoubledIsProduct | src/agent_server/core/resilience.py:95 | The uncapped delay, doubled after every attempt, is base_delay * 2^(attempt-1). |
| RetryBackoff.SleepIs | src/agent_server/core/resilience.py:94-97 | In every retried operation the k-th sleep is, without jitter, min(max_delay, base_delay * 2^(k-1)). |
| RetryBackoff.CanSleepIff | src/agent_server/core/resilience.py:94-99 | With jitter, a draw in [0, 1) can turn such a positive delay d into exactly the delays that are not negative and lie in [d * (1 - jitter), d * (1 + jitter)); a draw of 0 gives the least. |
| RetryBackoff.RetryBudget | src/agent_server/core/resilience.py:94-126 | The sleeps add up to at most (1 + max(0, jitter)) * min((n-1) * max_delay, base_delay * (2^(n-1) - 1)). |
| HitlGraph.FindToolMessage | graphs/react_agent_hitl/graph.py:107-123 | The latest message that calls tools: one that calls them with none after it that does, or none if there is none. |
| HitlGraph.UpdateToolCalls | graphs/react_agent_hitl/graph.py:167-194 | The updated calls, or an exception when a lookup in the edit raises. |
| HitlGraph.WellFormedIff | graphs/react_agent_hitl/state.py:52-57 | A history passes the scan of pending calls exactly when every message is followed, before the next that is not a tool's, by exactly one answer to each of its calls and no other. |
| HitlGraph.ExactlyOneAnswer | graphs/react_agent_hitl/graph.py:126-144 | In a well-formed history, a call whose id its message uses once has exactly one answer, in turn. |
| HitlGraph.ModelSeesWellFormed | graphs/react_agent_hitl/graph.py:197-375 | In every run from a well-formed history, the model is only called on a well-formed history that extends the first one. |
| HitlGraph.EndIsWellFormedIff | graphs/react_agent_hitl/graph.py:262-264 | A run ends with a well-formed history exactly when it did not end by a response that is not a list or an empty one. |
| HitlGraph.NoToolRunsUngated | graphs/react_agent_hitl/graph.py:238-302 | When tools run, the last event was an answer whose first item has the type "accept", or "edit" with arguments that hold "args"; the message they run is the last of the history, with the ids, names and order of the model's calls and other arguments only where the edit names the tool; their results answer exactly its calls. |
| HitlGraph.OnlyApprovalLeadsToTools | graphs/react_agent_hitl/graph.py:273-302 | Every step into the tools node is made at the approval node by such an answer. |
| HitlGraph.EditGoesThroughIff | graphs/react_agent_hitl/graph.py:147-194 | An edit leads to the tools exactly when it is usable for every call; otherwise the step raises. |
| HitlGraph.ReplyCases | graphs/react_agent_hitl/graph.py:91-104 | A reply that calls no tools ends the run; one that does goes to the operator, or is replaced by an apology that ends the run when no step is left. |
| HitlGraph.AnswerCases | graphs/react_agent_hitl/graph.py:262-312 | What each answer of the operator does to a history that awaits it: nothing, and the end, for one that is falsy or not a list; "accept" runs the tools on the history as it is; "response" gives every call a cancellation and the model the text; a usable edit replaces the arguments; "ignore" and any other type cancel every call with its reason and end the run. |
| HitlGraph.EditToListRaises | graphs/react_agent_hitl/graph.py:159-164 | An edit whose arguments are the string `[1]`, on which the step raises. |
| EventId.RoundTripIff | src/agent_server/utils/sse_utils.py:1-26 | For every run id and integer, the sequence is read back when the run id ends in an even number of consecutive `_event` blocks, and 0 otherwise. |
| EventId.EventSuffixLosesSequence | src/agent_server/utils/sse_utils.py:1-26 | The id `run_event_event_5`, from which 0 is read. |
| EventId.UuidRoundTrips | src/agent_server/utils/sse_utils.py:1-26 | Every UUID round-trips. |
| RunLifecycle.RunService.UpdateRunStatus | src/agent_server/api/runs.py:1390-1451 | Writes the status of an existing run row, and its output and error where given, or not, as the awaited write ends. |
| RunLifecycle.RunService.SetThreadStatus | src/agent_server/api/runs.py:181-197 | Writes the status of an existing thread row, or not, as the awaited write ends. |
| RunLifecycle.RunService.PutToBroker | src/agent_server/api/runs.py:1296-1302 | Appends an event id to those handed to the broker for the run, or not, as the awaited call ends. |
| RunLifecycle.RunService.StoreEvent | src/agent_server/api/runs.py:1303-1309 | Appends an event id to those handed to the store for the run, or not, as the awaited call ends. |
| RunLifecycle.RunService.ForwardEvent | src/agent_server/api/runs.py:1293-1309 | One event goes to the broker first and then to the store, unless the first call breaks. |
| RunLifecycle.RunService.StreamEvents | src/agent_server/api/runs.py:1282-1327 | The stream loop does the list of its awaited calls up to the first that breaks, numbering the events that are not skipped, and finds the interrupt and the final output. |
| RunLifecycle.RunService.Close | src/agent_server/api/runs.py:1339-1364 | Looks up the graph's state only when no interrupt was seen, ignores an exception there, and writes the final statuses. |
| RunLifecycle.RunService.TryBody | src/agent_server/api/runs.py:1228-1364 | The body does the list of its awaited calls up to the first that breaks, and reports that one. |
| RunLifecycle.RunService.Handle | src/agent_server/api/runs.py:1366-1383 | The handler of a cancellation or an exception. |
| RunLifecycle.RunService.ExecuteRunAsync | src/agent_server/api/runs.py:1152-1387 | The whole task: body, then a handler if the body broke; the registry entry goes exactly when the cleanup does not break. |
| RunLifecycle.RunService.CheckRun | src/agent_server/api/runs.py:281-317 | The checks: a resume needs an existing, interrupted thread, and every run an assistant. |
| RunLifecycle.RunService.MarkRun | src/agent_server/api/runs.py:320-321 | Marks the thread busy, as the awaited write ends; a thread that does not exist is found out only then. |
| RunLifecycle.RunService.LaunchRun | src/agent_server/api/runs.py:321-385 | Writes metadata and run row, and registers a task exactly when both go well; the row is then there and pending. |
| RunLifecycle.RunService.CreateRun | src/agent_server/api/runs.py:281-387 | The three parts of a creation one after the other: the reply, and what a creation leaves that goes through or breaks on the way. |
| RunOutcomes.IdsAreGapFree | src/agent_server/api/runs.py:1262-1309 | Whatever breaks, the calls to broker and store are given the same ids 1, 2, 3, ... of the run without a gap; the store at most one behind, and level after a body that ran to its end. What both keep of them is stated by `EventReplay.StoreHoldsWhatWasPut`. |
| RunOutcomes.IdsReadBack | src/agent_server/api/runs.py:1293-1294 | For a run id that is a UUID, those ids read back as 1, 2, 3, ... |
| RunOutcomes.StatusLeft | src/agent_server/api/runs.py:1352-1383 | An execution changes no other thread, never marks its own busy, writes it at most twice, and leaves it interrupted, idle or as it was. |
| RunOutcomes.RunStatusLeft | src/agent_server/api/runs.py:1352-1377 | The run row in the end. After a body that went through: interrupted exactly when an event showed an interrupt or the graph had a next node, else completed, with the payload of the last `values` event or an empty object as its output. After a write of a handler: cancelled, or failed with the text of the exception, as what broke the body was, with an empty object as its output. Only a failure writes the error. |
| RunOutcomes.RunsToEndIff | src/agent_server/api/runs.py:1228-1364 | A body goes through exactly when none of its awaited calls breaks, of which looking at the graph's state is only made when no event showed an interrupt. |
| RunOutcomes.ThreadStatusLeft | src/agent_server/api/runs.py:1352-1383 | The thread in the end: interrupted exactly when an interrupt showed, and otherwise idle, after a body that went through; idle after a write of a handler; else as the last write of the body left it, or as it was. |
| RunOutcomes.RunAgreesWithThread | src/agent_server/api/runs.py:1352-1364 | A body that went through leaves the run interrupted exactly when it leaves the thread interrupted, and completed exactly when idle. |
| RunOutcomes.UnhandledStaysRunning | src/agent_server/api/runs.py:1366-1377 | An execution that breaks before its stream and whose handler cannot write leaves its run running. |
| RunOutcomes.FinalOutputIsLastValues | src/agent_server/api/runs.py:1321-1327 | The final output is the payload of the last event of mode `values`, and an empty object if there is none. |
| RunOutcomes.StuckBusyIff | src/agent_server/api/runs.py:1366-1383 | A busy thread stays busy exactly when the body broke before its own last write and the handler did not get to write. |
| RunOutcomes.UnreachableDatabaseStaysBusy | src/agent_server/api/runs.py:1366-1377 | An execution whose first write and whose handler's first write both break leaves its thread busy. |
| RunHistories.PerformCheck | src/agent_server/api/runs.py:281-317 | The method for the checks takes the service from the world and registry of a system to those after its check step, and passes exactly when the request stays. |
| RunHistories.PerformMark | src/agent_server/api/runs.py:320-321 | The same for the mark. |
| RunHistories.PerformLaunch | src/agent_server/api/runs.py:321-385 | The same for the launch. |
| RunHistories.PerformCreate | src/agent_server/api/runs.py:281-387 | The method that creates a run does the three steps with nothing in between. |
| RunHistories.PerformTask | src/agent_server/api/runs.py:1152-1387 | The method of a task does its two steps, which are possible one after the other. |
| RunHistories.StatusByHistory | src/agent_server/api/runs.py:281-385 | In every history, whatever breaks and however checks, marks, launches and executions interleave, threads show what the marks and the ends of executions left on them, in their order. |
| RunHistories.CreatedRunsHaveRows | src/agent_server/api/runs.py:326-385 | In every history, a run whose creation went through has its row, pending until its execution comes to its end. |
| RunHistories.EndedRunAgrees | src/agent_server/api/runs.py:1352-1364 | So in every history an execution that goes through leaves its row interrupted or completed, in agreement with its thread. |
| RunHistories.StatusIsLastWrite | src/agent_server/api/runs.py:320-385 | If the status writes succeed, a thread is busy exactly when the latest write to it was a mark, and interrupted exactly when it was by an execution that ended so. |
| RunHistories.ResumePassesIff | src/agent_server/api/runs.py:281-288 | A resume passes its checks exactly when the latest write to its thread was by an execution that ended interrupted, whatever runs are under way. |
| RunHistories.SecondResumePassesIff | src/agent_server/api/runs.py:281-320 | After a resume that passed, with no execution on the thread ending since, a second resume passes too exactly when nobody has marked the thread meanwhile. |
| RunHistories.TwoResumesBothRun | src/agent_server/api/runs.py:281-385 | A history in which two resumes check before either marks the thread: both get tasks, and when the first of them ends, the thread shows idle while the other is under way. |
| RunHistories.BusyIsUnderWay | src/agent_server/api/runs.py:320-385 | A busy thread has a run under way, however creations and executions interleave, if the status writes succeed. |
| RunHistories.StatusTracksRuns | src/agent_server/api/runs.py:320-385 | If besides no run marks a thread while another run of it is under way, the thread is busy exactly while a run is, and otherwise interrupted exactly when the latest execution on it ended so. |
| RunHistories.CreationStrandsIff | src/agent_server/api/runs.py:281-341 | A creation leaves a free thread busy with no run under way exactly when the assistant is found, a resume finds the thread interrupted, the mark takes effect, and the mark, the metadata or the insert breaks. |
| RunHistories.BrokenInsertStrands | src/agent_server/api/runs.py:320-341 | A creation whose insert breaks, and its thread stays busy. |
| RunHistories.OnlyLiveTasksIff | src/agent_server/api/runs.py:1384-1387 | The registry holds the tasks that have not exited and those whose cleanup broke; only live tasks exactly when no cleanup broke. |
| RunHistories.RegistryKeepsDeadTask | src/agent_server/api/runs.py:1384-1387 | A run that is created, runs to its end and exits with a broken cleanup, and stays in the registry. |
| EventReplay.RunStream.constructor | src/agent_server/services/streaming_service.py:67-73 | At first a run has no events, and its broker is not finished. |
| EventReplay.RunStream.PutToBroker | src/agent_server/services/streaming_service.py:157-193 | Numbers an event and, unless it is an update that is filtered out or the broker is finished, appends it to the queue; an end event finishes the broker. |
| EventReplay.RunStream.FlushStorageBatch | src/agent_server/services/streaming_service.py:75-83 | A due batch is emptied and then inserted, so that an insert that breaks loses it. |
| EventReplay.RunStream.StoreEventFromRaw | src/agent_server/services/streaming_service.py:195-293 | Appends an event to the batch unless it is filtered out or of a mode that is not stored, and flushes a full batch, or any batch at an end event. |
| EventReplay.RunStream.CleanupRun | src/agent_server/services/streaming_service.py:664-679 | Flushes the batch and finishes the broker, unless the insert breaks. |
| EventReplay.RunStream.SignalEnd | src/agent_server/services/streaming_service.py:295-352 | Puts an end event for live clients into the queue and finishes the broker. |
| EventReplay.RunStream.TakeFromQueue | src/agent_server/services/broker.py:144-178 | Takes the oldest event of the queue. |
| EventReplay.Connection.constructor | src/agent_server/services/streaming_service.py:413-416 | The live part compares with the client's last number, and with 0 if there is none or it cannot be read. |
| EventReplay.Connection.ReplayStoredEvents | src/agent_server/services/streaming_service.py:435-465 | Sends exactly the stored events beyond the client's last one, all of them if it has none, in their order. |
| EventReplay.Connection.TakeLive | src/agent_server/services/streaming_service.py:501-513 | Takes one event from the queue, and sends it unless its number is not beyond the last one sent live. |
| EventReplay.StreamLiveEvents | src/agent_server/services/streaming_service.py:491-513 | With nothing else going on, the live loop sends what the queue holds beyond the client's last event, and empties it. |
| EventReplay.StreamRunExecution | src/agent_server/services/streaming_service.py:368-424 | A whole undisturbed stream: the metadata event on a first connection, what is stored, and then what is in the queue, unless the run had ended and its broker is finished. |
| EventReplay.StoreHoldsWhatWasPut | src/agent_server/services/streaming_service.py:85-293 | While the task goes well, store and batch hold exactly the events that went into the queue, with increasing numbers, and the store all of them after the cleanup. |
| EventReplay.NothingAfterEnd | src/agent_server/services/broker.py:126-142 | Once the broker of a run is finished, nothing more is put into its queue. |
| EventReplay.FilteredUpdateLeavesGap | src/agent_server/services/streaming_service.py:85-126 | An update that is filtered out takes the number 1, and the next event is 2. |
| EventReplay.SentAtMostTwice | src/agent_server/services/streaming_service.py:368-513 | Whatever others do, a connection is sent no event more than twice, and none twice but what store and queue both hold when its replay begins. |
| EventReplay.SentExactly | src/agent_server/services/streaming_service.py:368-513 | If nobody else takes events, a client that has taken all there are was sent every event beyond its last one once if it was stored when the replay began, and once if it had been or was later put into the queue and had not left it by then. |
| EventReplay.SentTwiceIff | src/agent_server/services/streaming_service.py:480-513 | So an event is sent twice exactly when, as the replay begins, it is stored, beyond the client's last one and still in the queue. |
| EventReplay.BackgroundRunSentTwice | src/agent_server/services/streaming_service.py:368-513 | The first client of a run that has produced one full batch to nobody is sent all its events, and then all of them again. |
| EventReplay.NeverSentIff | src/agent_server/services/streaming_service.py:435-513 | An event that had been put into the queue is never sent exactly when it is not beyond the client's last one, or had left the queue and was not stored when the replay began. |
| EventReplay.BatchedEventNeverSent | src/agent_server/services/streaming_service.py:435-513 | A client that comes when an earlier connection took the only event, which waits in a batch, and is sent nothing. |
| Sse.FormatSseMessage | src/agent_server/core/sse.py:27-60 | The text of a message: a line each for its type, its data, empty if there is none, and its id, if that is not empty; and an empty line. |
| Sse.RoundTrip | src/agent_server/core/sse.py:41-60 | For every list of messages whose fields are free of line breaks, the interpreter yields one event for each, in order: its type, or "message" for an empty one; its data, or "" without any; and the last id so far that is neither empty nor holds NUL. |
| Sse.TypesFitOnALine | src/agent_server/core/sse.py:43-56 | No stream yields a type or id with a line break. |
| Sse.RoundTripIff | src/agent_server/core/sse.py:41-60 | With data and id on one line, a message round-trips exactly when its type is on one line. |

## Left out

- Audit outbox: with one mover, rows are taken to arrive in strictly increasing order of creation; rows
  with equal times could change places at the end of a batch. The model with several movers does not
  need this. Extraction of a record's columns from its payload and parsing of its timestamp are part of
  the insert's outcome, and so is the creation of a partition. Two rows that carry the same audit id, and
  the sleeping and error handling around the drain loop, are not part of this model.
- AuditOutbox.AuditOutboxService.Insert: takes a row whose insert timed out, raised or was cancelled to be
  stored by then or never, because the outcome of the insert is one input.
- Sliding window: times are milliseconds on one non-decreasing clock shared with key expiry, and members
  are distinct. Building the Redis key, resolving the rule and recording the check are not part of this
  model; the key and the matched rule are inputs.
- Rate limiting: a check that is cancelled, which raises instead of letting the request through, is only
  part of the interleaved fallback, as a client that gives up. What fail-open lets through on top of the
  limits is not bounded, and the bounds over whole runs are on undisturbed checks.
- Fixed window and circuit breaker: the clock does not run backwards; the lock makes a check one step.
  The Redis counter of `RateLimiterManager` is not part of this model.
- Times and delays are reals, not floating-point numbers.
- Agent graph: the merging of messages by id, one result of the tools node for each call of the last
  message in order, and the rejection of arguments that are not an object by the message constructor
  are taken as the libraries' behaviour. Ids drawn by the model and by the merge are fresh. Ending a run
  from the approval node is taken to end it; a comment in `graph.py` notes a library bug there. A new
  input sent while an approval is pending starts another run and is not part of this model.
- HitlGraph.UpdateToolCalls: a string carries the value `json.loads` makes of it; the JSON grammar itself
  is not part of this model.
- Runs: in whole histories a task's body and handlers are one step, with every possible fault, and its
  cleanup another; what happens inside the first is stated by the list of its writes. A task cancelled
  before it starts, deletion, and the cancel endpoints' own writes are not part of this model.
- Streams: an event is its sequence number, which is read back from its id whenever the run id is a UUID.
  Every event converts to text; that a signal comes after the last event of its task is assumed; a
  client's disconnection that cancels the run, removal of old brokers, and what a client does with an
  event it gets twice are not part of this model.
- Event ids: `int` is modelled on ASCII text.
- Server-sent events: serialization of data to JSON text, which has no line breaks, is an input.
- The A2A message converter: only member-wise conversions, which would add easy members.
- Caching of assistants, the double-encoding middleware, routing, persistence of other entities,
  tracing, authentication and the language model.
