# Verified model of the sign-in service's protocols

This project models the stateful protocols that hold the service together, and its two
printer/parser pairs, and proves what they keep on every run.

Concurrent code is modelled as a state machine. An event is the code of one coroutine, timer or
task between two suspension points; `Enabled` says when it can happen, `Apply` what it does, and
a run is any sequence of enabled events. Invariants are proved of every run, whatever the
interleaving and whatever the awaited calls answer. Beside each state machine stands a class with
the source's own dictionaries and flags as fields. Its methods change them step by step, as the
source does, and are proved to do exactly what `Apply` says, so the theorems about runs speak
about that code. Sequential code (the cache, the limiter, the history index, the scheduler) has a
specification function for each operation, and methods with loops proved against it.

Two kinds of theorem are proved of these specifications. The first say what never goes wrong on
any run. The second, named `...Exact`, say what each operation does: when it starts, stops,
retries, accepts, answers or removes, if and only if, in terms of the history or of what the state
means rather than of the code's own branches.

| file | what it models |
|---|---|
| `ClientLifecycle.dfy` | the shared, reference-counted Telegram client: enter, start-up with retries, exit |
| `TaskRun.dfy` | task runs over the shared flags, log buffers, cleanup timers and cancel handles |
| `AccountCooldown.dfy` | the account lock and the cool-down between runs of one account |
| `ActionFlow.dfy` | the resumable action flow with flow retries, step retries and a rewind |
| `RateLimiter.dfy` | the sliding-window limiter with blocking and a global sweep |
| `ControlPlane.dfy` | idempotent run requests with a time limit and a capacity |
| `HistoryIndex.dfy` | the recent-history list in memory over an append-only index file |
| `JobStore.dfy` | recoverable jobs, their single-flight client, and the crash steps of the atomic write |
| `TtlCache.dfy` | the least-recently-used cache with expiry |
| `Text.dfy`, `PercentEncoding.dfy`, `Urls.dfy`, `ProxyUrl.dfy` | the proxy URL's printer and two parsers, over UTF-8, percent-encoding and `urlsplit` |
| `SessionString.dfy` | packing, base64url, export and validation of session strings |
| `ReconcileRunner.dfy` | the coalescing reconcile runner |
| `SchedulerSync.dfy` | synchronising scheduler jobs with the task list |

Where a promise does not hold of the code without a condition, the code is modelled as it is and
the exact condition is proved, together with a run or an input on which the promise fails:

- on a run of the shared client every holder's object is connected at every point if and only if
  no coroutine finds a positive count while its own object is not connected (`ConnectedExact`); a
  coroutine that waits for the lock during the last stop and one that calls `get_client` after it
  meet on one count with two objects (`WaiterAndNewcomerMeet`);
- the reference count is the number of holders if and only if no holder was cancelled while it
  waited to leave (`CountIsHolders`, `CancelledExitMiscounts`), and after such a cancel the client
  is never stopped again (`LostHolderStays`);
- a background run stays cancellable if and only if no start overtakes one that has not begun
  (`CancelHandleExact`, `OvertakenRunCannotBeCancelled`);
- each set flag has a live run if and only if no finalisation raised before clearing it
  (`FlagsHeldExact`, `RaisedRunLeavesFlag`), and a flag left behind stays set for ever
  (`StuckFlagStays`);
- an account's lock belongs to the run inside it at every point if and only if no login code
  releases it under a run (`LockExact`, `TwoReleasesLetTwoIn`), since that code releases the lock
  whenever it is locked, whoever holds it;
- the cool-down holds on every run if and only if there are at most 100 accounts
  (`CooldownExact`, `ForgottenCooldown`);
- the sweep is invisible if and only if windows last at most an hour (`SweepInvisibleExact`,
  `LongWindowIsSwept`), and a window holds at most the configured number of hits if and only if a
  block lasts at least a window (`LimiterWindowExact`, `ShortBlockOverfills`);
- appending keeps memory a prefix of the index file if and only if an entry with the same key, if
  remembered, is among the oldest ones (`AppendKeepsPrefixExact`, `RepeatedEntryBreaksPrefix`);
- an accepted cancel is lost if and only if `mark_completed` is called on the finished job
  (`CancelHoldsExact`, `CompletingTwiceLosesCancel`), which the account-status client never does
  (`AcceptedCancelNeverCompletes`);
- with creation times of one-second precision the start guard sees the active job if and only if
  fewer jobs than it looks at were created before it in the same second (`TiesExact`,
  `TenTiesHideActive`);
- a built proxy URL parses back if and only if the host is lower-case and no closing bracket,
  line break or normalisation clash sits in an address zone (`BuildParses`, `UpperCaseIsLost`,
  `BracketZoneIsLost`);
- a truncated session string is noticed except at two lengths (`TruncationExact`), although the
  validator's comment says that truncated data is rejected; of the three record formats only the
  current one is accepted with its padding (`PaddedLengths`);
- two reconcile runners can be alive if and only if a request comes between a stop and the end of
  the runner it let go of (`OneRunnerExact`, `StopLeavesTwo`), and a raising pass loses exactly the
  requests that came during it (`RaiseExact`, `RaiseLosesRequest`);
- of several task rows with one job id the last decides exactly under the condition of
  `LastRowDecidesExact` (`DisabledThenEnabledLosesJob`, `SharedIdsNeedTwoSyncs`); different
  accounts and tasks can share an id (`NamesCollide`).

Time is an integer or a real. Library behaviour enters as follows: UTF-8 by section 3 of RFC 3629,
percent-encoding by sections 2.1 and 2.3 of RFC 3986, base64url by section 5 of RFC 4648 with the
lenient decoder of CPython's `binascii`, and `urlsplit` as in CPython 3.12.9 and later 3.12
releases. `ip_address`, NFKC normalisation and lower-casing of non-ASCII text are parameters with
stated laws (`Urls.Library`), and so is the cron parser.

## Model

| member | source | states |
|---|---|---|
| `ClientLifecycle.RunsKeepInv` | tg_signer/core/client.py:212-310 | Every run of any number of coroutines that get, enter and leave clients, with start-ups that retry or fail, stops that fail and exits that are cancelled, keeps the lock, count and holder invariant |
| `ClientLifecycle.CountIsHolders` | tg_signer/core/client.py:217-298 | Whenever the key's lock is free the reference count is the number of holders, if and only if no holder was cancelled while it waited to leave; an exit always finds a positive count |
| `ClientLifecycle.CancelledExitMiscounts` | tg_signer/core/client.py:297-298 | For any two coroutines a run exists in which one is cancelled while it queues behind the other to leave, and the count is two with one holder |
| `ClientLifecycle.LostHolderStays` | tg_signer/core/client.py:297-302 | After such a cancellation the count never returns to zero and nobody starts or stops the client again |
| `ClientLifecycle.ConnectNeverOverlapsStop` | tg_signer/core/client.py:217-310 | One coroutine at a time is between taking and releasing the lock; no connect overlaps a stop and no stop runs while a holder is inside |
| `ClientLifecycle.StartupAttemptsBounded` | tg_signer/core/client.py:221-222 | A start-up is tried at most five times |
| `ClientLifecycle.RetryExact` | tg_signer/core/client.py:258-290 | A failed attempt is tried again, with the count still 1, if and only if the database was locked and it was not the fifth; every other failure, a refused session among them, takes the count back, unregisters the object and stops it |
| `ClientLifecycle.LockedAttempts` | tg_signer/core/client.py:221-278 | After any number of locked failures up to four the next attempt is under way |
| `ClientLifecycle.FiveAttempts` | tg_signer/core/client.py:221-290 | A run makes attempts 0 to 4, each on a locked database, and then leaves the key free |
| `ClientLifecycle.LockIsReleased` | tg_signer/core/client.py:217-310 | Each own step of the lock's holder brings the release nearer, at most 21 in all, and no other coroutine delays it |
| `ClientLifecycle.NeverConnectedTwice` | tg_signer/core/client.py:224-264 | Only an unconnected object is connected, only a connected one probed or stopped before a retry |
| `ClientLifecycle.EnterExact` | tg_signer/core/client.py:217-220 | Entering starts the client if and only if there is no holder |
| `ClientLifecycle.ExitExact` | tg_signer/core/client.py:297-302 | Leaving stops the client if and only if the holder is the only one |
| `ClientLifecycle.StopExact` | tg_signer/core/client.py:299-310 | The end of a stop gives the lock back at count zero; after the last holder's stop the next object asked for is new |
| `ClientLifecycle.ReplacedExact` | tg_signer/core/client.py:407-440 | A fresh object is handed out if and only if none is registered, or the registered one does not fit, is not connected and nobody uses the key |
| `ClientLifecycle.ConnectedExact` | tg_signer/core/client.py:217-224 | On every run all holders' objects are connected at every point if and only if no coroutine that takes the lock finds a positive count while its own object is not connected |
| `ClientLifecycle.SharedObjectJoinsWarm` | tg_signer/core/client.py:407-426 | A coroutine that got the object of somebody inside never joins that way |
| `ClientLifecycle.WaiterAndNewcomerMeet` | tg_signer/core/client.py:302-306 | For any three coroutines a run exists in which `get_client` hands out a second object after the last stop while a waiter starts the first one again, and both are inside on one count, one of them unconnected |
| `ClientLifecycle.ColdIsForeign` | tg_signer/core/client.py:219-224 | While stops work, joining on an unconnected object is joining with another object than those inside |
| `ClientLifecycle.IdleMeansDisconnected` | tg_signer/core/client.py:280-310 | If stops work, nobody joins unconnected and no exit is cancelled, a key nobody uses has a free lock, count zero and no connection, whatever number of objects it has had |
| `ClientLifecycle.SharedClient.FetchClient` | tg_signer/core/client.py:407-440 | The registered object is returned, a new one is made if there is none or it is unfit, unused and unconnected |
| `ClientLifecycle.SharedClient.BeginEnter` | tg_signer/core/client.py:213-217 | Entering makes the lock once and waits for it |
| `ClientLifecycle.SharedClient.LockForEnter` | tg_signer/core/client.py:217-225 | With the lock, the first holder starts the client and the others go in at once |
| `ClientLifecycle.SharedClient.TryAttempt` | tg_signer/core/client.py:224-230 | An attempt connects only when the object is not connected |
| `ClientLifecycle.SharedClient.ConnectReturned` | tg_signer/core/client.py:224-227 | A connect that returns goes on to the probe, or fails for an unauthorised session |
| `ClientLifecycle.SharedClient.ConnectFailed` | tg_signer/core/client.py:225-261 | A connect that raises goes through the failure branch, whatever is left of the connection |
| `ClientLifecycle.SharedClient.ProbeReturned` | tg_signer/core/client.py:229-256 | A successful probe ends the start-up and releases the lock |
| `ClientLifecycle.SharedClient.ProbeFailed` | tg_signer/core/client.py:229-261 | A probe that raises goes through the failure branch |
| `ClientLifecycle.SharedClient.HandleFailure` | tg_signer/core/client.py:258-290 | A locked database is retried while attempts remain, anything else takes the count back and stops the client when it reaches zero |
| `ClientLifecycle.SharedClient.RetryStopReturned` | tg_signer/core/client.py:263-277 | After the stop before a retry, failed or not, the pause follows |
| `ClientLifecycle.SharedClient.RollbackStopReturned` | tg_signer/core/client.py:286-290 | After the stop of a failed start-up the lock is released and the error raised |
| `ClientLifecycle.SharedClient.SleepOver` | tg_signer/core/client.py:277-278 | After the pause the next attempt follows |
| `ClientLifecycle.SharedClient.BeginExit` | tg_signer/core/client.py:294-297 | Leaving without a lock entry returns, otherwise waits for the lock |
| `ClientLifecycle.SharedClient.ExitCancelled` | tg_signer/core/client.py:297 | A cancel in the wait to leave counts nothing out |
| `ClientLifecycle.SharedClient.LockForExit` | tg_signer/core/client.py:297-302 | The last holder starts the stop, the others only lower the count |
| `ClientLifecycle.SharedClient.StopReturned` | tg_signer/core/client.py:301-310 | After the stop, failed or not, instance and count are dropped and the lock entry stays |
| `ClientLifecycle.SharedClient.StopInterrupted` | tg_signer/core/client.py:299-304 | A cancel during the last stop releases the lock at count zero and leaves the object registered |
| `TaskRun.RunsKeepInv` | backend/services/sign_task_runner.py:524-551 | Every run of starts, direct calls, cancels, prunes and timers keeps flags, buffers, timers and retention consistent |
| `TaskRun.OneExecutionPerKey` | backend/services/sign_task_runner.py:652-673 | At most one execution per account and task is past the running check; while it lasts its flag is set and its buffer exists |
| `TaskRun.RejectedChangesNothing` | backend/services/sign_task_runner.py:652-659 | A rejected attempt changes no flag, buffer or timer and no other run |
| `TaskRun.SupersededTimerIsHarmless` | backend/services/sign_task_runner.py:529-551 | A superseded or cancelled cleanup timer never unregisters the newer one nor drops its buffer |
| `TaskRun.LogsAreRetained` | backend/services/sign_task_runner.py:535-539 | The log of a finished run can be read for the whole retention time unless a new run begins |
| `TaskRun.NoOrphanBuffers` | backend/services/sign_tasks.py:148-168 | After a finish every buffer belongs to a running task or has a sleeping timer |
| `TaskRun.CancelHandleExact` | backend/services/sign_tasks.py:1127-1209 | Unfinished background runs stay cancellable throughout a run if and only if no start overtakes one that has not begun |
| `TaskRun.OvertakenRunCannotBeCancelled` | backend/services/sign_tasks.py:1202-1255 | Two quick starts leave an executing run that no cancel reaches |
| `TaskRun.FlagsHeldExact` | backend/services/sign_task_runner.py:592-628 | At every point of a run each set flag has a live run if and only if no finalisation raised before clearing its flag |
| `TaskRun.RaiseLeavesFlag` | backend/services/sign_task_runner.py:616-627 | A finalisation that raises leaves its flag set without a run |
| `TaskRun.RaisedRunLeavesFlag` | backend/services/sign_task_runner.py:592-628 | From the start, a call whose finalisation raises leaves its key's flag set without a live run |
| `TaskRun.StuckFlagStays` | backend/services/sign_task_runner.py:652-659 | Such a flag stays set through every later run, so the key never executes again |
| `TaskRun.CancelExact` | backend/services/sign_tasks.py:1212-1262 | A cancel changes anything if and only if the registered run of the key has not ended; then exactly that run is asked to cancel, with a note in the log |
| `TaskRun.CancelledRunNeverExecutes` | backend/services/sign_tasks.py:1255 | A run cancelled before its first step never executes on any later run; all it can do is receive its cancellation |
| `TaskRun.StartExact` | backend/services/sign_tasks.py:1127-1210 | A start is accepted if and only if the flag is down, and then its run can begin at once and executes |
| `TaskRun.BeginExact` | backend/services/sign_task_runner.py:652-673 | A run goes on if and only if the flag is down, with the flag up and an empty buffer, and is over otherwise |
| `TaskRun.BufferIsTranscript` | backend/services/sign_task_backend.py:21-28 | While a run lives its buffer holds the lines it has logged and the cancel notes, in order, all or at least the newest thousand |
| `TaskRun.LogExact` | backend/services/sign_task_backend.py:21-28 | A logged line is the buffer's last; one through the handler leaves at most a thousand |
| `TaskRun.FinishExact` | backend/services/sign_task_runner.py:527-628 | A finish lowers the flag, drops the handle, keeps the log and sets a cleanup timer 60 seconds ahead |
| `TaskRun.NothingStaleAfterFinish` | backend/services/sign_tasks.py:148-168 | After a run that was not cancelled every flag kept is up, every handle names an unfinished run, every registered timer sleeps |
| `TaskRun.FireExact` | backend/services/sign_task_runner.py:537-546 | A timer that fires unregisters itself and drops the buffer unless the key has begun again |
| `TaskRun.SignTaskService.StartTaskRun` | backend/services/sign_tasks.py:1127-1210 | A start is refused while the flag is set, otherwise creates a background run and registers its handle |
| `TaskRun.SignTaskService.BeginExecution` | backend/services/sign_task_runner.py:652-673 | The running check, and with it flag and empty buffer |
| `TaskRun.SignTaskService.WriteLog` | backend/services/sign_task_backend.py:21-28 | A line is appended and the handler cuts the buffer at a thousand lines |
| `TaskRun.SignTaskService.LeaveRunner` | backend/services/sign_tasks.py:1202 | The background runner drops the handle of its key, whoever registered it |
| `TaskRun.SignTaskService.RegisterCleanup` | backend/services/sign_task_runner.py:524-551 | The old timer is asked to cancel, the new one is registered |
| `TaskRun.SignTaskService.FinishExecution` | backend/services/sign_task_runner.py:627-733 | Flag down, timer registered, dictionaries pruned unless cancelled, handle dropped |
| `TaskRun.SignTaskService.PruneStaleEntries` | backend/services/sign_tasks.py:148-168 | Pruning removes finished flags, unneeded buffers, finished handles and finished timers, in this order, and nothing else |
| `TaskRun.SignTaskService.PruneFlags` | backend/services/sign_tasks.py:150-153 | The loop drops exactly the lowered flags |
| `TaskRun.SignTaskService.PruneLogs` | backend/services/sign_tasks.py:155-158 | The loop drops exactly the buffers without a raised flag or registered timer |
| `TaskRun.SignTaskService.PruneHandles` | backend/services/sign_tasks.py:160-163 | The loop drops exactly the handles of ended runs |
| `TaskRun.SignTaskService.PruneTimers` | backend/services/sign_tasks.py:165-168 | The loop drops exactly the finished timers |
| `TaskRun.SignTaskService.CancelTaskRun` | backend/services/sign_tasks.py:1238-1262 | A cancel reaches exactly an unfinished registered background run and notes it in the log |
| `TaskRun.SignTaskService.CleanupFires` | backend/services/sign_task_runner.py:535-544 | A timer drops the buffer of an inactive task and unregisters only itself |
| `TaskRun.SignTaskService.LeaveCleanup` | backend/services/sign_task_runner.py:540-544 | A timer that ends unregisters itself only |
| `AccountCooldown.LockExact` | backend/services/sign_task_runner.py:129-160 | At every point of a run each account's lock belongs to the run inside it if and only if no release from outside finds a run holding it |
| `AccountCooldown.NoOverlapInAccount` | backend/services/sign_task_runner.py:129-160 | Then two runs of one account are never both inside the account lock |
| `AccountCooldown.TwoReleasesLetTwoIn` | backend/services/telegram/login_phone.py:286-288 | Two calls of one failing login release the lock twice, the second time under a run, and two runs of one account execute |
| `AccountCooldown.RunsKeepRested` | backend/services/sign_task_runner.py:130-152 | With at most 100 accounts every start comes at least the cool-down after the previous holder's end |
| `AccountCooldown.WaitExact` | backend/services/sign_task_runner.py:130-152 | With at most 100 accounts a run starts at once if the cool-down has passed since a run of its account last ended, and otherwise sleeps exactly until then |
| `AccountCooldown.CooldownExact` | backend/services/sign_tasks.py:190-198 | The cool-down holds on every run if and only if there are at most 100 accounts |
| `AccountCooldown.ForgottenCooldown` | backend/services/sign_tasks.py:190-198 | With more than 100 accounts and a constant cool-down of 600 s, the largest the setting allows, some run starts too early |
| `AccountCooldown.AccountLocks.LockHeld` | backend/services/sign_task_runner.py:129-154 | With the lock a run sleeps the rest of the cool-down or goes on |
| `AccountCooldown.AccountLocks.LeaveLock` | backend/services/sign_task_runner.py:592-600 | The end time is stamped in the step that releases the lock, before a waiter resumes |
| `AccountCooldown.AccountLocks.ReleaseIfLocked` | backend/services/telegram/sessions.py:29-31 | Login code releases a locked account lock, whoever holds it |
| `AccountCooldown.AccountLocks.BeginFinalize` | backend/services/sign_task_runner.py:600 | Finalisation begins by stamping the account's end time |
| `AccountCooldown.Oldest` | backend/services/sign_tasks.py:193-195 | The account whose end time is the oldest |
| `AccountCooldown.AccountLocks.PruneEnds` | backend/services/sign_tasks.py:190-198 | Beyond 100 accounts exactly the most recent end times are kept |
| `ActionFlow.CallsBounded` | tg_signer/core/signer_runner.py:149-261 | On every outcome sequence the flow ends within 2(n + (b+1)(A-1)) calls of `wait_for` |
| `ActionFlow.MaxCallsReached` | tg_signer/core/signer_runner.py:161-257 | The sharper bound behind it is reached by some run |
| `ActionFlow.ActionsInOrder` | tg_signer/core/signer_runner.py:163-244 | For any rewind no action is tried before every earlier one has succeeded, and a plain return means all have |
| `ActionFlow.NoRepeatWithoutRewind` | tg_signer/core/signer_runner.py:163-230 | Without rewind the successful steps of the whole run are 1, 2, ... in order, each once |
| `ActionFlow.RunExact` | tg_signer/core/signer_runner.py:161-262 | Every run call by call, read from the outcomes: which action is next, when a transient failure is tried again, where a new attempt begins, when messages are cleared, when the flow ends and how |
| `ActionFlow.ConfigExact` | tg_signer/core/signer_runner.py:149-158 | The task's own positive retry count goes before the environment's, which counts from 1 |
| `ActionFlow.DrivenIsFeed` | tg_signer/core/signer_runner.py:161-257 | Driving the loops with an outcome per call is feeding the machine that sequence |
| `ActionFlow.RunStep` | tg_signer/core/signer_runner.py:203-222 | A step calls `wait_for` once, and a second time only after a transient error |
| `ActionFlow.SignAChat` | tg_signer/core/signer_runner.py:143-261 | The nested loops make the calls and message clears of the machine and end with its result |
| `RateLimiter.SweepInvisible` | backend/core/rate_limit.py:38-92 | With windows of at most 3600 s every answer is that of a limiter that never sweeps |
| `RateLimiter.SweepInvisibleExact` | backend/core/rate_limit.py:38-46 | Exactly the windows up to 3600 s are safe from the sweep |
| `RateLimiter.LongWindowIsSwept` | backend/core/rate_limit.py:38-46 | For every longer window a run in which the sweep turns a rejection into an acceptance |
| `RateLimiter.WindowLimitExact` | backend/core/rate_limit.py:67-92 | Of one bucket alone, every window holds at most max(max_attempts, 1) accepted hits, for all hit times, if and only if a block lasts at least a window |
| `RateLimiter.LimiterWindowExact` | backend/core/rate_limit.py:38-92 | The same on the limiter with its sweep, for windows of at most 3600 s and whatever happens to other buckets |
| `RateLimiter.ShortBlockOverfills` | backend/core/rate_limit.py:81-92 | With a shorter block some hit times put too many accepted hits into one window |
| `RateLimiter.RetryAfterIsExact` | backend/core/rate_limit.py:67-92 | A rejected caller that waits Retry-After with no other hit on its bucket is accepted, and a whole second earlier it is not |
| `RateLimiter.RejectedSlot` | backend/core/rate_limit.py:67-92 | The same for one bucket, whatever parameters the second hit brings |
| `RateLimiter.AnswerExact` | backend/core/rate_limit.py:48-92 | Every answer of the swept limiter for any mix of parameters, read from the earlier answers: blocked, accepted below the limit within the window, or blocked from now on, with the exact Retry-After |
| `RateLimiter.AcceptedExact` | backend/core/rate_limit.py:76-83 | While a bucket's windows do not grow, an unblocked hit is accepted if and only if fewer than max(max_attempts, 1) hits accepted since the last overrun or reset lie in the last max(window, 1) seconds |
| `RateLimiter.SweepExact` | backend/core/rate_limit.py:38-46 | A sweep drops exactly the buckets without a hit in the last hour and the blocks that are over |
| `RateLimiter.InMemoryRateLimiter.Hit` | backend/core/rate_limit.py:48-92 | A hit sweeps when due, evicts, and accepts, rejects or blocks as specified |
| `RateLimiter.InMemoryRateLimiter.SweepExpired` | backend/core/rate_limit.py:38-46 | The sweep drops exactly the stale buckets and the blocks that are over |
| `RateLimiter.InMemoryRateLimiter.Reset` | backend/core/rate_limit.py:26-30 | A reset forgets one bucket and nothing else |
| `RateLimiter.InMemoryRateLimiter.ResetAll` | backend/core/rate_limit.py:32-36 | A full reset forgets every bucket |
| `ControlPlane.PruneIsTail` | backend/services/control_plane.py:242-252 | Pruning drops a prefix of the table: expired rows and the oldest overflow |
| `ControlPlane.DuplicatesAreApart` | backend/services/control_plane.py:254-283 | The table has at most 513 rows, and two starts of one key are a TTL apart or have 512 starts of pairwise different other keys between them; every start of a request with an id is stored, as nothing after it suspends or raises |
| `ControlPlane.AnswerExact` | backend/services/control_plane.py:262-276 | A request is started if and only if it has no id or every start with its key is expired or crowded out; otherwise it gets the result of the one that is not, or a conflict for another target |
| `ControlPlane.StartedIsStored` | backend/services/control_plane.py:275-283 | A start that returns is stored for 900 seconds and answers the same request until then; one that raises is not stored |
| `ControlPlane.FreshKeyIsReplayed` | backend/services/control_plane.py:265-274 | A fresh key that was not pushed out gets its stored result, or a conflict for another target |
| `ControlPlane.ReplayIsLastStart` | backend/services/control_plane.py:254-283 | What is replayed is the result of the last stored start of the key |
| `ControlPlane.ControlPlane.PruneRequests` | backend/services/control_plane.py:242-252 | The loop over the table is the specified pruning |
| `ControlPlane.ControlPlane.DropExpired` | backend/services/control_plane.py:243-245 | The first loop drops exactly the expired rows |
| `ControlPlane.ControlPlane.BeginRun` | backend/services/control_plane.py:262-275 | Under the lock a request is pruned for, then replayed, refused or started |
| `ControlPlane.ControlPlane.CompleteRun` | backend/services/control_plane.py:276-283 | A finished start is stored with its expiry, unless it asked for no idempotency |
| `ControlPlane.ControlPlane.FailRun` | backend/services/control_plane.py:275 | A start that raises stores nothing |
| `HistoryIndex.AppendKeepsPrefixExact` | backend/services/sign_task_history_index.py:88-150 | An append keeps memory a prefix of the file if and only if remembered entries with its key are the oldest ones |
| `HistoryIndex.RepeatedEntryBreaksPrefix` | backend/services/sign_task_history_index.py:96-98 | From an empty directory, an entry and twice another one leave memory that is no prefix |
| `HistoryIndex.MemoryStaysPrefix` | backend/services/sign_task_history_index.py:81-169 | After any allowed run over several directories memory is a prefix of its directory's newest-first reading |
| `HistoryIndex.FreshKeysAreAllowed` | backend/services/sign_task_history_index.py:124-150 | Entries with new keys may always be appended |
| `HistoryIndex.ListingIsPrefixOfFile` | backend/services/sign_task_history_index.py:395-435 | Every unfiltered listing is a prefix of the file's reading, and one that bypasses memory has exactly the asked-for entries |
| `HistoryIndex.MemoryCanLagBehind` | backend/services/sign_task_history_index.py:419-424 | Only the prefix relation holds: a listing of one entry can make the next one miss all others |
| `HistoryIndex.ListingExact` | backend/services/sign_task_history_index.py:172-228 | A filtered listing is exactly the newest entries of the account and date, up to the limit |
| `HistoryIndex.UnfilteredExact` | backend/services/sign_task_history_index.py:395-435 | An unfiltered listing is the beginning of memory if that is the directory's, else of the file, which is then remembered |
| `HistoryIndex.AppendExact` | backend/services/sign_task_history_index.py:124-169 | An append adds one line and cuts the file to its newest lines if and only if it is large and too long |
| `HistoryIndex.RemoveExact` | backend/services/sign_task_history_index.py:231-299 | A removal keeps exactly the lines that do not meet all given criteria, in order |
| `HistoryIndex.RebuildExact` | backend/services/sign_task_history_index.py:312-379 | A rebuilt file is the newest part of a stable sort of the history items by time, and memory its newest 200 |
| `HistoryIndex.RebuildOfNothing` | backend/services/sign_task_history_index.py:325-328 | A rebuild without a directory drops index and memory |
| `HistoryIndex.TimeLeqExact` | backend/services/sign_task_history_index.py:363 | Times are ordered as text |
| `HistoryIndex.NormalizeKeeps` | backend/services/sign_task_history_index.py:211-223 | Reading an entry keeps its identity and cuts its message at 500 characters |
| `HistoryIndex.ClearExact` | backend/services/sign_task_history_index.py:302-309 | Clearing removes one index and forgets memory |
| `HistoryIndex.RecentIndex.SyncFrom` | backend/services/sign_task_history_index.py:81-85 | Memory takes the newest entries of one directory up to its bound |
| `HistoryIndex.RecentIndex.Prepend` | backend/services/sign_task_history_index.py:88-100 | Memory puts a new entry first, without older ones of its key, and is cut at its bound |
| `HistoryIndex.RecentIndex.AppendEntry` | backend/services/sign_task_history_index.py:124-169 | An append adds a line, trims a large file and updates memory |
| `HistoryIndex.RecentIndex.ReadEntries` | backend/services/sign_task_history_index.py:172-228 | Reading trims the filters, cuts the date to ten characters and collects the newest matching entries, skipping unreadable lines |
| `HistoryIndex.RecentIndex.RemoveMatching` | backend/services/sign_task_history_index.py:231-299 | Removal trims its criteria, rewrites the file without the matching entries, counts them and forgets memory |
| `HistoryIndex.RecentIndex.Clear` | backend/services/sign_task_history_index.py:302-309 | Clearing removes the file and forgets memory |
| `HistoryIndex.RecentIndex.ClearMemoryCache` | backend/services/sign_task_history_index.py:117-121 | Forgetting empties memory and its directory |
| `HistoryIndex.RecentIndex.RebuildIndex` | backend/services/sign_task_history_index.py:312-379 | A rebuild writes the sorted, bounded entries and reloads memory |
| `HistoryIndex.RecentIndex.List` | backend/services/sign_task_history_index.py:395-435 | A listing uses memory when it may, else the file, rebuilding a missing one |
| `JobStore.CancelHoldsExact` | backend/services/background_job.py:217-272 | For any calls in any order a job with an accepted cancel is at no point completed if and only if no `mark_completed` finds it already finished |
| `JobStore.CompletingTwiceLosesCancel` | backend/services/background_job.py:245-246 | Completing twice after a cancel ends completed |
| `JobStore.LogIsTail` | backend/services/background_job.py:178-188 | For any calls in any order the log is exactly the newest lines up to its bound |
| `JobStore.RunsKeepInv` | backend/services/background_job.py:64-302 | Every run, with crashes at any write step, keeps memory, disk, cancel and bound invariants |
| `JobStore.AtMostOneActive` | backend/services/account_status_jobs.py:168-205 | At most one job is ever active, it is the newest, and a live task or its own creation stands behind it |
| `JobStore.GuardIsExact` | backend/services/account_status_jobs.py:178-185 | The guard, looking at the ten newest jobs, lets a start through if and only if no job at all is active |
| `JobStore.TiesExact` | backend/services/background_job.py:136-164 | With equal creation times, in whatever order a reload left the older jobs, listing and trim see the active job if and only if fewer jobs than they look at tie with it before it |
| `JobStore.TenTiesHideActive` | backend/services/account_status_jobs.py:178-185 | Ten jobs finished within one second hide a running eleventh from the guard |
| `JobStore.TrimSparesActive` | backend/services/background_job.py:133-151 | Trimming never discards the active job |
| `JobStore.TrimLeavesNewest` | backend/services/background_job.py:133-151 | In whatever order the surplus goes, a trim leaves exactly the newest jobs |
| `JobStore.NewestBounded` | backend/services/background_job.py:133-142 | With distinct creation times the newest n jobs are at most n |
| `JobStore.TrimNeverStuck` | backend/services/background_job.py:142-151 | As long as there are too many jobs the trim finds one to drop |
| `JobStore.AcceptedCancelNeverCompletes` | backend/services/background_job.py:217-260 | On every run a job with an accepted cancel is completed neither in memory nor on disk |
| `JobStore.FinishExact` | backend/services/background_job.py:234-260 | On every run a job whose runner reaches its end is canceled if and only if a cancel was accepted, else completed, in memory and on file |
| `JobStore.RaiseExact` | backend/services/background_job.py:262-272 | A job whose runner raises has failed with the error's text |
| `JobStore.CancelExact` | backend/services/background_job.py:217-228 | A cancel request is accepted exactly for an unfinished job, which is then canceling in memory and on file |
| `JobStore.OpenStatus` | backend/services/background_job.py:217-228 | Until a call ends it a job keeps its status, but for a running one that is asked to cancel |
| `JobStore.EndedStatus` | backend/services/background_job.py:234-272 | Under any sequence of calls the last ending one decides the status, as read from the calls before it |
| `JobStore.ErrorExact` | backend/services/background_job.py:262-272 | The error is the text of the last failure |
| `JobStore.TrimRemovesFiles` | backend/services/background_job.py:142-151 | A trim removes exactly the files of the dropped jobs |
| `JobStore.FinalStays` | backend/services/background_job.py:234-272 | Once an operation has finished a job its final status stays, in memory and on disk, through crashes and reloads |
| `JobStore.CrashThenReload` | backend/services/background_job.py:71-102 | After a crash at any step, and crashes during recovery, the reload shows the newest jobs as last durably written, unfinished ones failed |
| `JobStore.ReloadIsFaithful` | backend/services/background_job.py:71-102 | Job by job: finished on disk unchanged, unfinished failed with the restart error, finished in memory finished alike after reload |
| `JobStore.WrittenIsThreeSteps` | backend/utils/atomic_io.py:24-47 | The whole write is the temporary file, its synced contents and the rename, uninterrupted |
| `JobStore.TaskEnds` | backend/services/account_status_jobs.py:197-204 | mark_completed and mark_failed with the task gone are the run's last steps |
| `JobStore.BackgroundJobStore.WriteJob` | backend/utils/atomic_io.py:24-47 | Writing one job file leaves a whole file and no temporary one |
| `JobStore.BackgroundJobStore.Append` | backend/services/background_job.py:178-188 | A line is appended in place and the oldest lines beyond the bound go |
| `JobStore.BackgroundJobStore.RequestCancel` | backend/services/background_job.py:217-228 | A cancel is accepted exactly for an active job and marks, logs and writes it once |
| `JobStore.BackgroundJobStore.MarkCompleted` | backend/services/background_job.py:234-260 | Completion ends canceled after a cancel request, else completed, and is written |
| `JobStore.BackgroundJobStore.MarkFailed` | backend/services/background_job.py:262-272 | Failure stores status and error, logs it and is written |
| `JobStore.BackgroundJobStore.TrimHistory` | backend/services/background_job.py:133-151 | The trim loop is a run of single removals that leaves exactly the newest jobs |
| `JobStore.BackgroundJobStore.Discard` | backend/services/background_job.py:145-151 | One job leaves memory and disk |
| `JobStore.BackgroundJobStore.CreateJob` | backend/services/background_job.py:104-129 | A new running job is stored and written |
| `JobStore.BackgroundJobStore.LaunchTask` | backend/services/background_job.py:292-302 | The job's task is registered |
| `JobStore.BackgroundJobStore.StartJob` | backend/services/account_status_jobs.py:178-205 | A start goes through if and only if nothing is active, and then creates, writes, trims and launches |
| `JobStore.BackgroundJobStore.Guard` | backend/services/account_status_jobs.py:178-187 | The loop over the listed jobs is the start guard |
| `JobStore.BackgroundJobStore.Settle` | backend/services/background_job.py:80-99 | An unfinished job read back is failed, noted and rewritten, a finished one is left alone |
| `JobStore.BackgroundJobStore.LoadJobs` | backend/services/background_job.py:71-102 | Loading fails and rewrites unfinished jobs and keeps the newest |
| `TtlCache.HitIsFresh` | backend/utils/cache.py:54-72 | A hit returns the last value set for the key, less than ttl ago |
| `TtlCache.MissIsExplained` | backend/utils/cache.py:54-90 | A key set less than ttl ago, not deleted, with fewer than maxsize other keys touched since, is found |
| `TtlCache.SizeBounded` | backend/utils/cache.py:74-90 | The cache never holds more than maxsize entries, one per key |
| `TtlCache.PurgeExact` | backend/utils/cache.py:160-174 | A purge keeps exactly the entries that have not expired, in order |
| `TtlCache.PurgedRun` | backend/utils/cache.py:54-72 | On every run a key is there after a purge, or after a lookup of it, if and only if it is found then |
| `TtlCache.RunKeepsInv` | backend/utils/cache.py:54-174 | On every run entries are in order of last touch, fresh from their last set, and every absence is explained |
| `TtlCache.TTLCache.Get` | backend/utils/cache.py:54-72 | A lookup refreshes or drops the entry as specified |
| `TtlCache.TTLCache.Contains` | backend/utils/cache.py:107-118 | Membership acts on the order like a lookup |
| `TtlCache.TTLCache.Set` | backend/utils/cache.py:74-90 | Setting moves the key to the end and evicts the oldest beyond maxsize |
| `TtlCache.TTLCache.Delete` | backend/utils/cache.py:92-98 | Deletion removes the key and says whether it was there |
| `TtlCache.TTLCache.Clear` | backend/utils/cache.py:100-105 | Clearing empties the cache and counts what it held |
| `TtlCache.TTLCache.Create` | backend/utils/cache.py:38-48 | A cache is made exactly for a size of at least one and a positive time to live |
| `TtlCache.TTLCache.PurgeExpired` | backend/utils/cache.py:160-174 | A purge removes exactly the expired entries and counts them |
| `PercentEncoding.DecodeEncode` | backend/services/proxy_settings.py:287-289 | UTF-8 decoding inverts encoding for every text |
| `PercentEncoding.UnquoteQuote` | backend/services/proxy_settings.py:172-173 | Unquoting what was quoted gives back any text |
| `PercentEncoding.QuoteIsPlain` | backend/services/proxy_settings.py:287-289 | Quoted text has unreserved characters and percent signs only, and is empty only for the empty text |
| `PercentEncoding.QuoteCharExact` | backend/services/proxy_settings.py:287-289 | An ASCII character is written as it is if unreserved, else as a percent sign and two upper-case hexadecimal digits |
| `PercentEncoding.QuoteConcat` | backend/services/proxy_settings.py:287-289 | Texts are quoted character by character |
| `PercentEncoding.UnquoteWithoutPercent` | backend/services/proxy_settings.py:172-173 | Text without a percent sign is unquoted to itself |
| `Urls.SplitPrinted` | backend/services/proxy_settings.py:156-162 | A scheme and an authority without delimiters are split back, line breaks dropped, or refused for bad brackets or a normalisation clash |
| `ProxyUrl.HostIsNormal` | backend/services/proxy_settings.py:36-63 | Whatever `_normalize_host` accepts is a trimmed address in canonical text or a name with valid labels |
| `ProxyUrl.NormalAgain` | backend/services/proxy_settings.py:36-63 | A normalised host normalises to itself unless it has become too long |
| `ProxyUrl.LowerHostIsNormal` | backend/services/proxy_settings.py:163 | Lower-casing a normalised host, as the URL parser does, leaves a normalised host |
| `ProxyUrl.DescribedIsPrintable` | backend/services/proxy_settings.py:244-283 | Settings that pass validation describe a proxy with every field in range |
| `ProxyUrl.AcceptedExact` | backend/services/proxy_settings.py:244-283 | Enabled settings are accepted exactly under the stated conditions on scheme, host, port, user name, password and bypass list |
| `ProxyUrl.PrintedExact` | backend/services/proxy_settings.py:285-292 | The printed URL, part by part |
| `ProxyUrl.SchemeMayBeLeftOut` | backend/utils/proxy.py:12-13 | A built SOCKS5 URL with credentials is read the same without its scheme |
| `ProxyUrl.TailExact` | backend/services/proxy_settings.py:161-162 | After a built URL the settings parser tolerates a slash and empty query and fragment and refuses all else; the socket parser ignores any tail |
| `ProxyUrl.LegacyNotation` | backend/utils/proxy.py:7-22 | `host:port:user:password` is read as a SOCKS5 URL with these four in their places, `host:port` as one without credentials |
| `ProxyUrl.SocketReadsLower` | backend/utils/socket_proxy.py:19-44 | The socket parser recovers every field of a built URL, the host in lower case |
| `ProxyUrl.SocketRoundTrip` | backend/utils/socket_proxy.py:19-44 | It recovers the setting itself if and only if the host is lower-case and nothing in a zone is lost |
| `ProxyUrl.LegacyReadsLower` | backend/services/proxy_settings.py:150-177 | The settings parser does the same, and refuses a host over its length |
| `ProxyUrl.LegacyRoundTrip` | backend/services/proxy_settings.py:150-177 | It recovers the setting if and only if, besides, the host is within its length |
| `ProxyUrl.BuildParses` | backend/services/proxy_settings.py:270-292 | For all settings that can be printed, both round trips hold under exactly these conditions |
| `ProxyUrl.UpperCaseIsLost` | backend/services/proxy_settings.py:163 | An upper-case host is printed and neither parser gives the setting back |
| `ProxyUrl.BracketZoneIsLost` | backend/services/proxy_settings.py:47-48 | So is an IPv6 address with a closing bracket in its zone |
| `ProxyUrl.NamesParse` | backend/services/proxy_settings.py:270-292 | For names and IPv4 addresses both parsers recover everything up to letter case |
| `ProxyUrl.PlainAddressesParse` | backend/services/proxy_settings.py:291 | Bracketed IPv6 addresses without a zone are always recovered by both |
| `SessionString.StripPadInverts` | backend/utils/tg_session.py:271 | For data of every length, stripping the padding and padding again is the identity, and decodes to the data |
| `SessionString.DecodesExactly` | backend/utils/tg_session.py:271 | Every text decodes exactly when it is ASCII and its data characters, up to the first complete padding, make whole groups or that padding completes the last one; they alone decide the length |
| `SessionString.UnpackPack` | backend/utils/tg_session.py:359-367 | Unpacking a packed record gives its fields |
| `SessionString.PackExact` | backend/utils/tg_session.py:359-367 | The record's layout byte by byte |
| `SessionString.SymbolsExact` | backend/utils/tg_session.py:368 | The URL-safe alphabet in its order, and what decoding takes besides |
| `SessionString.ThreeBytesExact` | backend/utils/tg_session.py:368 | Four symbols carry the bits of three bytes, most significant first |
| `SessionString.ValidExact` | backend/utils/tg_session.py:254-287 | The validator accepts any text exactly when, trimmed and padded, it is ASCII and the data characters it reads fill the record its length selects |
| `SessionString.ValidPadded` | backend/utils/tg_session.py:264-287 | With pads at the end only, own and added pads count alike, but its own count for the length that selects the record |
| `SessionString.ValidLengths` | backend/utils/tg_session.py:276-285 | Text of base64url characters is valid exactly at 351, 356 and 362 characters |
| `SessionString.PaddedLengths` | backend/utils/tg_session.py:276-285 | With padding of its own such text is valid exactly at 362 characters: a legacy string with its padding is refused |
| `SessionString.ExportExact` | backend/utils/tg_session.py:345-371 | Export succeeds exactly when key and user are there and the numbers in range |
| `SessionString.ExportRoundTrip` | backend/utils/tg_session.py:353-371 | The exported string is valid, 362 characters long, and decodes to the same fields with the key padded or cut to 256 bytes |
| `SessionString.PrefixedIsRefused` | backend/utils/tg_session.py:257-258 | A one-character version prefix is refused |
| `SessionString.TruncationExact` | backend/utils/tg_session.py:257-258 | A cut export is refused except at the two legacy lengths |
| `ReconcileRunner.PassesExclude` | backend/services/proxy_runtime.py:119-122 | Passes never overlap, with stops and raises included |
| `ReconcileRunner.OneRunnerExact` | backend/services/proxy_runtime.py:191-234 | At no time are two runners alive if and only if no request comes between a stop and the end of the runner it let go of |
| `ReconcileRunner.StopLeavesTwo` | backend/services/proxy_runtime.py:212-234 | A request during shutdown leaves two live runners |
| `ReconcileRunner.StopExact` | backend/services/proxy_runtime.py:221-230 | A stop lowers flag and handle and asks for the cancellation of the registered runner alone, unless that makes the call |
| `ReconcileRunner.ReleasedRunnerEnds` | backend/services/proxy_runtime.py:229-234 | A runner let go of can be cancelled at any time until it has ended, and then has given the lock back |
| `ReconcileRunner.NoLostRequest` | backend/services/proxy_runtime.py:199-213 | Without stops, whenever no runner is alive every call was followed by a later pass if and only if the flag is down, and it is if no pass raised |
| `ReconcileRunner.RaiseExact` | backend/services/proxy_runtime.py:208-213 | A raising pass leaves requests unserved exactly when one came during it |
| `ReconcileRunner.RaiseLosesRequest` | backend/services/proxy_runtime.py:208-213 | A request during a pass that raises is left unserved with no runner |
| `ReconcileRunner.RestServes` | backend/services/proxy_runtime.py:206-213 | From every state at most two more steps of the runner serve every call |
| `ReconcileRunner.PassesCoalesce` | backend/services/proxy_runtime.py:199-211 | There are never more passes than calls |
| `ReconcileRunner.ProxyRuntime.ScheduleReconcile` | backend/services/proxy_runtime.py:191-218 | Outside a running loop a call does nothing; inside it raises the flag, starts a runner if none is alive, and names the runner that will serve |
| `ReconcileRunner.ProxyRuntime.TestLoop` | backend/services/proxy_runtime.py:209-213 | The loop test lowers the flag and begins a pass or waits for the lock, or ends the runner |
| `ReconcileRunner.ProxyRuntime.EnterPass` | backend/services/proxy_runtime.py:122-123 | A pass begins by taking the lock and reading the settings |
| `ReconcileRunner.ProxyRuntime.ReturnFromPass` | backend/services/proxy_runtime.py:209-211 | A returned pass releases the lock and goes back to the loop test |
| `ReconcileRunner.ProxyRuntime.LeaveRunner` | backend/services/proxy_runtime.py:212-213 | A runner that ends clears the handle, whoever it names |
| `ReconcileRunner.ProxyRuntime.RaiseFromPass` | backend/services/proxy_runtime.py:208-213 | A raising pass ends the runner with the flag as it is |
| `ReconcileRunner.ProxyRuntime.StopReconcile` | backend/services/proxy_runtime.py:221-230 | A stop lowers the flag and lets go of the runner, and asks for its cancellation unless the runner itself makes the call |
| `SchedulerSync.SyncedExact` | backend/scheduler/__init__.py:492-571 | One sync, id by id: legacy jobs go, sign jobs become what the rows of their id make of them, all others stay |
| `SchedulerSync.SyncLeavesWanted` | backend/scheduler/__init__.py:492-571 | With distinct ids exactly the enabled, non-listening rows with a valid trigger, or registered with an invalid one, have a sign job, with that trigger |
| `SchedulerSync.RowExact` | backend/scheduler/__init__.py:524-563 | Row by row: no job for a disabled or listening task, else the trigger of its time, for a range task of the range's beginning, if both times are readable |
| `SchedulerSync.OneShotsStay` | backend/scheduler/__init__.py:492-506 | One-shot jobs are never touched |
| `SchedulerSync.SyncIsIdempotent` | backend/scheduler/__init__.py:492-571 | With distinct ids a second sync changes nothing |
| `SchedulerSync.ReplicaKeeps` | backend/scheduler/__init__.py:459-470 | A running replica without the lock keeps exactly the jobs that are not business jobs |
| `SchedulerSync.LockRegained` | backend/scheduler/__init__.py:459-571 | When such a replica gets the lock, its first sync leaves the same sign jobs as one of the former holder |
| `SchedulerSync.NamesCollide` | backend/scheduler/__init__.py:521 | Different accounts and tasks can share a job id |
| `SchedulerSync.LastRowDecidesExact` | backend/scheduler/__init__.py:512-563 | Of several rows with one id the last decides exactly under the stated condition |
| `SchedulerSync.DisabledThenEnabledLosesJob` | backend/scheduler/__init__.py:524-547 | A disabled row before an enabled one of the same id loses the job |
| `SchedulerSync.SharedIdsNeedTwoSyncs` | backend/scheduler/__init__.py:524-555 | An enabled row before a disabled one needs a second sync |
| `SchedulerSync.Scheduler.SyncRow` | backend/scheduler/__init__.py:524-563 | One row removes, reschedules, adds or leaves its job |
| `SchedulerSync.Scheduler.RemoveAll` | backend/scheduler/__init__.py:500-506 | Removal of a set of ids ignores those already gone |
| `SchedulerSync.Scheduler.SyncJobs` | backend/scheduler/__init__.py:459-571 | The loops compute the specified job table; a replica without the lock drops business jobs when running |

## Left out

- Telegram, HTTP, database and SMTP calls: their outcomes are event parameters that may be anything.
- `close_client_by_name`, and cancellation during client start-up or its rollback: the code does not keep the count there.
- Account rename during a live run: it re-keys dictionaries under running tasks.
- Run status records, phases and their cleanup timers (backend/services/sign_tasks.py:174-188, 1176-1201): they steer nothing in the protocols.
- Cancellation during finalisation of a run: `TaskRun` lets finalisation raise at any point, but not stop between flag and timer.
- `on_message` cache trimming, action delays and log text: fixed English texts stand for the messages, and the run id that a background run notes first is its first logged line.
- Junk lines and file sizes of the history index are inputs, and there are no blank lines, which a removal would drop; failing file operations are not modelled.
- Failing job-file writes, job results, progress counters and summaries; several kinds of jobs in one store. Runs of the store have distinct creation times; of equal ones only what `TiesExact` says is stated.
- JobStore.BackgroundJobStore.WriteJob: a crash is one of the process; the directory is not synced (backend/utils/atomic_io.py:28-36), so a rename that a power loss undoes is not modelled.
- `list_jobs`: the order of its answer is not modelled, only which jobs it lists.
- `build_proxy_dict`: it does not unquote, so it is no inverse of the printer.
- Proxy settings: bypass-list checks are one truth value, ports are integers, and texts with lone surrogates are not represented.
- Session files: reading SQLite, the cached copy and conversions of non-integer columns.
- ReconcileRunner.ProxyRuntime.ScheduleReconcile: a handle that belongs to another event loop is not modelled; the service runs one loop.
- RateLimiter.InMemoryRateLimiter.Hit: the clock is read before the lock is taken, so with several threads readings can enter out of order; the model's clock never goes back.
- TtlCache.TTLCache.Set: the same holds of the cache's clock readings, in `PurgeExpired` too.
- The environment variables a reconcile pass applies, and what it restarts.
- Cron syntax, automatic backups and the keep-alive job, which have ids of their own.
- Password hashing, encryption, tokens, redaction and the front end.
