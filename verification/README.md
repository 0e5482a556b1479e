# Verification of the jimeng gateway

A Dafny 4.11 model of the gateway that queues image and video generation over a pool of upstream
sessions, of the older TypeScript service beside it, and of the byte formats both of them write.
`dafny verify dfyconfig.toml` checks everything.

## What is modelled

**The gateway as a concurrent machine** (`Tables`, `Gateway`, `Ownership`, `Cancellation`, `Announcement`,
`CancelOutcome`, `Stranding`, `RowHistory`, `Accounting`, and `Reachability` for runs from a first start).
N workers, HTTP requests, crashes and restarts act on one SQLite store. SQLite serialises writes, so a step
is one SQL statement. Each worker carries a program counter, the task it holds and the session it holds.
Guards are as the program has them: the claim, the cancel, the success write and the pick check what they
update, all the other writes do not. Every statement that a worker issues may fail; a failed statement has no
effect and the worker goes on as its code does. What the upstream service answers is arbitrary.

**The same statements as objects** (`Store`, `Queue`, `Pool`, `PoolRuns`, `Dispatcher`). The database, the task
queue, the session pool with its in-memory vector and the dispatcher are classes whose methods update their
fields. Their contracts equate the new state with the row functions that the machine uses.

**Webhook deliveries** (`Webhook`, `RetryRuns`): claim, POST, record, retry with backoff, recordings that fail, crashes.

**The token bucket** (`RateLimiter`) over real time, with any history of calls, removals and restarts.

**The daily quota** (`Quota`): check, create, record, with requests of one key overlapping, midnight between
them, reads and writes that fail, requests that end early, and crashes.

**Byte formats**: the two multipart readers (`Text`, `Multipart`, `FormData`, `FormFields`), the table-driven CRC-32
(`Crc32`, `Crc32Residue`), the request signature (`Bytes`, `StreamCipher`, `Rc4Trace`, `ShuffledBase64`, `Abogus`), the prompt segmenter of both
services (`Blanks`, `MetaList`, `MetaListAgreement`, `MetaListReadings`) and the canonical request of AWS Signature Version 4 (`SigV4`,
`CanonicalForm`, `QueryReadings`, `OlderSignature`).

## Where the code differs from what it says or promises

- A cancelled row can still be overwritten while a worker holds it: exactly where is `Cancellation.CancelSticksExactly`,
  and `Cancellation.CancelAfterClaimIsLost` and `Cancellation.FailedReadLosesCancel` are runs that lose a cancel.
- A finished task with a webhook is not always announced: exactly when is `Announcement.FinishedIsAnnouncedExactly`, and
  `Announcement.FailedReadSilences` is a run that ends without.
- Which cancelled tasks are announced depends on where the cancel meets the worker: `CancelOutcome.CancelIsAnnouncedExactly`.
- A task can be left behind in a transient status: exactly when is `Stranding.RunStrandsExactly`, and
  `Stranding.FailedRequeueStrands` is a run that leaves one without a crash.
- More than one delivery can be in `sending`: how many is `Webhook.SendingCount`, a run with two is `Webhook.TwoSending`.
- A file whose field name ends in `filename=` loses its name, a text value that contains `filename="` is read by
  nobody, and a boundary parameter in quotes or with another one behind it hides every part (`FormData.FilenameKept`,
  `FormFields.FieldRead`, `FormData.QuotedBoundaryLosesFiles`, `FormData.BoundaryReadExactly`).
- `@0` and numbers beyond usize mean the first material in Rust and nothing in TypeScript, which also accepts
  placeholders in capitals (`MetaListAgreement.Agreement`).
- Bytes 36 and 38 of the signature are commented as the high halves of the times; the code writes 0
  (`Abogus.SignatureReads`).
- Decoded query values are joined without being encoded again, so the canonical query rarely determines the parameters:
  exactly when is `QueryReadings.SecondReadingExactly`. Repeated names keep their order
  (`CanonicalForm.RepeatedNameKeepsOrder`).
- The two services sort query names by different orders and trim header values differently (`OlderSignature.QueriesAgree`,
  `OlderSignature.BlocksAgree`).
- The quota can be overshot by the requests that are between check and record, and by any number of tasks that were created
  but never recorded (`Quota.OvershootIsAttained`).

## Model

| member | source | states |
|---|---|---|
| Ownership.RowStep | src/queue/worker.rs:82-138 | one move of a worker, with the statement working or failing: what the worker may rely on about its row holds again after the move, a delivery is inserted only for the final status the row has, and a worker past its last status write never updates the row |
| Ownership.WorkFrame | src/queue/worker.rs:32-137 | a worker statement updates at most the row of the task that the worker holds or claims, and adds at most one delivery row |
| Ownership.WorkTask | src/queue/worker.rs:32-66 | a claim never takes a task that another worker holds, and no move makes a worker hold another worker's task |
| Ownership.WorkSpares | src/queue/worker.rs:68-138 | a task held by one worker is neither updated nor announced by another |
| Ownership.WorkKeepsRows | src/queue/worker.rs:89-138 | after any worker statement every delivery row still names the final status its task has; a succeeded row has its URL and finish time, a failed one its message, a cancelled one its finish time |
| Ownership.RequestKeepsInv | src/queue/mod.rs:218-228 | creating, cancelling and session edits keep the ownership invariant at any moment |
| Ownership.RecoverKeepsInv | src/db/mod.rs:156-185 | each recovery statement keeps it, run before any worker exists |
| Ownership.StepKeepsInv | src/queue/worker.rs:26-141 | every action of the gateway keeps it: worker statements that work or fail, requests, ticks, crashes and recovery, in any order |
| Ownership.RunIsSafe | src/main.rs:60-86 | in every state reachable from an empty database with any number of workers: no task has two holders, no held task is queued or announced, and every delivery row names the status its task has |
| Ownership.QueuedIsFree | src/queue/worker.rs:32-66 | a queued task is held by nobody |
| Ownership.TerminalAbsorbs | src/queue/mod.rs:218-228 | one step: the row of a task with a final status, cancelled included, is not changed by any action while no worker is before its last status write; what a holder can still do to a cancelled row is CancelSticksExactly |
| Ownership.FinishedAbsorbs | src/queue/worker.rs:91-126 | succeeded and failed rows never change |
| Ownership.AnnouncedIsSettled | src/webhook.rs:20-97 | once a delivery row is written it stays, and the task's row, whose status is the announced event, never changes again |
| Announcement.OnlyWebhooksAreAnnounced | src/webhook.rs:30-42 | in every reachable state a delivery row belongs to a task that asked for a webhook and names its final status |
| RowHistory.RowsRemember | src/db/mod.rs:163-171 | whatever the gateway does, a task row keeps its payload, webhook and creation time, and any change stamps it with the time that recovery goes by |
| RowHistory.WorkTakesEffect | src/queue/worker.rs:53-129 | where a worker is decides what its statement makes of its task's row, field by field: success brings the URL it got, failure its error, both the finish time |
| RowHistory.ClaimIsExplained | src/queue/worker.rs:32-37 | a claim takes a queued task none of the queued ones is older than, and stamps its start |
| RowHistory.PickIsExplained | src/pool/mod.rs:45-50 | a worker takes an enabled, healthy session with less than two tasks, none of them used longer ago; the pick is counted and stamped |
| RowHistory.NothingIsExplained | src/queue/worker.rs:32-66 | a worker goes on without a task only if none is queued, and gives its task back only if no session is free, or the statement failed |
| RowHistory.ReleaseIsExplained | src/queue/worker.rs:101-129 | a release counts a success exactly after a success, else a failure, and one task less |
| Announcement.ErrorTakesSessionOut | src/queue/worker.rs:130-134 | a run from a first start in which an error takes the session out of the pool after its release |
| Cancellation.SilentForever | src/queue/worker.rs:107-112 | a finished task that nobody holds and nobody announced is never announced and never changes |
| Cancellation.DoomedWork | src/queue/worker.rs:212-215 | a worker whose task was cancelled while it slept gets one move nearer to letting go with each move, writes nothing to the row, and at the end releases its session as a failure |
| Cancellation.DoomedStep | src/queue/worker.rs:107-112 | whatever else the gateway does, crash and restart included, such a task stays cancelled and unannounced |
| Cancellation.CancelDuringSleepSticks | src/queue/worker.rs:288-348 | a cancel that lands while the worker sleeps between polls: in every later state of the run the task is cancelled and has no delivery row, given that the worker's own status reads work |
| Cancellation.CancelSticksExactly | src/queue/worker.rs:45-129 | in every state reachable from a first start, for a cancelled task in the hands of a worker: every continuation in which that worker's reads of the status work keeps it cancelled, if and only if the worker is past its last status write, in the guarded success write, about to read the status, asleep between polls, or fetching the final URL |
| Cancellation.CancelIsOverwritten | src/queue/worker.rs:53-66 | from every other place of the worker at most three of its own moves, none of them a failed status read, lead to a state in which the task is no longer cancelled |
| Cancellation.CancelAfterClaimIsLost | src/queue/worker.rs:45-66 | a run from a first start, without any failure, in which a cancel right after the claim is lost as the worker finds no session and puts the task back in the queue |
| Cancellation.FailedReadLosesCancel | src/queue/worker.rs:599-608 | a run from a first start in which a cancel that landed during the sleep is lost because one status read fails |
| Announcement.PromiseIsKept | src/queue/worker.rs:103-137 | for a task with a webhook and a final status whose holder is on the way to announce it (for a cancelled one also from the fetch of the final URL on): after any action its row is unchanged and it is announced or still about to be, exactly if the action is neither a crash nor that holder's own failed read or insert; otherwise it is silent |
| Announcement.FinishedIsAnnouncedExactly | src/webhook.rs:20-97 | in every state of every run, whatever else failed: a succeeded or failed task with a webhook has its delivery row or a worker on the way to write it, if and only if no such action hit it since its outcome was written; otherwise it will never be announced |
| Announcement.FailedReadSilences | src/webhook.rs:21-33 | a run from a first start that ends with a failed task whose webhook is never announced, as one read failed |
| CancelOutcome.CancelIsAnnouncedExactly | src/queue/worker.rs:91-112 | in every reachable state, for a cancelled task with a webhook whose holder is where the cancel sticks: if and only if the holder is announcing already or has at most the guarded success write before it, the task is announced, or about to be, along every continuation that does not silence it; if and only if not, no continuation with working status reads announces it |
| CancelOutcome.PromiseAlong | src/webhook.rs:20-97 | along any continuation a finished task about to be announced stays so exactly if no action of it silences the task, and ends silent otherwise |
| CancelOutcome.QueuedCancelIsSilent | src/queue/mod.rs:218-228 | a cancel that lands in the queue is never announced |
| Stranding.StrandedExactly | src/queue/worker.rs:53-129 | one action: a task is in a transient status with nobody left to write it exactly if it was before and this is no rescue, or if this is a crash or its holder's own failed re-queue, success or failure write; its row does not change meanwhile, and a rescue cancels it or queues it |
| Stranding.RunStrandsExactly | src/db/mod.rs:163-171 | in every state of every run a transient task has a worker that will still write its status, unless such an action left it behind and since then neither a cancel (not while downloading) nor a restart after more than 600 idle seconds came |
| Stranding.FailedRequeueStrands | src/queue/worker.rs:53-66 | a run from a first start, without a crash, in which one failed write leaves a task behind |
| Accounting.ReleaseIsCounted | src/pool/mod.rs:75-84 | whoever releases a session is still counted, so MAX(0, ..) never clamps |
| Accounting.WorkKeepsSession | src/pool/mod.rs:43-103 | after any worker statement the counter of each row is its holders plus the releases that failed, and its totals balance |
| Accounting.WorkKeepsCap | src/pool/mod.rs:45-49 | a pick never gives a session a third holder |
| Accounting.RestartKeepsInv | src/db/mod.rs:156-161 | a crash and each recovery statement keep the accounts; what the reset forgets is booked as lost |
| Accounting.StepKeepsInv | src/pool/mod.rs:43-187 | every action of the gateway keeps the accounts |
| Accounting.RunIsBalanced | src/pool/mod.rs:43-103 | in every reachable state, whatever failed: nobody exceeds two holders, total = success + fail, and picks = success + fail + active + lost to restarts; outside startup active_tasks is the number of holders plus failed releases |
| Accounting.CounterIsExact | src/pool/mod.rs:43-103 | if release statements work, active_tasks is exactly the number of workers between pick and release, at most 2 |
| Tables.ClaimableExists | src/queue/worker.rs:32-37 | if a task is queued there is an oldest queued one to claim |
| Tables.PickableExists | src/pool/mod.rs:45-49 | if a session is available there is a least recently used one to pick |
| Store.Database.RecoverOnStartup | src/db/mod.rs:156-185 | afterwards no session counts as active, of the tasks exactly the transient ones idle for more than 600 seconds are queued again, no delivery is in sending and one that was is due from its old next attempt time on; all else is unchanged, and every ledger that accounted for a delivery row still does |
| Store.RecoveryExact | src/db/mod.rs:163-171 | recovery queues a task again exactly when it is transient and was idle for more than 600 seconds; running it again changes nothing |
| Queue.TaskQueue.Enqueue | src/queue/mod.rs:110-169 | one new queued row, created now, with the request's values or the defaults spelled out, nothing else changed |
| Queue.TaskQueue.CancelTask | src/queue/mod.rs:218-228 | cancels exactly the queued, submitting and polling tasks and says whether it did |
| Queue.TaskQueue.RetryTask | src/queue/mod.rs:231-259 | adds one queued copy of what the client sent, without webhook, and leaves the original as it is |
| Queue.TaskQueue.ClaimTask | src/queue/worker.rs:32-43 | claims an oldest queued task, and none exactly when none is queued |
| Pool.ReleaseMatches | src/pool/mod.rs:75-103 | saturating decrement in memory and clamped decrement in the table give the same counter exactly when the counter was at least 1 |
| Pool.UpdateAgrees | src/pool/mod.rs:57-64 | replacing an entry and its row keeps vector and table in agreement exactly when the two match |
| Pool.RemoveAgrees | src/pool/mod.rs:157-165 | dropping a session from vector and table keeps them in agreement |
| Pool.PicksRotate | src/pool/mod.rs:45-50 | a session that was just picked is not the next one while another free one was never used or was used before |
| Pool.SessionPool.LoadSessions | src/pool/mod.rs:27-40 | the vector holds every row once, equal to the table, ordered by creation time |
| Pool.SessionPool.PickSession | src/pool/mod.rs:43-67 | picks, of the enabled, healthy sessions with less than two tasks, the one used longest ago, none exactly when there is none; its counter goes up by one and its last use is now, in both copies |
| Pool.SessionPool.ReleaseSession | src/pool/mod.rs:75-103 | the counters of both copies after a release, by success or failure; agreement is kept exactly when the session was counted as active, is unknown, or the statement failed |
| Pool.SessionPool.MarkUnhealthy | src/pool/mod.rs:106-119 | both copies lose their health and nothing else |
| Pool.SessionPool.AddSession | src/pool/mod.rs:122-154 | one new row and one new entry, equal |
| Pool.SessionPool.RemoveSession | src/pool/mod.rs:157-165 | row and entry disappear, and the result says whether there was a row |
| Pool.SessionPool.ToggleSession | src/pool/mod.rs:168-187 | both copies are enabled or disabled alike; enabling also restores health |
| Pool.SessionPool.UpdateCookieJar | src/pool/mod.rs:190-204 | both copies get the new cookie jar, in agreement or not before; agreement is kept |
| PoolRuns.StepInSync | src/pool/mod.rs:75-103 | with pool operations one at a time, every gateway action, cookie jar updates included, keeps vector and table in agreement on everything but last_error |
| PoolRuns.RunInSync | src/pool/mod.rs:26-204 | the same in every state of every run outside startup; it rests on the accounting invariant |
| Webhook.BackoffExact | src/webhook.rs:10-14 | for attempts 1 to 7 the backoff is 30 * 2^(k-1), at most 1920: the cap of 3600 never binds and the doubling stays small |
| Webhook.RecordKeepsRow | src/webhook.rs:197-228 | recording an outcome keeps the row's ledger and the spacing of its attempts |
| Webhook.StepKeepsInv | src/webhook.rs:100-228 | claims, POSTs, recordings that work or fail, inserts, crashes and restarts keep the ledger of every row |
| Webhook.RunKeepsInv | src/webhook.rs:100-228 | the same along every run |
| Webhook.AttemptLedger | src/webhook.rs:113-193 | POSTs made = counted attempts + outcomes lost + the one in flight; at most 8 are counted, failed means 8, retrying means 1 to 7, delivered means at least one POST |
| Webhook.SendingExactly | src/webhook.rs:113-122 | in every reachable state after startup a row is in sending exactly if it is the dispatcher's current one or its recording failed since the last start |
| Webhook.SendingCount | src/webhook.rs:113-122 | so there are as many as rows whose recording failed, plus one for the current one, and at most one if and only if that number is at most one |
| Webhook.TwoSending | src/webhook.rs:171-193 | a run in which one recording fails and two rows are in sending |
| Webhook.AttemptsAreSpaced | src/webhook.rs:211-226 | counted attempts k and k+1 are at least 30 * 2^(k-1) seconds apart, restarts included |
| Webhook.GivingUpTakesAnHour | src/webhook.rs:197-210 | a delivery that failed for good was tried over at least 3810 seconds |
| RetryRuns.EightFailuresGiveUp | src/webhook.rs:110-228 | a run from the start in which a delivery is claimed again each time its backoff is over: eight counted failures at 0, 30, 90, 210, 450, 930, 1890 and 3810 seconds, then it is given up |
| RetryRuns.RoundFails | src/webhook.rs:113-228 | a pending or retrying row whose time has come can be claimed, posted and recorded, for any row and ledger |
| Webhook.ClosedAbsorbs | src/webhook.rs:171-210 | delivered and failed rows never change and are never posted again |
| Dispatcher.Dispatcher.ClaimDue | src/webhook.rs:113-136 | claims, of the pending and retrying deliveries whose time has come, the one waiting longest, none exactly when there is none, and numbers its attempt |
| Dispatcher.Dispatcher.RecordSuccess | src/webhook.rs:174-184 | the row is delivered, keeps its next attempt time and is never due again; other rows are untouched; if the row was being sent with one POST out, its ledger with this attempt counted now accounts for it with none out |
| Dispatcher.Dispatcher.HandleRetry | src/webhook.rs:197-228 | gives up for good at the eighth attempt; before it the delivery is due again exactly from 30 * 2^(k-1) seconds after attempt k on; the ledger with this attempt counted accounts for the new row |
| RateLimiter.Limiter.Check | src/auth/rate_limiter.rs:34-90 | the new buckets and the verdict of one call; limit 0 is let through with zeros and without a bucket; tokens stay between 0 and the limit |
| RateLimiter.Limiter.Remove | src/auth/rate_limiter.rs:93-95 | only the key's bucket goes |
| RateLimiter.RefillIsSound | src/auth/rate_limiter.rs:55-65 | after the limit is brought up to date and the bucket refilled it holds min(tokens + elapsed * limit/60, limit) |
| RateLimiter.KeysAreIndependent | src/auth/rate_limiter.rs:44-53 | the verdicts of a key over any history are those over the events that concern it |
| RateLimiter.TokensConserved | src/auth/rate_limiter.rs:61-89 | calls allowed never exceed the level at the start, the refill, and what thrown-away buckets give back |
| RateLimiter.WindowBound | src/auth/rate_limiter.rs:34-90 | in any window of T seconds of any history with a forward clock, a key whose limit stays at or below R gets at most R + R*T/60 calls, and R more for each removal or restart |
| RateLimiter.BurstIsExact | src/auth/rate_limiter.rs:67-89 | of n calls at one instant, min(n, whole tokens) are allowed |
| RateLimiter.RemainingIsExact | src/auth/rate_limiter.rs:67-80 | after an allowed call, of n more calls at that instant exactly min(n, remaining) are allowed |
| RateLimiter.BoundIsAttained | src/auth/rate_limiter.rs:34-90 | the bound is reached, for every R and every whole number of minutes |
| RateLimiter.DeniedCallsKeepPromise | src/auth/rate_limiter.rs:61-65 | refilling does not depend on how an interval is cut by denied calls |
| RateLimiter.RetryAfterIsSound | src/auth/rate_limiter.rs:67-89 | a call at least reset_secs after any verdict is allowed, whatever denied calls and calls on other keys came between |
| RateLimiter.RetryAfterIsTight | src/auth/rate_limiter.rs:81-89 | after a denial no call up to reset_secs - 1 is allowed |
| RateLimiter.VerdictIsExact | src/auth/rate_limiter.rs:61-89 | the whole verdict from the tokens there are: allowed from one on, the whole tokens left, and the least number of seconds that bring the missing token |
| Quota.RowIdsAgree | src/auth/usage.rs:6-7 | two usage rows share a primary key only if they share key and date |
| Quota.UsageTracker.RecordRequest | src/auth/usage.rs:5-19 | one more request for that key and day, every other count as before |
| Quota.UsageTracker.RecordTask | src/auth/usage.rs:22-37 | one more task for that key and day, every other count as before |
| Quota.UsageTracker.TodayTaskCount | src/routes/compat.rs:39-42 | the count of today, 0 when there is no row or the read fails |
| Quota.UpsertsLoseNothing | src/auth/usage.rs:26-36 | along every run each count is the number of tasks whose recording for that key and day took effect |
| Quota.TurnedAwayExactly | src/routes/compat.rs:37-54 | a caller is turned away exactly without admin scope, with a quota, and with a count that could be read and has reached it |
| Quota.StepKeepsBounded | src/routes/compat.rs:37-54 | today's count plus the requests that may still add to it, and the tasks created each day, stay within their bounds over checks, creations, aborts, recordings, midnight and crashes |
| Quota.OvershootBound | src/routes/compat.rs:91-105 | with at most K requests of a key between check and record, at most Q + K - 1 tasks are counted on any day, plus those whose check could not read; and at most Q + K - 1 are created on any day, plus those whose check could not read and those never counted as their recording failed or the request or process died before it |
| Quota.OvershootIsAttained | src/routes/compat.rs:91-105 | both bounds are reached for every Q and K and any number n of creations lost to crashes: Q + K - 1 tasks counted and Q + K - 1 + n created on one day |
| Quota.MidnightMovesTheCount | src/auth/usage.rs:22-37 | a task created before midnight and recorded after it counts for the new day |
| Text.FindIsLeftmost | src/queue/worker.rs:588-590 | the position found is the leftmost occurrence, and none is reported only if there is none |
| Multipart.CutAtDelimiters | src/queue/worker.rs:531-543 | the loop terminates in bounds and cuts the body at its delimiters, dropping what comes before the first and an empty rest |
| Multipart.ExtractMultipartFiles | src/queue/worker.rs:517-585 | the two loops compute the files of the parts |
| Multipart.ExtractMultipartFields | src/routes/compat.rs:138-189 | the loop computes the six fields, later parts overwriting earlier ones |
| FormData.BoundaryFound | src/queue/worker.rs:518-522 | a trimmed boundary is read back from its content type |
| FormData.BodySplits | src/queue/worker.rs:531-543 | the delimiters of an encoded form cut it into exactly the parts written and the closing mark, if the delimiter is in no header and no content |
| FormData.FileRead | src/queue/worker.rs:545-582 | a file part gives back its name, type (or the default) and every byte of its data, one line end removed, unless its name is empty; a text part is never taken for a file |
| FormData.FirstTypeCounts | src/queue/worker.rs:572-575 | of several content-type lines the first one counts, in any case |
| FormData.FilesRoundTrip | src/queue/worker.rs:517-585 | for every form, file inputs without a chosen file included, the file reader returns exactly its named files in order |
| FormData.FilenameKept | src/queue/worker.rs:566-569 | a file part is a file exactly when its file name is not empty or its field name ends in filename=; the file name is kept exactly when it is not empty and, in the second case, is the one that all of them read as |
| FormData.FilenameIsLost | src/queue/worker.rs:566-569 | a field named filename= yields the file name "; filename=" |
| FormData.QuotedBoundaryLosesFiles | src/queue/worker.rs:518-528 | with the boundary parameter in quotes the reader finds no files at all, if the delimiter with its quotes is nowhere in the body |
| FormData.BoundaryReadExactly | src/queue/worker.rs:518-585 | with any text behind the boundary parameter, such as a charset, the reader finds no file at all, and without it all files of the form |
| FormFields.FieldRead | src/routes/compat.rs:160-186 | a text part is read with its name and trimmed value exactly when its value does not contain the file-name marker and its name does not end like it; a file part never is |
| FormFields.PromptIsLost | src/routes/compat.rs:166-169 | a prompt that contains the marker reaches neither reader |
| Multipart.ParseReadsDecimals | src/routes/compat.rs:177-177 | a duration in decimal is read back exactly if it fits 32 bits, and not at all otherwise |
| Multipart.OnlyNumbersAreRead | src/routes/compat.rs:177-177 | nothing but digits behind an optional sign is read |
| FormFields.LastWins | src/routes/compat.rs:174-182 | prompt, model and duration come from the last part that names them; a last duration that is no i32 clears it |
| FormFields.ReadersShareTheBody | src/routes/compat.rs:138-189 | on one body, files go only to the file reader and each field has the value of the last text part of its name |
| Crc32.TableStep | jimeng-free-api-fork/src/api/controllers/images.ts:245-252 | eight shifts of a register equal one table lookup on its low byte |
| Crc32.CalculateCRC32 | jimeng-free-api-fork/src/api/controllers/images.ts:244-260 | the table-driven loop computes the bit-by-bit checksum of every byte sequence |
| Crc32.BuildTable | jimeng-free-api-fork/src/api/controllers/videos.ts:290-297 | the table holds eight shifts of each byte |
| Crc32.AbsorbInjective | jimeng-free-api-fork/src/api/controllers/images.ts:254-258 | two registers that differ still differ after the same bytes |
| Crc32.BurstDetected | jimeng-free-api-fork/src/api/controllers/videos.ts:299-305 | inputs that differ only within four adjacent bytes never share a checksum |
| Crc32.SingleByteDetected | jimeng-free-api-fork/src/api/controllers/videos.ts:299-305 | inputs of equal length that differ in exactly one byte never share a checksum |
| Crc32Residue.CheckValue | jimeng-free-api-fork/src/api/controllers/images.ts:244-260 | the checksum of 123456789 is CBF43926 |
| Crc32Residue.ResidueIsConstant | jimeng-free-api-fork/src/api/controllers/images.ts:244-260 | a message followed by its own checksum leaves the constant register DEBB20E3, whatever the message |
| Bytes.XorCancels | src/jimeng/abogus.rs:70-70 | XOR with the same byte twice gives the byte back |
| StreamCipher.TableStaysPermutation | src/jimeng/abogus.rs:53-70 | the table holds every byte exactly once after key scheduling and after any number of bytes |
| StreamCipher.Rc4Inverts | src/jimeng/abogus.rs:52-73 | encrypting twice gives the data back, for every data and every key that is not empty |
| Rc4Trace.EncryptRc4 | src/jimeng/abogus.rs:52-73 | the in-place loops compute RC4, as its trace defines it |
| Rc4Trace.Rc4Exactly | src/jimeng/abogus.rs:52-73 | the functional cipher is the one output whose tables and indices follow the rules: the identity table, the key added at each of 256 rounds, the exchanges, and each byte of data combined bit by bit with the table entry of the sum |
| ShuffledBase64.ValueOfLetter | src/jimeng/abogus.rs:14-15 | the 64 letters are distinct and none is the padding |
| ShuffledBase64.CustomB64Encode | src/jimeng/abogus.rs:76-105 | the loop over chunks with its padding computes the encoding |
| ShuffledBase64.DecodeEncode | src/jimeng/abogus.rs:76-105 | decoding undoes it, and the length is 4 * ceil(n / 3) |
| Abogus.Generate | src/jimeng/abogus.rs:213-238 | the signature is the encoding of the nonce and the encrypted structure, fingerprint and checksum |
| Abogus.SignatureOpens | src/jimeng/abogus.rs:227-238 | decoding gives the nonce, and behind it, decrypted with the key y, the plaintext |
| Abogus.SignatureReads | src/jimeng/abogus.rs:137-225 | from a signature alone every byte: the low 32 bits of both times, the six hash bytes, the fixed bytes, the zeroes (36 and 38 among them, not the high halves their comments name), the fingerprint, and a last byte that is the XOR of the first 44 |
| Abogus.ChecksumSeesOneByte | src/jimeng/abogus.rs:216-217 | changing any one byte changes the checksum |
| MetaList.BuildMetaList | src/jimeng/submit.rs:551-612 | the loop over captures emits the pieces in order, with the fallback |
| MetaList.BuildMetaListFromPrompt | jimeng-free-api-fork/src/api/controllers/videos.ts:2429-2494 | the same for the TypeScript loop |
| MetaListAgreement.PiecesMakeThePrompt | src/jimeng/submit.rs:559-589 | the pieces, joined, are the prompt |
| MetaListAgreement.PlainPiecesArePlain | src/jimeng/submit.rs:562-567 | plain pieces are not empty and hold no placeholder |
| MetaListAgreement.RefPiecesAreWhole | src/jimeng/submit.rs:556-571 | the other pieces are whole placeholders with all their digits |
| MetaListAgreement.NumberOfDigits | src/jimeng/submit.rs:570-570 | the number of a placeholder is what its decimal digits say |
| MetaListAgreement.TextsAreKept | src/jimeng/submit.rs:583-589 | the texts emitted are exactly the plain pieces that are not blank |
| MetaListAgreement.ReferencesInRange | src/jimeng/submit.rs:570-578 | every reference is to a material that exists and carries its type |
| MetaListAgreement.FallbackNamesAll | src/jimeng/submit.rs:591-609 | when nothing is left the list has 2n + 1 entries and names each of n materials once, in order |
| MetaListAgreement.Agreement | jimeng-free-api-fork/src/api/controllers/videos.ts:2429-2494 | for every prompt and materials, Rust and TypeScript build the same list exactly when no placeholder is in capitals, no number is 0 or above usize, no text is blank to one only, and there is a material or some text |
| MetaListAgreement.ZeroDiffers | src/jimeng/submit.rs:570-578 | @0 is the first material to Rust and nothing to TypeScript |
| MetaListReadings.ReferencesAreTheNumbers | src/jimeng/submit.rs:570-578 | if the prompt leaves anything, the references of the list are, in order, to the materials that its placeholders number from 1 on, each with its type, and its texts are the prompt's in order; to Rust 0 and numbers above usize mean the first |
| MetaListReadings.PromptReadsBack | src/jimeng/submit.rs:559-589 | round trip: a prompt whose placeholders are all @n for a material there is, with no blank text, is read back from its list |
| MetaListReadings.PlaceholderMeans | src/jimeng/submit.rs:556-578 | @, @图 and @image (to TypeScript in any case) before the number n give the n-th material and nothing else |
| MetaListReadings.BothAreNamed | src/jimeng/submit.rs:591-609 | the fixed words of the list for a prompt that names nothing |
| SigV4.SortIsStable | src/jimeng/upload.rs:53-53 | pairs of one name keep their order |
| SigV4.SortDependsOn | src/jimeng/upload.rs:53-53 | two lists sort alike exactly when they hold the same pairs name by name in the same order |
| SigV4.Aws4CanonicalRequest | src/jimeng/upload.rs:49-88 | pushing, sorting and joining compute the canonical request |
| CanonicalForm.RequestForgetsOrder | src/jimeng/upload.rs:49-88 | rearranging query parameters or headers with distinct names leaves the canonical request as it is |
| CanonicalForm.RepeatedNameKeepsOrder | src/jimeng/upload.rs:53-53 | with a repeated parameter the order matters, as values are not sorted |
| CanonicalForm.SignedAreStrictlySorted | src/jimeng/upload.rs:59-80 | signed names are strictly increasing; the token and payload-hash headers are there once exactly when wanted or passed by the caller |
| CanonicalForm.HashHeaderValue | src/jimeng/upload.rs:69-74 | the hash header carries the payload hash exactly when the caller passed no other value |
| CanonicalForm.TokenHeaderValue | src/jimeng/upload.rs:64-68 | the same for the token header |
| CanonicalForm.LowerNamesAre | src/jimeng/upload.rs:59-62 | every header is signed under its name in lower case with its own value |
| CanonicalForm.PayloadIsSigned | src/jimeng/upload.rs:69-74 | the payload counts for POST in any case, unless it is empty |
| CanonicalForm.NamesCompareByCodePoints | src/jimeng/upload.rs:53-53 | the sort compares names at their first difference by code point |
| CanonicalForm.SignedNamesAreTheLines | src/jimeng/upload.rs:79-83 | the signed-header list, read back, names exactly the header lines in their order |
| CanonicalForm.RequestReadsBack | src/jimeng/upload.rs:85-88 | cut at its line feeds the request shows verb, path, query, one line per signed header, an empty line, the signed names and the hash, in this order |
| CanonicalForm.QueryReadsBack | src/jimeng/upload.rs:49-57 | the sorted parameters can be read off the canonical query if none holds a separator |
| CanonicalForm.CanonicalQueryIsExact | src/jimeng/upload.rs:49-57 | two queries without separators have one canonical form exactly when they hold the same pairs name by name |
| QueryReadings.SecondReadingExactly | src/jimeng/upload.rs:49-57 | for every query: another query, different under some name, has the same canonical form if and only if that text holds two equals signs, that is, if there are two parameters or more, or a single one with an equals sign in its name or value |
| CanonicalForm.SeparatorsAreAmbiguous | src/jimeng/upload.rs:54-57 | a value with separators reads like two parameters, as nothing is encoded again |
| OlderSignature.Utf16ComparesUnits | jimeng-free-api-fork/src/api/controllers/images.ts:160-164 | the order of the older service compares the UTF-16 units of two names |
| OlderSignature.QueriesAgree | jimeng-free-api-fork/src/api/controllers/images.ts:160-168 | both services write the same query if and only if no two of its names trade places between code points and UTF-16 units |
| OlderSignature.QueriesDisagree | jimeng-free-api-fork/src/api/controllers/images.ts:160-168 | the names U+FF01 and U+1F600 do trade places |
| OlderSignature.BlocksAgree | jimeng-free-api-fork/src/api/controllers/images.ts:194-197 | the header lines of both services are the same if and only if both languages trim every value alike |
| OlderSignature.TrimsDiffer | jimeng-free-api-fork/src/api/controllers/images.ts:196-196 | a value that starts with U+FEFF is trimmed by JavaScript and kept by Rust |
| Blanks.BlanksAreWhiteSpace | jimeng-free-api-fork/src/api/controllers/images.ts:196-196 | what either language trims: the Unicode white space, JavaScript without U+0085 and with U+FEFF |
| OlderSignature.ServicesAgree | jimeng-free-api-fork/src/api/controllers/images.ts:152-207 | for a request that signs its date, gateway and older service build the same canonical request if and only if the token is not the empty string, no two query names trade places, and both languages trim date, token and hash alike |

## Left out

- HTTP, curl, the headless browser and JSON payloads: poll and submit results are arbitrary inputs.
- SM3, SHA-256, HMAC: digests are parameters of the canonical request and of the signature; deriving the signing key and the credential scope (and the panic on a date shorter than 8 characters) is not modelled.
- UUIDs are fresh by assumption, random nonces are arbitrary; `random_list` masks are not modelled.
- The clock: `datetime('now')` and `Instant` never run backwards; SQLite times are whole seconds.
- Integer widths of counters (`total_tasks`, `task_count` and the like are i32 in Rust) are unbounded, except where `saturating_sub` and `parse` need them.
- The `running` counter, queue positions and error kinds of a task are not part of its row; deadlines and timeouts are arbitrary failures.
- A statement that fails has no effect. A write that took effect but was reported as failed is not modelled.
- Pool.SessionPool.ReleaseSession: operations run one at a time; that a pick's vector update can land after another worker's release is not modelled, and agreement is not claimed for it. `last_error` is written to the table only.
- Cancellation.CancelDuringSleepSticks: assumes that the worker's own status reads work, because a read that fails counts as not cancelled (`Cancellation.FailedReadLosesCancel`).
- RateLimiter.Limiter.Check: uses reals for f64, so rounding is not modelled; the casts to u32 do not saturate for limits from 1 on.
- Quota.OvershootBound: speaks of keys that are checked; keys with admin scope are recorded without a check, and routes other than the two generation handlers create tasks without recording them.
- FormData.FilesRoundTrip: characters stand for bytes; lossy UTF-8 decoding and whitespace beyond ASCII are not modelled. Forms have no preamble and no epilogue, and field names hold no quotes.
- MetaListAgreement.Agreement: placeholder numbers use ASCII digits; `\d` in the Rust expression also matches other decimal digits. Vectors are no longer than usize.
- OlderSignature.ServicesAgree: `localeCompare` in the older service orders its three lower-case header names like their characters. URL parsing and decoding are given, here and in the gateway.
- CanonicalForm.PayloadIsSigned: letter case is that of ASCII; a verb or header name with other letters that change case into ASCII ones is not modelled.
- Crc32.CalculateCRC32: returns the register; writing it as eight hexadecimal digits is not modelled.
- Abogus.Generate: stops before the URL encoding.
- Tables of models and resolutions, error classification, login, configuration, logging, the dashboard, cookie building and API-key management: plumbing.
