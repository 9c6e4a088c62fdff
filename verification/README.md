# Verification of the bridge, its relay and its clients

Dafny 4.11 models of the parts of the repository whose correctness depends on more than one function, and proofs
about them. `dafny verify dfyconfig.toml` checks everything.

| file | component |
|---|---|
| `Drafts.dfy`, `Outbox.dfy`, `Dispatch.dfy`, `DispatchRuns.dfy` | the outbound draft protocol: draft rows, per-agent queues, the relay, and their interleavings |
| `TokenBucket.dfy`, `LuaBucket.dfy`, `RetryClient.dfy` | the rate limiter in its two implementations, and the client that honours its hint |
| `Idempotency.dfy` | the idempotency middleware and its pruned response table |
| `RestartPolicy.dfy`, `Lifecycle.dfy` | the process supervisor |
| `ThreadParser.dfy`, `Utf8.dfy`, `Base64Url.dfy`, `ThreadId.dfy` | IMAP THREAD responses (section 5 of RFC 5256) and opaque thread ids (section 5 of RFC 4648) |
| `Keychain.dfy`, `TokenStore.dfy` | credentials, their manifest, the cached token index, rotation |
| `ChatCursor.dfy` | the polling cursor over chat.db |
| `AppleText.dfy` | AppleScript literals and separator-framed records |
| `Prelude.dfy`, `Text.dfy` | result types; Python's `strip`, `int` and `str` on naturals |

Each component has the same layers. Specification functions say what one operation does to a value. Classes and
methods with loops follow the source step by step and are proved equal to those functions. Where operations
interleave, a step system over the functions carries an inductive invariant, and the main results are lemmas about
every run of it. Safety is not bought by refusing: lemmas such as `DraftCanBeApproved`, `CrashedChildIsRestarted`,
`WholePollHandsExactly`, `LookupGrantsWrittenScopes` and `FreshKeyAdmitsItsBurst` say what must happen, in literal
terms. The environment (clock readings, uuids, which sends fail, when polls abort, what Redis refuses, whether a
process dies) is a parameter of the steps; uuids are required to be new and non-empty, nothing else is assumed of it
except what the lemma at hand states.

## Findings

Statements that the code does not meet, each with the exact condition under which it does, or a witness.

- A PATCH that lands in `approved` always enqueues again: `bridge/src/bridge/routes/agent.py` lines 29-32 say that a
  second approval returns the current state, but it sends the message a second time (`ReapprovalSendsTwice`), and so
  does a body-only edit of an approved draft (`OwesJobIffTargetIsApproved` says exactly which PATCHes push).
- `rejected` is terminal for PATCH only: a report overrules a late rejection (`LateRejectIsOverruled`). A draft stays
  rejected exactly as long as no report for its dispatch id is correlated (`StaysRejectedIff`), and for good when it was
  never approved (`RejectedUnapprovedIsForever`). A `sent` draft shows the body that was sent exactly when no later
  accepted PATCH wrote another one (`SentBodyIffNoLateEdit`).
- A PATCH may empty a body, but the relay drops jobs with empty bodies without a report (`EmptyBodyIsDroppedSilently`):
  a handled job is reported exactly when its body is not empty (`HandlingIsReportedIff`), and such a draft stays
  approved, unsent, until another PATCH (`EmptyBodyStaysApproved`).
- The Lua script stores the current time even when the clock has stepped back, and then grants more than the window
  allows (`ClockStepBackBreaksWindow`). It keeps the bound of the in-process bucket, for every rate and burst, exactly
  on the clocks where each reading follows one at the running maximum or does not advance (`ScriptWindowBoundIff`).
- A request body cut short by a disconnect is handed to the inner application as if it were complete
  (`CutBodyLooksWhole`); the application sees what the client sent exactly when the first final message is a body chunk
  (`ReplayIsFaithfulIff`). If the cut body is answered 2xx, the client's retry with the whole body is a conflict for
  24 hours (`CutBodyBlocksRetry`, `CutBodyConflicts`).
- After a shutdown signal no child is restarted, but children may still be spawned for the first time
  (`NoRestartAfterShutdown`, `SpawnAfterSignalHappens`): exactly when startup has one left and no gate that will look at
  the flag stands before it (`StartsAfterSignalIff`).
- A second rotation within the grace period of the first ends that grace period as soon as the cache reloads
  (`OlderTokenIff`).
- `bootstrap_to_tail` is not retried after a failure, although its comment and that of the relay's `main` say so; the
  next poll hands over the whole history (`FailedBootstrapReplaysHistory`).
- `run_osascript` strips its output, and Python's whitespace includes the record and field separators. The event list
  therefore loses its last event when that event has no notes (`LastEventWithoutNotesIsDropped`,
  `RunnerRoundTripIff`).

## Model

| member | source | states |
|---|---|---|
| `Drafts.DraftStore.CreateDraft` | bridge/src/bridge/routes/agent.py:179-209 | the inserted row, column by column: pending, with no dispatch id, approval, rejection or error, and with the preview asked for or the first 80 characters of the body; every other row is unchanged |
| `Drafts.NewDraftIsPending` | bridge/src/bridge/routes/agent.py:186-209 | a new draft has content, agent, channel and reply reference as asked for and the caller as publisher, is pending with nothing done to it, and shows the preview asked for or the first 80 characters of the body |
| `Drafts.DraftStore.PatchDraft` | bridge/src/bridge/routes/agent.py:307-408 | a PATCH built column by column either refuses, with the reason of the first failing check and no change, or commits exactly the specified row and owes a job exactly when the row lands in approved |
| `Drafts.PatchIsAcceptedIff` | bridge/src/bridge/routes/agent.py:307-344 | a PATCH is accepted if and only if it changes something, asks for the status the row has or for approval or rejection of a pending, approved or failed row, and leaves the bodies of sent and rejected rows alone; the first of the three that fails is the error |
| `Drafts.DraftStore.CorrelateSendOutcome` | bridge/src/bridge/routes/agent.py:497-540 | an outcome updates one row whose dispatch id matches, whatever its status; if it updates none, no row matches |
| `Drafts.OutcomeIsWritten` | bridge/src/bridge/routes/agent.py:526-539 | a success makes the row sent at the reported time with its errors cleared, a failure makes it failed with the reported code, or unknown, and message; nothing else of the row changes |
| `Drafts.PatchEffect` | bridge/src/bridge/routes/agent.py:346-387 | column by column what an accepted PATCH writes: the approver, approval time and dispatch id and the cleared errors exactly on landing in approved, the reason exactly on landing in rejected, and nothing else; sent and rejected rows keep status and body |
| `Drafts.OwesJobIffTargetIsApproved` | bridge/src/bridge/routes/agent.py:323-408 | an accepted PATCH owes a job if and only if it asks for approved, or asks for no status while the row is approved, so re-approvals and body-only edits of approved drafts included; the job carries the new dispatch id and the edited body |
| `Outbox.OutboundLists.Enqueue` | bridge/src/bridge/routes/agent.py:435-462 | a push appends one entry at the end of the sender's list, or, for another channel or when Redis refuses, changes nothing |
| `Outbox.OutboundLists.PopOutbox` | bridge/src/bridge/routes/imessage.py:217-244 | a pop removes the head of one agent's list; a corrupt head is dropped and answered like an empty list |
| `Outbox.DispatchOne` | relays/imessage/src/relay/main.py:165-216 | one job makes at most one send call, none when id, handle or body is empty, and at most one report, which tells how that call ended |
| `Outbox.RunOutboundLoop` | relays/imessage/src/relay/main.py:144-162 | the poll loop makes the calls and posts the reports of its turns, in turn order, up to a call that kills the relay |
| `Outbox.ReportsMatchCalls` | relays/imessage/src/relay/main.py:149-216 | reports and calls pair up by message id in order; only the last call can be unreported, and only if it killed the relay |
| `Outbox.ReportsFollowCalls` | relays/imessage/src/relay/main.py:177-216 | every report stems from one call of the same message and says success exactly when that call returned |
| `Dispatch.StepKeepsInv` | bridge/src/bridge/routes/agent.py:298-540 | every step of the interleaved protocol (create, patch, push or fail to push, direct send, corruption, pop or lost pop, send, report correlation) keeps the joint invariant of rows, queues, relays, reports and id history |
| `Dispatch.PatchKeepsInv` | bridge/src/bridge/routes/agent.py:313-408 | the PATCH commit keeps the invariant: its id is new, so no queued, held or reported job can be confused with the one it owes |
| `Dispatch.PopKeepsInv` | bridge/src/bridge/routes/imessage.py:217-244 | a pop, with its reply delivered, lost or corrupt, keeps the invariant: the id moves from the queue to exactly one relay or to the dropped |
| `Dispatch.HandleKeepsInv` | relays/imessage/src/relay/main.py:165-216 | handling a held job keeps the invariant: the id ends once, as sent, failed or dropped, and the posted report agrees |
| `Dispatch.CorrelateKeepsInv` | bridge/src/bridge/routes/agent.py:516-540 | correlating any posted report, however often and late, keeps the invariant although no status is checked |
| `DispatchRuns.Reachable` | bridge/src/bridge/routes/agent.py:298-540 | the invariant holds in every state of every run |
| `DispatchRuns.NewWorkIsAccepted` | bridge/src/bridge/routes/agent.py:180-209 | in every reachable state a draft can be created as asked for and a direct send queued at the end, under an unused uuid |
| `DispatchRuns.DraftCanBeApproved` | bridge/src/bridge/routes/agent.py:361-408 | in every reachable state a pending, approved or failed draft can be approved under an unused uuid, a failed one thereby retried: it is then approved with its content unchanged and a job with that content is owed |
| `DispatchRuns.OwedJobCanBePushed` | bridge/src/bridge/routes/agent.py:442-457 | an owed iMessage job can be pushed, to the end of its own queue and no other |
| `DispatchRuns.OwedJobCanBeLost` | bridge/src/bridge/routes/agent.py:435-462 | a push can fail, on any channel, and then the commit stands and nothing is queued |
| `DispatchRuns.HeadCanBePopped` | bridge/src/bridge/routes/imessage.py:217-244 | the head of a queue can be popped: delivered it is held, lost or corrupt it is dropped, and the rest stays in order |
| `DispatchRuns.HeldJobCanBeHandled` | relays/imessage/src/relay/main.py:170-216 | a held job can be handled: a complete one is reported as its send ended, an incomplete one is not reported |
| `DispatchRuns.ReportSettlesDraft` | bridge/src/bridge/routes/agent.py:516-540 | a posted report that a row waits for can be correlated: that row, and no other, becomes sent or failed as the report says |
| `DispatchRuns.ApprovalGate` | bridge/src/bridge/routes/agent.py:361-408 | over every interleaving, a job with a draft id that is passed to the send was pushed by an earlier PATCH that put that draft in approved, and carries that row's agent, handle and body of that moment |
| `DispatchRuns.AtMostOnce` | relays/imessage/src/relay/main.py:177-216 | no message id is passed to the send twice |
| `DispatchRuns.HeldJobMatchesCommit` | bridge/src/bridge/routes/agent.py:443-457 | the job that reached a relay under an approved id carries exactly what was committed for that id |
| `DispatchRuns.SentMeansReturned` | bridge/src/bridge/routes/agent.py:526-532 | status sent implies that the send returned normally for exactly the row's current dispatch id, to the row's handle, under the row's agent |
| `DispatchRuns.SentIsForever` | bridge/src/bridge/routes/agent.py:516-540 | once sent, a draft stays sent in every later state of every run, with agent, handle, body and dispatch id frozen |
| `DispatchRuns.RejectedLeftOnlyByReport` | bridge/src/bridge/routes/agent.py:69-78 | a step takes a draft out of rejected if and only if it correlates a report whose message id is the dispatch id in the row |
| `DispatchRuns.StaysRejectedIff` | bridge/src/bridge/routes/agent.py:516-540 | over any run, a rejected draft stays rejected up to a state if and only if no report for the dispatch id it then had is correlated before that state; meanwhile its body and dispatch id stay |
| `DispatchRuns.RejectedUnapprovedIsForever` | bridge/src/bridge/routes/agent.py:516-540 | a draft rejected before any approval stays rejected, with its body, in every later state |
| `DispatchRuns.DispatchIdsAreUnique` | bridge/src/bridge/routes/agent.py:361-364 | no two drafts ever wait for one dispatch id, so a report matches at most one row |
| `DispatchRuns.SupersededIsInert` | bridge/src/bridge/routes/agent.py:517-523 | a dispatch id replaced by a later approval never matches a row again, so correlating its report changes nothing |
| `DispatchRuns.ApprovedContentAgrees` | bridge/src/bridge/routes/agent.py:394-408 | while a draft is approved, every owed, queued or held job with its current dispatch id has the row's agent, handle and body |
| `DispatchRuns.SentBodyIffNoLateEdit` | bridge/src/bridge/routes/agent.py:339-364 | a sent draft shows the body that was sent under its dispatch id if and only if no accepted PATCH after that approval wrote another body |
| `DispatchRuns.HandlingIsReportedIff` | relays/imessage/src/relay/main.py:170-216 | handling the job of a draft posts a report if and only if the approval committed a non-empty body, as long as the relay survives the send |
| `DispatchRuns.EmptyBodyStaysApproved` | relays/imessage/src/relay/main.py:172-176 | a draft approved with an emptied body, while it waits for that dispatch, is approved until a later PATCH and rejected from then on, and no report for it ever exists |
| `DispatchRuns.EmptyBodyIsDroppedSilently` | relays/imessage/src/relay/main.py:174-176 | a concrete run in which a PATCH empties the body and approves, the relay takes the job, and everything comes to rest with the draft approved and nothing reported |
| `DispatchRuns.LateRejectIsOverruled` | bridge/src/bridge/routes/agent.py:526-532 | a concrete run in which a draft rejected and edited in flight is marked sent and shows a body that was never sent |
| `DispatchRuns.ReapprovalSendsTwice` | bridge/src/bridge/routes/agent.py:395-408 | a concrete run in which approving an approved draft again sends the same content twice, which the comment at lines 29-32 of the file rules out |
| `DispatchRuns.OutboxIsFifo` | bridge/src/bridge/routes/imessage.py:179-187 | per agent, what was pushed, direct sends and draft dispatches mixed, is what was popped followed by what is queued, and no id is pushed twice |
| `DispatchRuns.PushedIdIsInOnePlace` | bridge/src/bridge/routes/imessage.py:217-244 | every pushed id is in exactly one place: queued under its own agent, held by a relay, or ended |
| `TokenBucket.Bucket.TakeOne` | bridge/src/bridge/ratelimit.py:88-105 | one take leaves the specified tokens and refill time and returns the specified wait |
| `TokenBucket.FreshKeyAdmitsItsBurst` | bridge/src/bridge/ratelimit.py:63-72 | a fresh key admits exactly 10, 5, 20 or 50 calls at once, by scope, and then asks to wait exactly 1, 2, 0.5 or 0.2 seconds |
| `TokenBucket.TakeBudget` | bridge/src/bridge/ratelimit.py:88-105 | one take keeps the bucket between empty and full, never moves its clock back, and grants no more than the refill |
| `TokenBucket.LastIsRunMax` | bridge/src/bridge/ratelimit.py:90-98 | the remembered time is the running maximum of all clock readings |
| `TokenBucket.WindowBound` | bridge/src/bridge/ratelimit.py:88-105 | for any clock readings, at most burst + rate * (t2 - t1) takes are admitted while their running maximum lies in [t1, t2] |
| `TokenBucket.RunMaxOfNondecreasing` | bridge/src/bridge/ratelimit.py:90-98 | on a clock that does not step back the running maximum is the reading itself |
| `TokenBucket.DeniedBeforeDeadline` | bridge/src/bridge/ratelimit.py:99-105 | a bucket below one token denies exactly before its deadline, and denials do not move the deadline |
| `TokenBucket.RetryHintIsExact` | bridge/src/bridge/ratelimit.py:99-105 | after a denial at t with wait r, every take before t + r is denied and the first at or after t + r is admitted |
| `TokenBucket.HeaderCoversWait` | bridge/src/bridge/ratelimit.py:277-286 | the header is the least positive whole number of seconds that covers the wait, and at most the time to refill one token, rounded up |
| `TokenBucket.RateLimiter.CheckMemory` | bridge/src/bridge/ratelimit.py:237-251 | a check acts on one key's bucket, created full on first use, and on no other |
| `TokenBucket.KeysAreIndependent` | bridge/src/bridge/ratelimit.py:237-251 | under any interleaving a key's bucket is what that key's own checks alone would have left |
| `TokenBucket.LimitHoldsPerKey` | bridge/src/bridge/ratelimit.py:237-251 | on the in-memory path, for every actor and scope, interleaved with any other keys, the window bound holds on a clock that does not step back |
| `TokenBucket.LimitPerMinute` | bridge/src/bridge/ratelimit.py:63-72 | in any minute a key admits at most 70 model calls, 35 messages, 140 vault writes or 350 other calls |
| `LuaBucket.StoredBucket.Eval` | bridge/src/bridge/ratelimit.py:130-166 | one evaluation of the script leaves the specified hash and answers the specified milliseconds |
| `LuaBucket.TakesAgree` | bridge/src/bridge/ratelimit.py:144-161 | from equal contents script and in-process bucket decide alike and hold equal tokens; their states stay equal if and only if the clock has not stepped back |
| `LuaBucket.ScriptRefinesBucket` | bridge/src/bridge/ratelimit.py:125-167 | on nondecreasing millisecond times, with keys dropped at any allowed points, the script decides as the in-process bucket, with its wait rounded up to the next millisecond |
| `LuaBucket.IdleBucketIsFull` | bridge/src/bridge/ratelimit.py:162-164 | a bucket idle for its time to live would be full again |
| `LuaBucket.TtlInNumbers` | bridge/src/bridge/ratelimit.py:162-164 | the time to live is the least whole number of seconds that refills the bucket and leaves 60 to spare |
| `LuaBucket.ExpiryIsInvisible` | bridge/src/bridge/ratelimit.py:162-164 | expiry changes no answer of the script |
| `LuaBucket.ScriptWindowBound` | bridge/src/bridge/ratelimit.py:218-235 | on the Redis path, on server time that does not step back and with keys expiring anywhere, at most burst + rate * (t2 - t1) evaluations in [t1, t2] admit |
| `LuaBucket.ScriptWindowBoundIff` | bridge/src/bridge/ratelimit.py:144-161 | for any clock and keys that do not expire, the script keeps the window bound over the running maximum for every rate, burst and window if and only if each reading follows one at the running maximum or does not advance |
| `LuaBucket.ClockStepBackBreaksWindow` | bridge/src/bridge/ratelimit.py:161 | one second back and forth at any server time: the script admits twice at one millisecond where the in-process bucket admits once |
| `LuaBucket.MillisecondsKeepHeader` | bridge/src/bridge/ratelimit.py:232-235 | the header from whole milliseconds equals the header from the exact wait |
| `RetryClient.HandleRequest` | brains/shared/src/brains_shared/client.py:96-155 | all attempts carry one key: on a POST the override, else the own key of the caller, else a new uuid; every attempt but the last was a 429 followed by the sleep it asks for, within the cap; the last answer decides between answered, out of retries and over the cap |
| `RetryClient.SleepInNumbers` | brains/shared/src/brains_shared/client.py:167-175 | the sleep is the positive hint, else half a second doubled with each attempt, and never below 0.1 seconds |
| `RetryClient.SpecsAreServable` | bridge/src/bridge/ratelimit.py:58-72 | every scope's rate is positive, its burst at least one, and a token refills within two seconds |
| `RetryClient.LoneClientIsServed` | brains/shared/src/brains_shared/client.py:119-139 | a client alone on its key that sleeps as told sleeps at most 2 seconds, below the cap of 30, and is admitted on its second attempt |
| `RetryClient.CallAlone` | brains/shared/src/brains_shared/client.py:96-139 | client loop and bucket composed: a lone POST is answered by the handler after at most two attempts under one key |
| `RetryClient.ScriptAsksTheSameSleep` | brains/shared/src/brains_shared/client.py:167-175 | the sleep is the same whichever bucket answers |
| `Idempotency.DrainBody` | bridge/src/bridge/idempotency.py:144-163 | draining returns the concatenated chunks up to the final message, and the message that cut the body short, if one did |
| `Idempotency.Replayer.Replay` | bridge/src/bridge/idempotency.py:166-180 | the n-th message the inner application receives: the whole body, then what was picked up, then disconnects |
| `Idempotency.DrainedUpToFinal` | bridge/src/bridge/idempotency.py:150-163 | draining buffers exactly the data of the messages up to the first final one, and keeps that message only if it is a disconnect |
| `Idempotency.ReplayIsFaithfulIff` | bridge/src/bridge/idempotency.py:144-180 | the inner application reads that data as a complete body, so it sees what the client sent if and only if the first final message is a body chunk |
| `Idempotency.CutBodyLooksWhole` | bridge/src/bridge/idempotency.py:160-174 | a concrete request cut after its first chunk whose replay looks complete |
| `Idempotency.CutBodyBlocksRetry` | bridge/src/bridge/idempotency.py:87-127 | when a cut body was answered 2xx, a retry with the whole body under the same key is a conflict for 24 hours if and only if anything was cut off |
| `Idempotency.ReplayHasOneLength` | bridge/src/bridge/idempotency.py:223-259 | a replayed response has one content-length, and it reads as the length of the replayed body |
| `Idempotency.KeptHeadersAt` | bridge/src/bridge/idempotency.py:223-227 | stored headers are those at the positions whose name, in any case, is none of the three, in order |
| `Idempotency.Middleware.Begin` | bridge/src/bridge/idempotency.py:87-101 | a request prunes the table, then is a miss, a replay of the stored row, or a conflict when the body differs |
| `Idempotency.Middleware.Finish` | bridge/src/bridge/idempotency.py:117-133 | the row under the key is replaced by the filtered response if and only if the status is 2xx |
| `Idempotency.TableAgreesWithLog` | bridge/src/bridge/idempotency.py:215-240 | along every run the pruned table differs from the full log of stores only by expired rows |
| `Idempotency.AnswersLikeFullLog` | bridge/src/bridge/idempotency.py:87-101 | every request is answered as by the latest store under its key in the full log that is not older than 24 hours |
| `Idempotency.CutBodyConflicts` | bridge/src/bridge/idempotency.py:87-127 | a concrete run in which a cut body is answered 200 and the retry with the whole body is refused |
| `Idempotency.StoreIsRemembered` | bridge/src/bridge/idempotency.py:117-127 | a store keeps its key answered for 24 hours, whatever else is stored and pruned |
| `Idempotency.StoreIsLatest` | bridge/src/bridge/idempotency.py:117-127 | without overlap on a key, a store is still the latest under its key 24 hours later |
| `Idempotency.AtMostOnceADay` | bridge/src/bridge/idempotency.py:67-132 | without overlap on a key, the inner application answers 2xx at most once per key in any 24 hours |
| `Idempotency.LiveKeyNeverRuns` | bridge/src/bridge/idempotency.py:89-101 | while a stored answer lives, the application is not run: 409 if and only if the body differs, replay if and only if it is the same |
| `Idempotency.ReplayRepeatsAnAnswer` | bridge/src/bridge/idempotency.py:99-101 | every replay repeats status, body and headers of an earlier 2xx answer to the same key and body, at most 24 hours old: the headers in order and each as often as sent, without the three that are not kept, followed by the replay marker and the length |
| `Idempotency.FailureLeavesKeyFree` | bridge/src/bridge/idempotency.py:117-118 | after a miss, and until some request under the key is answered 2xx, the next request under the key is a miss again |
| `RestartPolicy.Child.HandleExit` | bridge/src/bridge/supervisor.py:325-338 | one handled exit leaves the specified history and backoff and returns the specified verdict |
| `RestartPolicy.HistoryIsRecent` | bridge/src/bridge/supervisor.py:326-329 | the repeatedly filtered history is the full history filtered once |
| `RestartPolicy.GivesUpIff` | bridge/src/bridge/supervisor.py:325-335 | the supervisor gives up at the n-th handled exit if and only if that exit and the two before it lie within 30 seconds |
| `RestartPolicy.SurvivedExitsAreSpread` | bridge/src/bridge/supervisor.py:325-335 | n survived exits span at least 30 * floor((n - 1) / 2) seconds |
| `RestartPolicy.RestartDelay` | bridge/src/bridge/supervisor.py:337-338 | the restart after the k-th survived exit, counted from 0, waits min(2^k, 10) seconds |
| `Lifecycle.SpawnStartsChild` | bridge/src/bridge/supervisor.py:215-218 | a first spawn starts that child only, and a gated child is waited for before the next |
| `Lifecycle.SpawnFollowsReadiness` | bridge/src/bridge/supervisor.py:214-222 | a child is first spawned only after every earlier child was spawned and every earlier gated child answered ready |
| `Lifecycle.StartedMeansAllUp` | bridge/src/bridge/supervisor.py:214-222 | watching begins only when every child was spawned and every gated one answered ready |
| `Lifecycle.HealthyStart` | bridge/src/bridge/supervisor.py:214-231 | for any children and gates, some run has all of them running and watched |
| `Lifecycle.NoRestartAfterShutdown` | bridge/src/bridge/supervisor.py:301-341 | a process that had exited is started again only before any signal |
| `Lifecycle.WakesRestartsIff` | bridge/src/bridge/supervisor.py:337-341 | when the backoff of a child ends, its exited process is started again if and only if there has been no signal, and no other process is touched |
| `Lifecycle.CrashedChildIsRestarted` | bridge/src/bridge/supervisor.py:319-341 | after an exit that is not the third within one window, and unless an abort cancels it, the child stays exited until its backoff ends, the backoff can always end, and then the process runs if and only if no signal came |
| `Lifecycle.CrashIsNeverForgotten` | bridge/src/bridge/supervisor.py:301-341 | while watching without a signal, the exit of every exited child can be handled or its backoff can end |
| `Lifecycle.StartsAfterSignalIff` | bridge/src/bridge/supervisor.py:214-222 | in any reachable state after a shutdown signal, a process may still be started, first spawns and restarts included, if and only if startup is about to spawn a child, or awaits a readiness answer asked for before the signal and has a child after it |
| `Lifecycle.GateStopsStartup` | bridge/src/bridge/supervisor.py:280-282 | after a signal the next gated child spawned is the last child spawned |
| `Lifecycle.SpawnAfterSignalHappens` | bridge/src/bridge/supervisor.py:215-218 | a concrete run in which an ungated child is first spawned after the signal |
| `Lifecycle.TerminateFollowsLaterExits` | bridge/src/bridge/supervisor.py:343-369 | when a child is terminated or killed, every later child has exited or never ran, and stays so |
| `Lifecycle.DoneMeansAllExited` | bridge/src/bridge/supervisor.py:237-246 | when run returns, on the normal, gate-timeout, gate-shutdown and poison-pill paths, no child is running and none ever will be |
| `Lifecycle.ShutdownCanComplete` | bridge/src/bridge/supervisor.py:237-246 | from every reachable state after a signal or an abort, or in the middle of stopping, some continuation lets run return |
| `Lifecycle.PolicyFollowsExits` | bridge/src/bridge/supervisor.py:326-338 | each child's restart state is a function of that child's own handled exits |
| `Lifecycle.PoisonPillIff` | bridge/src/bridge/supervisor.py:319-341 | whatever the other children do, an exit aborts the supervisor if and only if it is the third of that child within one window |
| `Lifecycle.ExitCodesAreExplained` | bridge/src/bridge/supervisor.py:195-246 | exit code 0 only after a signal or with no children, the timeout code only after a readiness check that failed past its deadline, the poison pill code only after the third exit of one child within one window |
| `Lifecycle.CausesDecideCode` | bridge/src/bridge/supervisor.py:237-246 | conversely, a third exit within one window makes run return the poison pill code, and a readiness check failing past its deadline the timeout code |
| `Lifecycle.WaitReady` | bridge/src/bridge/supervisor.py:268-293 | the gate result is that of the first poll that decides; shutdown is looked at before readiness, the deadline last |
| `Lifecycle.StopOne` | bridge/src/bridge/supervisor.py:349-369 | a running child ends exited, after a kill exactly when it ignores the first signal; another one is skipped |
| `Lifecycle.GracefulStopAll` | bridge/src/bridge/supervisor.py:343-347 | the stop loop leaves every running child exited and the others untouched, last child first |
| `Lifecycle.StopLoopFollowsSteps` | bridge/src/bridge/supervisor.py:343-369 | the log of the stop loop is a sequence of enabled steps of the step system that leads to the end of stopping |
| `ThreadParser.ParseThreadResponse` | bridge/src/bridge/providers/email/threading.py:40-74 | the character loop computes the specified fold |
| `ThreadParser.RunInside` | bridge/src/bridge/providers/email/threading.py:46-73 | the text between the parentheses of a thread appends exactly its messages from left to right |
| `ThreadParser.ParsePrintedForest` | bridge/src/bridge/providers/email/threading.py:34-74 | parsing the printed form of any forest of nested threads (section 5 of RFC 5256) yields one list per top-level thread, in order, equal to its flattening |
| `ThreadParser.JunkIsSkipped` | bridge/src/bridge/providers/email/threading.py:46-56 | a token with a character that no number has is skipped without a trace |
| `ThreadParser.SignedNumberIsTaken` | bridge/src/bridge/providers/email/threading.py:46-50 | a signed token is taken as int reads it |
| `ThreadParser.TruncationLosesLastThread` | bridge/src/bridge/providers/email/threading.py:64-74 | a response cut anywhere inside a thread still yields every whole thread before it and nothing of the cut one |
| `Utf8.TextReadsBack` | bridge/src/bridge/providers/email/threading.py:80 | decoding an encoded text gives the text back |
| `Utf8.BytesReadBack` | bridge/src/bridge/providers/email/threading.py:90 | the decoder accepts only encodings: decoded text encodes to the bytes it came from |
| `Base64Url.BytesReadBack` | bridge/src/bridge/providers/email/threading.py:89 | the lenient decoder inverts the encoder on all byte strings |
| `Base64Url.SymbolsAreTheAlphabet` | bridge/src/bridge/providers/email/threading.py:81 | the encoder uses the URL-safe alphabet of RFC 4648 |
| `Base64Url.TestVectors` | bridge/src/bridge/providers/email/threading.py:81 | the test vectors of section 10 of RFC 4648 |
| `Base64Url.UrlSafeVector` | bridge/src/bridge/providers/email/threading.py:81 | three bytes that need both URL-safe symbols |
| `Base64Url.LeadingPadIsSkipped` | bridge/src/bridge/providers/email/threading.py:89 | a pad before any data changes nothing |
| `Base64Url.ForeignIsSkipped` | bridge/src/bridge/providers/email/threading.py:89 | characters outside the alphabets are skipped by the decoder wherever they stand |
| `Base64Url.StandardSymbolsAreRead` | bridge/src/bridge/providers/email/threading.py:89 | the symbols of the standard alphabet are read like the URL-safe ones |
| `Base64Url.UnpaddedDecodesIff` | bridge/src/bridge/providers/email/threading.py:87-89 | data without pads decodes if and only if it is a whole number of quads |
| `Base64Url.PaddingIsRestored` | bridge/src/bridge/providers/email/threading.py:81-89 | stripping removes only padding, and the padding computed from the stripped length restores it exactly |
| `ThreadId.TextOfToken` | bridge/src/bridge/providers/email/threading.py:77-90 | the text packed into a token is the text taken out of it |
| `ThreadId.DecodeInFull` | bridge/src/bridge/providers/email/threading.py:95-107 | the error of a packed text: missing separator if and only if it has no colon, empty component if and only if the first colon is its first or its last character |
| `ThreadId.ForeignTokenIsMalformed` | bridge/src/bridge/providers/email/threading.py:87-94 | a token with a character beyond ASCII is malformed |
| `ThreadId.CleanRemovesTheOutside` | bridge/src/bridge/providers/email/threading.py:79 | cleaning removes outer whitespace, then opening brackets before and closing ones after the id, and nothing inside |
| `ThreadId.RoundTripIff` | bridge/src/bridge/providers/email/threading.py:77-107 | decoding the encoding gives account and bracketed cleaned id if and only if the account is non-empty and colon-free and the cleaned id non-empty; empty components are the empty-component error |
| `ThreadId.CleanBracketedIff` | bridge/src/bridge/providers/email/threading.py:79 | cleaning a bracketed id gives it back if and only if it has no outer brackets of its own |
| `ThreadId.ReencodingIsStable` | bridge/src/bridge/providers/email/threading.py:77-107 | re-encoding the decoded pair gives the same token |
| `ThreadId.TokensAreDistinct` | bridge/src/bridge/providers/email/threading.py:77-81 | equal tokens mean equal colon-free accounts and equal cleaned ids |
| `ThreadId.AcceptedIsStableIff` | bridge/src/bridge/providers/email/threading.py:84-107 | any accepted token, canonical or not, decodes to a pair that survives another round trip if and only if its id has no outer brackets |
| `Keychain.CredentialReadsBackIff` | bridge/src/bridge/keychain.py:89-127 | a credential reads back unchanged if and only if it has both or neither part of a grace token; token, scopes and active grace always survive |
| `Keychain.StringsAreRead` | bridge/src/bridge/keychain.py:100-127 | of a stored list exactly the entries that are strings are read |
| `Keychain.Keychain.SetCredential` | bridge/src/bridge/keychain.py:151-174 | a write stores the credential and lists the actor, or refuses the reserved name |
| `Keychain.Keychain.DeleteCredential` | bridge/src/bridge/keychain.py:192-201 | a delete removes the item and the listing, or refuses the reserved name |
| `Keychain.Keychain.ListAll` | bridge/src/bridge/keychain.py:204-211 | the listing loop returns the parsed credentials of the sorted manifest |
| `Keychain.SortedSetIsCanonical` | bridge/src/bridge/keychain.py:143-148 | the written manifest depends only on which actors it lists |
| `Keychain.SetAgrees` | bridge/src/bridge/keychain.py:166-174 | a completed write makes listed and stored agree for its actor whatever the store held, and disturbs no other actor |
| `Keychain.DeleteAgrees` | bridge/src/bridge/keychain.py:197-201 | a completed delete does the same |
| `Keychain.ManifestListsStoredActors` | bridge/src/bridge/keychain.py:130-201 | over any run, with operations cut off between their two writes, an actor is listed if and only if stored, provided the last operation on that actor completed |
| `Keychain.ListingIsComplete` | bridge/src/bridge/keychain.py:177-211 | where manifest and store agree, enumeration finds a credential if and only if a direct read does |
| `TokenStore.TokenStore.Refresh` | bridge/src/bridge/auth.py:70-87 | the loop builds the full index of the listed credentials and stamps it |
| `TokenStore.TokenStore.Lookup` | bridge/src/bridge/auth.py:98-102 | a lookup reloads exactly when the cache is absent or more than 60 seconds old, then answers from it |
| `TokenStore.IndexIsSound` | bridge/src/bridge/auth.py:77-96 | an indexed token is honoured by some non-provider credential, under whose actor and scopes it is indexed |
| `TokenStore.IndexIsComplete` | bridge/src/bridge/auth.py:77-96 | every token or active grace token of a non-provider credential is indexed |
| `TokenStore.CacheIsSnapshot` | bridge/src/bridge/auth.py:70-102 | the cache is always the full index of the keychain at the last event that reloaded it |
| `TokenStore.AnswersFromRecentSnapshot` | bridge/src/bridge/auth.py:98-102 | every lookup answers from the full index of a keychain snapshot at most 60 seconds old |
| `TokenStore.CachedForAMinute` | bridge/src/bridge/auth.py:98-100 | no lookup reloads within 60 seconds of a reload |
| `TokenStore.LookupGrantsWrittenScopes` | bridge/src/bridge/auth.py:77-96 | over any run, a lookup that succeeds grants exactly the scopes last written for that actor before the last reload, and never succeeds for a provider key |
| `TokenStore.RotatedTokenKeepsScopes` | scripts/rotate-token.py:60-79 | a rotated token is granted the minted scopes by reloads before the rotation and the scopes the rotation left by reloads after it, through its grace period |
| `TokenStore.NewTokenIsGranted` | scripts/rotate-token.py:60-79 | the token that a rotation hands out is granted, from the first reload on, the new scopes if any were given and the old ones otherwise |
| `TokenStore.AcceptedThroughGrace` | scripts/rotate-token.py:54-79 | from the first reload after minting, every lookup of a token rotated once succeeds until the grace period ends, whatever other actors do |
| `TokenStore.ReloadedAfterAMinute` | bridge/src/bridge/auth.py:98-100 | more than 60 seconds after minting such a reload has happened by the time of any lookup |
| `TokenStore.RejectedAfterGrace` | bridge/src/bridge/auth.py:81-83 | 60 seconds after the grace period, every lookup of the rotated token fails |
| `TokenStore.SnapshotOfOlder` | scripts/rotate-token.py:54-79 | what a reload at any point of a run with two rotations makes of the older token |
| `TokenStore.OlderTokenIff` | scripts/rotate-token.py:70-79 | over any run, a lookup of a token rotated away twice succeeds if and only if the last reload lies after minting and before the second rotation, and before the first one or within its grace period; so 60 seconds after the second rotation it fails |
| `ChatCursor.WrittenReadsBack` | relays/imessage/src/relay/chatdb.py:81-96 | the state file reads back as the number written |
| `ChatCursor.ChatDBCursor.ReadLastSeen` | relays/imessage/src/relay/chatdb.py:81-89 | the number in the state file, 0 when missing, blank or not a number |
| `ChatCursor.ChatDBCursor.WriteLastSeen` | relays/imessage/src/relay/chatdb.py:91-96 | the write happens whole or not at all |
| `ChatCursor.ChatDBCursor.BootstrapToTail` | relays/imessage/src/relay/chatdb.py:104-147 | the cursor moves to the highest ROWID; if chat.db cannot be opened nothing changes |
| `ChatCursor.ChatDBCursor.Yield` | relays/imessage/src/relay/chatdb.py:197-209 | the generator hands over the rows up to and including the one the consumer gives up on, and knows the maximum only when exhausted |
| `ChatCursor.ChatDBCursor.PollNew` | relays/imessage/src/relay/chatdb.py:151-212 | a poll hands over the eligible rows above the cursor and writes the new maximum only after the last one |
| `ChatCursor.WholePollHandsExactly` | relays/imessage/src/relay/chatdb.py:169-209 | a whole poll hands over, for each received message above the cursor that has a text and a handle row and for each of its chats, exactly one row, in order, that shows it field by field; and nothing else |
| `ChatCursor.RowidsUpToMax` | relays/imessage/src/relay/chatdb.py:127-132 | the bootstrap tail is the highest ROWID of the table |
| `ChatCursor.CursorNeverDecreases` | relays/imessage/src/relay/chatdb.py:151-212 | the cursor never decreases, for any initial state file |
| `ChatCursor.CursorPassesOnlyHandedRows` | relays/imessage/src/relay/chatdb.py:151-212 | whatever polls abort and whatever writes fail, no row above the base that the cursor has passed is one the consumer was not handed |
| `ChatCursor.WholePollCatchesUp` | relays/imessage/src/relay/chatdb.py:197-212 | after any trouble, one poll that is not abandoned leaves every row above the base handed over |
| `ChatCursor.ExactlyOnceInOrder` | relays/imessage/src/relay/chatdb.py:151-212 | without abandoned polls and failed writes, what was handed over is at every moment exactly the rows between base and cursor, in order |
| `ChatCursor.SmoothPoll` | relays/imessage/src/relay/chatdb.py:173-212 | a clean poll then has handed over every row above the base exactly once |
| `ChatCursor.RowsAreInOrder` | relays/imessage/src/relay/chatdb.py:173-191 | rows come in ROWID order, and each ROWID once where messages are in at most one chat |
| `ChatCursor.NothingAtOrBelowTail` | relays/imessage/src/relay/chatdb.py:104-147 | after a successful bootstrap nothing at or below the tail it found is ever handed over |
| `ChatCursor.FailedBootstrapReplaysHistory` | relays/imessage/src/relay/main.py:249-250 | when chat.db cannot be opened at the first start, then, after any arrivals and fruitless polls, the first whole poll hands over the entire history |
| `AppleText.TwoReplacesAreOnePass` | bridge/src/bridge/providers/apple/calendar.py:67 | the two successive global replaces equal a per-character map |
| `AppleText.QuotedLexesBack` | bridge/src/bridge/providers/apple/calendar.py:60-67 | an accepted value, escaped and quoted, lexes to exactly that value and ends at its closing quote, whatever follows |
| `AppleText.RefusedIff` | bridge/src/bridge/providers/apple/calendar.py:60-66 | a value is refused if and only if it has a line feed, a carriage return or a null |
| `AppleText.RawLexesBackIff` | bridge/src/bridge/providers/apple/calendar.py:60-67 | unescaped, that holds if and only if the value has neither quote nor backslash |
| `AppleText.ParseTsv` | bridge/src/bridge/providers/apple/calendar.py:97-110 | the loop computes the records of the specified parse |
| `AppleText.LayoutOfOne` | bridge/src/bridge/providers/apple/calendar.py:133-155 | one event as printed: seven fields with character 31 between them and character 30 at the end |
| `AppleText.ParseRendered` | bridge/src/bridge/providers/apple/calendar.py:153-155 | parsing inverts the record layout for 7-field records free of separators |
| `AppleText.StripKeepsBodyIff` | bridge/src/bridge/providers/apple/runner.py:85 | the runner's strip keeps the record text, its last separator aside, if and only if its first and last characters are visible |
| `AppleText.RunnerRoundTripIff` | bridge/src/bridge/providers/apple/runner.py:85 | through the stripping runner the records come back if and only if there are none, or the first field begins and the last field ends with a visible character |
| `AppleText.ListEvents` | bridge/src/bridge/providers/apple/calendar.py:161-182 | the loop returns the events of the records with seven fields |
| `AppleText.ListedEventsAreTheRecords` | bridge/src/bridge/providers/apple/calendar.py:161-182 | where the text survives the runner there is one event per record, in order, each field in its place and empty locations and notes absent |
| `AppleText.LastEventWithoutNotesIsDropped` | bridge/src/bridge/providers/apple/calendar.py:161-169 | if the last event has no notes, the list is that of the other events |
| `Text.StripIsIdentityIff` | bridge/src/bridge/providers/apple/runner.py:85 | strip leaves a text alone if and only if it neither begins nor ends with whitespace, the ASCII separators included |
| `Text.WiderWhitespace` | bridge/src/bridge/providers/apple/runner.py:85 | which characters beyond ASCII strip removes, and three invisible ones that it keeps |
| `Text.AsciiWhitespace` | bridge/src/bridge/providers/apple/runner.py:85 | which ASCII characters strip removes, the separators included |
| `Text.PyIntReadsSigns` | relays/imessage/src/relay/chatdb.py:84 | int reads a sign before the digits |
| `Text.ForeignIsNoNumber` | bridge/src/bridge/providers/email/threading.py:48-51 | a text with a character that no number has is not one |
| `Text.PyIntOfDecimal` | relays/imessage/src/relay/chatdb.py:84 | int of a printed natural number is that number |

## Left out

- Outbox.OutboundLists.PopOutbox: the long poll is one step that finds an entry or none; waiting is not modelled.
- Dispatch.StepKeepsInv: a failed event publication before correlation is a report that is never correlated; events themselves are not modelled.
- Dispatch.StepKeepsInv: a command that Redis carries out twice, because its client library repeats it, is not modelled.
- TokenBucket.Bucket.TakeOne: tokens and seconds are reals; floating-point rounding is not modelled.
- LuaBucket.StoredBucket.Eval: the text form of numbers in the hash, and the expiry command for a rate of zero, are not modelled.
- TokenBucket.RateLimiter.CheckMemory: an infinite wait has no header value, so the 429 answer is modelled for finite waits; all scopes of the program have them.
- TokenBucket.LimitHoldsPerKey: one backing store at a time (for the other one see `ScriptWindowBound`); a limiter that falls back from Redis to memory for single checks is not bounded by it, and neither is a pair of actor and scope whose joined Redis key equals that of another pair.
- RetryClient.HandleRequest: a Retry-After header that reads as infinity or not-a-number is not modelled.
- Idempotency.Middleware.Begin: SHA-256 is taken as injective, and JSON text of headers as the headers themselves.
- Idempotency.AtMostOnceADay: requests that overlap on one key are excluded, since lookup and store are separated by an await; a failed store is modelled, and then the statement is not claimed for it.
- Idempotency.DrainBody: requires that a final message arrives, since without one `_drain_body` waits forever.
- Lifecycle.GracefulStopAll: spawning is atomic and successful, and a process that vanishes between its check and its signal counts as exited.
- ThreadParser.ParseThreadResponse: response bytes are already decoded; digits outside ASCII, which `int` also reads, count as junk.
- ThreadId.RoundTripIff: texts are sequences of Unicode scalar values; lone surrogates, which `encode` refuses, are not modelled.
- Base64Url.BytesReadBack: the decoder follows CPython's non-strict one, which skips characters outside the alphabet.
- Keychain.CredentialReadsBackIff: passwords are structured values, expiry times are instants; JSON and ISO 8601 text, and expiry times without a zone, are not modelled.
- Keychain.ManifestListsStoredActors: operations do not overlap; two processes whose manifest reads and writes interleave can leave an actor stored and unlisted although both completed.
- TokenStore.TokenStore.Refresh: a reload happens at one instant, wall clock and monotonic clock advance together, and a keychain that fails during a reload is not modelled.
- TokenStore.AcceptedThroughGrace: assumes, as random tokens give, that no other actor's credential carries the token; `IndexIsSound` and `IndexIsComplete` hold without that. `OlderTokenIff` makes the same assumption for all events.
- ChatCursor.ChatDBCursor.PollNew: the received time is the stored nanosecond count, not its ISO 8601 text; a query that fails after the database was opened behaves like one that could not be opened.
- ChatCursor.FailedBootstrapReplaysHistory: a bootstrap that opens chat.db but cannot write its state file ends the process, so no poll follows it; the step system lets one follow, which only adds runs to the other results.
- ChatCursor.CursorPassesOnlyHandedRows: rows are inserted whole at increasing ROWIDs and not deleted; an unreadable state file is not modelled. Handing over does not mean that the bridge accepted the message.
- AppleText.QuotedLexesBack: the lexer knows the escapes of AppleScript string literals; the rest of the language is not modelled.
- Concurrency inside one process beyond the interleaving of awaited steps, and cancellation in the middle of a spawn.
- Event publication, logging, the HTTP framework, request validation, and the comparison of a caller's scopes with those a route demands (what a lookup grants is modelled).
- The vault, mail fetching and sending, model calls, pricing, telemetry and health endpoints: thin wrappers over libraries.
- The generated client, the command line tools other than token rotation, the installer and configuration loading.
