# Verification of the shopping agent and its evaluation service

This project models the stateful parts of the repository in Dafny and proves what they promise.

* **Evaluation runs.** A run manifest holds ordered cases. A run worker, workers resumed by operator
  replies, buyer callbacks delivered at least once, polls, timeouts and a grace period move their states.
  `RunStore.dfy` is the store, `Callbacks.dfy` the callback handler with at-least-once delivery,
  `EvalProtocol.dfy` the whole protocol as a state machine whose steps interleave freely, `EvalSteps.dfy` and
  `EvalRuns.dfy` what single steps and whole runs keep, and `Orchestrator.dfy` the imperative code of the
  workers, each method proved to take exactly one step (or a run of steps) of that machine and to keep its
  invariant.
* **Buyer sessions.** `Sanitizer.dfy` is the recursive sanitiser and the reply summary, `Sessions.dfy` the
  store operations on one session, `SessionStore.dfy` the lock-guarded store with its capacity bound,
  `ReplyHandshake.dfy` the handshake of questions and replies, `Postgres.dfy` the repository on database
  rows, `PostgresRefinement.dfy` the proof that it agrees with a plain dictionary, `BulkLoad.dfy` the load of
  all sessions at once, and `DeliveryStatuses.dfy` what becomes of delivery marks that take no lock.
  `PaymentVerifier.dfy` and `SessionLoop.dfy` are the payment boundary and the session loop.
* **Runner streams.** `StreamPublisher.dfy` is the batching publisher, `Utf8.dfy` and `StreamReader.dfy` the
  incremental readers of process output, `JsonlTail.dfy` the incremental reader of the action log,
  `CommandPairing.dfy`, `CommandMetrics.dfy` and `IntervalSweep.dfy` the browser metrics with their
  independent recount.
* **Operator screen.** `EventQueues.dfy` is a subscriber's bounded queue, `CallbackStore.dfy` the
  deduplicating event store that feeds such queues, `SessionFold.dfy` the session list, `JsonTokens.dfy` the lossless tokenizer.
* **Aggregation.** `KeyOrder.dfy` is the order of sort keys, `Medians.dfy` the median, `Aggregation.dfy` the
  summary of a run with its baselines, `Dashboard.dfy` the dashboards by case and by host.

`Common.dfy` holds an option and a result type and a few helpers on sequences, `PyText.dfy` the text functions used;
`StableSort.dfy` is the sort that several of the modules use.
`dafny verify dfyconfig.toml` checks everything.

## Reading guide

Operations that work step by step are classes and methods; the values they compute are specified by
functions and predicates, and the theorems are lemmas about those. Network calls, subprocesses, clocks, fresh
ids, hashes, JSON parsing and URL parsing are parameters, so the theorems hold for every behaviour of them
that the stated preconditions allow. SHA-256 only has to yield 64 hexadecimal digits.

Some properties hold only under a condition; each is proved with the condition that is exactly right.

* A terminal case may still be rewritten to `failed`, but only by a `create_task` call that fails after a
  callback ended its case (`EvalSteps.TerminalStateStays`, with a witness in
  `EvalRuns.FinishedCaseCanTurnFailed`).
* A new question leaves one active reply row if and only if no question was open and no answer unread
  (`PostgresRefinement.AskNeedsQuietSession`), and an answer survives storage if and only if it is not empty
  (`PostgresRefinement.AnswerMustNotBeEmpty`).
* Delivery marks that land inside a write of their session survive it if and only if they leave the event with
  the status the write had read (`DeliveryStatuses.WriteKeepsStatusIffUndisturbed`, with a witness in
  `DeliveryStatuses.MarkCanBeLost`). A mark that waits for the write's row locks finds its row deleted, so it is
  lost like one that lands before the delete, and is modelled as one.
* Attaching a task keeps the capacity bound and the bookkeeping if and only if the session is stored, not
  terminal, and active already or within the limit (`SessionStores.SessionStore.SetTaskRef`).
* A subscriber of the operator screen gets every event of its topic if and only if at most 200 are ever
  outstanding (`CallbackStores.SubscriberLosesNothing`).
* The woken session loop gets its reply if and only if the reply is not empty
  (`ReplyHandshake.PopReturnsTheReply`).
* Busy time is the measure of the union of the commands if and only if no command that opens a stretch of
  browser time finishes before it starts (`IntervalSweep.SweepIsExact`).
* The runner and the trace collector agree on errors if and only if no finished record has an `ok` that is
  false without being `false` (`CommandMetrics.MetricsAgree`).
* Sanitising leaves a value alone if and only if it is clean already (`Sanitizer.SanitizeFixesExactlyClean`).

## Model

| member | source | states |
|---|---|---|
| RunManifest.KeyIsDigest | eval_service/app/run_store.py:257-269 | a stored idempotency key is always a SHA-256 digest, and hashing a stored key again does nothing |
| RunManifest.FindIndex | eval_service/app/run_store.py:216-220 | the first case with the id, or none if no case has it |
| RunManifest.UpdateKeepsEventsDistinct | eval_service/app/run_store.py:156-195 | every case update keeps the stored events of every case pairwise distinct in id and redacted key |
| RunManifest.RunStore.CreateRun | eval_service/app/run_store.py:42-60 | a run is created once, under a valid id, and nothing else changes |
| RunManifest.RunStore.ReadManifest | eval_service/app/run_store.py:62-63 | the stored manifest, or an error that tells an invalid id from a missing run |
| RunManifest.RunStore.UpdateRunStatus | eval_service/app/run_store.py:70-75 | rewrites status and time of one run, leaves the rest of the store alone |
| RunManifest.RunStore.HasCallbackEvent | eval_service/app/run_store.py:223-230 | an event is known if and only if a stored one shares its id or an alias of its key |
| RunManifest.RunStore.UpdateCaseWith | eval_service/app/run_store.py:156-195 | one case is patched in place, a known event changes nothing, and every error leaves the store as it was |
| RunManifest.RunStore.AppendCallbackEvent | eval_service/app/run_store.py:119-145 | appends the redacted event and records its session id unless the caller gave another |
| Callbacks.ReceiveBuyerCallback | eval_service/app/callbacks.py:57-93 | the handler rejects or stores one callback, with the resulting state, turns away runs and cases that do not exist, and touches no other run |
| Callbacks.ApplyExtends | eval_service/app/callbacks.py:65-76 | callbacks, updates and status writes keep case ids and only ever append to stored events |
| Callbacks.DeliveredIsStored | eval_service/app/callbacks.py:71-93 | a delivery the sender saw succeed has left its event in the manifest |
| Callbacks.StoredIsIgnored | eval_service/app/run_store.py:176-177 | delivering a stored event again leaves the whole manifest identical |
| Callbacks.RunKeepsEventsDistinct | eval_service/app/run_store.py:223-264 | after any history, stored events of a case have pairwise distinct ids and redacted keys |
| Callbacks.RedeliveryIsIgnored | eval_service/app/callbacks.py:65-76 | once accepted, an event redelivered after any further history is a no-op |
| Callbacks.FirstDeliveriesSuffice | eval_service/app/run_store.py:171-195 | dropping every redelivery of an accepted event from a log changes nothing in the final manifest |
| Callbacks.AtLeastOnceIsExactlyOnce | eval_service/app/callbacks.py:65-76 | any log with redeliveries ends in the manifest of the log of first acceptances |
| EvalRuns.CreateTaskOnceInOrder | eval_service/app/orchestrator.py:126-169 | in every interleaving `create_task` is called at most once per case, in manifest order, and only when every earlier case is terminal |
| EvalRuns.ClaimsIncrease | eval_service/app/orchestrator.py:231-252 | the positions claimed over a run strictly increase, whichever workers claim them |
| EvalSteps.StepKeepsInv | eval_service/app/orchestrator.py:104-169 | every step of any worker, callback, reply or poll keeps the order of the run and every worker's footing |
| EvalSteps.StepIsGood | eval_service/app/callbacks.py:118-204 | no step sends a case back to `pending` or out of the terminal states, or breaks the link of reply ids and states |
| EvalRuns.RunKeepsInv | eval_service/app/orchestrator.py:104-342 | the run-phase invariant holds after every sequence of steps |
| EvalRuns.ReachableWorldsAreConsistent | eval_service/app/runtime_helpers.py:40-49 | in every reachable world a reply id is set exactly when the case waits, at most one case is between `pending` and terminal, and status `finished` means every case is terminal |
| EvalSteps.TerminalStateStays | eval_service/app/callbacks.py:233-282 | no step changes a terminal case's state, except a failed `create_task`, which turns it `failed` |
| EvalRuns.FinishedCaseCanTurnFailed | eval_service/app/orchestrator.py:238-249 | the exception is real: a case a callback finished turns `failed` when its `create_task` then fails |
| Orchestrator.SelectCases | eval_service/app/orchestrator.py:390-405 | the picked cases without repetition in order, all cases if none are picked, an error naming an unknown one |
| Orchestrator.Orchestrator.constructor | eval_service/app/orchestrator.py:83-97 | a new run holds the selected cases, each `pending` under its own version, and starts with one worker at its first case |
| Orchestrator.Orchestrator.VisitOne | eval_service/app/orchestrator.py:134-159 | one turn of the loop over the cases is one step of the protocol |
| Orchestrator.Orchestrator.RunCasesUntilWaiting | eval_service/app/orchestrator.py:126-169 | the loop from a worker's position to its next await is a run of protocol steps of that worker |
| Orchestrator.Orchestrator.RecordCreated | eval_service/app/orchestrator.py:286-296 | a created task's session is recorded, and the state only moves from `pending`, `starting` or `running` |
| Orchestrator.Orchestrator.MarkRuntimeFailure | eval_service/app/orchestrator.py:298-307 | a failed `create_task` marks the case failed and the worker goes on |
| Orchestrator.Orchestrator.WaitForCase | eval_service/app/orchestrator.py:254-284 | one poll returns, times out or sleeps, as one protocol step |
| Orchestrator.Orchestrator.FinishAfterGrace | eval_service/app/orchestrator.py:258-272 | after the grace period a case still payment-ready is finished, anything else is left alone |
| Orchestrator.Orchestrator.RefreshStatus | eval_service/app/orchestrator.py:309-313 | the run is finished if and only if every case is terminal |
| Orchestrator.Orchestrator.ResumeRun | eval_service/app/orchestrator.py:104-113 | a resumed worker marks the run running and waits for its case |
| Orchestrator.Orchestrator.ReceiveCallback | eval_service/app/callbacks.py:57-93 | a callback on the running orchestrator is one protocol step |
| Orchestrator.Orchestrator.StartReply | eval_service/app/callbacks.py:103-137 | an operator reply claims the case before the buyer is called, or is refused |
| Orchestrator.Orchestrator.RestoreWaitingIfClaimed | eval_service/app/callbacks.py:189-204 | a claimed case goes back to waiting, a case that moved on is left alone |
| Orchestrator.Orchestrator.EndReply | eval_service/app/callbacks.py:138-176 | what an accepted, refused, failed or malformed answer of the buyer does to the case and when a worker resumes |
| Sanitizer.SanitizedIsClean | buyer/app/persistence.py:706-732 | no blocked key survives at any level, and depth and list length are bounded |
| Sanitizer.SanitizeFixesExactlyClean | buyer/app/persistence.py:706-732 | sanitising changes a tree if and only if it is not clean, so sanitising twice is sanitising once |
| Sanitizer.SanitizeKeepsTheRest | buyer/app/persistence.py:713-732 | below the depth limit exactly the paths through a blocked key or past the list limit are dropped |
| Sanitizer.SanitizedIsSafe | buyer/app/persistence.py:687-732 | sanitised metadata has no blocked key anywhere and fits the size bounds, read without the sanitiser |
| Sanitizer.StoredPayloadIdempotent | buyer/app/persistence.py:795-806 | an event payload is the same however often it is rewritten |
| Sanitizer.SanitizeTextIdempotent | buyer/app/persistence.py:598-635 | a summarised storage-state reply is left alone when sanitised again, and no text becomes empty |
| Sessions.PersistentIsValid | buyer/app/persistence.py:598-606 | the sanitisers the repository applies are idempotent, which the refinement rests on |
| Sessions.ChangeCommutesWithStored | buyer/app/state.py:220-307 | a store operation on the stored form is refused for the same reason, or stores the same, as on the unsanitised session |
| Postgres.PostgresRepository.InsertEvents | buyer/app/persistence.py:304-343 | rewritten event rows keep the delivery status they had, new ones are pending |
| Postgres.PostgresRepository.SyncReplies | buyer/app/persistence.py:363-405 | which reply row becomes waiting, answered or consumed |
| Postgres.PostgresRepository.ReadStatuses | buyer/app/persistence.py:304-318 | a write first reads the delivery statuses of the session's rows |
| Postgres.PostgresRepository.RewriteSession | buyer/app/persistence.py:319-405 | upsert and sync commit together with the statuses read before, or a unique constraint leaves every table as it was |
| Postgres.PostgresRepository.UpdateSession | buyer/app/persistence.py:157-163 | both together, if no mark lands in between |
| Postgres.PostgresRepository.LoadSession | buyer/app/persistence.py:408-488 | a load reads the session row, its events and memory by position and its latest active reply |
| Postgres.PostgresRepository.MarkEventDelivery | buyer/app/persistence.py:230-243 | sets the delivery status of one event and nothing else |
| Postgres.PostgresRepository.DeleteSessions | buyer/app/persistence.py:164-169 | deletes the sessions and all rows that belong to them |
| PostgresRefinement.LoadAgrees | buyer/app/persistence.py:408-488 | a load returns the in-memory session sanitised, or nothing if there is none |
| PostgresRefinement.StepRefines | buyer/app/persistence.py:273-405 | each store operation, each read of statuses and each delivery mark keeps database and dictionary in step |
| PostgresRefinement.DatabaseRefinesMemory | buyer/app/state.py:86-133 | over any history from empty repositories, with delivery marks landing anywhere, every load equals the sanitised in-memory session, with at most one active reply row per session |
| PostgresRefinement.OperationCommits | buyer/app/persistence.py:319-343 | an operation whose event is new is never undone by a unique constraint |
| DeliveryStatuses.RewriteKeepsStatusRead | buyer/app/persistence.py:304-343 | deleting and rewriting a session's events leaves each with the status that was read before, and no other |
| DeliveryStatuses.MarkCanBeLost | buyer/app/state.py:176-177 | a delivery mark takes no lock: one that lands between the read and the rest of a write is overwritten |
| DeliveryStatuses.StatusAfterHistory | buyer/app/persistence.py:304-343 | over any history of operations and marks, the status of an event is exactly the one tracked from reads, marks and writes |
| DeliveryStatuses.StatusIsLastMark | buyer/app/persistence.py:304-343 | while no mark of an event lands inside a write of its session, it keeps its last mark through all operations on all sessions |
| DeliveryStatuses.WriteKeepsStatusIffUndisturbed | buyer/app/persistence.py:304-343 | marks that land inside a write survive it if and only if they leave the event with the status the write had read |
| PostgresRefinement.AskNeedsQuietSession | buyer/app/persistence.py:363-377 | a new question leaves at most one active reply row if and only if none was open and no answer unread |
| PostgresRefinement.AnswerMustNotBeEmpty | buyer/app/persistence.py:378-405 | an answer is stored faithfully if and only if it is not empty |
| BulkLoad.SortFilters | buyer/app/persistence.py:503-520 | sorting the rows of all sessions and picking one session's is picking first and sorting those, stably |
| BulkLoad.HandOut | buyer/app/persistence.py:531-536 | each session gets its own rows, in order |
| BulkLoad.LatestReplies | buyer/app/persistence.py:521-537 | each session's latest active reply row, in one pass |
| BulkLoad.LoadAllSessions | buyer/app/persistence.py:491-581 | every session comes out as if loaded by itself |
| BulkLoad.AllLoadedAgree | buyer/app/persistence.py:491-581 | loading all sessions yields exactly the in-memory sessions, sanitised |
| SessionStores.SessionStore.CreateSession | buyer/app/state.py:179-218 | a session is admitted if and only if the active ones are below the limit, which therefore never breaks |
| SessionStores.SessionStore.Prune | buyer/app/state.py:326-345 | exactly the terminal sessions past their time are removed, with all their runtime entries |
| SessionStores.SessionStore.DropFinishedTasks | buyer/app/state.py:355-363 | finished tasks give up their place |
| SessionStores.SessionStore.SetTaskRef | buyer/app/state.py:161-164 | attaching a task keeps the capacity bound and the bookkeeping if and only if the session is stored, not terminal, and active already or within the limit |
| SessionStores.SessionStore.DoneCallback | buyer/app/state.py:164 | a finished task's session no longer counts as active |
| SessionStores.SessionStore.SetStatus | buyer/app/state.py:237-247 | a terminal status frees the session's place, and no status change takes a new one beyond the limit |
| SessionStores.SessionStore.SetWaitingQuestion | buyer/app/state.py:249-259 | the question is stored, an old answer dropped and the wake event cleared in one step |
| SessionStores.SessionStore.ApplyReply | buyer/app/state.py:261-280 | a reply is taken only for the open question of a session this process runs, and sets the wake event |
| SessionStores.SessionStore.PopReply | buyer/app/state.py:282-291 | the stored reply is returned once and removed |
| SessionStores.SessionStore.SetAuth | buyer/app/state.py:220-230 | the session and the runtime's own copy get the same payload, or both lose it |
| SessionStores.SessionStore.AppendEvent | buyer/app/state.py:293-299 | one event is appended to one session, the capacity bound is kept |
| SessionStores.SessionStore.AddAgentMemory | buyer/app/state.py:301-307 | one memory entry is appended to one session, the capacity bound is kept |
| SessionStores.AdmittedIsActive | buyer/app/state.py:190-218 | admitting a session raises the number of active ones by exactly one |
| ReplyHandshake.EveryReplyReadOnce | buyer/app/state.py:249-291 | in every interleaving each question has at most one accepted reply, under its own id, and the loop reads the accepted texts in order, each once |
| ReplyHandshake.OnlyOpenQuestionAccepts | buyer/app/state.py:261-280 | a submission is accepted exactly if it names the last question while it is unanswered; stale and second ones change nothing |
| ReplyHandshake.AcceptedReplyWakes | buyer/app/service.py:669-694 | a reply that lands before the loop waits still wakes it |
| ReplyHandshake.PopReturnsTheReply | buyer/app/state.py:282-291 | the woken loop gets the text submitted with its own question's id, if and only if it is not empty |
| ReplyHandshake.StepKeepsInv | buyer/app/service.py:660-696 | every step of the loop, a submission or a background write keeps the handshake |
| PaymentVerifier.VerifyCompletedPayment | buyer/app/payment_verifier.py:62-155 | accepted if and only if the right merchant's provider page names exactly the stripped order id; unverified if and only if a provider page does so for an unknown merchant |
| SessionLoop.PaymentBoundary | buyer/app/service.py:221-256 | every `payment_ready` event of a run reports the order of a proven payment, every `payment_unverified` one a payment at an unknown merchant |
| SessionLoop.PaidIsNeverUnverified | buyer/app/service.py:221-256 | no run has both a `payment_ready` and a `payment_unverified` event |
| SessionLoop.CompletedIsPaid | buyer/app/service.py:221-256 | a run ends completed only with a proven payment, whose `payment_ready` event it holds |
| SessionLoop.FinalEventTellsStatus | buyer/app/service.py:304-340 | an ended run has the status of its last `scenario_finished`, exactly one of them if every delivery succeeds, and no other run has one |
| SessionLoop.RunCountsSteps | buyer/app/service.py:163-170 | the steps of a run are its `agent_step_started` events |
| SessionLoop.RetriesBounded | buyer/app/service.py:258-287 | an unbroken stretch of retries is at most floor(window / interval) + 1 long |
| SessionLoop.RecoveryIsBounded | buyer/app/service.py:258-301 | over a run, at most one more passing failure than that comes in a row, and one that ends the session came after its window |
| SessionLoop.SessionRun.EmitEvent | buyer/app/service.py:710-736 | an event is stored before its delivery is tried, so it stays when delivery fails, and the result is the delivery's |
| SessionLoop.SessionRun.HandleCompleted | buyer/app/service.py:342-417 | an accepted payment is reported before the session is completed, up to the first failed delivery |
| SessionLoop.SessionRun.HandleUnverified | buyer/app/service.py:419-482 | an unverified payment is reported before the session ends unverified |
| SessionLoop.SessionRun.HandleFailed | buyer/app/service.py:484-520 | a failure is reported before the session is failed |
| SessionLoop.SessionRun.AskUserForReply | buyer/app/service.py:660-696 | a question leaves the session waiting while it is undelivered or unanswered, and running once it is answered |
| SessionLoop.SessionRun.TakeStep | buyer/app/service.py:163-207 | a step adds exactly its started and finished events as far as deliveries go, and tells a failed delivery from another error |
| SessionLoop.SessionRun.FinishCompleted | buyer/app/service.py:221-256 | a completed result ends the session as its verification says, with the events of that ending |
| SessionLoop.SessionRun.RetryOrFail | buyer/app/service.py:258-304 | a result is tried again if and only if it is a passing failure inside the window of its stretch; anything else fails the session |
| SessionLoop.SessionRun.TakeAnswer | buyer/app/service.py:208-220 | the loop goes on after a question exactly if its answer is not empty |
| SessionLoop.SessionRun.TakeTurn | buyer/app/service.py:162-304 | one turn adds one step to the log and leaves off where the step says |
| SessionLoop.SessionRun.RunSteps | buyer/app/service.py:117-304 | the loop takes exactly the steps that go on, up to the one that does not |
| SessionLoop.SessionRun.RunSession | buyer/app/service.py:117-340 | the whole run: its events are the log of its steps, or that log cut at the first failed delivery and closed by the fallback, with the status and reason it stopped for |
| StreamPublisher.AgentStreamPublisher.Publish | buyer/app/runner.py:904-937 | an item is added once, a batch leaves when full or when source or stream changes, and payloads followed by waiting items stay equal to what was published |
| StreamPublisher.AgentStreamPublisher.PublishAlone | buyer/app/runner.py:905-917 | without a callback every item is a payload of its own |
| StreamPublisher.AgentStreamPublisher.SwitchBatch | buyer/app/runner.py:920-923 | a batch is sent exactly when the next item has another source or stream |
| StreamPublisher.AgentStreamPublisher.FlushIfFull | buyer/app/runner.py:932-934 | a batch is sent exactly when it is full |
| StreamPublisher.AgentStreamPublisher.TakePending | buyer/app/runner.py:948-966 | a payload takes all waiting items under the next sequence number |
| StreamPublisher.AgentStreamPublisher.AddPending | buyer/app/runner.py:925-931 | the first item of a batch arms the flush timer |
| StreamPublisher.AgentStreamPublisher.FlushPending | buyer/app/runner.py:979-987 | the timer's flush sends exactly the waiting items |
| StreamPublisher.AgentStreamPublisher.Close | buyer/app/runner.py:939-946 | closing leaves nothing pending and no timer: the payloads are everything published, in order |
| Utf8.DecodeAppend | buyer/app/runner.py:1085-1103 | decoding chunk by chunk, keeping a character cut short, is decoding in one go |
| Utf8.NewlineCompletes | buyer/app/runner.py:1222-1230 | bytes that end with a newline never end inside a character |
| Utf8.DecodeInvertsEncode | buyer/app/runner.py:1085-1103 | the decoder returns every well-formed text unchanged |
| StreamReader.SplitIsLines | buyer/app/runner.py:1106-1119 | there is only one way to cut a text into lines |
| StreamReader.LinesAreASplit | buyer/app/runner.py:1106-1119 | the lines lose nothing and break exactly after newlines |
| StreamReader.PublishLines | buyer/app/runner.py:1106-1119 | the inner loop publishes every finished line and keeps only text without a newline |
| StreamReader.ReadProcessStream | buyer/app/runner.py:1083-1120 | published lines and collected text depend on the bytes alone, not on how they were cut |
| StreamReader.ReadByLine | buyer/app/runner.py:1122-1133 | the reader of whole lines publishes the same, apart from empty texts |
| JsonlTail.ReadNewRecords | buyer/app/runner.py:1213-1243 | one read yields the records up to the last newline, and the offset stays or ends just after a newline |
| JsonlTail.TwoReads | buyer/app/runner.py:1213-1231 | what a read takes from a shorter file is the front of what a read of the longer one takes |
| JsonlTail.SplitLinesAppend | buyer/app/runner.py:1231 | text cut after a newline splits into lines piece by piece |
| JsonlTail.TailBrowserActions | buyer/app/runner.py:1181-1203 | reads of an append-only file, some of which may fail, publish together the records of one read of the file as last seen |
| IntervalSweep.SweepSorted | buyer/app/runner.py:763-800 | the sweep measures the union of the commands, less an exact penalty for commands that finish before they start |
| IntervalSweep.Sweep | buyer/app/runner.py:763-811 | busy time, idle time, gaps and last finish of commands in any order |
| IntervalSweep.SweepIsExact | buyer/app/runner.py:771-799 | busy time is the measure of the union if and only if no command is harmful, and then idle is the rest of the span |
| IntervalSweep.BusyAndIdlePartitionTheSpan | buyer/app/runner.py:763-811 | for commands that start before they finish, busy and idle are the measures of the covered and the uncovered part of the span |
| IntervalSweep.NothingRunsInAGap | buyer/app/runner.py:774-790 | no command runs at any instant of a reported gap |
| IntervalSweep.LastCommandAdds | buyer/app/runner.py:790-794 | a command adds to the union exactly what it runs after everything before it has finished |
| CommandPairing.PairingIsRight | buyer/app/runner.py:704-728 | with unique ids every finish is paired with its own start, and the queues hold exactly the unfinished starts |
| CommandPairing.OpenRemoves | buyer/app/runner.py:724-726 | a finish takes exactly its own start out of the queue |
| CommandMetrics.TakeStart | buyer/app/runner.py:720-728 | a finish finds its start by id if that start still waits, else first in, first out |
| CommandMetrics.BuildMetrics | buyer/app/runner.py:695-811 | durations, counts and errors per command and in total, the pairs and the sweep of all records |
| CommandMetrics.BuildActionsSummary | eval_service/app/trace_collector.py:153-176 | the collector's independent durations, counts and errors |
| CommandMetrics.SumErrors | buyer/app/runner.py:807 | summing the errors of the breakdown counts every failed finish once |
| CommandMetrics.ErrorsAddUp | eval_service/app/trace_collector.py:174 | the errors of all commands are the failed finishes, whatever the commands |
| CommandMetrics.MetricsAgree | eval_service/app/trace_collector.py:153-176 | both implementations agree on counts and durations always, and on errors if and only if no finish has a disputed `ok` |
| CallbackStores.CallbackStore.Add | micro-ui/app/store.py:17-27 | an event is new if and only if no accepted one has its id or its key; otherwise nothing changes |
| CallbackStores.CallbackStore.Publish | micro-ui/app/store.py:160-165 | every live subscriber of the session, and every global one, is offered the event once, and nothing else happens to any queue |
| CallbackStores.CallbackStore.Subscribe | micro-ui/app/store.py:29-33 | a new subscriber is offered what is accepted from now on |
| CallbackStores.CallbackStore.SubscribeAll | micro-ui/app/store.py:35-39 | a new global subscriber is offered whatever is accepted from now on |
| CallbackStores.CallbackStore.Unsubscribe | micro-ui/app/store.py:41-48 | only that queue leaves, and no session is kept without subscribers |
| CallbackStores.CallbackStore.UnsubscribeAll | micro-ui/app/store.py:50-52 | only that global queue leaves |
| CallbackStores.CallbackStore.ListEvents | micro-ui/app/store.py:54-57 | the accepted events of a session in order |
| EventQueues.EventQueue.Offer | micro-ui/app/store.py:168-182 | the queue takes the event, and drops its oldest one exactly when it holds 200 |
| EventQueues.EventQueue.Get | micro-ui/app/store.py:35-39 | the consumer reads the oldest queued event, once |
| EventQueues.NothingLost | micro-ui/app/store.py:168-182 | while a queue has dropped nothing, what was read followed by what is queued is everything offered, in order |
| EventQueues.LosesNothingWhileKeepingUp | micro-ui/app/store.py:168-182 | over any run of offers and reads, nothing is lost if and only if at most 200 events are ever outstanding |
| CallbackStores.SubscriberLosesNothing | micro-ui/app/store.py:160-182 | a subscriber of the store gets every event of its topic accepted since it subscribed, in order, if and only if it keeps up |
| CallbackStores.AcceptedAreDistinct | micro-ui/app/store.py:17-25 | no two accepted events share an id or a key |
| SessionFold.Summarize | micro-ui/app/store.py:68-155 | every field of a session's summary is read off the one event that decides it |
| SessionFold.StatusNext | micro-ui/app/store.py:109-132 | a completed scenario does not displace an unverified payment, any other outcome does |
| SessionFold.WaitingMeans | micro-ui/app/store.py:82-132 | a session waits for a reply if and only if its last asking or clearing event asks with a reply id |
| JsonTokens.Tokenize | micro-ui/app/static/app.js:181-267 | the tokens join to the text, whatever it is, and each is the longest one its first character calls for |
| JsonTokens.ScanString | micro-ui/app/static/app.js:198-211 | a string ends after its first quote that follows an even number of backslashes, or with the text if there is none |
| JsonTokens.NextToken | micro-ui/app/static/app.js:186-263 | every turn of the loop makes progress and yields the token at that place |
| JsonTokens.SplitTokensByLine | micro-ui/app/static/app.js:294-318 | no space token holds a newline any more, all other tokens are there in order, and rejoining the lines gives the text back, less one newline exactly if a space token ends with it |
| JsonTokens.SplitNewlinesLoses | micro-ui/app/static/app.js:299 | splitting at newlines and joining again loses nothing |
| StableSort.SortSorts | eval_service/app/aggregation.py:129-139 | sorting by any comparison leaves nothing behind what it comes before |
| StableSort.SortPermutes | buyer/app/runner.py:763 | sorting keeps every item as often as it occurs |
| KeyOrder.KeysAreTotallyOrdered | eval_service/app/aggregation.py:129-139 | sort keys are compared by a total order: asymmetric, transitive, and any two that differ compare |
| Medians.MedianIsInTheMiddle | eval_service/app/aggregation.py:214-220 | at least half of the values lie on either side of the median, in whatever order they come |
| Aggregation.SortedIsUnique | eval_service/app/aggregation.py:129-139 | evaluations whose keys tell them apart have only one sorted order |
| Aggregation.OrderIsIrrelevant | eval_service/app/aggregation.py:41-97 | the summary is the same for every permutation of the evaluations |
| Aggregation.ChecksAddUp | eval_service/app/aggregation.py:61-76 | the three counts of a check sum to the number of evaluations and count what they say |
| Aggregation.ReasonsAddUp | eval_service/app/aggregation.py:66-71 | the reason counts of a check sum to its skipped count |
| Aggregation.OverallReasonsAddUp | eval_service/app/aggregation.py:66-71 | the overall count of a reason is the sum of its counts per check |
| Aggregation.Aggregate | eval_service/app/aggregation.py:41-97 | the nested loops compute those counts and lists over the sorted evaluations |
| Aggregation.ComputeBaselines | eval_service/app/aggregation.py:100-122 | a case's baseline is the medians over its last eligible evaluations; a window below one is refused |
| Aggregation.SortedAgain | eval_service/app/aggregation.py:109 | sorting what is sorted changes nothing, so baselines may sort again |
| Dashboard.GroupRows | eval_service/app/dashboard.py:85-89 | a group holds exactly its rows, in order |
| Dashboard.CheckCounts | eval_service/app/dashboard.py:92-100 | the counts of a group's checks |
| Dashboard.BuildPayload | eval_service/app/dashboard.py:22-68 | one entry for each case or host that has rows and for no other, in key order, with its counts and medians |
| Dashboard.GroupsAddUp | eval_service/app/dashboard.py:85-100 | over keys that cover the rows, group counts sum to the counts of all rows |
| Dashboard.DashboardMatchesSummary | eval_service/app/dashboard.py:22-68 | summing a check over the cases or over the hosts gives the summary's count |

## Left out

- The judge phase: a late callback can move a case that is waiting for the judge, so starting the judge ends the modelled run.
- Liveness of runs: a waiting case moved on by a bare `agent_step_started` callback may have no worker, so only safety is claimed.
- Callbacks for cases that were never started: the protocol assumes the buyer reports only on tasks it was given.
- Steps of the protocol are finer than the blocks between two awaits; what holds for every sequence of steps holds for every schedule of blocks.
- HTTP, authentication tokens, file writes, subprocesses, the browser and SQL itself: results and rows are values. The store's lock keeps its operations apart; delivery marks take no lock and may land inside a write, which is modelled.
- The regular-expression redactors and the content of SHA-256; redaction of a callback payload is a function parameter.
- Case folding and stripping of non-ASCII text; the domain and status checks are modelled on ASCII.
- Whether a message looks like a passing browser failure is a flag of the step's result; its text search is not modelled.
- Finding a case by session id, the stored authentication context and the artifact rows.
- SQL isolation inside one load: its queries see one state of the tables, and rows of equal position keep their order.
- Columns that no reader uses, such as when a reply was answered.
- Post-session analysis, the single-sign-on flow before the first step (it may only raise) and log output.
- SessionLoop.SessionRun.RunSession: covers any finite number of agent steps instead of an endless run, and store operations that succeed.
- The texts of error messages, except where a state carries them.
- The display message of a stream payload, and the truncation and JSON parsing of a published line.
- The HTML byte counts and the cut to the five longest gaps in the browser metrics; parsing of time stamps is done before.
- CommandMetrics.MetricsAgree: the collector counts records that have been redacted; that redaction leaves commands, durations and `ok` alone is assumed.
- CommandPairing.PairingIsRight: equal records are one value, as `list.remove` compares them by content.
- Sorting all events by time for the list over every session, and sorting of the session list.
- Recommendation counts, status totals, the sorted case lists under each skip reason, deltas against baselines and the worst cases.
- Floating-point rounding of medians: the mean of two middle values is a real number.
