# Verified models of the agent runtime

This project models the stateful core of a multi-agent coding runtime and proves what its protocols,
queues and loops keep over whole runs. Seven parts of the `core` crate are covered, together with the
pieces they rest on:

1. **The asynchronous decision protocol.** The main thread polls a decision agent; a decision runs on a
   background thread that writes the pending reflection round, sends its answer, and falls back to a
   cell if the channel is closed. Every one of those actions is a step of a transition system, so any
   interleaving is a sequence of steps (`DecisionProtocol.dfy`). It refines a loop that answers one
   request at a time (`DecisionRefinement.dfy`), and every fair schedule answers everything
   (`DecisionLiveness.dfy`). What a caller sees of a poll is in `DecisionEffects.dfy`. The object itself is
   a class whose methods are proved against the same operations (`DecisionAgentSlot.dfy`).
2. **The transcript.** A fold over provider events in which late events find the entry to rewrite by
   scanning backwards (`BackwardScan.dfy`, `Transcript.dfy`). Calls do not interfere
   (`TranscriptIsolation.dfy`), exactly if no in-flight entry lacks an id (`IsolationCondition.dfy`); what
   becomes of a command from start to finish is in `TranscriptBrackets.dfy`, of the other calls in
   `TranscriptCalls.dfy`, and what each kind of event does in `TranscriptEffects.dfy`. The two implementations of the
   shell-command scan agree exactly under a condition a caller can check, event by event
   (`TranscriptAgreement.dfy`) and on any streams (`CommandAgreement.dfy`). The loops are in
   `TranscriptState.dfy`; how a stream ends and which session handles it leaves is in `StreamEffects.dfy`, and
   whose text a turn is judged by in `TurnSummary.dfy`.
3. **The pool.** Fresh ids and codenames (`AgentNaming.dfy`), membership over every run (`AgentPool.dfy`),
   the shutdown snapshot (`PoolSnapshot.dfy`), the status matrix (`SlotStatus.dfy`), the backlog
   (`Backlog.dfy`), who holds which task (`TaskOwnership.dfy`) and the headless loop's separate way of
   assigning (`HeadlessAssignment.dfy`). Which one slot and which one task each operation touches, and when it
   is refused, is in `PoolEffects.dfy` and `OwnershipEffects.dfy`.
4. **The persistence queue.** What any schedule of queueing, flushing and forced saves leaves on the disk,
   write failures included (`PersistenceQueue.dfy`, `PersistenceCoordinator.dfy`), and what it leaves in each of
   an agent's five files (`PersistenceFiles.dfy`).
5. **The mailbox.** Conservation and unread accounting (`Mail.dfy`, `Mailbox.dfy`), and exact placement, operation by
   operation (`MailPlacement.dfy`).
6. **The autonomous loop.** Termination and guardrails (`AutonomousLoop.dfy`, `LoopLimits.dfy`), tasks and todos in step
   (`TaskLockstep.dfy`), what makes a task done (`LoopVerdicts.dfy`), what its counters count and what each turn
   leaves (`LoopEffects.dfy`), and the loops (`LoopRunner.dfy`).
7. **The event aggregator.** Exactly-once, in-order delivery while providers keep sending, and the timed
   poll (`EventChannels.dfy`, `TimedPoll.dfy`, `EventAggregator.dfy`).

The operations are functions on values, so that laws over runs can be stated about them; wherever the
program changes an object in place there is a class with its fields and loops, and each method is proved
equal to the operation. What engines, providers, verification, clocks and disks answer is a parameter
(`Engine`, `Env`, `Disk`, `now`), never fixed.

## What the proofs found

- **The slot's fallback path** covers a closed mail channel only if no response is queued when it closes:
  the close costs an answer exactly in that case (`DecisionRefinement.CloseLosesExactlyQueued`). The pool
  itself never gets there, because it drops a slot and its mail sender together
  (`core/src/pool/decision_coordinator.rs:103-106`); the steps with a closed channel are about the slot's own
  code and go beyond what the pool does with it.
- **In-flight entries without a call id,** of whatever kind, are claimed by the next Finished event of that
  kind. Calls are isolated on a transcript if and only if it has no such entry
  (`IsolationCondition.IsolationExactly`).
- **The two transcript implementations** differ on output that arrives after a call finished, and on
  in-flight commands without an id, and a difference never heals: on any streams they show the same commands
  if and only if the guard holds at every command event (`CommandAgreement.CommandAgreementExactly`).
- **A turn that says nothing** is judged by the last text of the whole transcript, which may be another
  task's; it can complete its task on that (`TurnSummary.SilentTurn`, `SilentTurnCompletes`).
- **Overview id.** The overview agent is kept unique by role, not by id, so it can be spawned beside a slot
  that already carries its id (`AgentPool.OverviewCollides`, reached in `OverviewCollidesAfterRestore`).
- **Restoring a snapshot flips the status:** stopped agents come back Idle, all others come back Stopped
  (`PoolSnapshot.SameAgent`, part of the round trip).
- **An agent stays Idle when it is given a task,** so a further assignment or a hand-over to it makes the
  pool lose sight of the first task (`TaskOwnership.AssignLosesOldTask`, `HandOverLosesTargetsTask`, reached in
  `SecondAssignmentForgetsFirst` and `HandOverForgetsTargetsTask`).
- **A rate limit met at work is refused.** Blocking an agent for a rate limit puts it to rest, and rest can only
  be entered from a block or from rest; an agent that is responding or running a tool therefore goes on as it
  was, and the caller gets an error (`OwnershipEffects.BlockExactly`).
- **Assigning by itself gives up** when an earlier task shares the id of the first ready one
  (`OwnershipEffects.AutoAssignPicks`).
- **The headless loop** assigns from a list taken beforehand, so every waiting agent is given the same task
  (`HeadlessAssignment.SameTaskTwice`).
- **A failing forced save** drops the agent's remaining operations as well; a failing flush drops only the
  operation that failed (`PersistenceQueue.LossOfOneCall`, `ForceSaveDropsTheRest`).
- **Letters sharing an id.** Ids are clock readings; a letter behind another with its id can never be marked
  read by id (`Mail.ReadableUnlessShadowed`).
- **Reaching the iteration limit** does not always mean stopping because of it. The two are the same exactly
  for guardrails under which the iterations run out before the verification failures can
  (`LoopLimits.LimitIsTheReasonExactly`).
- **Polling until a timeout** reports a disconnected agent again in every round. Whatever providers do, each
  agent is reported once exactly if there can be no second round: no receiver, no time to sleep, or something
  buffered when the call is made (`TimedPolls.AlwaysReportsOnceExactly`). Something buffered is received in the
  first round under any interleaving with its receives (`EventChannels.BufferedIsReceived`).

## Where comments and code differ

The models follow the code. `deliver_to_inbox` is described as returning the first broadcast recipient; it
returns none and parks the letter. An inbox is described as holding unread mail; it keeps letters that were
read until it is cleared. `process_pending` is described as returning the agents that received mail; an agent
is listed once for every letter. `force_save` is described as flushing all of an agent's operations; after a
failed write the remaining ones are neither written nor kept.

## Model

| member | source | states |
|---|---|---|
| DecisionProtocol.SequentialIsPlan | core/src/decision_agent_slot.rs:612-758 | the reference loop's answers and reflection rounds follow from each other through the engine, one request at a time |
| DecisionProtocol.SequentialPrefix | core/src/decision_agent_slot.rs:612-758 | answering a prefix of the requests gives a prefix of the answers and of the rounds |
| DecisionProtocol.PollStartFollows | core/src/decision_agent_slot.rs:563-582 | dequeuing a request and spawning its thread with a snapshot of the round keeps the protocol invariant |
| DecisionProtocol.ThreadFollows | core/src/decision_agent_slot.rs:640-758 | each background action (decide and write the pending round, send, store the fallback) keeps it |
| DecisionProtocol.ClearFollows | core/src/decision_agent_slot.rs:586-607 | taking over the pending round and going back to Idle keeps it |
| DecisionProtocol.FallbackFollows | core/src/decision_agent_slot.rs:782-788 | delivering the fallback response keeps it |
| DecisionProtocol.StepKeepsInv | core/src/decision_agent_slot.rs:563-758 | every step of the interleaved system keeps it |
| DecisionProtocol.ReachableInv | core/src/agent_pool.rs:1165-1217 | the invariant holds of every reachable state |
| DecisionRefinement.SequentialAnswer | core/src/decision_agent_slot.rs:612-758 | the i-th answer of the reference loop is the engine's decision on the i-th request from the round the loop had then |
| DecisionRefinement.DeliveredRefinesSequential | core/src/agent_pool.rs:1165-1217 | for every interleaving the delivered responses are a prefix of the sequential loop's, and the i-th answers the i-th request from the round decision i-1 left |
| DecisionRefinement.NoLostRound | core/src/decision_agent_slot.rs:586-607 | no lost update: an idle slot holds the round of its last delivered answer and a deciding thread started from it |
| DecisionRefinement.OneToken | core/src/decision_agent_slot.rs:672-756 | at most one token; Thinking exactly when there is one; a collectable response implies a pending round; the fallback is never overwritten |
| DecisionRefinement.Accounting | core/src/decision_agent_slot.rs:563-607 | decision_count is deliveries plus outstanding tokens, and error_count the error responses delivered, between polls before a stop |
| DecisionRefinement.StoppedIsAbsorbing | core/src/decision_agent_slot.rs:830-852 | a stopped slot stays stopped over every run and starts and counts nothing more |
| DecisionRefinement.AnswerAll | core/src/agent_pool.rs:1165-1217 | from any invariant state of an unstopped slot outside a poll with nothing dropped, some schedule delivers the answer to every request sent |
| DecisionLiveness.StepWorks | core/src/agent_pool.rs:1165-1217 | each main-thread or background step either brings the answers nearer or leaves work and next useful step as they are |
| DecisionLiveness.FairSchedulesDeliver | core/src/agent_pool.rs:1165-1217 | every schedule without a new request, stop or close, in which both sides act in each of 9 rounds a request and 3 more, delivers the sequential answer to every request |
| DecisionRefinement.CatchesUpUnlessDropped | core/src/decision_agent_slot.rs:722-756 | a reachable unstopped slot can still deliver the whole sequential answer if and only if the history has no response dropped with the channel |
| DecisionRefinement.CloseLosesExactlyQueued | core/src/decision_agent_slot.rs:722-756 | after closing an open channel between polls the whole answer can still be delivered if and only if no response was queued |
| DecisionRefinement.ClosingOnAQueuedResponseLosesIt | core/src/decision_agent_slot.rs:722-756 | what the lossy close leaves: a slot Thinking with nothing to collect |
| DecisionRefinement.QueuedResponseIsReachable | core/src/decision_agent_slot.rs:722-756 | such a state is reachable |
| DecisionRefinement.DrainIsRun | core/src/agent_pool.rs:1173-1190 | draining the channel within a poll is a run of single receives |
| DecisionRefinement.PollIsRun | core/src/agent_pool.rs:1165-1217 | from outside a poll, the uninterrupted poll is the interleaving that steps the main thread at least once and until it is first outside again |
| DecisionEffects.PollCollects | core/src/agent_pool.rs:1173-1200 | a poll delivers the waiting answer, from channel or fallback, once, and leaves both cells empty |
| DecisionEffects.PollEndsDecision | core/src/agent_pool.rs:1173-1208 | with its answer delivered an unstopped slot is idle in the round the decision left, its errors counted |
| DecisionEffects.PollStartsDecision | core/src/decision_agent_slot.rs:563-582 | an idle slot with a request starts on the oldest, in its present round |
| DecisionEffects.PollWaits | core/src/agent_pool.rs:1165-1217 | in every other case a poll changes nothing but what it collects |
| DecisionEffects.ResponseTells | core/src/decision_mail.rs:137-168 | a response is an error exactly if the engine failed, and carries its verdict, prompt, reasoning and agent |
| DecisionEffects.TierTells | core/src/decision_agent_slot.rs:62-95 | which situations show which tier |
| DecisionEffects.StopAndReset | core/src/decision_agent_slot.rs:830-868 | stopping works from every status, resetting from an error only, and neither changes anything else |
| DecisionAgents.DecisionAgentSlot.constructor | core/src/decision_agent_slot.rs:300-321 | a new slot is the transition system's initial slot |
| DecisionAgents.DecisionAgentSlot.TryReceiveRequest | core/src/decision_agent_slot.rs:386-388 | takes the oldest request, or none |
| DecisionAgents.DecisionAgentSlot.TryReceiveResponse | core/src/decision_mail.rs:299-302 | takes the oldest response, or none |
| DecisionAgents.DecisionAgentSlot.SpawnAsyncProcessing | core/src/decision_agent_slot.rs:612-670 | goes to Thinking and spawns one thread holding the request and a snapshot of the round |
| DecisionAgents.DecisionAgentSlot.PollAndProcess | core/src/decision_agent_slot.rs:563-582 | starts exactly one decision if idle with a request waiting, otherwise changes nothing |
| DecisionAgents.DecisionAgentSlot.ClearThinkingStatus | core/src/decision_agent_slot.rs:586-607 | takes over the pending round, counts an error and goes Idle, only from Thinking |
| DecisionAgents.DecisionAgentSlot.MarkResponseCollected | core/src/decision_agent_slot.rs:764-776 | the same without an error |
| DecisionAgents.DecisionAgentSlot.TakeFallbackResponse | core/src/decision_agent_slot.rs:782-788 | returns the fallback and empties the cell |
| DecisionAgents.DecisionAgentSlot.Stop | core/src/decision_agent_slot.rs:830-852 | sets Stopped and nothing else |
| DecisionAgents.DecisionAgentSlot.ResetError | core/src/decision_agent_slot.rs:857-868 | goes back to Idle from Error only |
| DecisionAgents.DecisionAgentSlot.ThreadAct | core/src/decision_agent_slot.rs:640-758 | one background action on the shared cells is the transition system's |
| DecisionAgents.DecisionAgentSlot.Poll | core/src/agent_pool.rs:1165-1217 | start, drain, fallback and clear together give the state and the responses of the atomic poll |
| DecisionAgents.PollAt | core/src/agent_pool.rs:1165-1217 | polling one agent changes no other |
| DecisionAgents.PollDecisionAgents | core/src/agent_pool.rs:1165-1217 | every agent is polled once, and the result is their responses in turn, tagged |
| BackwardScan.RewriteLastAt | core/src/app.rs:250-287 | the backward scan rewrites the last hit and nothing else |
| BackwardScan.ScanCommutes | core/src/app.rs:250-287 | a scan that hits kept elements only commutes with looking at the kept elements |
| BackwardScan.ScanInvisible | core/src/app.rs:250-287 | a scan that hits no kept element cannot be seen in the kept elements |
| Transcript.TryRewrite | core/src/app.rs:240-287 | the scan misses exactly when no entry is hit, and keeps the length |
| Transcript.FoldSnoc | core/src/loop_runner.rs:349-486 | one more event at the end of a stream is one more application |
| Transcript.RewriteAt | core/src/app.rs:289-323 | a scan rewrites the last entry its event hits |
| TranscriptIsolation.HitsOwnCall | core/src/app.rs:240-287 | an identified event hits entries of its own call only, and leaves them its own |
| TranscriptIsolation.EventIsolated | core/src/app.rs:222-323 | one event changes its own call's entries as it would alone, and no other call's |
| TranscriptIsolation.CallIsolation | core/src/loop_runner.rs:349-486 | after any interleaved stream the entries of a call are those of running its own events on its own entries |
| IsolationCondition.AnonymousBreaksIsolation | core/src/app.rs:240-588 | on a transcript with an in-flight command, patch, search or MCP call without an id the law fails |
| IsolationCondition.IsolationExactly | core/src/app.rs:240-588 | the law holds of a transcript, for every admissible stream and every call, if and only if it has no such entry |
| TranscriptIsolation.AnonymousEntryIsStolen | core/src/app.rs:258-262 | the smallest case: a command without an id, claimed by a Finished event of another call |
| TranscriptIsolation.StreamExtends | core/src/app.rs:222-588 | no entry changes kind, place, call or input preview, and no finished entry is in flight again |
| TranscriptBrackets.BracketedCall | core/src/app.rs:222-323 | a command started once and finished at most once leaves one entry that sums up its events |
| TranscriptBrackets.BracketedOnTop | core/src/app.rs:240-323 | it leaves the entries there were as they are |
| TranscriptBrackets.BracketMatching | core/src/app.rs:222-323 | in any admissible stream, whatever the other calls do, such a command's entries are those it had and one that sums up its events |
| TranscriptBrackets.OpenCommandsExactly | core/src/app.rs:222-323 | from a transcript with no command in flight, a call has one in flight after the stream if and only if the stream started it and did not finish it |
| TranscriptBrackets.CommandsInFlightAreOpen | core/src/app.rs:222-323 | and every command in flight is such a call's |
| TranscriptEffects.StartedPushes | core/src/app.rs:222-548 | a Started event pushes one entry of its kind and call, in flight, without a result |
| TranscriptEffects.PlainPushes | core/src/app.rs:513-531 | images and status lines are pushed as they come, and the other events leave the transcript |
| TranscriptEffects.PatchFinishes | core/src/app.rs:404-443 | the last patch in progress of the call or of none gets the status, the changes unless empty, and the id if it had none; on a miss a finished patch is pushed |
| TranscriptEffects.PatchOutputs | core/src/app.rs:445-467 | output is appended to the last patch of the call, or the last of all without an id, else dropped |
| TranscriptEffects.SearchFinishes | core/src/app.rs:478-511 | the last open search of the call or of none gets query and action and is no longer open; on a miss one is pushed |
| TranscriptEffects.McpFinishes | core/src/app.rs:548-588 | the last MCP call in progress of the call or of none gets result, error and status; on a miss one is pushed |
| TranscriptEffects.GenericFinishes | core/src/app.rs:346-389 | the last open generic call of the id or of the name gets output, success, exit code and duration, keeping its name and input; on a miss one is pushed |
| TranscriptEffects.CommandFinishes | core/src/app.rs:240-287 | the last running command each implementation may claim gets status, output, exit code and duration, keeping its input; on a miss one is pushed |
| TranscriptEffects.CommandOutputs | core/src/app.rs:289-323 | output is appended to the last command each implementation may claim, and becomes the text of a new one on a miss |
| TranscriptEffects.ErrorsShow | core/src/loop_runner.rs:452-467 | an error is shown; one that ends the session leaves nothing but a line that says so |
| TranscriptEffects.ExpiryPhrases | core/src/loop_runner.rs:452-467 | an error with one of four phrases anywhere in it ends the session |
| TranscriptEffects.StreamText | core/src/app.rs:204-220 | all that is said and all that is thought along a stream is in the transcript, in order, and nothing else is |
| TranscriptCalls.SearchMatching | core/src/app.rs:469-511 | whatever the other calls do, a search started and finished adds one closed entry with its result |
| TranscriptCalls.McpMatching | core/src/app.rs:533-588 | the same for an MCP call, with result, error and status |
| TranscriptCalls.GenericCall | core/src/app.rs:325-389 | a generic call's two events, of one id or one name, leave one closed entry with input and result |
| TranscriptCalls.PatchOnTop | core/src/app.rs:395-467 | a patch started once and finished at most once, with any output between and after, leaves one entry that sums up its events |
| TranscriptCalls.PatchMatching | core/src/app.rs:395-467 | in any admissible stream, whatever the other calls do, such a patch adds one entry with the status, changes and output its events give, in flight exactly until it is finished |
| TranscriptAgreement.DeltaScansAgree | core/src/agent_slot.rs:752-789 | the two output scans agree if the call's last entry is in flight, and differ if not |
| TranscriptAgreement.FinishScansAgree | core/src/agent_slot.rs:698-745 | the two Finished scans agree if no in-flight command without an id comes first, and differ if one does |
| TranscriptAgreement.EventAgreement | core/src/agent_slot.rs:698-789 | on one event both implementations leave the same transcript if and only if the guard holds |
| TranscriptAgreement.InvariantAfter | core/src/agent_slot.rs:698-789 | an event keeps the condition from which the guard follows |
| TranscriptAgreement.StreamAgreement | core/src/agent_slot.rs:698-789 | on a stream of command events with ids and no output after its Finished both implementations leave the same transcript |
| CommandAgreement.FoldOnCommands | core/src/app.rs:222-588 | the commands after any stream without session expiry are those of running its command events on the commands |
| CommandAgreement.ScarStays | core/src/agent_slot.rs:698-789 | a command claimed in one transcript only, or finished with more output in one, stays different |
| CommandAgreement.UnguardedScars | core/src/agent_slot.rs:698-789 | an event that fails the guard leaves such a difference |
| CommandAgreement.StreamAgreementExactly | core/src/agent_slot.rs:698-789 | on a stream of command events with ids the two transcripts are the same if and only if the guard holds at each event along it |
| CommandAgreement.CommandAgreementExactly | core/src/agent_slot.rs:698-789 | on any two streams with the same command events, from transcripts with the same commands, both show the same commands if and only if the guard holds at every command event |
| CommandAgreement.CommandsAgree | core/src/agent_slot.rs:698-789 | so they do if no command is in flight without an id and no call gets output after its Finished |
| TurnSummary.SummaryAfterTurn | core/src/app.rs:841-846 | after a turn the summary is the turn's own last text exactly if it said anything, and the earlier one if not |
| TurnSummary.SilentTurn | core/src/task_engine.rs:127-176 | a silent turn without error fails for want of a summary if and only if nothing was ever said |
| TurnSummary.SilentTurnCompletes | core/src/task_engine.rs:217-262 | with earlier text judged complete and verified, a silent turn's task is done on that text |
| TranscriptState.HandleAllFolds | core/src/loop_runner.rs:349-486 | consuming a stream folds the transcript and marks the task in error exactly if there is an error event |
| StreamEffects.LastHandleCounts | core/src/loop_runner.rs:448-467 | each provider's session handle is the last one the stream gave, unless the session expired after that, which forgets both |
| StreamEffects.EndsAtFinished | core/src/loop_runner.rs:468-473 | at a Finished event the state shows the events before it and no response is awaited any more |
| StreamEffects.EndsAtHook | core/src/loop_runner.rs:448-467 | at a failing state hook it shows the events up to that one, with an error return and the response still awaited |
| StreamEffects.EndsDisconnected | core/src/loop_runner.rs:475-483 | at the end of an unfinished stream it shows all events and an error line, and the task is in error |
| TranscriptState.AppState.AppendAssistantChunk | core/src/app.rs:204-211 | extends the last assistant entry or pushes one |
| TranscriptState.AppState.AppendThinkingChunk | core/src/app.rs:213-220 | extends the last thinking entry or pushes one |
| TranscriptState.AppState.PushExecCommandFinished | core/src/app.rs:240-287 | the backward loop is the fold's step for a Finished event |
| TranscriptState.AppState.AppendExecCommandOutput | core/src/app.rs:289-323 | the backward loop is the fold's step for an output event |
| TranscriptState.AppState.PushGenericToolCallFinished | core/src/app.rs:343-389 | the generic call's loop, which also matches by name, is the fold's step |
| TranscriptState.AppState.PushPatchApplyFinished | core/src/app.rs:404-443 | the patch loop is the fold's step |
| TranscriptState.AppState.AppendPatchApplyOutput | core/src/app.rs:445-467 | the patch output loop is the fold's step; output without an entry is dropped |
| TranscriptState.AppState.PushWebSearchFinished | core/src/app.rs:478-511 | the search loop is the fold's step |
| TranscriptState.AppState.PushMcpToolCallFinished | core/src/app.rs:548-588 | the MCP loop is the fold's step |
| TranscriptState.AppState.ApplySessionHandle | core/src/app.rs:696-705 | stores the handle under its provider |
| TranscriptState.AppState.HandleEvent | core/src/loop_runner.rs:357-477 | one event changes transcript, session handles and error flag as specified |
| TranscriptState.AppState.HandleUntilStopped | core/src/loop_runner.rs:354-477 | the loop handles the events before the first Finished, or up to the first whose state hook fails |
| TranscriptState.AppState.ConsumeProviderUntilFinished | core/src/loop_runner.rs:349-486 | state and error return at Finished, at a failing hook, and at a disconnect, which adds its error and marks the task |
| TranscriptState.WorkerHandle.UpdateLastExecCommand | core/src/agent_slot.rs:698-745 | the worker's Finished loop is the fold's step for the worker |
| TranscriptState.WorkerHandle.AppendExecCommandOutputDelta | core/src/agent_slot.rs:752-789 | the worker's output loop is the fold's step for the worker |
| AgentNaming.ParseAgentId | core/src/agent_pool.rs:2325-2327 | parsing inverts the zero-padded printer for every 64-bit index, over three digits too |
| AgentNaming.AgentIdInjective | core/src/agent_pool.rs:213-217 | distinct indices print distinct ids |
| AgentNaming.CodenameInjective | core/src/agent_pool.rs:220-235 | distinct indices from 1 have distinct codenames |
| AgentPool.IndexOf | core/src/pool/queries.rs:146-151 | finds the first slot with an id, or there is none |
| AgentPool.NextIdIsNew | core/src/agent_pool.rs:213-217 | the id about to be generated was never in the pool |
| AgentPool.SpawnKeepsInv | core/src/agent_pool.rs:240-291 | spawning keeps the identity invariant |
| AgentPool.OverviewKeepsInv | core/src/agent_pool.rs:849-934 | inserting the overview agent at index 0 keeps it |
| AgentPool.SyncedNextCovers | core/src/agent_pool.rs:1425-1443 | after a restore the counter is past the restored index and never lower |
| AgentPool.RestoreKeepsInv | core/src/agent_pool.rs:1365-1453 | restoring a slot keeps it |
| AgentPool.StopKeepsInv | core/src/agent_pool.rs:1244-1268 | stopping keeps it |
| AgentPool.RemoveKeepsInv | core/src/agent_pool.rs:1311-1347 | removing a stopped agent keeps it |
| AgentPool.IdentityInvariant | core/src/agent_pool.rs:240-934 | it holds over every run of spawning, restoring, stopping, removing and working |
| AgentPool.PoolIdentity | core/src/agent_pool.rs:213-217 | from an empty pool with any counter: ids distinct, the overview alone at index 0, no generated id issued twice or ever seen before |
| AgentPool.CapacityIsFixed | core/src/agent_pool.rs:188-190 | no run exceeds or changes the capacity |
| AgentPool.OverviewCollides | core/src/agent_pool.rs:849-866 | spawning the overview keeps ids distinct if and only if no slot already carries its id |
| AgentPool.OverviewCollidesAfterRestore | core/src/agent_pool.rs:1365-1443 | a run that gets there: a developer slot restored under the overview's id, then the overview spawned |
| PoolEffects.MatrixBothWays | core/src/slot/status.rs:193-283 | the transition matrix read by the status entered is the one read by the status left |
| PoolEffects.SpawnAddsLast | core/src/agent_pool.rs:240-291 | a worker goes in last, as an idle developer under the next index, with a deciding agent unless it is a mock; only a full pool refuses it |
| PoolEffects.OverviewAddsFirst | core/src/agent_pool.rs:849-934 | the overview goes in first and moves no counter; a pool that has one or is full refuses it |
| PoolEffects.FailedSpawnUsesIndex | core/src/agent_pool.rs:488-846 | a worktree spawn that fails leaves the agents alone and uses up one index |
| PoolEffects.RestoreInserts | core/src/agent_pool.rs:1365-1453 | exactly three cases are refused; otherwise the slot goes in as captured, an overview first and any other last |
| PoolEffects.StopStops | core/src/agent_pool.rs:1244-1268 | only an agent stopped for another reason is refused; the agent is stopped, every other kept, its deciding agent gone |
| PoolEffects.RemoveRemoves | core/src/agent_pool.rs:1311-1347 | exactly a stopped agent is taken out, with its deciding agent, and every other kept in order |
| PoolEffects.UnknownIsRefused | core/src/agent_pool.rs:1525-1532 | an agent that is not there can be neither stopped nor removed |
| PoolEffects.StopThenRemove | core/src/agent_pool.rs:1244-1347 | stopping then removing takes out just that slot |
| PoolSnapshot.RestoreNext | core/src/multi_agent_session.rs:128-180 | one more captured slot of a sound pool is accepted and keeps its place |
| PoolSnapshot.SnapshotRoundTrip | core/src/multi_agent_session.rs:128-180 | capturing every slot and restoring in order gives the same agents in the same order, and the next id collides with none |
| PoolSnapshot.WorkerPool.constructor | core/src/agent_pool.rs:89-104 | a new pool is empty with the counter at 1 |
| PoolSnapshot.WorkerPool.GenerateAgentId | core/src/agent_pool.rs:213-217 | prints the counter and moves it on |
| PoolSnapshot.WorkerPool.SpawnWorker | core/src/agent_pool.rs:240-291 | state and result are those of the spawn operation, full pool included |
| PoolSnapshot.WorkerPool.SpawnOverviewAgent | core/src/agent_pool.rs:849-934 | the same for the overview agent, duplicate owner included |
| PoolSnapshot.WorkerPool.RestoreSlot | core/src/agent_pool.rs:1365-1453 | the same for a restore, its three refusals included |
| PoolSnapshot.WorkerPool.StopAgent | core/src/agent_pool.rs:1244-1268 | the same for a stop, unknown id and forbidden transition included |
| PoolSnapshot.WorkerPool.RemoveAgent | core/src/agent_pool.rs:1311-1347 | the same for a removal |
| PoolSnapshot.WorkerPool.CaptureSnapshot | cli/src/app_runner.rs:658-684 | captures every slot in order |
| PoolSnapshot.WorkerPool.RestoreFromSnapshot | core/src/multi_agent_session.rs:128-180 | restores in order, skipping what the pool refuses |
| Backlog.FindTask | agent/backlog/src/backlog.rs:42-49 | finds the first task with an id, or there is none |
| Backlog.MoveStatus | agent/backlog/src/backlog.rs:59-170 | a guarded status change moves its own id only, and only from the statuses allowed |
| Backlog.FirstReady | agent/backlog/src/backlog.rs:173-178 | the first Ready task, and none only if there is none |
| BacklogStore.BacklogState.StartTask | agent/backlog/src/backlog.rs:59-83 | Ready to Running, or nothing and false |
| BacklogStore.BacklogState.CompleteTask | agent/backlog/src/backlog.rs:86-112 | Running or Verifying to Done, or nothing and false |
| BacklogStore.BacklogState.FailTask | agent/backlog/src/backlog.rs:115-141 | Running to Failed, or nothing and false |
| BacklogStore.BacklogState.BlockTask | agent/backlog/src/backlog.rs:144-170 | Running to Blocked, or nothing and false |
| TaskOwnership.FirstIdle | core/src/pool/queries.rs:134-138 | finds the first idle slot, or there is none |
| TaskOwnership.AssignKeepsInv | core/src/agent_pool.rs:1610-1690 | assigning a Ready task keeps ownership exclusive and held tasks not Ready |
| TaskOwnership.CompleteKeepsInv | core/src/agent_pool.rs:1701-1755 | completing or failing the held task keeps it |
| TaskOwnership.BlockKeepsInv | core/src/agent_pool.rs:1883-1939 | blocking under any policy keeps it |
| TaskOwnership.NoDoubleOwnership | core/src/agent_pool.rs:1610-2012 | over every run two slots never hold one task and no held task is Ready |
| TaskOwnership.HeldAfter | core/src/agent_slot.rs:924-967 | replacing a slot's task takes away exactly the old one and adds exactly the new one |
| TaskOwnership.AssignLosesOldTask | core/src/agent_slot.rs:924-954 | an assignment keeps every held task if and only if the agent held none |
| TaskOwnership.HandOverMoves | core/src/agent_pool.rs:1970-2012 | a hand-over gives exactly the target exactly the blocked slot's task |
| TaskOwnership.HandOverLosesTargetsTask | core/src/agent_pool.rs:1970-2012 | it keeps every held task if and only if the target held none |
| TaskOwnership.SecondAssignmentForgetsFirst | core/src/agent_slot.rs:924-954 | a run that loses sight of a task: two assignments to one idle agent |
| TaskOwnership.HandOverForgetsTargetsTask | core/src/agent_pool.rs:1970-2012 | another: a hand-over to an idle agent that has a task |
| OwnershipEffects.AssignAssigns | core/src/agent_pool.rs:1610-1690 | an assignment succeeds exactly for a Ready task and an idle agent; that agent holds it, it runs, all else is kept |
| OwnershipEffects.CompleteCompletes | core/src/agent_pool.rs:1701-1755 | the agent holds no task any more; success makes a running or verifying task Done, failure a running one Failed, with its text |
| OwnershipEffects.NothingToComplete | core/src/agent_pool.rs:1701-1755 | refused, with nothing changed, for an agent that is not there or holds no task |
| OwnershipEffects.UnknownAgent | core/src/agent_pool.rs:1525-1532 | no operation changes anything for an agent that is not there |
| OwnershipEffects.ClearClears | core/src/agent_slot.rs:956-964 | only the slot's task changes, to none |
| OwnershipEffects.TransitionMoves | core/src/agent_slot.rs:854-897 | a status change succeeds exactly if the matrix allows it, and changes that slot's status only |
| OwnershipEffects.AutoAssignPicks | core/src/agent_pool.rs:1770-1812 | the first Ready task goes to the first idle agent, unless an earlier task shares its id |
| OwnershipEffects.AutoAssignIdles | core/src/agent_pool.rs:1770-1812 | without an idle agent or a Ready task nothing happens |
| OwnershipEffects.BlockExactly | core/src/agent_pool.rs:1883-1948 | from which statuses an agent can be blocked, a rate limit only from a block or from rest; refused, nothing changes |
| OwnershipEffects.PolicyDecides | core/src/agent_pool.rs:1977-2012 | what each policy makes of the blocked agent's task, and that nothing else changes |
| TaskOwnership.TaskPool.AssignSlot | core/src/agent_slot.rs:924-954 | only an idle slot takes a task |
| TaskOwnership.TaskPool.AssignTaskWithBacklog | core/src/agent_pool.rs:1610-1690 | slots, backlog and result are those of the assignment, its three refusals included |
| TaskOwnership.TaskPool.CompleteTaskWithBacklog | core/src/agent_pool.rs:1701-1755 | the same for completion and failure |
| TaskOwnership.TaskPool.HandleBlocked | core/src/agent_pool.rs:1970-2012 | the same for each policy on a blocked agent's task |
| TaskOwnership.TaskPool.ProcessAgentBlocked | core/src/agent_pool.rs:1883-1939 | the same for blocking, the rate-limit rest and forbidden transitions included; without a backlog the task is left alone |
| HeadlessAssignment.SameTaskTwice | cli/src/app_runner.rs:620-651 | the headless loop's assignment leaves ownership exclusive if and only if at most one agent was waiting |
| HeadlessAssignment.WaitingAgentsGetFirstReady | cli/src/app_runner.rs:620-651 | every waiting agent holds the first Ready task afterwards, every other slot is kept, and the task runs if there was one |
| HeadlessAssignment.AssignReadyTasks | cli/src/app_runner.rs:620-651 | its loop gives every waiting agent the first ready task of the list taken beforehand |
| PersistenceQueue.ReadReplay | core/src/persistence_coordinator.rs:112-123 | last write wins, file by file |
| PersistenceQueue.LastWritePart | core/src/persistence_coordinator.rs:170-226 | a file depends only on its own agent's operations |
| PersistenceQueue.PartitionCommutes | core/src/persistence_coordinator.rs:128-158 | writing one agent's operations ahead of the others' leaves the same files |
| PersistenceQueue.ForceSaveThenFlush | core/src/persistence_coordinator.rs:112-158 | without failures a forced save followed by a flush is one flush: same files, queue and count of all operations |
| PersistenceQueue.OfOthers | core/src/persistence_coordinator.rs:131-146 | a forced save takes all of its agent's operations and keeps every other agent's, in order |
| PersistenceQueue.FlushKeeps | core/src/persistence_coordinator.rs:112-123 | a flush keeps the accounting and every unharmed agent intact, whatever write fails |
| PersistenceQueue.ForceSaveKeeps | core/src/persistence_coordinator.rs:128-158 | so does a forced save |
| PersistenceQueue.FailuresAreIsolated | core/src/persistence_coordinator.rs:112-226 | for any schedule, an agent that lost nothing will have exactly the files of all it queued, in order, whatever failed for others |
| PersistenceQueue.ScheduleIsReplay | core/src/persistence_coordinator.rs:112-158 | with nothing lost, disk and queue together amount to the whole history, and the counter to the writes done |
| PersistenceQueue.LossOfOneCall | core/src/persistence_coordinator.rs:112-158 | each call loses nothing if and only if every write it attempts succeeds; a flush at most one operation, a forced save all from the failing one on |
| PersistenceQueue.ForceSaveDropsTheRest | core/src/persistence_coordinator.rs:128-158 | an input on which the two calls differ in what they lose |
| PersistenceFiles.PathsApart | core/src/persistence_coordinator.rs:147-226 | two writes go to one file if and only if they are of one agent and one kind |
| PersistenceFiles.FlushLeaves | core/src/persistence_coordinator.rs:112-124 | after a flush each entity's file holds what was queued for it last before the first failure; a refused write leaves its file, a torn one what got through, and no other file is affected |
| PersistenceFiles.CleanFlushLeaves | core/src/persistence_coordinator.rs:112-124 | without failures, per agent and kind, the file holds the last content queued of that kind |
| PersistenceFiles.ForceSaveLeaves | core/src/persistence_coordinator.rs:129-160 | a forced save does the same for its agent's entities and touches no other agent's file |
| PersistenceFiles.OnlyEntities | core/src/persistence_coordinator.rs:163-226 | a file appears only if something was written to it |
| PersistenceCoordinator.AgentPersistenceCoordinator.Enqueue | core/src/persistence_coordinator.rs:83-85 | appends to the queue |
| PersistenceCoordinator.AgentPersistenceCoordinator.EnqueueBatch | core/src/persistence_coordinator.rs:88-92 | appends all, in order |
| PersistenceCoordinator.AgentPersistenceCoordinator.ExecuteOp | core/src/persistence_coordinator.rs:161-226 | writes the agent's file of the operation's kind, or fails, possibly leaving it cut short |
| PersistenceCoordinator.AgentPersistenceCoordinator.Flush | core/src/persistence_coordinator.rs:112-123 | files, queue, count and returned paths of the pop-front loop, first failure included |
| PersistenceCoordinator.AgentPersistenceCoordinator.ForceSave | core/src/persistence_coordinator.rs:128-158 | the same for drain, partition, re-queue and execute |
| PersistenceCoordinator.AgentPersistenceCoordinator.Partition | core/src/persistence_coordinator.rs:132-141 | the stable partition by agent |
| Mail.FirstWith | core/src/agent_mail.rs:365-375 | finds the first letter with an id, or there is none |
| Mail.ProcessPlaces | core/src/agent_mail.rs:392-424 | processing extends each inbox by the mail addressed to it in sending order, and pending and history by the rest and by it |
| Mail.DeliverAllAt | core/src/agent_mail.rs:475-493 | delivering to distinct agents extends exactly their inboxes by all the letters, in order |
| Mail.DeliverPlaces | core/src/agent_mail.rs:475-493 | deliver extends each listed inbox by the pending mail in reverse, whomever it names, with one report per letter and agent |
| Mail.DeliveryAt | core/src/agent_mail.rs:475-493 | the report of the i-th letter for the j-th agent is at its place in the row-by-row order |
| Mail.TotalUpdate | core/src/agent_mail.rs:445-450 | replacing one inbox moves the unread total by the difference |
| Mail.MarkAllReadAccounts | core/src/agent_mail.rs:378-387 | marking all read lowers the total by the inbox's unread count, keeps its letters and every other inbox |
| Mail.MarkReadAccounts | core/src/agent_mail.rs:365-375 | marking one read lowers the total by one exactly when the first letter with that id was unread |
| Mail.ClearAccounts | core/src/agent_mail.rs:438-442 | clearing lowers it by the inbox's unread count |
| Mail.DispatchAllAccounts | core/src/agent_mail.rs:392-424 | processing raises it by the unread direct mail |
| Mail.DeliverAllAccounts | core/src/agent_mail.rs:475-493 | delivering raises it by every unread letter once for each name listed |
| Mail.ReadableUnlessShadowed | core/src/agent_mail.rs:36-40 | a letter can be marked read by ids if and only if no letter before it shares its id |
| Mail.StepConserves | core/src/agent_mail.rs:306-493 | each operation adds to the three lists exactly the mail it brings in |
| Mail.MailConserved | core/src/agent_mail.rs:306-493 | over every run, outgoing, pending and history together are every letter introduced, once |
| MailPlacement.SentWaits | core/src/agent_mail.rs:321-323 | a letter sent waits in the outgoing queue and is nowhere else |
| MailPlacement.ChatArrives | core/src/agent_mail.rs:306-318 | a chat is an unread letter in its addressee's inbox and in the history, and nowhere else |
| MailPlacement.BroadcastReaches | core/src/agent_mail.rs:427-435 | a broadcast to distinct agents is added to each one's inbox and to no other, and once to the history |
| MailPlacement.BroadcastRepeats | core/src/agent_mail.rs:427-435 | to any agents, an inbox grows by a copy for each time it is named |
| MailPlacement.RestoredWaits | core/src/agent_mail.rs:463-467 | restored mail waits in the pending list, behind what is there, and is nowhere else |
| MailPlacement.DeliveryMoves | core/src/agent_mail.rs:475-493 | delivering moves the pending list, last letter first, to the distinct agents' inboxes and the history |
| MailPlacement.PartsOfOutgoing | core/src/agent_mail.rs:392-424 | what processing puts into an inbox or the pending list are exactly the letters addressed there, in order |
| MailPlacement.RecipientsAreAddressees | core/src/agent_mail.rs:392-402 | the recipients reported are the addressees of the delivered letters, one for one |
| MailPlacement.MarkReadStamps | core/src/agent_mail.rs:365-375 | only the first letter with the id is stamped; no other letter, inbox or list changes |
| MailPlacement.MarkAllReadStamps | core/src/agent_mail.rs:378-387 | every letter of the inbox is stamped; nothing else changes |
| MailPlacement.ClearEmpties | core/src/agent_mail.rs:438-442 | the inbox is empty and stays open; nothing else changes |
| MailPlacement.UnreadCounts | core/src/agent_mail.rs:331-336 | the count is the number of letters nobody has stamped |
| Mailbox.AgentMailbox.SendMail | core/src/agent_mail.rs:321-323 | appends to the outgoing queue only |
| Mailbox.AgentMailbox.SendChat | core/src/agent_mail.rs:306-318 | puts the chat into its inbox and the history and returns it |
| Mailbox.AgentMailbox.DeliverToInbox | core/src/agent_mail.rs:407-424 | direct mail to its inbox, opened if missing; other mail to pending and no recipient |
| Mailbox.AgentMailbox.ProcessPending | core/src/agent_mail.rs:392-402 | state and recipients of the pop-front loop |
| Mailbox.AgentMailbox.Deliver | core/src/agent_mail.rs:475-493 | state and reports of the nested loops |
| Mailbox.AgentMailbox.DeliverBroadcast | core/src/agent_mail.rs:427-435 | one copy per name listed and one history entry |
| Mailbox.AgentMailbox.RestorePending | core/src/agent_mail.rs:463-467 | appends to pending, in order |
| Mailbox.AgentMailbox.MarkRead | core/src/agent_mail.rs:365-375 | stamps the first letter with the id and says whether there is one |
| Mailbox.AgentMailbox.UnreadCount | core/src/agent_mail.rs:331-336 | the unread letters of an inbox, none if there is no inbox |
| Mailbox.AgentMailbox.MarkAllRead | core/src/agent_mail.rs:378-387 | stamps every letter and returns how many were unread |
| Mailbox.AgentMailbox.ClearInbox | core/src/agent_mail.rs:438-442 | empties the inbox but keeps it open |
| Mailbox.AgentMailbox.TotalUnread | core/src/agent_mail.rs:445-450 | the sum over all inboxes, in any order |
| AutonomousLoop.NextReadyTodo | core/src/app.rs:779-784 | the first ready todo, and none only if there is none |
| AutonomousLoop.ContinuingUsesUp | core/src/task_engine.rs:179-215 | a turn that goes on uses up one continuation, which is why a task's execution ends |
| AutonomousLoop.ExecuteTurns | core/src/loop_runner.rs:291-347 | a task is executed in at most one turn more than its remaining continuations |
| AutonomousLoop.LoopBounds | core/src/loop_runner.rs:186-282 | bounds on iterations and verification failures at each kind of stop, for any iteration whatever |
| AutonomousLoop.GuardrailsHold | core/src/loop_runner.rs:186-282 | the counters reported stay within their guardrails for every course of events, and exhausting the failures is exactly the stop for failures |
| LoopEffects.FailuresAreCounted | core/src/loop_runner.rs:258-279 | the failures reported are the iterations of the run that failed verification, and the loop stops for them exactly when that number reaches max(1, max_verification_failures) |
| LoopEffects.LoopCounts | core/src/loop_runner.rs:201-282 | the same from any counters, for any iteration whatever: the loop's result tells how many iterations were executed and how many of them failed |
| LoopEffects.LoopEndsWhereItLeads | core/src/loop_runner.rs:201-282 | the loop ends where its counted iterations lead: at an iteration without work, at an error return, or escalating at a guardrail |
| LoopEffects.LoopEndsInPhase | core/src/loop_runner.rs:201-278 | at a guardrail the phase is escalating, without work it is idle |
| LoopEffects.ExecutionIsItsTurns | core/src/loop_runner.rs:291-347 | a task's execution is its turns in order: each but the last asks for another, and the last settles the outcome |
| LoopEffects.PickTakesFirstReady | core/src/app.rs:779-807 | with no task in flight the loop begins on the first ready todo, with a new numbered record of it |
| LoopEffects.ResolveDecides | core/src/task_engine.rs:121-305 | every row of the decision: the task's final record, its todo, the phase and the resolution; a turn asking to go on below the limit goes on with nothing else changed |
| LoopEffects.AfterDecision | core/src/loop_runner.rs:318-346 | which resolution makes the loop go on, stop with which outcome, or return an error |
| LoopEffects.TurnRuns | core/src/loop_runner.rs:302-346 | before the decision the task runs; a provider that does not start blocks it, and each error return leaves it in flight |
| LoopEffects.TurnDecides | core/src/loop_runner.rs:318-346 | and then the decision is taken on the running task, with the error flag raised by a failed stream |
| AutonomousLoop.MaxIterationsExactly | core/src/loop_runner.rs:201-220 | how the reason reported follows from the counters reported |
| LoopLimits.FailingRun | core/src/loop_runner.rs:258-278 | for all guardrails that admit it, a run that reaches the limit and stops for the failures |
| LoopLimits.LimitIsTheReasonExactly | core/src/loop_runner.rs:186-282 | stopping for the limit is the same as reaching it, for every state and course of events, if and only if max_iterations < max(1, max_verification_failures) |
| AutonomousLoop.BothLimitsAtOnce | core/src/loop_runner.rs:258-278 | the smallest run that reaches the limit but stops for the failures |
| AutonomousLoop.TurnsAreBounded | core/src/loop_runner.rs:186-347 | the provider is started at most maxContinuations + 1 times an iteration |
| TaskLockstep.MarkKeeps | core/src/app.rs:813-839 | marking the active task keeps tasks and todos in step |
| TaskLockstep.BeginKeeps | core/src/app.rs:786-807 | beginning a task on a ready todo keeps them in step |
| TaskLockstep.CloseKeeps | core/src/app.rs:848-925 | completing, failing or blocking the active task keeps them in step and settles exactly it |
| TaskLockstep.ResolveKeeps | core/src/task_engine.rs:121-305 | deciding after a turn keeps them in step and settles the task unless it goes on |
| TaskLockstep.TurnKeeps | core/src/loop_runner.rs:302-346 | so does a whole turn, error returns included |
| TaskLockstep.ExecuteKeeps | core/src/loop_runner.rs:291-347 | so does a task's execution |
| TaskLockstep.PickKeeps | core/src/loop_runner.rs:222-247 | the loop resumes exactly the active task, opens one on a ready todo, or nothing is left |
| TaskLockstep.LoopInLockstep | core/src/loop_runner.rs:186-282 | over the whole loop: in step at the end, settled tasks and done, blocked and dropped todos unchanged, each counted iteration settles exactly one task, none left in flight |
| TaskLockstep.FreshIsInStep | core/src/app.rs:786-807 | an empty task list with no todo in progress is in step |
| TaskLockstep.StopsWhenNothingIsLeft | core/src/loop_runner.rs:226-241 | a stop for want of work leaves no todo ready or in progress, and as many tasks as iterations from a fresh start |
| TaskLockstep.ExactlyOneInFlight | core/src/app.rs:786-925 | task ids are distinct; an active id names exactly one live task whose todo is the only one in progress; with none there is neither |
| LoopVerdicts.DoneOnlyIfVerified | core/src/task_engine.rs:217-305 | over any run from any state no more tasks become done than turns were verified |
| LoopVerdicts.DoneExactlyIfVerified | core/src/task_engine.rs:217-305 | if nothing aborts the loop, exactly the verified turns make tasks done |
| LoopRunner.LoopState.BeginTaskFromTodo | core/src/app.rs:786-807 | pushes a Ready task numbered by the list, makes it active and its todo in progress, or none for an unknown todo |
| LoopRunner.LoopState.MarkActiveTaskRunning | core/src/app.rs:813-825 | the active task is Running, if there is one |
| LoopRunner.LoopState.MarkActiveTaskVerifying | core/src/app.rs:827-839 | the active task is Verifying, if there is one |
| LoopRunner.LoopState.CompleteActiveTask | core/src/app.rs:848-871 | task and todo done, active id and counters cleared |
| LoopRunner.LoopState.FailActiveTask | core/src/app.rs:873-898 | task failed, its todo ready again only if in progress |
| LoopRunner.LoopState.BlockActiveTask | core/src/app.rs:900-925 | task and todo blocked |
| LoopRunner.LoopState.HandleProviderStartFailure | core/src/task_engine.rs:86-119 | blocks the active task, or goes idle without one |
| LoopRunner.LoopState.ResolveActiveTaskAfterTurn | core/src/task_engine.rs:121-305 | state and resolution of every branch, failed artifact writes included |
| LoopRunner.LoopState.RunTurn | core/src/loop_runner.rs:302-346 | one pass of the inner loop, each error return included |
| LoopRunner.LoopState.ExecuteTaskUntilResolution | core/src/loop_runner.rs:291-347 | the inner loop ends in the state, outcome and turn of the specification |
| LoopRunner.LoopState.PickTask | core/src/loop_runner.rs:222-247 | resumes, begins or stops as specified; the begin it attempts never fails |
| LoopRunner.LoopState.RunLoop | core/src/loop_runner.rs:177-283 | the outer loop ends in the state and summary of the specification |
| EventChannels.StepKeepsInv | core/src/event_aggregator.rs:207-255 | every send, sender drop, receive, start and end of a poll keeps the delivery invariant |
| EventChannels.ExactlyOnceInOrder | core/src/event_aggregator.rs:207-255 | under any interleaving what was received of an agent followed by its buffer is what it sent |
| EventChannels.FinishedPollReports | core/src/event_aggregator.rs:230-246 | a finished poll reports each distinct receiver once; one reported disconnected has had all it sent received, then and ever after |
| EventChannels.BufferedIsReceived | core/src/event_aggregator.rs:221-248 | under any interleaving a poll that has come to its end has received at least what was buffered for each receiver when it began |
| EventChannels.ReceiveAllIsRun | core/src/event_aggregator.rs:221-248 | the uninterrupted poll is a run of its single receives |
| EventChannels.ReceiveAllEmpties | core/src/event_aggregator.rs:221-248 | it empties exactly the receivers it visits, handing over their buffers in order |
| EventChannels.ReceiveAllSorts | core/src/event_aggregator.rs:230-246 | it reports each visit once, as empty or disconnected by whether the sender is gone |
| TimedPolls.RoundReports | core/src/event_aggregator.rs:207-261 | a round reports every visit once, and no disconnection exactly if every sender is alive |
| TimedPolls.WhoIsReported | core/src/event_aggregator.rs:263-294 | an agent is reported as gone exactly if some round finds its sender gone, and as empty exactly if it had a living sender in the first |
| TimedPolls.RoundsStop | core/src/event_aggregator.rs:263-294 | only the last round has events, and short of the time only events end the rounds |
| TimedPolls.TimedEvents | core/src/event_aggregator.rs:263-294 | what is handed over are the events of that round |
| TimedPolls.ReportsOnceExactly | core/src/event_aggregator.rs:263-294 | with providers acting in the sleeps, each receiver is reported once if and only if every round after the first finds every sender alive |
| TimedPolls.AlwaysReportsOnceExactly | core/src/event_aggregator.rs:263-294 | each receiver is reported once whatever providers do in the sleeps if and only if, at the call, there is no receiver, no time to sleep, or something buffered |
| TimedPolls.EveryoneMayGo | core/src/event_aggregator.rs:273-294 | the course of events that breaks it otherwise: every sender goes in the first sleep |
| TimedPolls.GoneSenderIsRepeated | core/src/event_aggregator.rs:263-294 | nothing waiting, one sender gone and time for a second round: not reported once |
| TimedPolls.RepeatedPollRepeatsDisconnections | core/src/event_aggregator.rs:280-291 | an input on which an agent is reported twice |
| EventAggregators.EventAggregator.PollWithTimeout | core/src/event_aggregator.rs:263-294 | the polling loop with its two ways to stop gives those rounds put together |
| EventAggregators.EventAggregator.AddReceiver | core/src/event_aggregator.rs:173-180 | registers a receiver, replacing one already there with its buffer |
| EventAggregators.EventAggregator.RemoveReceiver | core/src/event_aggregator.rs:185-192 | removes and returns the receiver, if any |
| EventAggregators.EventAggregator.TryRecv | core/src/event_aggregator.rs:223-246 | the oldest event; else empty or disconnected, changing nothing |
| EventAggregators.EventAggregator.PollEach | core/src/event_aggregator.rs:221-248 | the nested loops are the uninterrupted poll |
| EventAggregators.EventAggregator.PollAll | core/src/event_aggregator.rs:207-261 | polls every registered agent once, in some order |
| EventAggregators.EventAggregator.PollAgents | core/src/event_aggregator.rs:297-327 | polls the registered ones of a list, in its order |
| EventAggregators.PollAllDelivers | core/src/event_aggregator.rs:207-261 | one poll of all hands over each agent's whole buffer in order |
| EventAggregators.PollAllReports | core/src/event_aggregator.rs:207-261 | and reports each once, as disconnected exactly if its sender is gone |

## Left out

- The synchronous decision path (`process_request`) leaves its response in the same channel while the slot is Idle, outside the single-outstanding protocol; it is not part of this model.
- The decision engine is an arbitrary function of the call, the request and the round; poisoned mutexes, provider threads and timing fields are not modelled.
- Closing the response channel is a step between polls only.
- TranscriptIsolation.CallIsolation: does not cover generic tool calls, because their matcher also accepts an equal name, and excludes session expiry, which clears the transcript.
- AgentPool.IdentityInvariant: assumes the 64-bit counter has not overflowed and that a restored slot is the overview's exactly when it carries its id; roles are not reset.
- Slots of a pool and entries of a transcript are values inside the owner's sequence: the program owns them without aliasing.
- Worktrees and git, profiles, the focus manager, the human decision queue, the blocked history and notifications of a blocked agent, and the decision trigger after an assignment.
- Assignment without a backlog (`assign_task`), which skips the Ready check ownership rests on.
- PersistenceQueue.ScheduleIsReplay: takes an agent's directory and file name as a pair and the serialised text as given; directory creation and serialisation failures are refused writes. The flush interval and its clock are left out.
- Mail subjects and bodies are plain texts, deadlines and action counts are left out, and delivery times are not part of a report.
- LoopRunner.LoopState.RunLoop: whether a provider stream fails, its last assistant summary, the judgement of it and the verification are an oracle per turn; how the first two follow from the transcript is in TurnSummary, outside the loop. Messages, artifacts, prompts and plans are left out. An error return of a state hook or an artifact write is modelled by the place where it leaves the loop.
- EventChannels.ExactlyOnceInOrder: on a fixed receiver set; a poll may run as long as providers keep sending.
- The clock of the timed poll: how many sleeps the time allows is a parameter, and so is what the providers do in them.
- TimedPolls.ReportsOnceExactly: its rounds are uninterrupted; a sender may also go during a round, before its receive.
- Integer widths of counters (`decision_count`, `ops_processed`, iterations): unbounded here. The continuation counter stays below its 8-bit limit because it is compared before it grows.
- Logging, printing, file formats, configuration, the WebSocket client, and the remaining modules of the crate.
