# Verified model of the ACP session host

This project models the parts of OpenSymphony that decide whether an agent session is safe: who may own a
workspace, what a crash leaves behind, which prompt may be sent, what a subscriber is told, and what text reaches
a reader. Each part is stated in Dafny and its properties are proved for every input, every run and every
interleaving of the model. `dafny verify dfyconfig.toml` checks everything.

## What is modelled

**Durable ownership.** `Records.dfy` is the conversation manifest. `Durability.dfy` gives every operation twice: as a
function on values, and as a method of the class `Durability`, which changes the record in memory and then writes it.
A write is one atomic step that succeeds, or reports failure with the file old or already new. `OwnerProtocol.dfy` is
the transition system of any number of hosts over the disk record, the kernel's lock, the live peer process groups and
the prompts on the wire without a terminal response. Every action writes at most once, so a crash can happen between
any two writes. `ClaimRules.dfy` says what a claim asks for and leaves, and that it is three of these steps;
`SessionRun.dfy` that nothing but a failure keeps a session from running; `LostFence.dfy` is one of the runs.
`SessionDriver.dfy` is the actor's loop for one session, and `DriverSteps.dfy` shows that it takes only steps of that
system.

**Source log, catch-up, stream and projection.** `SourceLog.dfy` is the byte- and frame-bounded history.
`Broadcast.dfy` is the publisher, which retains before it sends; `EventStream.dfy` and `CatchUp.dfy` are the two
consumers, which both have to agree with the full numbered frame stream. `TodoProjection.dfy` is the worker's
correlation of vendor todo requests; `TodoLog.dfy` says what it means from the log of requests and responses alone,
and `TodoFrames.dfy` from the frames.

**Callbacks.** `CallbackQueue.dfy` is the reservation queue, `OperatorDelivery.dfy` the concurrent system around it
(operators, answering tasks, delivery fences, the SDK's FIFO and the writer), `OperatorSafety.dfy` its proof.
`OperatorRules.dfy` says what each part does, and that an undisturbed answer arrives. `WireRanks.dfy` counts the
responses on the wire. `OperatorReceipts.dfy` says what an acknowledgement means, and `OwnAnswer.dfy` is one of its
runs. `TurnServices.dfy` is the actor that runs file and terminal callbacks, one turn at a time, `TurnRules.dfy` what
its steps do and when they fail, and `TurnCallers.dfy` what the success of a turn command means, to any caller and to
callers that wait.

**Text and selection.** `Utf8.dfy`, `TerminalOutput.dfy` and `OutputRuns.dfy` are the streaming lossy decoder with its
bounded tail, and `LossyText.dfy` what that decoder shows. `BoundedResponse.dfy` fits a response into a frame.
`ShellCommand.dfy` renders a command line and splits it again by the shell's rules. `SessionSelection.dfy` applies
session options against an arbitrary peer. `WorkflowMarker.dfy`, `MarkerRules.dfy`, `MarkerLaws.dfy`, `MarkerKept.dfy`
and `MarkerText.dfy` are the managed markers of a workflow file, on lines and on the text itself. `Release.dfy` is the
version order and the choice of a release, `ReleaseRules.dfy` both on the texts and numbers.

## What was found

- `crates/opensymphony-acp/src/host.rs:1028` reports a failed terminal checkpoint as leaving the submission fenced.
  The record in memory is already Finished then, and the process checkpoint at line 736 writes the whole record,
  so the fence can be gone. `OwnerProtocol.FailedFinishFence` gives the exact condition, and `LostFence.FenceIsLost`
  a run from the initial state that ends with the next claim admitted.
- `crates/opensymphony-acp/src/services.rs:343-346`: a retirement that joins a failed process returns an error but
  leaves `processes_ok` set. A turn command that is already queued then can succeed while the process of a released
  terminal is still there (`TurnCallers.SuccessAfterFailure`). `TurnCallers.SuccessExactly` says, for every run, when a
  success is sound. No caller of the program queues a command behind a failed one: each waits for its acknowledgement
  and stops when it fails (`crates/opensymphony-acp/src/lib.rs:1591`, 1662, 1671 and 1745, and
  `crates/opensymphony-acp/src/host.rs:1128` and 1257). For callers that wait every success is sound, whatever else
  fails (`TurnCallers.SuccessIsSound`).
- `crates/opensymphony-acp/src/projection.rs:550-556` leaves an empty argument unquoted, so it disappears from the
  rendered line. A command line is read back as it was exactly when no word is empty
  (`ShellCommand.RoundTripExactly`).
- `crates/opensymphony-cli/src/update_repo.rs:454-476` finds the review heading anywhere in the text. When that place is
  outside the section, the inserted marker is not managed and the next patch inserts another
  (`MarkerLaws.PatchLeavesOne`, `MarkerLaws.DecoratedHeadingLoses`).
- `crates/opensymphony-cli/src/update_repo.rs:455-460` puts a branch section in front of the heading itself and not of
  its line. A heading that does not start its line is cut off from what stood before it, even from mere indentation.
  `MarkerKept.PatchKeepsLines` says that the lines are kept exactly otherwise, and `MarkerKept.IndentedHeadingIsCut`
  is an input that loses its line. No character is lost (`MarkerText.InsertionKeepsText`).
- `crates/opensymphony-acp/src/lib.rs:324-328`: the writer knows a response by its text alone, so a response of the
  SDK's own can take a slot. The texts of the slots taken are exactly those of such responses
  (`OperatorReceipts.EarlyTexts`), and an acknowledgement is unsound exactly when its slot is among them
  (`OperatorReceipts.AcknowledgedByRank`). For an operator's answer, which is always a result (lines 1370-1372), the SDK
  would have to make up that very result (`OwnAnswer.OwnAnswerPasses`); the program is not shown to meet one, and its
  comments speak of the SDK's own responses as errors (line 1139). With errors only, every acknowledgement is sound
  (`OperatorReceipts.ErrorsTakeNoAnswer`).
- `crates/opensymphony-acp/src/host.rs:247-253`: `covers_since` answers no for every cursor of another generation, also
  when nothing of that generation was ever published. `SourceLog.CoversExactly` states what it does answer.

## Assumptions

The kernel frees the owner lock when a process dies, an absent process group stays absent until the identifier is
reused for another group, and a tree kill that reports success with the child reaped leaves no member of the group.
Process checks follow Unix. The broadcast channel drops its oldest events when a receiver falls behind and then
says so; the SDK's queue, the actor's queue and the sink are FIFO. Timeouts and cancellations may happen at any
time. JSON values appear as what the code reads from them and as encoded sizes.

## Model

| member | source | states |
|---|---|---|
| DurableRecord.Durability.Claim | crates/opensymphony-acp/src/durable.rs:130-331 | under a held lock a claim fails and changes neither lock nor record; a failure leaves the lock as it was and the record too unless the failed write reached it; a success holds the lock and the record it wrote |
| DurableRecord.Durability.Release | crates/opensymphony-acp/src/durable.rs:71-77 | dropping the owner frees the lock |
| DurableRecord.Durability.Persist | crates/opensymphony-acp/src/durable.rs:347-387 | invalid or oversized records never reach the file; otherwise the file holds the stamped record unless the write was lost, and the result says which failures are reported |
| DurableRecord.Durability.Launched | crates/opensymphony-acp/src/durable.rs:389-395 | only a pending launch takes a nonzero pid, in memory even when the write fails |
| DurableRecord.Durability.MarkStopped | crates/opensymphony-acp/src/durable.rs:398-401 | the process marker is Stopped in memory, and on disk as far as the write got |
| DurableRecord.Durability.MarkReady | crates/opensymphony-acp/src/durable.rs:403-434 | refused unless quiescent with a valid session id; otherwise the session, what was negotiated, the recovery and the model flag are bound, the record is Ready, and only a fresh session is unseeded |
| DurableRecord.Durability.SetModelSelection | crates/opensymphony-acp/src/durable.rs:436-446 | refused unless quiescent; otherwise the flag has the wanted value, and nothing is written when it had it before |
| DurableRecord.Durability.MarkSubmitted | crates/opensymphony-acp/src/durable.rs:448-463 | refused unless quiescent with a session; otherwise Submitted for the given run and attempt |
| DurableRecord.Durability.MarkFinished | crates/opensymphony-acp/src/durable.rs:465-477 | only a Submitted record becomes Finished, with its stop reason, not fresh any more, and seeded exactly by a reason other than the cancelled one or from before |
| DurableRecord.Durability.MarkUncertain | crates/opensymphony-acp/src/durable.rs:479-482 | the record is Uncertain in memory, and on disk as far as the write got |
| DurableRecord.FinishedFields | crates/opensymphony-acp/src/durable.rs:465-477 | the same of the finished record, field by field, with the other fields unchanged |
| Records.StampedRebinds | crates/opensymphony-acp/src/durable.rs:360-375 | what is written differs from memory in the envelopes alone, which are bound to the record's own session, run and attempt |
| ClaimRules.LockExactly | crates/opensymphony-acp/src/durable.rs:130-161 | the lock is tried exactly for a valid identity whose workspace, repository and checkout are those of the issue manifest |
| ClaimRules.AdmitsExactly | crates/opensymphony-acp/src/durable.rs:177-314 | a claim with the lock is admitted exactly when record, run, binding, status, process and generation allow it, each field named |
| ClaimRules.AdmittedRecord | crates/opensymphony-acp/src/durable.rs:189-329 | an admitted record keeps everything but what a claim writes: the envelopes of the claimed run, the next generation of the asked binding, the seeding of an old record |
| ClaimRules.HeldLockRefuses | crates/opensymphony-acp/src/durable.rs:172-176 | a held lock refuses the claim as owned and leaves record and lock alone |
| ClaimRules.ClaimIsSteps | crates/opensymphony-acp/src/durable.rs:122-331 | a whole claim is one host's lock, check and write in the ownership protocol: same disk, lock and memory, success only from a free lock |
| ClaimRules.OwnerKeepsOthersOut | crates/opensymphony-acp/src/durable.rs:172-176 | in every reachable state with an owner every other claim fails and changes nothing |
| ClaimRules.SeedingExactly | crates/opensymphony-acp/src/durable.rs:465-477 | a step seeds an owner's record if and only if it finishes an answered prompt with a valid reason other than the cancelled one |
| ClaimRules.FinishSeedsDisk | crates/opensymphony-acp/src/durable.rs:465-477 | and the disk is seeded as soon as that write reaches it |
| OwnerProtocol.AdmitQuiet | crates/opensymphony-acp/src/durable.rs:282-329 | what a claim admits has no open prompt and no live peer, and reserves the successor of the durable generation |
| OwnerProtocol.AdmittedIdentity | crates/opensymphony-acp/src/durable.rs:217-320 | an admitted launch carries exactly the requested binding under the successor generation, continues the recorded conversation, and drops the old outcome exactly for a new run |
| OwnerProtocol.SeedingNeedsAnAnswer | crates/opensymphony-acp/src/durable.rs:465-477 | an owner's record becomes seeded only by finishing a prompt that the peer answered |
| OwnerProtocol.WroteSafe | crates/opensymphony-acp/src/durable.rs:347-387 | a checkpoint that uncovers no peer and no prompt is safe wherever its write leaves the disk |
| OwnerProtocol.StepSafe | crates/opensymphony-acp/src/host.rs:637-783 | every step of every host, including crashes and failed checkpoints, keeps the ownership invariant |
| OwnerProtocol.EveryStateSafe | crates/opensymphony-acp/src/host.rs:637-783 | the ownership invariant holds in every state of every run |
| OwnerProtocol.OneOwnerOnePeer | crates/opensymphony-acp/src/durable.rs:172-176 | at most one host owns the workspace and at most one launched peer group is alive, in every reachable state |
| OwnerProtocol.LaunchGenerationsIncrease | crates/opensymphony-acp/src/durable.rs:306-320 | every launch carries a generation above all earlier ones, whatever crashed in between |
| OwnerProtocol.GenerationsOnlyGrow | crates/opensymphony-acp/src/durable.rs:306-329 | the durable generation never goes back and launches are only appended |
| OwnerProtocol.UnansweredPromptIsFenced | crates/opensymphony-acp/src/durable.rs:282-287 | while a delivered prompt has no terminal response it is the only one, the disk reads Submitted or Uncertain, and every claim fails |
| OwnerProtocol.NotQuiescentRefused | crates/opensymphony-acp/src/durable.rs:264-288 | a record of unknown outcome, of another harness, or lost between reservation and pid refuses every claim |
| OwnerProtocol.FenceIsFinal | crates/opensymphony-acp/src/durable.rs:282-288 | once a fenced record has no owner, no later step of any host rewrites it, launches a peer or sends a prompt |
| OwnerProtocol.AcceptedWasSubmitted | crates/opensymphony-acp/src/host.rs:985-1009 | an owner about to send has an earlier durable submission of this run, untouched since |
| OwnerProtocol.SubmissionPrecedesWire | crates/opensymphony-acp/src/host.rs:985-1010 | a prompt reaches the wire only after its Submitted record is durable, with no other prompt unanswered |
| OwnerProtocol.CleanupReadyReopens | crates/opensymphony-acp/src/host.rs:750-766 | an owner that ends cleanup-ready leaves a quiet record and a free lock, and exactly the matching claims are admitted, parent continuations included |
| OwnerProtocol.FailedFinishFence | crates/opensymphony-acp/src/host.rs:1026-1029 | after a failed terminal checkpoint the record stays fenced if and only if neither that write nor the process checkpoint carried Finished to disk |
| LostFence.FenceIsLost | crates/opensymphony-acp/src/host.rs:1026-1029 | a run from the initial state in which the terminal checkpoint fails with the record fenced, the process checkpoint lifts the fence, and the next claim is admitted |
| SessionRun.SessionStarts | crates/opensymphony-acp/src/host.rs:640-965 | from every safe state, every claim that may be admitted can become a ready session under the next generation |
| SessionRun.PromptRuns | crates/opensymphony-acp/src/host.rs:970-1034 | every prompt of a ready session can be submitted, sent once, answered and recorded, and leaves the session ready |
| SessionRun.SessionEnds | crates/opensymphony-acp/src/host.rs:720-766 | every ready session can end clean, with the record quiet and stopped and the lock free |
| SessionRun.TearsDownExactly | crates/opensymphony-acp/src/host.rs:723-726 | the peer counts as gone exactly when it was reaped and its tree killed or its group absent |
| SessionRun.StopsExactly | crates/opensymphony-acp/src/host.rs:723-739 | Stopped is recorded exactly then, as far as the write gets |
| SessionRun.FencesExactly | crates/opensymphony-acp/src/host.rs:740-758 | a prompt left submitted makes the record uncertain; cleanup is ready exactly for a clean, checkpointed, quiet end |
| SessionDriver.Driver.FinishPreparation | crates/opensymphony-acp/src/host.rs:972-1010 | preparation ends with the prompt submitted and active, or with its caller answered and the connection ended; uncancelled, with writes that get there, it submits |
| SessionDriver.Driver.FinishPrompt | crates/opensymphony-acp/src/host.rs:1011-1034 | the caller is answered, and memory and disk hold exactly what the outcome and the write make of the record; the loop goes on only with a reported outcome |
| SessionDriver.NeverSentReopens | crates/opensymphony-acp/src/host.rs:1015-1023 | a prompt cancelled before it was sent leaves a finished record, no more seeded than before |
| SessionDriver.UnknownOutcomeBars | crates/opensymphony-acp/src/host.rs:1024 | a prompt of unknown outcome leaves a record that refuses every claim |
| SessionDriver.Driver.AcceptPrompt | crates/opensymphony-acp/src/host.rs:1104-1136 | a prompt starts preparing exactly when nothing is active or preparing, its generation is this one, it is small enough, its run is named, and it is not cancelled; otherwise it is answered |
| SessionDriver.Driver.Handle | crates/opensymphony-acp/src/host.rs:1137-1160 | which leases every action leaves and when the session was last idle; the loop retires by request exactly for its own generation with nothing pending and no live lease |
| SessionDriver.Driver.OnTick | crates/opensymphony-acp/src/host.rs:1162-1165 | exactly the unexpired leases are kept, and idle retirement happens exactly with nothing pending, no lease, and closure or timeout |
| SessionDriver.Driver.ExpireLeases | crates/opensymphony-acp/src/host.rs:1180-1183 | exactly the unexpired leases are kept |
| SessionDriver.Driver.TakeBranch | crates/opensymphony-acp/src/host.rs:970-1167 | every branch leaves the record, the disk and the prompts in hand exactly as on values, breaks exactly on a failed or refused outcome, and keeps the loop head: active exactly while Submitted, never together with preparing |
| DriverSteps.ReadyIsHead | crates/opensymphony-acp/src/host.rs:929-968 | a session whose ready checkpoint succeeded is a loop at its head, with no prompt in hand |
| DriverSteps.BranchIsSteps | crates/opensymphony-acp/src/host.rs:970-1167 | every branch is a sequence of enabled protocol steps of its own host with the same record, disk and phase at the end |
| DriverSteps.ReturnIsStep | crates/opensymphony-acp/src/host.rs:1137-1165 | a clean return is the protocol's clean leave |
| DriverSteps.BetweenBranches | crates/opensymphony-acp/src/host.rs:970-1010 | sending, the response, and every action of other hosts and processes leave the loop where it stands |
| DriverSteps.LoopIsGoverned | crates/opensymphony-acp/src/host.rs:970-1178 | under every interleaving from a ready session on, the loop stands at its head in a reachable protocol state: its host is the only owner and nothing but its running prompt is unanswered |
| SessionDriver.Driver.Drive | crates/opensymphony-acp/src/host.rs:970-1178 | every prompt received is answered exactly once by the time the loop ends, a clean end leaves a quiet record, and the loop took every event in order, each with its branch's whole effect, until one ended it |
| SourceLog.EventHistory.MakeRoom | crates/opensymphony-acp/src/host.rs:303-311 | eviction ends with room for the new frame and drops the oldest entries only, as few as possible, leaving the mark exactly when any went |
| SourceLog.EventHistory.Retain | crates/opensymphony-acp/src/host.rs:291-315 | a frame too large to keep leaves the entries alone and the mark set; any other is kept behind what is left when as few of the oldest as possible are dropped, marked exactly when any went |
| SourceLog.CoversSince | crates/opensymphony-acp/src/host.rs:247-279 | the scan computes the coverage that the lemmas below characterize |
| SourceLog.EvictedExactly | crates/opensymphony-acp/src/host.rs:303-311 | as few entries as make room are dropped from the front: one less would break the frame or the byte budget |
| SourceLog.EvictionKeepsOrder | crates/opensymphony-acp/src/host.rs:303-311 | eviction drops a prefix and marks the loss |
| SourceLog.RetainBuilds | crates/opensymphony-acp/src/host.rs:291-315 | the log always holds published frames in order, and an unmarked log holds all of them |
| SourceLog.ScanExactly | crates/opensymphony-acp/src/host.rs:254-278 | the scan succeeds exactly when no frame from the expected one on is missing |
| SourceLog.CoversExactly | crates/opensymphony-acp/src/host.rs:247-279 | a cursor is covered exactly when every later frame of its connection is still kept |
| Broadcast.EventPublisher.Record | crates/opensymphony-acp/src/host.rs:186-232 | a frame is numbered, retained and then sent, or a gap in its place exactly when it is too large to keep; replay ends with the response to the load request |
| Broadcast.SentExactly | crates/opensymphony-acp/src/host.rs:211-228 | the channel gets the frame itself, or its gap exactly when the frame is too large to keep |
| Broadcast.PublishKeepsOk | crates/opensymphony-acp/src/host.rs:211-228 | every event in the channel stands for the published frame of its rank |
| EventStream.Highest | crates/opensymphony-control/src/acp.rs:107-116 | the highest sequence in the history |
| EventStream.Open | crates/opensymphony-control/src/acp.rs:119-121 | the snapshot, a gap if the history lost anything, then the history |
| EventStream.FollowLive | crates/opensymphony-control/src/acp.rs:122-136 | live events past the history, in order, until the end, a lag or a close |
| EventStream.Follow | crates/opensymphony-control/src/acp.rs:106-138 | the stream's whole output for any history and any arrivals |
| EventStream.OpeningExactly | crates/opensymphony-control/src/acp.rs:119-121 | snapshot, notice exactly after a loss, then every event of the history once |
| EventStream.LiveExactly | crates/opensymphony-control/src/acp.rs:122-136 | every event past the history is yielded, state changes included, up to the first end or lag, which is told |
| EventStream.OpeningAccounts | crates/opensymphony-control/src/acp.rs:104-121 | the opening holds every frame published by the read, or the loss notice exactly when the history was truncated |
| EventStream.EveryStateOk | crates/opensymphony-control/src/acp.rs:103-138 | for every interleaving of publisher and subscriber: publisher and channel agree, and what was yielded rises |
| EventStream.EveryStateSince | crates/opensymphony-control/src/acp.rs:122-136 | at every moment after the read, whatever was truncated before it, every frame published since and consumed so far was yielded, or the gap that stands for it |
| EventStream.NeverRepeats | crates/opensymphony-control/src/acp.rs:122-129 | source frames are yielded in strictly increasing sequence, each at most once |
| EventStream.NoSilentLoss | crates/opensymphony-control/src/acp.rs:119-136 | when the stream ends, a frame published by the read is in the opening or the opening announced a loss; a later one was yielded, or its own gap, unless the last thing the stream said is that the subscriber lagged |
| EventStream.NoHoleBeforeYielded | crates/opensymphony-control/src/acp.rs:122-136 | lag or not, no frame published since the read is missing before one that was yielded |
| EventStream.LagExactly | crates/opensymphony-control/src/acp.rs:131-135 | the stream says that it lagged if and only if it tried to receive with more waiting than the channel keeps |
| CatchUp.HistoryRefinesLive | crates/opensymphony-cli/src/orchestrator_run/backends/acp.rs:828-832 | for every projector, applying a covering history in order equals applying each later frame once |
| CatchUp.CatchUpRefinesLive | crates/opensymphony-acp/src/host.rs:244-279 | a history that covers the cursor gives the projection and the updates of live delivery |
| CatchUp.EveryStateAgrees | crates/opensymphony-cli/src/orchestrator_run/backends/acp.rs:773-832 | a following worker always agrees with the plain frame stream up to some frame, through lags and catch-ups |
| CatchUp.DrainedWorkerSawEverything | crates/opensymphony-cli/src/orchestrator_run/backends/acp.rs:837-869 | a worker that drained the channel applied exactly the frames published since its baseline |
| CatchUp.GivesUpExactly | crates/opensymphony-cli/src/orchestrator_run/backends/acp.rs:827-832 | a worker gives up exactly at a frame too large to keep, or behind with a frame it needs gone from the history; it falls behind exactly when the channel overflowed |
| TodoProjection.RuntimeProjection.Apply | crates/opensymphony-acp/src/projection.rs:99-235 | one event applied: stale events change nothing, a new generation forgets the old ids, and frames of other runs or replays move only the cursor |
| TodoProjection.RuntimeProjection.Move | crates/opensymphony-acp/src/projection.rs:128-161 | a correlated frame's effect on maps, counters and update; no decrement underflows |
| TodoProjection.RuntimeProjection.Observe | crates/opensymphony-acp/src/projection.rs:120-235 | what is left to the rest of the projector after the correlation |
| TodoProjection.RuntimeProjection.Answer | crates/opensymphony-acp/src/projection.rs:130-148 | a response takes one request off its id and releases the id with the last |
| TodoProjection.RuntimeProjection.Ask | crates/opensymphony-acp/src/projection.rs:180-235 | a request joins its id within the limits, making a held list ambiguous, or reports saturation |
| TodoProjection.AnsweredSound | crates/opensymphony-acp/src/projection.rs:133-148 | both pending counters stay the sums of the per-id counts, and the decrements fit |
| TodoProjection.AskedSound | crates/opensymphony-acp/src/projection.rs:180-235 | both pending counters stay the sums of the per-id counts and within their limits |
| TodoLog.AnsweredFollows | crates/opensymphony-acp/src/projection.rs:128-150 | the maps after a response are those of the log |
| TodoLog.AskedFollows | crates/opensymphony-acp/src/projection.rs:180-235 | the maps after an admitted request are those of the log |
| TodoLog.EveryStateFollows | crates/opensymphony-acp/src/projection.rs:99-235 | in every run the counters are sums, and until saturation the maps say what the log says |
| TodoLog.SoleExactly | crates/opensymphony-acp/src/projection.rs:192-204 | an id holds a reportable list exactly when one request was alone on it since it was idle |
| TodoLog.EmitsExactly | crates/opensymphony-acp/src/projection.rs:99-161 | before saturation a todo update is emitted exactly for an accepted response whose id carried one valid request since it was idle, with that request's todos, on the classified log |
| TodoFrames.ReportsExactly | crates/opensymphony-acp/src/projection.rs:99-161 | the same on the frames' own fields: an outgoing accepted response without a method, answering the one incoming request under its id since the id waited for nothing, which is `cursor/update_todos` for this or no session with that list |
| TodoFrames.AlarmsExactly | crates/opensymphony-acp/src/projection.rs:171-213 | saturation is reported exactly at a request whose id is longer than 128 bytes, or with 128 requests waiting, or with 16 lists held, all counted on the frames |
| TodoFrames.HandsOnExactly | crates/opensymphony-acp/src/projection.rs:120-235 | the rest of the projector gets exactly the other new frames of this run, and speaks for itself |
| TodoFrames.EveryStateCounts | crates/opensymphony-acp/src/projection.rs:99-235 | in every run the counters are the totals of the frames, and the flag is set exactly after a request too many |
| TodoLog.SharedIdIsSilent | crates/opensymphony-acp/src/projection.rs:177-204 | two requests sharing an id before it drained report nothing |
| CallbackQueue.CallbackOutput.AdmitWithAck | crates/opensymphony-acp/src/lib.rs:304-322 | on every valid queue a response is admitted exactly when its length is within the frame size, a slot is free, and all lengths plus one each stay within the byte budget; then it has a slot at the back |
| CallbackQueue.CallbackOutput.Flushed | crates/opensymphony-acp/src/lib.rs:330-337 | the front slot is freed and its acknowledgement sent as true |
| CallbackQueue.CallbackOutput.FailAll | crates/opensymphony-acp/src/lib.rs:339-353 | the queue is emptied and every acknowledgement in it sent as false, once |
| CallbackQueue.ReserveWithin | crates/opensymphony-acp/src/lib.rs:311-321 | an admitted reservation keeps the byte counter the sum of length plus one, and both budgets |
| OperatorDelivery.DeliveryFence.Cancel | crates/opensymphony-acp/src/operator.rs:24-28 | it wins exactly on an open fence, which is cancelled then |
| OperatorDelivery.DeliveryFence.Claim | crates/opensymphony-acp/src/operator.rs:34-38 | it wins exactly on an open fence, which is claimed then |
| OperatorRules.ForwardsExactly | crates/opensymphony-cli/src/orchestrator_run/backends/acp.rs:931-951 | an answer is put in its request's mail exactly when its receipt stands and the request waits; otherwise its caller is told |
| OperatorRules.CancelsExactly | crates/opensymphony-acp/src/operator.rs:24-28 | a cancel wins exactly when the answer was neither cancelled nor claimed |
| OperatorRules.TakesExactly | crates/opensymphony-acp/src/lib.rs:1355-1369 | a received answer is used exactly when it can still be claimed, and the request is cancelled otherwise |
| OperatorRules.ReservesExactly | crates/opensymphony-acp/src/lib.rs:304-322 | a response gets a slot and goes to the SDK exactly when there is room in frames and bytes |
| OperatorRules.DeliversExactly | crates/opensymphony-acp/src/lib.rs:1370-1384 | an answer is enqueued exactly when it has a text and there is room; otherwise its caller is told at once |
| OperatorRules.WritesExactly | crates/opensymphony-acp/src/lib.rs:1113-1147 | the writer takes exactly a frame within its size, readable, and if a response, reserved next; any other refuses every slot |
| OperatorRules.FlushesExactly | crates/opensymphony-acp/src/lib.rs:1158-1173 | a written response frees and acknowledges the slot in front; a failed write refuses every slot |
| OperatorRules.AnswerArrives | crates/opensymphony-acp/src/lib.rs:1353-1384 | from every drained state, every answer whose text fits is claimed, enqueued, written and acknowledged |
| OperatorSafety.RefusalsSendAll | crates/opensymphony-acp/src/lib.rs:339-346 | a failure sends each queued acknowledgement exactly as often as it is held |
| OperatorReceipts.ReservationsMatchWire | crates/opensymphony-acp/src/lib.rs:1136-1176 | up to the first failure or the end of the connection: the counter is the slots' total and within budget, and the slots are, in order, those of the reserved responses from the rank that all responses flushed have reached; these are the ones not yet flushed if and only if none of the flushed responses was the SDK's own |
| OperatorSafety.AcknowledgedAtMostOnce | crates/opensymphony-acp/src/lib.rs:277-347 | in every run an acknowledgement is sent at most once, and true only for a claimed delivery |
| OperatorReceipts.AcknowledgedByRank | crates/opensymphony-acp/src/lib.rs:1168-1173 | up to then a flushed answer is always acknowledged, acknowledged are exactly the answers whose slot is freed, and acknowledged without its own frame flushed is exactly an answer among the slots freed early, between the count of reserved responses flushed and the count of all responses flushed |
| OperatorReceipts.AllSoundExactly | crates/opensymphony-acp/src/lib.rs:1168-1173 | every acknowledgement of true has its own frame flushed if and only if no slot freed early holds one |
| OperatorReceipts.EarlyTexts | crates/opensymphony-acp/src/lib.rs:324-328 | the texts of the slots freed early are, with their multiplicities, those of the SDK's own responses flushed so far |
| OperatorReceipts.AcknowledgedMeansFlushed | crates/opensymphony-acp/src/lib.rs:1168-1173 | unless a response of the SDK's own with the text of this very answer was flushed, an answer is acknowledged if and only if its own frame was flushed |
| OperatorReceipts.FlushedStays | crates/opensymphony-acp/src/lib.rs:330-347 | an acknowledgement that was sound when sent stays so, whatever fails afterwards |
| OperatorReceipts.ErrorsTakeNoAnswer | crates/opensymphony-acp/src/lib.rs:1136-1147 | where the SDK's own responses are errors and operator answers are not, every answer is acknowledged if and only if its own frame was flushed, whatever slots those errors take |
| OwnAnswer.OwnAnswerPasses | crates/opensymphony-acp/src/lib.rs:324-328 | the condition is needed: a run in which the SDK makes up a result with the text of an operator's answer, and the operator is acknowledged before its own frame is written |
| OperatorSafety.CancelledIsNeverEnqueued | crates/opensymphony-acp/src/operator.rs:24-38 | once `cancel` returned true for an answer it is in no enqueued frame and never acknowledged as delivered |
| OperatorSafety.OneResponsePerRequest | crates/opensymphony-acp/src/lib.rs:1353-1384 | each routed request enqueues at most one response under every race |
| OperatorReceipts.OwnSlotInFront | crates/opensymphony-acp/src/lib.rs:1136-1147 | up to then a reserved response reaches the writer with its own slot in front if and only if no response of the SDK's own was flushed before |
| OperatorSafety.EveryStateSafe | crates/opensymphony-acp/src/lib.rs:269-353 | the callback invariant holds under every interleaving, an end of the connection at any moment included |
| TurnServices.RetiredSettles | crates/opensymphony-acp/src/services.rs:328-362 | with every task joined, every earlier process has ended and every earlier reply is decided, and without a failure all of them well |
| TurnServices.EveryStateOk | crates/opensymphony-acp/src/services.rs:240-372 | the actor's invariant holds in every run |
| TurnServices.TurnIsolation | crates/opensymphony-acp/src/services.rs:113-143 | an effect belongs to the turn begun before its callback was queued, with no successful turn command in between |
| TurnRules.TakesExactly | crates/opensymphony-acp/src/services.rs:268-362 | a callback runs exactly while its turn is not cancelled, and a turn command fails at once after a lost process |
| TurnRules.JoinsExactly | crates/opensymphony-acp/src/services.rs:258-349 | a process that ended well is only noted; one that did not fails the retirement, or every later one |
| TurnRules.CompletesExactly | crates/opensymphony-acp/src/services.rs:328-362 | a retirement succeeds exactly when every terminal still named has exited well, and a begin then installs its turn |
| TurnRules.RefusedExactly | crates/opensymphony-acp/src/services.rs:328-362 | in every run a turn command is refused if and only if a process was lost, a join failed, a terminal had not exited well, or time ran out |
| TurnRules.TurnSucceeds | crates/opensymphony-acp/src/services.rs:240-362 | on every quiet actor a whole turn with a file effect and a terminal succeeds |
| TurnCallers.SuccessExactly | crates/opensymphony-acp/src/services.rs:328-362 | in every run a success means that nothing earlier is running or pending, and that all of it ended well if and only if no earlier process was lost and no earlier reply refused |
| TurnCallers.SuccessIsSound | crates/opensymphony-acp/src/lib.rs:1591-1594 | for callers that wait for each acknowledgement and stop at a failed one, a success means that every earlier process is gone and every earlier reply handed over, or refused with a failure raised, whatever failed elsewhere |
| TurnCallers.SuccessMeansQuiet | crates/opensymphony-acp/src/services.rs:328-362 | until a failure is raised, a success means every earlier terminal is gone and every earlier reply is queued |
| TurnCallers.SuccessAfterFailure | crates/opensymphony-acp/src/services.rs:343-346 | a run, of a caller that does not wait, in which a success after a failed retirement leaves a process alive |
| Utf8.WholeExactly | crates/opensymphony-acp/src/services.rs:813-818 | the strict decoder takes a sequence exactly when it is the encoding of a scalar value |
| Utf8.UnfinishedExactly | crates/opensymphony-acp/src/services.rs:834-839 | bytes wait exactly when they properly begin some scalar's encoding |
| Utf8.BadIsMaximalSubpart | crates/opensymphony-acp/src/services.rs:829-833 | a malformed front is dropped by its maximal subpart |
| TerminalOutput.TerminalState.Bound | crates/opensymphony-acp/src/services.rs:843-850 | the output is cut to its bounded tail, and the cut marked |
| TerminalOutput.TerminalState.Decode | crates/opensymphony-acp/src/services.rs:814-842 | the loop appends the lossy decoding and leaves the unfinished bytes |
| TerminalOutput.TerminalState.Append | crates/opensymphony-acp/src/services.rs:806-850 | one chunk of one stream, decoded and bounded |
| OutputRuns.LossyResumes | crates/opensymphony-acp/src/services.rs:813-842 | decoding in chunks equals decoding at once |
| OutputRuns.TrimResumes | crates/opensymphony-acp/src/services.rs:843-850 | trimming after every chunk equals trimming once at the end |
| OutputRuns.TrimIsLongest | crates/opensymphony-acp/src/services.rs:843-848 | the tail is the longest character-aligned suffix within the limit |
| OutputRuns.OutputIsBoundedText | crates/opensymphony-acp/src/services.rs:914-951 | for any interleaving of both streams the output is the bounded tail of the full text, `truncated` is exact, and at most three bytes wait per stream |
| OutputRuns.StreamsDecode | crates/opensymphony-acp/src/services.rs:914-951 | the pieces of one stream are its one-shot lossy decoding |
| OutputRuns.OneStream | crates/opensymphony-acp/src/services.rs:806-850 | one stream in any chunking gives the bounded tail of its one-shot decoding |
| LossyText.LossyShows | crates/opensymphony-acp/src/services.rs:814-842 | the bytes are cut into scalars, shown as they are, and maximal malformed parts, shown as one replacement character each; an unfinished end waits, or is one more at the end |
| LossyText.TextIsShown | crates/opensymphony-acp/src/services.rs:814-842 | valid text is shown unchanged |
| Utf8.LengthIsEncoding | crates/opensymphony-acp/src/lib.rs:304-305 | text lengths count the bytes of the encoding |
| BoundedResponse.Bound | crates/opensymphony-acp/src/services.rs:737-781 | a fitting response is unchanged; a terminal tail is shortened into the budget exactly when its empty form fits; anything else is refused |
| BoundedResponse.EscapedAtMostSix | crates/opensymphony-acp/src/services.rs:764-766 | escaping takes at most six bytes a byte |
| BoundedResponse.EscapedExactly | crates/opensymphony-acp/src/services.rs:742-750 | the size of an escaped text is that of the written-out escaping of section 7 of RFC 8259 |
| BoundedResponse.FrameSizeExactly | crates/opensymphony-acp/src/services.rs:742-750 | a terminal's frame is its envelope, the word for its mark, and its escaped text |
| BoundedResponse.SixIsNeeded | crates/opensymphony-acp/src/services.rs:764-766 | some text of every length needs all six |
| BoundedResponse.ShortenedIsText | crates/opensymphony-acp/src/services.rs:766-771 | what is sent is the longest character-aligned suffix of the kept bytes |
| BoundedResponse.BudgetIsAdmissible | crates/opensymphony-acp/src/services.rs:742-744 | a frame is within the response budget exactly when an empty reservation queue admits it |
| ShellCommand.RenderSplits | crates/opensymphony-acp/src/projection.rs:540-561 | a shell reads the rendered line back as exactly its non-empty words |
| ShellCommand.RoundTripExactly | crates/opensymphony-acp/src/projection.rs:540-561 | the words come back as they were exactly when none is empty |
| ShellCommand.RenderInjective | crates/opensymphony-acp/src/projection.rs:540-561 | equal renderings of non-empty words come from equal command lines |
| ShellCommand.QuotesExactly | crates/opensymphony-acp/src/projection.rs:548-556 | a word is shown as it is exactly when all its characters are plain, and in single quotes otherwise |
| ShellCommand.RenderJoins | crates/opensymphony-acp/src/projection.rs:557-559 | words are set apart by one blank each |
| ShellCommand.ShownExactly | crates/opensymphony-acp/src/projection.rs:540-561 | a command is shown exactly when all arguments are text and the line is within 8192 bytes |
| SessionSelection.WantedExactly | crates/opensymphony-acp/src/session_config.rs:135-141 | the model is wanted under its category, and the mode under its own unless the peer has no options |
| SessionSelection.AcceptsExactly | crates/opensymphony-acp/src/session_config.rs:70-91 | a value is accepted exactly by the first option with the id, if it is a select and a choice or a group offers the value |
| SessionSelection.RankExactly | crates/opensymphony-acp/src/session_config.rs:170-185 | models first, then modes, then the rest |
| SessionSelection.ResolveOne | crates/opensymphony-acp/src/session_config.rs:143-162 | a category is resolved by the first advertised option of that category, unless it has no id or conflicts |
| SessionSelection.Pick | crates/opensymphony-acp/src/session_config.rs:167-188 | the accepted pending selection of the lowest rank, and of the first id within it, or none exactly when none is accepted |
| SessionSelection.SendOne | crates/opensymphony-acp/src/session_config.rs:140-222 | one round lowers the work left and sends only what the peer accepts |
| SessionSelection.SendAll | crates/opensymphony-acp/src/session_config.rs:140-222 | the loop ends against every peer, within as many calls as selections and categories |
| SessionSelection.SetLegacyMode | crates/opensymphony-acp/src/session_config.rs:223-254 | the legacy mode is set exactly when it is advertised |
| SessionSelection.Confirm | crates/opensymphony-acp/src/session_config.rs:255-273 | success exactly with every configured option, and the very option each category was resolved to, shown as current |
| SessionSelection.Apply | crates/opensymphony-acp/src/session_config.rs:121-274 | at most two calls more than configured options; success means every selection was sent and the last look shows as current every configured option and the very options that the profile's model and mode were first resolved to; a cooperative peer can fail only at the last look |
| MarkerRules.MarkedExactly | crates/opensymphony-cli/src/update_repo.rs:382-398 | a line is a managed marker with a value exactly when it stands behind its heading with no hash line between and is written so, character by character |
| MarkerRules.RefusesExactly | crates/opensymphony-cli/src/update_repo.rs:400-416 | a patch is refused exactly for a marker line not well written, or else for a second marker |
| MarkerRules.ReportsExactly | crates/opensymphony-cli/src/update_repo.rs:400-416 | a patch gives the one marker line the new value and reports its old one, or none |
| MarkerRules.FindExactly | crates/opensymphony-cli/src/update_repo.rs:454-463 | the place found for a word is its first occurrence |
| MarkerLaws.MarkerLineReads | crates/opensymphony-cli/src/update_repo.rs:419-443 | a written marker line reads back its value where its section is open |
| MarkerLaws.PatchLeavesOne | crates/opensymphony-cli/src/update_repo.rs:369-417 | a successful patch leaves exactly one managed marker with the requested value if and only if there was one to replace or the insertion lands in its section |
| MarkerLaws.PatchIsIdempotent | crates/opensymphony-cli/src/update_repo.rs:369-417 | a second patch changes nothing under exactly the same condition |
| MarkerKept.PatchKeepsLines | crates/opensymphony-cli/src/update_repo.rs:400-416 | a replacement changes one line; an insertion puts in one block and keeps all lines in order if and only if it does not put a branch section before a heading that starts inside its line |
| MarkerKept.IndentedHeadingIsCut | crates/opensymphony-cli/src/update_repo.rs:455-460 | an indented heading, alone on its line, loses the line |
| MarkerLaws.AloneLands | crates/opensymphony-cli/src/update_repo.rs:454-476 | with the first review heading absent or alone on its line the insertion lands |
| MarkerLaws.DecoratedHeadingLoses | crates/opensymphony-cli/src/update_repo.rs:460-476 | whenever the line of the first heading starts with a hash and holds more than the heading, the patch succeeds and leaves no managed marker |
| MarkerLaws.DecoratedHeading | crates/opensymphony-cli/src/update_repo.rs:460-476 | a file with such a line |
| MarkerText.Scan | crates/opensymphony-cli/src/update_repo.rs:379-398 | the scan finds every managed marker of the file's lines, in order, with byte range and value, or fails exactly when one is malformed |
| MarkerText.AppendSection | crates/opensymphony-cli/src/update_repo.rs:479-487 | the text, as many line feeds as are missing to one empty line, and the section |
| MarkerText.InsertManagedSection | crates/opensymphony-cli/src/update_repo.rs:454-488 | the text edit puts the section where the lines say: a branch section before the first review heading, a provider below its line, and at the end without one |
| MarkerText.InsertionKeepsText | crates/opensymphony-cli/src/update_repo.rs:454-488 | an insertion keeps every character of the text, in order |
| MarkerText.PatchMarkerLine | crates/opensymphony-cli/src/update_repo.rs:369-417 | patching the text is patching its lines |
| MarkerText.FindInLines | crates/opensymphony-cli/src/update_repo.rs:454-463 | the first occurrence in the text is the first occurrence in the first line that has one |
| MarkerText.PatchTwice | crates/opensymphony-cli/src/update_repo.rs:369-417 | patching the patched text again changes nothing, exactly when the first patch landed |
| Release.VersionOrder | crates/opensymphony-cli/src/desktop_launcher.rs:166-229 | version comparison is a total order in which only identical versions are equal |
| Release.BuildIsIgnored | crates/opensymphony-cli/src/desktop_launcher.rs:137-164 | build metadata has no part in a version |
| Release.NewestIsGreatest | crates/opensymphony-cli/src/desktop_launcher.rs:574-588 | the chosen asset is eligible and no eligible asset is newer; none is chosen exactly when none is eligible |
| Release.NewestIsLast | crates/opensymphony-cli/src/desktop_launcher.rs:574-588 | of equally new assets the last is chosen |
| Release.UpdateOfferedExactly | crates/opensymphony-cli/src/desktop_launcher.rs:574-588 | for a readable installed version an update is offered exactly when an eligible asset exists |
| ReleaseRules.ParsesExactly | crates/opensymphony-cli/src/desktop_launcher.rs:134-198 | a text is read as a version exactly when it spells it: three numbers between dots, a pre-release after the first hyphen, a build after a plus |
| ReleaseRules.DigitsRead | crates/opensymphony-cli/src/desktop_launcher.rs:180-186 | every number is read back from its digits |
| ReleaseRules.PrecedenceExactly | crates/opensymphony-cli/src/desktop_launcher.rs:163-229 | the major number decides first, then minor, patch and pre-release, which come before the release and compare identifier by identifier, numbers before text |
| ReleaseRules.EligibleExactly | crates/opensymphony-cli/src/desktop_launcher.rs:579-585 | an asset is eligible exactly when valid, for this machine, and newer than the installed version |
| ReleaseRules.UnreadableIsOfferedNothing | crates/opensymphony-cli/src/desktop_launcher.rs:578 | an unreadable installed version is offered nothing |

## Left out

- SuccessMeansQuiet: says nothing once a failure was raised; SuccessExactly and SuccessIsSound do.
- ReservationsMatchWire: holds up to the first failure or the end of the connection, which empties the queue whatever is on the wire.
- AcknowledgedByRank: holds up to then too; FlushedStays carries what it says past a failure, for what was acknowledged before it.
- Contents of JSON frames: whether a text is a result or an error is a parameter of ErrorsTakeNoAnswer.
- EmitsExactly: holds until saturation is reported, after which the worker is fenced.
- Release.Newest: reports the chosen asset by value, so assets with all fields equal are not told apart.
- Services actor: a transition system rather than a class, because its awaits interleave with the processes and replies it joins; file contents, path checks and the terminal's own process handling are effects without detail.
- The session table in `SessionHost::new`, extension operations, attachment clocks and the snapshot texts.
- What the rest of the projector does with a frame (tools, terminals, usage): a parameter.
- Parsing of operator interactions and the text of their answers.
- Credential redaction, launch validation and evidence frames.
- `replace_legacy_branch_control_phrases`, CRLF conversion, and reading or writing the workflow file.
- Windows process and file handling, the atomic file writer, stderr draining, and release downloads.
- `WorkspaceManager`, and operators editing the manifest by hand.
