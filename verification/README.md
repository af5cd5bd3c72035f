# A verified model of the libmcp continuity host

libmcp keeps one public MCP session alive while the worker processes behind it crash, are recovered, or
are replaced by newer releases. This project models the parts of it that make that safe, and proves what
they promise. Everything is stated for all inputs, all runs and all interleavings, unless a row says
otherwise.

- **Continuity kernel** (`Wire`, `Replay`, `Kernel`, `KernelInvariant`, `HostKernel`, `Requeue`, `KernelSteps`,
  `Continuity`, `KernelRuns`, `KernelLaws`, `KernelRepetition`, `KernelBacklog`): the pending map, the recovery
  queue, the sequence counter and the public handshake. The class `HostSessionKernel` updates its fields in
  place and is proved against value-level transitions, each of which `KernelSteps` and `Requeue` characterise by
  its outcomes alone. Whole runs refine an abstract machine of dispatches, losses, probe answers and endings,
  over which the laws of repetition and ending are proved once; `KernelRepetition` reads them back as laws about
  the operations of the run, and `KernelBacklog` is the law of the client part of the queue.
- **Snapshots** (`Snapshot`, `Restore`): `restore` accepts exactly the admissible capsules and names a defect of
  every other one. Short of attempt 255 those are exactly the capsules that describe a legal kernel whose frames
  and seed read as what they are said to be.
- **Supervisor** (`Journal`, `Authority`, `HostLaws`, `HostRecovery`, `Control`, `ControlSteps`,
  `Supervision`, `Revival`, `Sessions`, `Lostness`, `Endings`): the rollover and recovery protocol. `Authority`
  is an abstract host that says which steps are in order; its laws hold of every accepted run. The class
  `Supervisor` has the event handlers, with its fields updated in place; it carries a ghost run that is
  extended only by steps that the abstract host permits, so every law about accepted runs is a law about the
  supervisor. `Lostness` and `Endings` are runs of its handlers.
- **Line framing** (`Framing`): three stateful readers against one pure function of the bytes and the limit.
- **Porcelain** (`Porcelain`, `PorcelainReader`, `PorcelainRoundTrip`, `PorcelainLossless`, `PorcelainLayout`,
  `PorcelainEncoder`): the indentation-sensitive encoder is lossless, shown by a reader for its text; `PorcelainLayout`
  says which layout each value gets.
- **Handoff** (`Handoff`): the READY, ACTIVATE, LIVE protocol between two processes that may end at any moment.
- **Ledger** (`Chronicles`, `Ledger`): operational counters as the exact tally of an admissible history.

## What the code does not do

Results of the proofs that the repository's documentation or a reader would not expect. Each is a proved
statement, with the exact condition and a run that shows it.

| finding | where | proved in |
|---|---|---|
| A lost session can be lost for good, against Theorem 12 of `formal_semantics.md:657-668`. It is exactly when the worker of a live session was lost before the first catalog, or the journal was sealed, or a ready recovery candidate was given up with the phase left at draining or awaiting the refresh. | `crates/libmcp/src/supervisor.rs:725-743`, `crates/libmcp/src/supervisor.rs:944-971`, `crates/libmcp/src/supervisor.rs:1088-1111` | `Supervision.Supervisor.Serve`, `Revival.Revive`, `Lostness.StrandedRun`, `Lostness.SeveredRun`, `Lostness.FallenRun`, `Lostness.FallenWhileAnnounced` |
| A worker fault can end the host, against Theorem 8 of `formal_semantics.md:589-600`. A client that asks for the catalog before it confirms the handshake has its request queued; if the worker is lost then, the recovery candidate takes over with no catalog published, and the handed-out request is an error that leaves the event loop. It happens exactly if the candidate answers the handshake while such a request waits to be handed out. When the handshake itself is started over, the same error is only logged. | `crates/libmcp/src/supervisor.rs:597-681`, `crates/libmcp/src/supervisor.rs:775-803`, `crates/libmcp/src/supervisor.rs:1206-1282` | `Supervision.Supervisor.FlushQueue`, `Supervision.Supervisor.OnHandshake`, `Supervision.Supervisor.HandleEvent`, `Revival.Revive`, `Endings.EarlyCatalogRun` |
| The first journal entry that cannot be sent ends the host; any later one only costs the candidate. | `crates/libmcp/src/supervisor.rs:725-773`, `crates/libmcp/src/supervisor.rs:676-678` | `Supervision.Supervisor.TryBeginRestore`, `Supervision.Supervisor.OnRestored`, `Supervision.Supervisor.HandleEvent`, `Endings.FirstEntryLostRun` |
| A rollover can stall, against Theorem 11 of `formal_semantics.md:646-655`. If the last answer that the incumbent owes comes while a nested request of its is open, nothing starts the handover once that one is answered; dispatch stays closed, with no deadline, until one of the two workers is gone. | `crates/libmcp/src/supervisor.rs:523-562`, `crates/libmcp/src/supervisor.rs:725-735`, `crates/libmcp/src/supervisor.rs:1284-1302` | `Supervision.Supervisor.Serve`, `Endings.StalledRun` |
| A nested request that the incumbent opens while the journal is being sent is dropped unanswered when its successor takes over. Nothing else is. | `crates/libmcp/src/supervisor.rs:730-735`, `crates/libmcp/src/supervisor.rs:784-790` | `Lostness.LateNestedRun`, `HostLaws.OnlyLateNestedRequestsAreDropped` |
| Recovery can drop a pending `initialize` without resetting the phase. The session is then stuck for good, and its own snapshot is refused. Under the supervisor's budget two losses during the handshake suffice. | `crates/libmcp/src/host.rs:793-795` | `KernelLaws.InitializeIsDropped`, `KernelLaws.TwoLossesDropInitialize`, `KernelLaws.MutedForever` |
| An accepted capsule can make the kernel fail: a replay at attempt 255. Exactly those capsules break the invariant. | `crates/libmcp/src/host.rs:551-554` | `Snapshot.RestoreIsSound`, `Snapshot.AcceptedPopErrs`, `Snapshot.LastAttemptIsAccepted` |
| Ownership of the public stream can pass to a successor and back, when LIVE is late; what the successor read meanwhile is lost. | `crates/libmcp/src/rollout.rs:759-770` | `Handoff.OwnershipMovesOnce`, `Handoff.OwnershipCanReturn` |
| A second `admit_successor` after a failed one succeeds without a gate, and two processes then own the session. | `crates/libmcp/src/rollout.rs:596-599` | `Handoff.ExclusionIsExact`, `Handoff.SecondAdmissionShares` |
| A request of any method whose parameters name a journaled tool is journaled: the method is not looked at. | `crates/libmcp/src/supervisor.rs:1161-1204` | `Supervision.Supervisor.RecordSessionTransition`, `Endings.PromptRun` |
| A journal entry that does not fit costs the earlier entry under its key; the caller seals the journal. | `crates/libmcp/src/supervisor.rs:251-271` | `Journal.SessionJournal.Record`, `Endings.OversizedRun` |

## Model

| member | source | states |
|---|---|---|
| HostKernel.HostSessionKernel.ObserveClientFrame | crates/libmcp/src/host.rs:474-504 | the new kernel and the result are the abstract observe step on the old kernel; a refused handshake frame changes nothing |
| HostKernel.HostSessionKernel.QueueClientFrame | crates/libmcp/src/host.rs:507-527 | admission to the backlog: the frame becomes the last of the queue and nothing else changes, or it is refused without effect |
| HostKernel.HostSessionKernel.PopNextDispatch | crates/libmcp/src/host.rs:529-570 | the head of the queue by disposition: a replay goes in flight with one more attempt, a probe holds everything, a client frame leaves the queue |
| HostKernel.HostSessionKernel.BeginRequestDispatch | crates/libmcp/src/host.rs:612-667 | first dispatch, with all of its refusals in the order of the checks; a refusal changes nothing |
| HostKernel.HostSessionKernel.CompleteResponse | crates/libmcp/src/host.rs:670-708 | one terminal response takes exactly its invocation off the books; the answer to initialize confirms the handshake if it carries no error, and otherwise the session is cold again, without a seed |
| HostKernel.HostSessionKernel.RequeuePendingForReplay | crates/libmcp/src/host.rs:711-803 | the loop over pending invocations in sequence order computes the closed form of recovery: survivors, refusals with reasons, new queue |
| HostKernel.HostSessionKernel.ResolveProbe | crates/libmcp/src/host.rs:806-868 | a probe answer resolves exactly the held invocation it names: "safe" authorises it within its budget, "completed" ends it; or it is refused without effect |
| HostKernel.HostSessionKernel.HasInFlightDispatches | crates/libmcp/src/host.rs:597-601 | true exactly if some pending invocation is not scheduled for recovery |
| HostKernel.HostSessionKernel.PrepareReplaySeed | crates/libmcp/src/host.rs:1146-1163 | the handshake seed as far as the phase says, or an error if phase and seed disagree |
| HostKernel.HostSessionKernel.Snapshot | crates/libmcp/src/host.rs:425-456 | the snapshot holds every pending invocation in sequence order, the queue, the seed and the counter |
| KernelSteps.ObservationIsExact | crates/libmcp/src/host.rs:474-504 | only an initialize request of a cold session without a seed, and the initialized notification of a session that awaits it, change anything, and how; out of turn they are refused |
| KernelSteps.AdmissionToBacklogIsExact | crates/libmcp/src/host.rs:507-527 | overflow if and only if the queue is full, duplicate if and only if there is room and the id is pending or waits; otherwise the frame is appended, and nothing else changes |
| KernelSteps.NextDispatchIsExact | crates/libmcp/src/host.rs:529-570 | whatever heads the queue: a client frame is handed out, a replayable invocation is in flight with one more attempt, a held one blocks, and nothing else changes |
| KernelSteps.FirstDispatchIsExact | crates/libmcp/src/host.rs:612-667 | each refusal of a first dispatch if and only if its cause holds and none before it does; otherwise the request is in flight under the next number, and an initialize request opens the handshake |
| KernelSteps.AnswerIsExact | crates/libmcp/src/host.rs:670-708 | an answer counts if and only if its request is pending; the handshake goes on if and only if the answer to initialize is no error, and an error leaves a cold session without a seed |
| KernelSteps.FailureReopens | crates/libmcp/src/host.rs:698-704 | after a failed handshake any initialize request is accepted |
| KernelSteps.EvidenceIsExact | crates/libmcp/src/host.rs:806-868 | about a held invocation: replay authorised if and only if the word is "safe" with attempts left, exhausted if and only if it is "safe" without, completed if and only if the word is "completed"; about any other, refused without effect |
| KernelInvariant.RequeueKeeps | crates/libmcp/src/host.rs:711-803 | recovery keeps the kernel invariant: queue is the scheduled invocations in order, then client frames with ids that are not pending |
| KernelInvariant.PopNeverErrs | crates/libmcp/src/host.rs:529-570 | in every kernel that satisfies the invariant the next dispatch is never an error |
| KernelRuns.RunKeepsInvariant | crates/libmcp/src/host.rs:474-868 | every kernel that any sequence of operations can reach satisfies the invariant |
| Requeue.SurvivalByRank | crates/libmcp/src/host.rs:711-803 | an invocation survives a loss if and only if it may be repeated or probed and fewer older such invocations exist than the room beside the client backlog |
| Requeue.SurvivorsWait | crates/libmcp/src/host.rs:711-803 | a survivor is as it was, but its outcome is unknown and it waits to be replayed, or for a probe exactly if its contract asks for one |
| Requeue.RejectionIsJustified | crates/libmcp/src/host.rs:711-803 | the reason of every refusal: ambiguous exactly for never-replay, exhausted exactly for a spent budget, overflow exactly for those that had no room; with the request as it was and the attempt it would have been |
| Requeue.RejectionsAreTheRest | crates/libmcp/src/host.rs:711-803 | the refused invocations are exactly those that do not survive |
| Requeue.LossIsReported | crates/libmcp/src/host.rs:711-803 | a loss reports exactly the invocations that it ends, oldest first, and as held exactly those that now wait for a probe |
| Requeue.QueueAfterLoss | crates/libmcp/src/host.rs:711-803 | no client frame is lost or reordered, and the queue never exceeds the larger of capacity and backlog |
| Requeue.RequeueIsIdempotent | crates/libmcp/src/host.rs:711-803 | a second loss with the same budget, before any dispatch, changes and refuses nothing |
| Continuity.RepetitionFollowsLoss | crates/libmcp/src/replay.rs:160-195 | a repeated dispatch follows a worker loss after the previous dispatch, in every accepted log |
| Continuity.NeverReplayOnce | crates/libmcp/src/replay.rs:160-195 | a never-replay invocation is dispatched exactly once |
| Continuity.ProbedRepetitionIsAnswered | crates/libmcp/src/replay.rs:160-195 | between any two dispatches of a probe-required invocation there is a safe answer of its own, after the loss between them; so each answer authorises one dispatch |
| KernelRuns.RunRefinesContinuity | crates/libmcp/src/host.rs:474-868 | every kernel run performs a log that the abstract machine accepts, and what is pending is what that machine holds open |
| KernelLaws.EveryNumberAccountedFor | crates/libmcp/src/host.rs:612-868 | each sequence number ever issued is pending or ended, never both |
| KernelLaws.NumbersAreIssuedInOrder | crates/libmcp/src/host.rs:612-667 | sequence numbers are never reused |
| KernelLaws.EndsOnce | crates/libmcp/src/host.rs:670-868 | nothing more happens to an invocation after its answer, probe completion or refusal |
| KernelLaws.ReplaysAreOrdered | crates/libmcp/src/host.rs:529-570 | between two losses replays come in original order and before any client frame |
| KernelRepetition.RepetitionIsAuthorised | crates/libmcp/src/replay.rs:160-195 | between any two dispatches of an invocation in a kernel run there is a loss, and never-replay is not dispatched twice; before a probe-required one runs again the run has the operation that says "safe" of it, after the latest loss and the latest dispatch |
| KernelBacklog.BacklogIsConserved | crates/libmcp/src/host.rs:507-570 | in every run the client frames accepted into the queue are those handed out, in that order, followed by those that still wait, through any losses and probes |
| KernelBacklog.AcceptedFrameWaits | crates/libmcp/src/host.rs:507-570 | an accepted frame waits behind exactly those accepted before it that have not left yet, until it is handed out |
| KernelBacklog.RunStaysBounded | crates/libmcp/src/host.rs:474-868 | queue and pending map never exceed the largest capacities that the operations were given |
| KernelLaws.DispatchesAreBounded | crates/libmcp/src/replay.rs:96-130 | with every budget at most B no invocation is dispatched more than 1 + B times |
| KernelLaws.HandshakeStep | crates/libmcp/src/host.rs:474-504 | one operation moves the public handshake at most one step, and a live session keeps its seed |
| KernelLaws.HandshakeIsAnswered | crates/libmcp/src/host.rs:698-704 | in every run the handshake has succeeded if and only if some worker answered the pending initialize request without an error, and the seed is the request so answered |
| KernelLaws.SeedIsReady | crates/libmcp/src/host.rs:1146-1163 | in every reachable kernel the replay seed is at hand: none before a worker has taken the handshake, then the handshake so far, complete once live |
| KernelLaws.LiveSeedIsForever | crates/libmcp/src/host.rs:474-504 | once live, the seed stays the same bytes through any operations |
| KernelLaws.SeedIsObserved | crates/libmcp/src/host.rs:474-504 | the seed is what the client itself sent, the notification after the request |
| KernelLaws.InitializeIsDropped | crates/libmcp/src/host.rs:793-795 | a loss during the handshake leaves a restorable kernel if and only if the initialize request is recoverable and has room |
| KernelLaws.TwoLossesDropInitialize | crates/libmcp/src/host.rs:793-795 | a run under the supervisor budget that ends initializing with nothing pending |
| KernelLaws.MutedForever | crates/libmcp/src/host.rs:474-708 | from then on no operation takes the handshake any further |
| Snapshot.SnapshotRoundTrip | crates/libmcp/src/host.rs:425-456 | the snapshot of a kernel is admissible if and only if it fits the limits and an initializing kernel still has its request |
| Snapshot.AcceptedIsSealed | crates/libmcp/src/host.rs:1096-1116 | in an admissible capsule every pending payload parses to its own request, every queued frame parses, the seed parses to the initialize request with its id, and its notification to the one that confirms it |
| Snapshot.AcceptanceIsExact | crates/libmcp/src/host.rs:885-1143 | a capsule with no replay at attempt 255 is admissible if and only if it describes a kernel that satisfies the invariant, fits the limits and came out of the parser |
| Snapshot.RestoreIsSound | crates/libmcp/src/host.rs:885-1024 | an admissible capsule, however made, satisfies the whole invariant if and only if no scheduled replay stands at attempt 255 |
| Snapshot.AcceptedPopErrs | crates/libmcp/src/host.rs:551-554 | the next dispatch of an accepted kernel fails if and only if the head is a replay at attempt 255 |
| Snapshot.LastAttemptIsAccepted | crates/libmcp/src/host.rs:551-554 | such a capsule: it is admissible, and the first dispatch of its kernel fails |
| Snapshot.LowerCeilingNeverErrs | crates/libmcp/src/host.rs:885-1024 | with an attempt limit below 255 no accepted kernel fails |
| KernelLaws.ReachableRoundTrip | crates/libmcp/src/host.rs:425-456 | for every reachable kernel: its snapshot hydrates back to the same kernel, and is admissible exactly as above |
| Restore.Restore | crates/libmcp/src/host.rs:885-1024 | accepts exactly the admissible capsules and returns their kernel; a rejection names a defect that the capsule has; a seed that is not the initialize request with its id, or a notification that does not confirm it, is always rejected |
| Restore.HydrateQueue | crates/libmcp/src/host.rs:961-1008 | accepts exactly the queues that split into scheduled invocations, oldest first, and client frames |
| Restore.ValidatesSession | crates/libmcp/src/host.rs:1063-1143 | the executable handshake check accepts exactly when seed, phase and pending initialize agree |
| Journal.SessionJournal.Record | crates/libmcp/src/supervisor.rs:250-272 | replaces the entry under the key; refused exactly when it does not fit, at the cost of the earlier entry; keys distinct, bytes exact, both caps hold |
| Journal.CompactionIsExact | crates/libmcp/src/supervisor.rs:250-272 | the journal is exactly the last occurrence of each key of the history, in history order |
| Journal.CompactionPreservesState | crates/libmcp/src/supervisor.rs:250-272 | replaying the journal leaves the same keyed state as replaying the history |
| Authority.GenerationPinning | crates/libmcp/src/supervisor.rs:838-874 | in every state of every run each invocation in flight was last dispatched to the worker that is active now |
| Authority.NoRolloverSmothering | crates/libmcp/src/supervisor.rs:725-803 | from its dispatch until its answer or the loss of its worker an invocation stays in flight and its worker stays the active one |
| HostLaws.CompletedByItsDispatcher | crates/libmcp/src/supervisor.rs:523-562 | every invocation is completed by the worker that holds its last attempt |
| HostLaws.NoActivationInFlight | crates/libmcp/src/supervisor.rs:775-803 | authority does not move between a dispatch and its answer or loss |
| HostLaws.AuthorityIsGranted | crates/libmcp/src/supervisor.rs:775-803 | the active worker was activated, with no activation or loss since |
| HostLaws.UniqueAuthority | crates/libmcp/src/supervisor.rs:775-803 | no worker is given authority twice |
| HostLaws.CandidateIsOpaque | crates/libmcp/src/supervisor.rs:497-595 | a candidate is never the active worker, nothing is dispatched while the session is handed to it, and nothing it says is passed on |
| HostLaws.RestoredBeforeActivation | crates/libmcp/src/supervisor.rs:725-773 | by its activation a worker has received and acknowledged exactly the last transition under each key, in order, each once |
| HostLaws.OnlyLateNestedRequestsAreDropped | crates/libmcp/src/supervisor.rs:784-790 | what an activation drops is exactly the nested requests opened, and not returned, since the first journal entry went out |
| HostLaws.EmptyJournalDropsNothing | crates/libmcp/src/supervisor.rs:725-743 | with nothing journaled an activation drops no nested request |
| HostLaws.DispatchIsDelivered | crates/libmcp/src/supervisor.rs:1410-1435 | every dispatch is followed at once by the delivery of exactly those bytes to the active worker, or by the loss of that worker |
| HostLaws.AcceptedRequestIsPlaced | crates/libmcp/src/supervisor.rs:398-495 | every accepted request is placed at once: queued, dispatched, answered from the catalog, or held |
| HostLaws.OutcomeIsRelayed | crates/libmcp/src/supervisor.rs:523-562 | an answer is due to the client with exactly the bytes of the worker, and a refusal with its reason; the host relays just that, or gives up with an error, before it does anything but book the transition |
| HostLaws.LossIsRelayed | crates/libmcp/src/supervisor.rs:838-874 | after a loss, and before anything else, the client is told of each invocation that it ends, oldest first, with the reason, or the host gives up with an error |
| HostLaws.WaitingNotificationIsDelivered | crates/libmcp/src/supervisor.rs:1206-1257 | a client notification that had to wait is delivered with its own bytes as soon as it is handed out, or the worker is lost |
| HostLaws.BookingFollowsSuccess | crates/libmcp/src/supervisor.rs:545-549 | the journal is written or sealed only directly after an answer without an error, for the request so answered, and before the client is told |
| HostLaws.FailureBooksNothing | crates/libmcp/src/supervisor.rs:545-549 | after an error answer nothing is journaled or sealed until another answer comes |
| HostLaws.EntriesAreSuccesses | crates/libmcp/src/supervisor.rs:545-549 | every entry that the journal ever holds is a request that some worker answered without an error |
| HostRecovery.ProjectsToRun | crates/libmcp/src/host.rs:711-803 | the kernel of every host state is the kernel of its own run |
| HostRecovery.DispatchesAreRationed | crates/libmcp/src/supervisor.rs:838-874 | under the supervisor budget of one no invocation is dispatched more than twice, and an at-most-once one exactly once |
| HostRecovery.HostReplaysInOrder | crates/libmcp/src/supervisor.rs:1206-1257 | between two losses the host replays in original order and hands out no client frame before a replay |
| HostRecovery.HostEndsOnce | crates/libmcp/src/supervisor.rs:838-874 | after its answer or its refusal at a loss an invocation is never dispatched, answered or refused again |
| HostRecovery.HostQueueIsConserved | crates/libmcp/src/supervisor.rs:1336-1356 | what the host has queued is what it has taken out, in that order, followed by what still waits |
| HostRecovery.HostIsBounded | crates/libmcp/src/supervisor.rs:1336-1356 | neither queue nor pending map ever holds more than 128 |
| HostRecovery.HostIsSealed | crates/libmcp/src/supervisor.rs:398-495 | every frame and seed that the host keeps came out of the parser |
| Control.ClassificationGrants | crates/libmcp/src/supervisor.rs:1113-1159 | automatic repetition is granted exactly to the read-only surfaces and to tool calls declared replay-safe, or deduplicated with their key present; never a probe |
| Control.NeverHeld | crates/libmcp/src/supervisor.rs:1113-1159 | no kernel of the supervisor ever holds for a probe |
| Control.NewsIsExact | crates/libmcp/src/supervisor.rs:973-990 | which release gets a successor prepared: one other than the incumbent that was not turned down, and reads the version that the incumbent writes, or keeps no state after one that keeps none |
| ControlSteps.KernelStepKeeps | crates/libmcp/src/supervisor.rs:398-495 | a step of the kernel keeps the invariant that ties supervisor and kernel |
| ControlSteps.RejectionKeeps | crates/libmcp/src/supervisor.rs:1088-1111 | so does giving up a candidate, at any stage |
| ControlSteps.RejectionIsRemembered | crates/libmcp/src/supervisor.rs:1096-1099 | a release whose candidate was given up in a rollover is not tried again |
| ControlSteps.PlacementIsExact | crates/libmcp/src/supervisor.rs:442-485 | where an accepted request goes, each place if and only if: the catalog answers it, it is held, it is dispatched, it waits |
| ControlSteps.ActivationKeeps | crates/libmcp/src/supervisor.rs:775-803 | so does an activation |
| Supervision.Supervisor.Serve | crates/libmcp/src/supervisor.rs:296-354 | any events in any order: the run is accepted, the state between them is sound, a hopeless session never gets a worker again, and a stalled handover is stalled until a worker is gone; in a reliable world the loop ends exactly at the first fatal event |
| Supervision.Supervisor.HandleEvent | crates/libmcp/src/supervisor.rs:296-354 | one event keeps soundness and extends the accepted run; in a reliable world it ends the host if and only if it is fatal: the client has gone, a catalog request would be handed out without a catalog, a first journal entry cannot be sent, a private answer comes from another worker, or the public ids are exhausted |
| Supervision.Supervisor.HandleClientPayload | crates/libmcp/src/supervisor.rs:398-495 | the frame is observed first, and an accepted request then goes where phase, catalog and worker say |
| Supervision.Supervisor.HandleWorkerPayload | crates/libmcp/src/supervisor.rs:497-595 | an answer counts only from the active worker and is booked before it is relayed; unreadable bytes cost the candidate or the worker |
| Supervision.Supervisor.OnPublicAnswer | crates/libmcp/src/supervisor.rs:523-562 | the answer completes its invocation and is relayed; in between an error brings nothing, and a success is journaled or seals the journal exactly as the contract of its tool declares; an answer to nothing in flight is a loss |
| Supervision.Supervisor.OnPrivateAnswer | crates/libmcp/src/supervisor.rs:597-681 | in a reliable world each private answer leads to the next stage of the handover, and the last one to activation |
| Supervision.Supervisor.HandleInternalResponse | crates/libmcp/src/supervisor.rs:597-681 | each private answer by its action, with the candidate given up on an error answer; in a reliable world it ends the host exactly over a handshake while a catalog request waits, or a first journal entry that cannot be sent |
| Supervision.Supervisor.OnHandshake | crates/libmcp/src/supervisor.rs:636-650 | an error answer gives the candidate up; before the client has confirmed its own handshake the candidate takes over, and the host ends exactly if a catalog request waits; otherwise the candidate is asked for its catalog |
| Supervision.Supervisor.OnRestored | crates/libmcp/src/supervisor.rs:670-680 | one acknowledged entry is noted and the next goes out, or the candidate takes over; a refusal, or a later entry that cannot be sent, costs the candidate and never the host |
| Supervision.Supervisor.OnCandidateReady | crates/libmcp/src/supervisor.rs:684-723 | the same public catalog closes dispatch, a changed one is announced first |
| Supervision.Supervisor.TryBeginRestore | crates/libmcp/src/supervisor.rs:725-743 | the handover begins only with nothing in flight and no nested request open; a sealed journal gives the candidate up; with an entry due it fails exactly if that entry cannot be sent |
| Supervision.Supervisor.ContinueRestore | crates/libmcp/src/supervisor.rs:746-773 | sends exactly the entry at the index, and fails exactly if it cannot be numbered or does not get through; activates after the last |
| Supervision.Supervisor.ActivateCandidate | crates/libmcp/src/supervisor.rs:775-803 | the candidate becomes active, the held catalog request is answered and the queue handed to it; in a reliable world this fails exactly if a catalog request waits and the candidate has shown no catalog |
| Supervision.Supervisor.HandleWorkerLoss | crates/libmcp/src/supervisor.rs:805-836 | the candidate, the active worker, or nobody is lost, each with its exact effect |
| Supervision.Supervisor.HandleWorkerLossById | crates/libmcp/src/supervisor.rs:838-874 | the loss requeues or refuses everything in flight and drops every candidate, private request and nested route; any other worker changes nothing |
| Supervision.Supervisor.StartRecovery | crates/libmcp/src/supervisor.rs:876-907 | a session before its handshake starts over with the new worker, any other gets it as a candidate; it is the release that serves or served last |
| Supervision.Supervisor.OnTick | crates/libmcp/src/supervisor.rs:909-1027 | an expired candidate is given up, or dispatch is closed for it; recovery is started; a successor is prepared only for a release that is news; in a reliable world it fails exactly if the announced catalog expires and a first journal entry cannot be sent |
| Supervision.Supervisor.RejectCandidate | crates/libmcp/src/supervisor.rs:1088-1111 | an incumbent stays active with everything it has in flight; without one nothing but the candidate changes |
| Supervision.Supervisor.RecordSessionTransition | crates/libmcp/src/supervisor.rs:1161-1204 | performs exactly the bookkeeping that the contract of the named tool asks for |
| Supervision.Supervisor.BookkeepingIsDeclared | crates/libmcp/src/supervisor.rs:1161-1204 | what a success brings, for each kind of contract: nothing, an entry under the constant or under what the pointer finds, or the seal |
| Supervision.Supervisor.FlushQueue | crates/libmcp/src/supervisor.rs:1206-1257 | terminates; in a reliable world it fails if and only if no catalog is published and a catalog request waits, and otherwise the queue is empty and the worker still serves |
| Supervision.Supervisor.ReplyCatalog | crates/libmcp/src/supervisor.rs:1259-1282 | answers with the bytes of the published catalog; in a reliable world it fails exactly without one, and the request is then abandoned |
| Supervision.Supervisor.RouteCallbackResponse | crates/libmcp/src/supervisor.rs:1284-1302 | the answer to a nested request goes to the worker that asked, under its own id, once |
| Supervision.Supervisor.RouteCancellation | crates/libmcp/src/supervisor.rs:1304-1328 | a cancellation is passed on exactly if its target is pending and a worker serves, and otherwise nothing happens at all |
| Supervision.Supervisor.QueueOrReject | crates/libmcp/src/supervisor.rs:1336-1356 | a frame is queued for a worker to come, or refused |
| Supervision.Supervisor.DispatchRequest | crates/libmcp/src/supervisor.rs:471-485 | admission under the contract of the current catalog and then delivery, or refusal |
| Supervision.Supervisor.OnWorkerRequest | crates/libmcp/src/supervisor.rs:563-587 | a nested request gets a fresh public id and a route back; a candidate that asks is given up |
| Revival.Revive | crates/libmcp/src/supervisor.rs:909-971 | from every lost session that is not hopeless some continuation activates a worker that has been handed everything, or, before the handshake is confirmed, ends the host exactly if a catalog request waits |
| Revival.Absorb | crates/libmcp/src/supervisor.rs:746-773 | in a reliable world a candidate that acknowledges each entry is activated after the last, and handed the queue |
| Lostness.StrandedRun | crates/libmcp/src/supervisor.rs:838-874 | a run that loses its worker before the first catalog, which is hopeless |
| Lostness.SeveredRun | crates/libmcp/src/supervisor.rs:735-743 | a run that loses its worker with a sealed journal, which is hopeless |
| Lostness.FallenRun | crates/libmcp/src/supervisor.rs:670-680 | a run whose recovery candidate refuses a journal entry, which is left draining and hopeless |
| Lostness.FallenWhileAnnounced | crates/libmcp/src/supervisor.rs:497-520 | a run whose recovery candidate is given up while its catalog is announced, which is hopeless |
| Lostness.LateNestedRun | crates/libmcp/src/supervisor.rs:784-790 | a run in which a nested request that is open at the activation is dropped |
| Sessions.ScriptsExist | crates/libmcp/src/supervisor.rs:398-495 | readings, peers and scripts as these runs need them exist, with ids of the client that the host could not have made |
| Endings.EarlyCatalogRun | crates/libmcp/src/supervisor.rs:775-803 | a run that loses its worker with an early catalog request queued, and whose recovery ends the host |
| Endings.FirstEntryLostRun | crates/libmcp/src/supervisor.rs:746-773 | a run in which the first journal entry does not get through to a successor, which ends the host although its worker is well |
| Endings.StalledRun | crates/libmcp/src/supervisor.rs:725-735 | a run into a handover that is stalled, with no nested request open any more |
| Endings.PromptRun | crates/libmcp/src/supervisor.rs:1161-1204 | a run that journals a prompts/get request because it names a journaled tool |
| Endings.OversizedRun | crates/libmcp/src/supervisor.rs:251-271 | a run in which a transition that does not fit leaves an empty, sealed journal |
| Framing.TimedFrameReader.ReadFrame | crates/libmcp/src/jsonrpc.rs:506-552 | for any chunks and timeouts: frames delivered so far and bytes left are the split of all bytes read, and the end is the same |
| Framing.TimedFrameReader.ExtractFrame | crates/libmcp/src/jsonrpc.rs:554-582 | takes exactly the next frame of the buffer, or says that there is none yet, or that the limit is exceeded |
| Framing.TimedFrameReader.Compact | crates/libmcp/src/jsonrpc.rs:584-592 | drops consumed bytes and nothing else |
| Framing.TimedFrameReader.ReadChunk | crates/libmcp/src/jsonrpc.rs:506-552 | the buffer never exceeds the limit plus two chunks, whatever is read |
| Framing.TimedFrameReader.NothingIsLost | crates/libmcp/src/jsonrpc.rs:501-592 | bytes read are the bytes passed over and the bytes still buffered |
| Framing.ReadFrame | crates/libmcp/src/jsonrpc.rs:648-688 | one frame of a buffered stream: the next one of the pure split, whatever the buffering |
| Framing.ReadAll | crates/libmcp/src/jsonrpc.rs:691-727 | all frames and the end are the pure function of bytes and limit |
| Framing.LineIsDelivered | crates/libmcp/src/jsonrpc.rs:648-688 | what one line adds: itself, nothing if it is empty or a lone return, and the end of all if it is longer than the limit |
| Framing.ReturnIsDropped | crates/libmcp/src/jsonrpc.rs:680-682 | a frame that ends in CR LF is delivered without the one return and the line feed, exactly if the return fits into the limit too |
| Framing.TailIsDelivered | crates/libmcp/src/jsonrpc.rs:659-665 | an unterminated last line is delivered as it is |
| Framing.WriteFrame | crates/libmcp/src/jsonrpc.rs:730-772 | writes exactly the payload and one line feed, or nothing if it cannot be framed |
| Framing.ValidationIsExact | crates/libmcp/src/jsonrpc.rs:752-772 | a payload is accepted if and only if it reads back as that one frame |
| Framing.FramingRoundTrip | crates/libmcp/src/jsonrpc.rs:648-772 | any list of accepted payloads, written one after the other, reads back as that list and then the end |
| Framing.ReturnsRoundTrip | crates/libmcp/src/jsonrpc.rs:575-577 | framed with CR LF, accepted payloads read back as that list if and only if each is shorter than the limit |
| PorcelainEncoder.RenderJsonPorcelain | crates/libmcp/src/render.rs:182-188 | the text from which the value can be read back |
| PorcelainEncoder.RenderValue | crates/libmcp/src/render.rs:190-262 | pushes exactly the lines of the value, for every nesting and layout |
| PorcelainEncoder.TableKeys | crates/libmcp/src/render.rs:264-284 | a table exactly for two or more short records with the same one to twelve keys |
| PorcelainLossless.PorcelainRoundTrips | crates/libmcp/src/render.rs:182-317 | reading what was rendered gives the value, for all nestings, tables, quoted strings and literal blocks |
| PorcelainLossless.PorcelainIsLossless | crates/libmcp/src/render.rs:182-317 | two values with the same text are equal |
| PorcelainLayout.WordsStandBare | crates/libmcp/src/render.rs:293-317 | a string is written without quotes if and only if it begins like a word, has no space around it, none of the marks of the text in it, and is no reserved word |
| PorcelainLayout.TextsAreBlocks | crates/libmcp/src/render.rs:237-259 | a string is written as a block if and only if it has a line break and no other control character than tabs |
| PorcelainLayout.RecordsMakeTables | crates/libmcp/src/render.rs:264-284 | a list becomes a table if and only if it is two or more records with the same one to twelve keys and only short scalars |
| PorcelainReader.StringReadsBack | crates/libmcp/src/render.rs:293-317 | a string, plain or quoted with any escapes, reads back before any following text |
| PorcelainRoundTrip.LiteralReadsBack | crates/libmcp/src/render.rs:237-259 | a literal block reads back with its final line breaks, by its chomping mark |
| PorcelainRoundTrip.TableReadsBack | crates/libmcp/src/render.rs:207-227 | a table reads back to the same records |
| Handoff.MutualExclusion | crates/libmcp/src/rollout.rs:728-810 | if admission is asked for once, in no interleaving may both processes read the public stream |
| Handoff.ExclusionIsExact | crates/libmcp/src/rollout.rs:596-618 | both may read it at some moment if and only if admission is asked for again, after a refusal, while the incumbent owns the session |
| Handoff.SecondAdmissionShares | crates/libmcp/src/rollout.rs:596-599 | a run in which that happens |
| Handoff.OutcomesAreSound | crates/libmcp/src/rollout.rs:728-770 | relinquishing means ACTIVATE taken and LIVE sent; an error means that the successor has ended or was never sent ACTIVATE |
| Handoff.OutcomesAreFinal | crates/libmcp/src/rollout.rs:728-832 | after an error no successor that asks once is ever admitted, after relinquishing the incumbent never reads again |
| Handoff.OwnershipIsSendLive | crates/libmcp/src/rollout.rs:596-618 | the successor owns the session at some moment if and only if it sent LIVE or asked again |
| Handoff.OwnershipMovesOnce | crates/libmcp/src/rollout.rs:759-770 | ownership comes back to the incumbent if and only if LIVE was sent and the incumbent returned an error |
| Handoff.OwnershipCanReturn | crates/libmcp/src/rollout.rs:759-770 | a run in which it does |
| Handoff.GateBytesAreInOrder | crates/libmcp/src/rollout.rs:813-823 | no handoff fails on a wrong gate byte |
| Handoff.Session.HandoffUnix | crates/libmcp/src/rollout.rs:728-770 | the incumbent side: success only after LIVE, and on an error it owns the session alone |
| Handoff.Session.FinishHandoff | crates/libmcp/src/rollout.rs:773-810 | ends relinquished or with the abort to come |
| Handoff.Session.AbortSuccessor | crates/libmcp/src/rollout.rs:826-832 | returns with the successor dead |
| Handoff.Session.AdmitSuccessor | crates/libmcp/src/rollout.rs:596-618 | the first admission succeeds only after ACTIVATE; a later one always |
| Ledger.OperationalLedger.RecordRequest | crates/libmcp/src/health.rs:314-323 | refused exactly when the session total is exhausted |
| Ledger.OperationalLedger.RecordSuccess | crates/libmcp/src/health.rs:326-341 | refused exactly without an invocation in flight or with the sum of latencies exhausted, and then without effect |
| Ledger.OperationalLedger.RecordError | crates/libmcp/src/health.rs:344-360 | the same for host errors |
| Ledger.OperationalLedger.RecordResponseError | crates/libmcp/src/health.rs:363-383 | the same for response errors |
| Ledger.OperationalLedger.RecordRecoveryError | crates/libmcp/src/health.rs:386-404 | refused exactly without an invocation in flight: no counter can be exhausted |
| Ledger.OperationalLedger.RecordRecoveryFault | crates/libmcp/src/health.rs:407-430 | charged only to the serving generation and a live method |
| Ledger.OperationalLedger.RecordReplay | crates/libmcp/src/health.rs:433-440 | refused exactly without an invocation in flight or with the session total exhausted |
| Ledger.OperationalLedger.ReplaceWorker | crates/libmcp/src/health.rs:443-452 | generations only advance, and every counter of the session goes on |
| Ledger.RecordLatency | crates/libmcp/src/health.rs:516-528 | count, sum, last and maximum of the latencies, refused exactly on overflow |
| Ledger.MethodConservation | crates/libmcp/src/health.rs:314-549 | requests are successes, errors and in flight; samples are the outcomes without recovery errors; the average never exceeds the maximum |
| Ledger.SessionConservation | crates/libmcp/src/health.rs:314-452 | session totals are the sums over the methods; recovery faults exceed theirs by exactly the unattributed ones |
| Ledger.LiveLeavesRoom | crates/libmcp/src/health.rs:499-514 | with something in flight no counter of outcomes can be exhausted |
| Chronicles.GenerationsAdvance | crates/libmcp/src/health.rs:407-452 | generations strictly increase, and each fault is charged to the one that was serving |
| Chronicles.TotalsAreSums | crates/libmcp/src/health.rs:314-440 | counting a history in whole or method by method gives the same |

Reading the contracts:

- A handler of `Supervisor` states the steps that it adds to the ghost run, in order, and what every such
  step keeps is proved about the abstract host. `View()` collects the fields; `Holds`, `Quiet` and
  `Hopeless` are its invariants.
- `reliable` is a constant of a supervisor: in a reliable world no write to the client, no delivery to the
  serving worker and no launch fails. `arrives` says of each numbered private request whether it gets through
  to its worker, in any world. Safety is proved for all of them; what a handler leads to if nothing else
  fails is stated for reliable worlds only.
- A `Relay` step carries the bytes or the reason that the client is told. It stands for the attempt to write
  them; a write that fails ends the host.
- `Hopeless` sessions have lost their worker for good, and `Stalled` handovers make no progress between two
  healthy workers; `NoRevival` and `NoProgress` say so of every handler. `Fatal` is what ends a host.
- `Reading` and `Peer` stand for JSON text: what the supervisor reads out of a frame, and how a worker writes
  its answers. `Sessions.ScriptsExist` shows that there are some.

## Left out

- Process spawning, pipes, threads, process groups and kill: a send, a write or a launch succeeds or fails, a worker is gone, a child has ended.
- Clocks: whether a candidate's deadline or the recovery backoff has passed is part of the tick event; instants, ages and uptimes are dropped from the kernel and the ledger.
- JSON text: parsing, envelope validation, tool metadata, pointers and key scoping are parameters, collected in `Reading`; numbers keep the text they are printed with.
- Release files, digests, permissions, environment variables and the settling of a replaced executable (`crates/libmcp/src/rollout.rs:433-590`, `crates/libmcp/src/rollout.rs:657-726`): the channel shows a release or none, and its launch succeeds or fails.
- Snapshot files (`crates/libmcp/src/host.rs:1173-1411`): only their contents are modelled.
- Liveness: that every accepted request is answered is not claimed, and it does not hold, since a held catalog request is given up with its candidate. `Revival.Revive` shows that a continuation exists, not that it happens.
- `crates/libmcp/src/effect.rs`: a catalog is its canonical bytes and a map from tool names to contracts.
- `telemetry.rs`, `normalize.rs`, `projection.rs`, `fault.rs`, `types.rs`, the derive macros, the testkit and the example server: wrappers and presentation, which would only add easy members.
- Ids: the strings that the host makes for private and nested requests are kept apart from client ids by construction, where the code relies on their prefixes.
- Alphabetic characters beyond ASCII: `Porcelain` takes them as a parameter, and is lossless whatever it says.
- The order in which a telemetry snapshot lists methods, and ledgers deserialized from files that this code did not write.
- Handoff.MutualExclusion: a second connection to the private socket is not modelled, because only the successor is given its path.
- Supervision.Supervisor.HandleClientPayload: does not model the patched capabilities of the initialize response, because they are JSON text.
