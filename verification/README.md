# Verified model of the backend's protocols and algorithms

A Dafny model of the parts of the hotel-operations platform where correctness depends on several
programs, several transactions or a whole computation at once, with proofs of what those parts
promise. `dafny verify dfyconfig.toml` checks everything.

## What is modelled

**The outbox to effect pipeline** (`StatusTriggers`, `LeaseQueue`, `Pipeline`, `PipelineSafety`,
`PipelineLeases`, `PipelineRecovery`, `PipelineRecoverAll`, `PipelineWorkers`, `StreamTransport`). Outbox
rows, the stream with its pending list, inbox rows and business effects, with any number of publishers,
bridges and consumers working from claimed batches in local memory. A step is one transaction, one stream
command or the loss of a process's memory. One invariant spans the three programs; from it follow
exactly-once committed effects, no loss, no invention, and the exact condition under which every event can
still be settled after crashes. Both tables refine a leased queue, so that a lease excludes everybody else
until it runs out and no longer. The three worker programs are written as loops over the same state and
proved, with arbitrary interference at every await, to take exactly the protocol steps of a recursive
script and to leave every row as its outcome calls for. No clock is part of the state: every claim brings
its own reading, so safety holds under any clock skew.

**The evidence pipeline** (`EvidenceStates`, `Evidence`, `EvidenceSafety`, `EvidenceRecovery`,
`EvidenceTurns`, `EvidenceWorkers`). The transition table with its guarded service; references with their
metadata, leases, checkpoints and packages; workers that write whole metadata values from snapshots under
a guard on state and owner. Proved: one package per reference, the checkpoint invariant, that the guard
detects every change to the row, that a lease excludes other workers, what a fault-free worker makes of
every reference, and what a cycle makes durable for each extraction outcome.

**Idempotent execution** (`JsonText`, `CanonicalPayload`, `PayloadEquality`, `Idempotency`). The printed
form of a payload is uniquely readable, so two payloads have the same canonical text exactly when they are
the same content, said of the payloads as callers pass them, models included; concurrent requests for one
(tenant, operation, key) unit run the handler at most once and are replayed or refused by exactly that
comparison.

**Planar geometry** (`Segments`, `Polygons`, `SelfIntersection`, `Canonicalization`), over exact
reals: the segment test against its geometric meaning, the shoelace and self-intersection loops and
what they are invariant under, and canonicalization on a decimal grid.

**Three state machines.** The frame pipeline over its bounded queue (`FramePipeline`, `FrameTasks`),
two-phase media deletion (`MediaCleanup`, `MediaSafety`, `MediaTurns`, `MediaWorkers`), and the desktop's
WebSocket manager (`WebSocket`, `WebSocketClient`).

`Common` holds shared types. Throughout, a protocol is a `State`, a `Step`, an enabling condition, a
transition function and runs over sequences of steps; a program is a class whose methods are proved to
take those steps.

## Where the code and its documentation differ

The model follows the code. Where a promise fails, a lemma shows an input and another one says exactly
when the promise is kept.

- `claim_stuck` passes XAUTOCLAIM's flat list of (id, fields) entries to `_parse_entries`, which expects
  (stream, entries) pairs, so a non-empty reclaim raises and its messages reach nobody
  (`ReclaimHandsNothingOver`). An event can be settled if and only if reclaiming hands messages over or
  the event is not stranded (`Recoverable`), and one schedule settles exactly those events at once
  (`RecoverAll`, for either behaviour of `claim_stuck`); `StrandingRun` reaches a stranded event.
- `save_finalized` hands the link row to `session.add` as a Core insert, which SQLAlchemy rejects, so the
  transaction raises and rolls back. Whether the session takes the link row is a field of the
  configuration (`linkAccepted`, false of the code as it is). A reference can be finalized if and only if
  it does and the builder accepts the request with an intact checkpoint (`FinalizedExactly`); where it
  does not, every extracted and accepted reference stays uploading (`RejectedLinkStrands`,
  `UnlinkableForever`).
- A recovered reference is meant to be re-claimable at once. The session flushes its in-memory transition
  to the row ahead of the guarded UPDATE, whose guard then fails, so the retry date is never written and
  the recovery lease stays: the reference is claimable again exactly when that lease has run out
  (`RecoveredClaimable`), and `run_once` counts of all recoveries only those that finalize
  (`EvidenceWorker.RecoverStale`).
- A retryable failure of the evidence worker persists its backoff but leaves the lease of the failed claim on
  the row, which the claim query looks at as well: the retry waits for both (`RetriedClaimable`).
- The canonical hash is promised to differ for logically different payloads. It does for JSON trees with
  string keys (`JsonTreesByText`), but a non-string key and its string form, a tuple and a list, a UUID
  and its string form share a text (`DistinctPayloadsSameText`); which payloads do is stated exactly
  (`SameTextIffSamePayload`).
- The closure test of a polygon ring tolerates one step of the image-space grid, so a ring whose ends round
  to neighbouring grid points stays open (`RingExactlyClosed`, `ImageRingLeftOpen`).
- `FramePipeline.run` is documented to cancel the sibling task on a failure. It waits for both tasks: once
  one has ended, the run ends by itself if and only if the producer is not waiting for the source
  (`StalledSourceHoldsRun`); a failed consumer and a silent source hold it (`ConsumerFailureHangs`). A
  QueueClosedError raised by the consumer itself never surfaces (`ConsumerErrorLost`).
- `request_deletion` says that after a storage error the record stays DELETION_PENDING for the cleanup
  worker. The whole request is one transaction, which the error rolls back: the record is pending
  afterwards exactly if it was before, and an available record may have lost its object
  (`FailedUserDeletion`, `FailedDeletionLosesObject`). Which records the workers can delete is stated
  exactly (`SweepsDeleteExactly`). A started deletion is documented never to get stuck; a hold set after
  it started keeps it pending (`SweepsFinishExactly`, `HoldStrandsDeletion`).
- A deleted record's object need not stay absent: storage takes an upload through a presigned URL that
  outlived the deletion (`LateUploadRevives`). In every run the object of a deleted record is there if and
  only if such a late upload put it there and nothing has removed it since (`DeletedOnceAndGone`).
- The reconnect budget is not kept between two opens when `disconnect()` is called, because it resets the
  counter. The account is exact: reconnects scheduled are those still counted plus those resets forgot, so
  the budget is kept exactly when little enough was forgotten (`ReconnectAccount`, `ReconnectBudget`,
  `LogoutResetsBudget`).

## Assumptions

A transaction commits or rolls back and the worker learns which. Storage and stream calls may fail, and
may have taken effect although they report a failure. Worker identities are unique. Requests are
stored on the reference they name, as the linkage service does. The session that `DatabaseClient` makes
flushes pending changes ahead of every statement. In the WebSocket manager each release handle is used
once and sockets do not overlap: `connect` is not called between an error or a `disconnect()` and the
close event that follows it. Business effects are named by their event.

## Model

| member | source | states |
|---|---|---|
| StatusTriggers.CheckStatusTransition | database/migrations/versions/016_outbox_retry_idempotency.py:85-126 | The outbox and inbox triggers: which status changes pass, which raise, and exactly what they stamp on the row |
| StatusTriggers.AllowedExactly | database/migrations/versions/016_outbox_retry_idempotency.py:85-126 | The nine edges of the triggers, and that only the two final statuses cannot be left |
| StatusTriggers.TerminalAbsorbing | database/migrations/versions/016_outbox_retry_idempotency.py:85-126 | In every history of accepted updates published, processed and dead_letter are never left |
| StatusTriggers.DowngradeOnlyClosesDeadLetter | database/migrations/versions/016_outbox_retry_idempotency.py:128-163 | The downgrade's machine is the new one minus exactly the edges into dead_letter |
| LeaseQueue.StepKeepsQInv | backend/app/infrastructure/database/repositories/outbox.py:115-254 | Claiming, acting, concluding, dropping and crashing keep the row and snapshot invariant of a leased queue |
| LeaseQueue.WorkersRefineTrigger | backend/app/workers/outbox_publisher.py:154-218 | Every status change any worker makes is one the trigger accepts |
| LeaseQueue.LostClaimWritesNothing | backend/app/infrastructure/database/repositories/outbox.py:168-254 | A result transition by a worker that does not own the row leaves every row as it was |
| LeaseQueue.ReclaimRevokes | backend/app/infrastructure/database/repositories/inbox.py:98-143 | Claiming an expired row takes it from its previous owner for good |
| LeaseQueue.ClaimableExactly | backend/app/infrastructure/database/repositories/inbox.py:98-143 | A row can be claimed iff it is open, available and under no live lease |
| LeaseQueue.LeaseExcludes | backend/app/infrastructure/database/repositories/inbox.py:98-143 | After a claim another worker can claim the row iff the lease has run out and it is available |
| LeaseQueue.InsertedClaimable | backend/app/infrastructure/database/repositories/outbox.py:115-166 | A new row can be claimed from its own time on |
| LeaseQueue.ConcludedClaimable | backend/app/infrastructure/database/repositories/outbox.py:168-254 | A concluded row can be claimed again iff its failure was retryable, its budget is not spent and its backoff has run out |
| LeaseQueue.LeaseHolds | backend/app/infrastructure/database/repositories/inbox.py:98-143 | Over any run, while a lease runs nobody but its holder gets or changes the row |
| LeaseQueue.StampsExactly | database/migrations/versions/016_outbox_retry_idempotency.py:85-126 | Every status change is stamped with its own clock, and the finishing time is that of the success |
| LeaseQueue.RetriesBounded | backend/app/workers/outbox_publisher.py:166-197 | Over any run of a queue a row is rescheduled by handled failures at most its remaining budget, fewer than max_attempts times from enqueueing |
| Pipeline.StepKeepsInv | backend/app/workers/inbox_ingress.py:105-165 | Every step of publishers, bridges and consumers keeps the invariant spanning outbox, stream, pending list, inbox and effects |
| Pipeline.RunKeepsInv | backend/app/workers/outbox_publisher.py:78-109 | So does every run, from every state that satisfies it |
| PipelineSafety.ExactlyOnceEffect | backend/app/workers/inbox_consumer.py:164-236 | In every reachable state an event's effect is committed at most once, and exactly once iff its inbox row is processed |
| PipelineSafety.NoLoss | backend/app/workers/inbox_ingress.py:105-165 | A published row has a stream message, and the event of every acknowledged message has an inbox row iff its envelope is well-formed |
| PipelineSafety.PendingExactly | backend/app/infrastructure/transport/redis_streams.py:119-189 | Which step acknowledges a message and who owns a pending one, exactly |
| PipelineSafety.ReadExactly | backend/app/infrastructure/transport/redis_streams.py:119-145 | A read hands out the next messages in order, as many as asked for or all there are |
| PipelineSafety.NoInvention | backend/app/workers/inbox_consumer.py:87-114 | Effects come from inbox rows, inbox rows from messages, messages from outbox rows |
| PipelineSafety.RunPreserves | database/migrations/versions/016_outbox_retry_idempotency.py:85-126 | No run removes a row or message, revises a terminal row or takes back an effect |
| PipelineSafety.LostClaimIsHarmless | backend/app/workers/inbox_consumer.py:176-188 | A worker that lost its claim changes nothing durable when it concludes |
| PipelineSafety.ReclaimBlocksCommit | backend/app/workers/inbox_consumer.py:164-200 | After a re-claim the previous consumer can still conclude but its effect is not committed |
| PipelineSafety.RetriesBoundedInPipeline | backend/app/workers/inbox_consumer.py:200-224 | Over any run of the whole pipeline handled failures reschedule the outbox row and the inbox row of an event fewer than max_attempts times each |
| PipelineLeases.OutboxRefines | backend/app/workers/outbox_publisher.py:78-109 | Every run of the pipeline is a run of the outbox as a leased queue |
| PipelineLeases.InboxRefines | backend/app/workers/inbox_consumer.py:87-114 | And of the inbox as another |
| PipelineLeases.OutboxLeaseHolds | backend/app/infrastructure/database/repositories/outbox.py:115-166 | While a publisher's lease runs its row is handed to nobody else and stays as claimed, until it concludes it |
| PipelineLeases.InboxLeaseHolds | backend/app/infrastructure/database/repositories/inbox.py:98-143 | While a consumer's lease runs nobody else is handed the event or commits an effect of it |
| PipelineRecovery.SettleOutbox | backend/app/workers/outbox_publisher.py:166-218 | A publisher cycle repeated on a row ends published or dead-lettered against every transport, which may answer each event and attempt differently, by a decreasing number of remaining rounds |
| PipelineRecovery.SettleInbox | backend/app/workers/inbox_consumer.py:189-252 | The same for the consumer against every handler behaviour |
| PipelineRecovery.DrainHand | backend/app/workers/inbox_ingress.py:67-99 | A bridge that keeps going stores every well-formed message it holds |
| PipelineRecovery.ReadUpTo | backend/app/workers/inbox_ingress.py:67-99 | Repeated read cycles reach and store the message at any unread position |
| PipelineRecovery.FinishOldBatch | backend/app/workers/outbox_publisher.py:78-109 | A publisher that lost its claims appends the remaining messages of its old batch again |
| PipelineRecovery.StoreMessage | backend/app/workers/inbox_ingress.py:67-165 | A published well-formed event that is not stranded gets its inbox row |
| PipelineRecovery.SettleEvent | backend/app/workers/inbox_ingress.py:67-99 | From every reachable state a finite crash-free schedule settles an event that is not stranded, whatever transport and handlers answer to each event and attempt |
| PipelineRecovery.StrandedStays | backend/app/infrastructure/transport/redis_streams.py:147-177 | Without reclaim no step rescues a stranded event |
| PipelineRecovery.Recoverable | backend/app/infrastructure/transport/redis_streams.py:147-177 | An event can be settled iff reclaiming delivers or the event is not stranded |
| PipelineRecovery.StrandingRun | backend/app/workers/inbox_ingress.py:67-99 | A bridge dying between reading and storing strands an event |
| PipelineRecoverAll.FateKept | backend/app/workers/inbox_ingress.py:67-165 | No crash-free schedule strands an event whose outbox row is closed, or rescues a stranded one |
| PipelineRecoverAll.CloseOutbox | backend/app/workers/outbox_publisher.py:166-218 | A fresh publisher closes every outbox row, published or dead-lettered, without stranding anything |
| PipelineRecoverAll.RecoverAll | backend/app/workers/outbox_publisher.py:12-27 | From every reachable state, whatever is answered to each event and attempt, one finite schedule settles exactly the events that reclaiming delivers or that are not stranded |
| PipelineWorkers.Deployment.Take | backend/app/infrastructure/database/client.py:85-115 | The shared state is always what the history of committed steps makes of the empty deployment |
| PipelineWorkers.Deployment.Others | backend/app/workers/base.py:34-49 | Arbitrary steps of other processes leave a process's local memory, its own steps and its completed items alone |
| PipelineWorkers.GuardedUpdate | backend/app/infrastructure/database/repositories/inbox.py:145-220 | The mark statements write exactly when the row is processing and owned, and report exactly that |
| PipelineWorkers.SelectDue | backend/app/infrastructure/database/repositories/inbox.py:98-143 | The claim query returns distinct rows that are open, available and under no live lease, all of them unless the batch of twenty is full |
| PipelineWorkers.OutboxPublisherWorker.Finish | backend/app/workers/outbox_publisher.py:154-218 | One result transaction: reported success is ownership, and a failure writes no row |
| PipelineWorkers.OutboxPublisherWorker.ScheduleRetry | backend/app/workers/outbox_publisher.py:166-197 | A retryable failure is rescheduled, or dead-lettered once the budget is spent |
| PipelineWorkers.OutboxPublisherWorker.PublishRow | backend/app/workers/outbox_publisher.py:115-164 | Publishing outside a transaction and marking in a second one, with crash windows; the row leaves published with its message out, due again after its backoff, or dead-lettered, as the answer calls for |
| PipelineWorkers.OutboxPublisherWorker.RunOnce | backend/app/workers/outbox_publisher.py:78-113 | A cycle claims what the query selects, then takes exactly the steps of its script under any interference, leaves every claimed row as its answer calls for, keeps nothing in hand and returns the number of rows it marked published |
| PipelineWorkers.InboxIngressBridge.HandleMessage | backend/app/workers/inbox_ingress.py:105-165 | Insert, commit, then ack: exactly the steps the message and the faults call for; malformed messages are handled, transient failures left pending |
| PipelineWorkers.InboxIngressBridge.ClaimStuck | backend/app/infrastructure/transport/redis_streams.py:147-177 | Takes over pending messages up to a batch, all that were asked for unless it is full; raises and hands over nothing when entries cannot be unpacked |
| PipelineWorkers.InboxIngressBridge.RunOnce | backend/app/workers/inbox_ingress.py:67-99 | Reclaim, read, then exactly the script over the messages in hand; returns the number of messages completed; a reclaim or read that raises, before or after taking effect, ends the cycle with what it took still pending |
| PipelineWorkers.InboxConsumerWorker.ProcessRow | backend/app/workers/inbox_consumer.py:164-236 | Effect and processed mark commit together; the savepoint takes the effect back on a lost claim or failure; the row leaves as its outcome calls for |
| PipelineWorkers.InboxConsumerWorker.ConcludeRow | backend/app/workers/inbox_consumer.py:176-236 | Mark, retry or dead-letter by outcome and attempts, with the session's writes taken back unless the row was marked |
| PipelineWorkers.InboxConsumerWorker.Commit | backend/app/workers/inbox_consumer.py:116-162 | Rows and effect writes of the session become durable in one step |
| PipelineWorkers.InboxConsumerWorker.RunOnce | backend/app/workers/inbox_consumer.py:87-114 | A cycle claims what the query selects, takes exactly the steps of its script, leaves every claimed row as its outcome calls for and returns the number of effects it committed |
| StreamTransport.ParseEntries | backend/app/infrastructure/transport/redis_streams.py:222-237 | The parsing loop computes the flattened messages of a well-shaped reply and raises on any other shape |
| StreamTransport.ReclaimHandsNothingOver | backend/app/infrastructure/transport/redis_streams.py:147-177 | A read hands over every entry with its id and fields, in order; on an XAUTOCLAIM-shaped reply the parser raises iff there is an entry to hand over |
| EvidenceStates.TableIsFunction | backend/app/domain/evidence/state_machine.py:91-143 | The transition table is a function of state and event, and each event has one target wherever it is legal |
| EvidenceStates.TerminalIsClosed | backend/app/domain/evidence/state_machine.py:145-150 | Exactly the three terminal states refuse every event |
| EvidenceStates.DuplicateDelivery | backend/app/application/services/evidence_state.py:210-233 | The second of two workers with the same observation gets a mismatch; an unguarded duplicate is a no-op unless the state is terminal |
| EvidenceStates.OnlyRetryGoesBack | backend/app/domain/evidence/state_machine.py:91-143 | With k retries an artifact makes at most 5 + 4k transitions |
| EvidenceStates.EvidenceStateService.Restart | backend/app/application/services/evidence_state.py:148-158 | A restart returns the durable state and version verbatim |
| EvidenceStates.EvidenceStateService.Apply | backend/app/application/services/evidence_state.py:164-233 | One guarded transition in place; nothing but state and version changes, and only when the event applies |
| EvidenceStates.EvidenceStateService.ClaimForExtraction | backend/app/application/services/evidence_state.py:235-246 | Succeeds iff the state is queued; every loser gets a mismatch and changes nothing |
| EvidenceStates.EvidenceStateService.FinalizeRef | backend/app/application/services/evidence_state.py:248-254 | Succeeds iff the state is uploading |
| Evidence.StepKeepsInv | backend/app/infrastructure/database/repositories/evidence_work.py:165-430 | Every step of every worker keeps rows, packages and snapshots consistent, each request on the reference it names |
| Evidence.RunKeepsInv | backend/app/workers/evidence.py:209-288 | So does every run |
| Evidence.PackageIsNew | backend/app/domain/evidence/package.py:401-407 | The package an uploading reference builds is never in the store already, because its identity names the reference |
| EvidenceSafety.OnePackagePerRef | backend/app/infrastructure/database/repositories/evidence_work.py:378-420 | A reference has a package iff it is finalized; references and packages correspond one to one; the package names the reference and is the one its checkpoint builds |
| EvidenceSafety.ClosedForever | backend/app/domain/evidence/state_machine.py:145-150 | Finalized, terminal-failure and expired rows never change again |
| EvidenceSafety.UploadedNeverReextracted | backend/app/workers/evidence.py:568-579 | From uploading a reference only goes to finalized or terminal failure, with the same checkpoint, and is never claimed for extraction again |
| EvidenceSafety.CheckpointResumes | backend/app/workers/evidence.py:568-611 | Resuming a reachable uploading reference never takes the missing, invalid or integrity branches nor meets its package; it finalizes iff the builder accepts and the session takes the link row, and dead-letters iff the builder refuses |
| EvidenceSafety.GuardDetectsEveryChange | backend/app/infrastructure/database/repositories/evidence_work.py:342-374 | A worker's guarded write takes effect iff the row still equals its snapshot, and touches no other row |
| EvidenceSafety.RecoveryRevokes | backend/app/infrastructure/database/repositories/evidence_work.py:300-336 | After recovery by another worker no step on the old snapshot has an effect |
| EvidenceSafety.RecoveredClaimable | backend/app/workers/evidence.py:324-345 | A recovered extraction can be claimed again exactly once the recovery's own lease has run out |
| EvidenceSafety.RetriedClaimable | backend/app/workers/evidence.py:656-672 | A retry is worked on again iff both its backoff and the lease of the failed claim have run out |
| EvidenceSafety.ClaimExcludes | backend/app/infrastructure/database/repositories/evidence_work.py:238-280 | A claimed reference can be recovered by others from the end of its lease and not before |
| EvidenceSafety.LeaseHolds | backend/app/infrastructure/database/repositories/evidence_work.py:238-336 | Over any run, while the lease lasts the reference is neither handed out nor recovered and its row stays, until its holder acts |
| EvidenceSafety.WorkersFollowTable | backend/app/workers/evidence.py:294-345 | Every state change is a declared transition; extracting and uploading references are never expired, uploaded ones never made retryable |
| EvidenceSafety.RetriesBounded | backend/app/workers/evidence.py:627-690 | Handled failures retry a reference fewer than max_attempts times over any run |
| EvidenceRecovery.FaultFreeWorkerSettles | backend/app/workers/evidence.py:353-493 | From every reachable state a fault-free schedule, with any configured lease, dead-letters a reference whose request is missing or refused, and otherwise finalizes it if the session takes the link row and leaves it uploading if not |
| EvidenceRecovery.FinalizedExactly | backend/app/workers/evidence.py:499-566 | A reference can be finalized iff the session takes the link row and the builder accepts its request with an intact checkpoint, its own once it has one |
| EvidenceRecovery.UnlinkableForever | backend/app/infrastructure/database/repositories/evidence_work.py:409-418 | Where the session rejects the link row, an accepted uploading reference stays uploading in every run |
| EvidenceRecovery.RejectedLinkStrands | backend/app/infrastructure/database/repositories/evidence_work.py:409-418 | Any request that is extracted and accepted gets there |
| EvidenceWorkers.EvidenceStore.Take | backend/app/infrastructure/database/client.py:85-115 | The store is what its history of steps makes of the empty one |
| EvidenceWorkers.EvidenceStore.Others | backend/app/workers/base.py:34-49 | Other workers leave a worker's snapshots, phases and count alone |
| EvidenceWorkers.Session.LockStale | backend/app/infrastructure/database/repositories/evidence_work.py:300-336 | Returns the reference, re-claimed in memory, iff the row is still stale; the row itself waits for the flush |
| EvidenceWorkers.Session.PersistTransition | backend/app/infrastructure/database/repositories/evidence_work.py:342-374 | The guarded whole-metadata write, behind what is flushed ahead of it |
| EvidenceWorkers.Session.SaveFinalized | backend/app/infrastructure/database/repositories/evidence_work.py:378-420 | Transition, package and link together; false on a lost claim, raising if the session rejects the link row or the package key is taken |
| EvidenceWorkers.EvidenceWorker.MarkTerminal | backend/app/workers/evidence.py:692-724 | Dead-letters an owned extracting or uploading row; of a locked row the flush does it and the guard reports a loss |
| EvidenceWorkers.EvidenceWorker.MarkRetryable | backend/app/workers/evidence.py:627-690 | Retry within the budget, dead letter beyond it, nothing on a lost claim |
| EvidenceWorkers.EvidenceWorker.FinalizePackage | backend/app/workers/evidence.py:499-566 | Files the built package if the session takes its link row and raises if not, dead-letters on the builder's refusal, writes nothing on a lost claim |
| EvidenceWorkers.EvidenceWorker.FinalizeFromCheckpoint | backend/app/workers/evidence.py:568-611 | Only the builder's verdict, the link row and the package key decide; the other branches are dead |
| EvidenceWorkers.EvidenceWorker.FailHead | backend/app/workers/evidence.py:617-625 | One failure transaction is one protocol step; committed, the worker holds the reference no more |
| EvidenceWorkers.EvidenceWorker.UploadHead | backend/app/workers/evidence.py:451-489 | The checkpoint transaction: kept with the recovery record, or lost and given up |
| EvidenceWorkers.EvidenceWorker.FinalizeHead | backend/app/workers/evidence.py:491-493 | The finalize transaction: committed, the reference is concluded or lost, unless the session rejects its link row |
| EvidenceWorkers.EvidenceWorker.Enqueue | backend/app/workers/evidence.py:214-226 | Every pending reference looked at is queued unless the batch is full |
| EvidenceWorkers.EvidenceWorker.ExpireOld | backend/app/workers/evidence.py:228-246 | Expires requested and queued references past the cutoff only, and all of them unless the batch is full |
| EvidenceWorkers.EvidenceWorker.Promote | backend/app/workers/evidence.py:262-268 | Promotes the retries due at the cycle's clock, all of them unless the batch is full |
| EvidenceWorkers.EvidenceWorker.ClaimQueued | backend/app/workers/evidence.py:270-279 | Every claimable reference looked at is claimed unless the batch is full |
| EvidenceWorkers.EvidenceWorker.RecoverStale | backend/app/workers/evidence.py:294-345 | One recovery transaction is one protocol step, what the flush writes included, its answer is what the cycle counts, and once committed the row is stale no more unless the session rejects its link row |
| EvidenceWorkers.EvidenceWorker.RecoverAll | backend/app/workers/evidence.py:248-260 | Lists every stale claim unless the batch is full, and recovers each one that still is one when its turn comes |
| EvidenceWorkers.EvidenceWorker.ProcessClaimed | backend/app/workers/evidence.py:353-493 | What is durable for each outcome: dead-lettered for a missing request, an unresolved, vanished or corrupt source; due after the backoff within the budget for the others and a failed integrity gate; checkpointed, then filed, refused or left uploading for an intact artifact; done with the reference unless the session rejects its link row |
| EvidenceWorkers.EvidenceWorker.Select | backend/app/infrastructure/database/repositories/evidence_work.py:426-442 | Distinct rows satisfying the predicate, all of them unless the batch is full |
| EvidenceWorkers.EvidenceWorker.RunOnce | backend/app/workers/evidence.py:209-288 | A cycle carries out its phases in order, does right by every stale claim and claimed reference it gets to, returns exactly the number of references it handled and keeps nothing in hand |
| JsonText.PrintUnique | backend/app/application/services/idempotency.py:109-123 | A printed value determines the value, whatever text follows it |
| CanonicalPayload.NormalizeNormal | backend/app/application/services/idempotency.py:88-106 | Normalizing yields a JSON tree with unique string keys |
| CanonicalPayload.NormalFixed | backend/app/application/services/idempotency.py:88-106 | Normalizing such a tree changes nothing |
| CanonicalPayload.NormalizeIdempotent | backend/app/application/services/idempotency.py:88-106 | Normalizing twice is normalizing once |
| CanonicalPayload.SortedUnique | backend/app/application/services/idempotency.py:109-123 | A set of members has one sorted listing |
| CanonicalPayload.LessLexicographic | backend/app/application/services/idempotency.py:109-123 | Keys are sorted lexicographically by code point |
| CanonicalPayload.CanonicalTextInjective | backend/app/application/services/idempotency.py:109-123 | Equal canonical texts iff the normalized trees are equal up to key order |
| CanonicalPayload.JsonTreesByText | backend/app/application/services/idempotency.py:109-123 | On JSON trees with string keys, equal texts iff equal trees up to key order |
| PayloadEquality.SameTextIffSamePayload | backend/app/application/services/idempotency.py:88-123 | Two payloads have the same text iff they are the same content: models as they dump, tuples as lists, datetimes and UUIDs as strings, dicts by the last value under each rendered key |
| CanonicalPayload.DistinctPayloadsSameText | backend/app/application/services/idempotency.py:88-123 | Families of distinct payloads outside JSON trees that share a text: key and its string form, colliding keys, tuple and list, UUID and string |
| Idempotency.StepKeepsInv | backend/app/application/services/idempotency.py:150-289 | Every step of every concurrent request keeps the invariant of the unit |
| Idempotency.RunKeepsInv | backend/app/application/services/idempotency.py:150-289 | So does every run |
| Idempotency.AtMostOnceOneResult | backend/app/application/services/idempotency.py:150-289 | The handler is committed at most once and every caller not refused gets its result |
| Idempotency.ReplayIffSameRequest | backend/app/application/services/idempotency.py:150-289 | A later caller is replayed iff its payload is the same content as the executor's, models included, and its venue is the same, else refused |
| Idempotency.NoHandlerAfterRecord | backend/app/application/services/idempotency.py:150-289 | Once a record is committed no handler runs and the next look answers |
| Idempotency.TwoRoundsSuffice | backend/app/application/services/idempotency.py:150-289 | The loop reads the record at most twice, and finds it the second time |
| Idempotency.RollbackLeavesNothing | backend/app/infrastructure/database/repositories/idempotency.py:64-104 | A claim that rolls back leaves the unit as if never claimed |
| Idempotency.Database.Others | backend/app/application/services/idempotency.py:150-289 | Other requests cannot disturb a request's own progress, nor change a committed record |
| Idempotency.Database.WaitForKey | database/migrations/versions/016_outbox_retry_idempotency.py:276-283 | The unique key makes an insert wait until the holder of the key has ended |
| Idempotency.Database.Execute | backend/app/application/services/idempotency.py:150-289 | The loop ends with an answer judged from the committed record, or with the handler run and the claim completed |
| Segments.ProperlyIntersectIffCross | contracts/geometry/models.py:294-318 | True iff the segments are not parallel and share a point strictly inside both |
| Segments.EarlyExitsRedundant | contracts/geometry/models.py:304-318 | The four collinear early exits never change the answer |
| Segments.IntersectSymmetric | contracts/geometry/models.py:304-318 | Swapping the segments or reversing either one keeps the answer |
| Polygons.Area | contracts/geometry/models.py:249-263 | The loop computes half the absolute shoelace sum |
| Polygons.ShoelaceJoin | contracts/geometry/models.py:249-263 | The sum along joined paths is the sum of the sums |
| Polygons.AreaInvariant | contracts/geometry/models.py:249-263 | On a closed ring translation keeps the signed sum and reversal negates it |
| Polygons.AreaAnyStart | contracts/geometry/models.py:249-263 | The signed sum does not depend on the starting vertex |
| Polygons.AreaCutAlongChord | contracts/geometry/models.py:249-263 | The signed sum is additive when a ring is cut along any chord |
| Polygons.AreaByTriangles | contracts/geometry/models.py:249-263 | The signed sum of a ring is the sum of the cross products of a fan of triangles |
| Polygons.RectangleSum | contracts/geometry/models.py:249-263 | A rectangle's signed sum is twice its width times its height |
| SelfIntersection.IsSelfIntersecting | contracts/geometry/models.py:271-291 | The double loop returns true iff two non-adjacent edges properly cross |
| SelfIntersection.VerdictInvariant | contracts/geometry/models.py:271-291 | On a closed ring reversal and restart keep the verdict |
| Canonicalization.RoundNearest | contracts/geometry/models.py:212-235 | Rounding lands on the grid within half a step and fixes grid values |
| Canonicalization.TiesToEven | contracts/geometry/models.py:212-235 | Of two equally near grid steps the even one is taken |
| Canonicalization.DocumentedPrecision | contracts/geometry/models.py:212-235 | Six decimals in image space and three in venue space, every point kept, a ring extended by its first point at most |
| Canonicalization.CanonicalizeIdempotent | contracts/geometry/models.py:212-235 | Canonicalizing a canonical geometry changes nothing |
| Canonicalization.RingExactlyClosed | contracts/geometry/models.py:212-235 | A canonical ring ends where it starts iff its two input ends round to the same grid point or lie farther apart than the tolerance; always in venue space |
| Canonicalization.ImageRingLeftOpen | contracts/geometry/models.py:212-235 | An image-space ring left open by one grid step |
| Canonicalization.VenuePolygonsInvariant | contracts/geometry/models.py:212-291 | Area and verdict of every canonical venue polygon survive restart and reversal |
| FramePipeline.StepKeepsInv | backend/app/intelligence/pipeline.py:82-162 | Every turn of producer, consumer and coordinator keeps the flow and waiting invariants |
| FramePipeline.FramesConserved | backend/app/intelligence/sources/queue.py:137-182 | Accepted = delivered + queued + dropped; source and queue drop counts agree; delivery is in production order, gapless under BLOCK |
| FramePipeline.PutExactly | backend/app/intelligence/sources/queue.py:137-162 | A frame is dropped, the oldest, iff a put meets an open DROP_OLDEST queue holding maxsize frames; a producer waits iff it meets such a BLOCK queue; with room everything is kept |
| FramePipeline.GetExactly | backend/app/intelligence/sources/queue.py:168-182 | get answers the oldest frame, the end iff empty and closed, and waits iff empty and open |
| FramePipeline.PeakObserved | backend/app/intelligence/sources/queue.py:137-162 | The observed maximum is the high-water mark of the run |
| FramePipeline.FailuresExactly | backend/app/intelligence/pipeline.py:129-162 | A task has failed iff its side raised, all but a QueueClosedError on a closed queue; a packet without data is such a failure |
| FramePipeline.CleanRunDeliversAll | backend/app/intelligence/pipeline.py:129-162 | A clean run to end of stream delivers everything produced iff nothing was dropped, always under BLOCK |
| FramePipeline.RaisesFirstRealFailure | backend/app/intelligence/pipeline.py:164-185 | Which failure run raises: the producer's unless it is a QueueClosedError, else the consumer's unless it is one, else none |
| FramePipeline.ConsumerErrorLost | backend/app/intelligence/pipeline.py:153-185 | A consumer's QueueClosedError on an open queue is lost |
| FramePipeline.NoDeadlock | backend/app/intelligence/sources/queue.py:137-182 | No wakeup is lost: until run returns some task can move or an outside answer is awaited |
| FramePipeline.ProducerDoneRunEnds | backend/app/intelligence/pipeline.py:104-122 | Once the producer is done the remaining steps are bounded by a decreasing measure |
| FramePipeline.StalledSourceHoldsRun | backend/app/intelligence/pipeline.py:109-114 | After the first task has ended the run ends by itself iff the producer is not waiting for the source |
| FramePipeline.ConsumerFailureHangs | backend/app/intelligence/pipeline.py:92-114 | A reachable run in which a consumer failure does not end the run |
| FrameTasks.BoundedFrameQueue.Create | backend/app/intelligence/sources/queue.py:94-115 | Fails iff maxsize is below 1 |
| FrameTasks.BoundedFrameQueue.Put | backend/app/intelligence/sources/queue.py:137-162 | One turn of put: refused if closed, waiting iff full under BLOCK, else admitted, evicting the oldest iff full |
| FrameTasks.BoundedFrameQueue.Get | backend/app/intelligence/sources/queue.py:168-182 | One turn of get: the oldest frame if any, even after shutdown |
| FrameTasks.BoundedFrameQueue.Shutdown | backend/app/intelligence/sources/queue.py:188-196 | Closes and wakes every waiter |
| FrameTasks.FramePipelineRun.ProducerTurn | backend/app/intelligence/pipeline.py:129-151 | Put and drop accounting are one turn of the model |
| FrameTasks.FramePipelineRun.ConsumerTurn | backend/app/intelligence/pipeline.py:153-162 | Get and the call of consume are one turn of the model |
| FrameTasks.FramePipelineRun.CoordinatorTurn | backend/app/intelligence/pipeline.py:104-127 | Shutdown, result and cancellation of run |
| FrameTasks.FramePipelineRun.RunSchedule | backend/app/intelligence/pipeline.py:82-127 | Any interleaving conserves frames and, clean under BLOCK, delivers exactly what was produced |
| MediaCleanup.StepKeepsInv | backend/app/workers/media_cleanup.py:109-342 | Every step of sweeps, users and uploads, late ones included, keeps records, objects, deletions and snapshots consistent |
| MediaCleanup.RunKeepsInv | backend/app/workers/media_cleanup.py:90-103 | So does every run |
| MediaSafety.ExpiryRemovesOnlyPending | backend/app/workers/media_cleanup.py:134-176 | The expiry path removes an object only while its record is durably deletion_pending, or deleted with a late upload since, and no other object |
| MediaSafety.AvailableLosesObject | backend/app/workers/media_cleanup.py:226-247 | Exactly a user deletion rolled back after its storage call and the removal of a stale-upload sweep leave an available record without its object |
| MediaSafety.DeletedOnceAndGone | backend/app/workers/media_cleanup.py:178-202 | A record has one deleted transition if it is deleted and none otherwise; the object of a deleted record is there iff a late upload has put it there since |
| MediaSafety.LateUploadRevives | backend/app/workers/media_cleanup.py:178-202 | A presigned upload after the deletion brings the object back |
| MediaSafety.DeletionNeverReverts | backend/app/infrastructure/database/repositories/media.py:241-272 | A started deletion can only be completed and a deleted record stays deleted; an absent object comes back iff a late upload puts it there |
| MediaSafety.SweepsFinishAll | backend/app/workers/media_cleanup.py:109-202 | Repeated fault-free sweeps finish every started deletion that is not held back, one fewer each time, and nothing else |
| MediaSafety.ListedDue | backend/app/infrastructure/database/repositories/media.py:164-187 | An expiry sweep lists a record only once its clock has reached the expiry date |
| MediaSafety.NothingExpiresEarly | backend/app/workers/media_cleanup.py:109-202 | From a quiet moment an available record and its object outlast everything but a user deletion while sweeps read clocks before its expiry |
| MediaSafety.HoldProtects | backend/app/domain/media/retention.py:112-132 | From a quiet moment a held available record and its object outlast everything until the hold is lifted |
| MediaSafety.CompletionDates | backend/app/application/services/media_lifecycle.py:298-319 | The expiry date set at completion is the one the record has when it becomes available |
| MediaSafety.SweepsDeleteExactly | backend/app/workers/media_cleanup.py:109-342 | With no sweep in progress, sweeps reading clocks up to T can delete a record iff it is pending and without object or due by T and not held, expired without object, or available, due by T and not held |
| MediaSafety.SweepsFinishExactly | backend/app/workers/media_cleanup.py:125-131 | Sweeps reading clocks up to T can finish a started deletion iff its object is gone or it is due by T and not held |
| MediaSafety.HoldStrandsDeletion | backend/app/domain/media/retention.py:112-132 | A hold set after a crashed deletion strands it |
| MediaSafety.FailedUserDeletion | backend/app/application/services/media_lifecycle.py:773-863 | A failed user deletion leaves the record pending iff it was; what the sweeps can then make of the record, exactly |
| MediaSafety.FailedDeletionLosesObject | backend/app/application/services/media_lifecycle.py:773-863 | An available record loses its object to one failed request, and the workers delete it from its expiry date on, never without one |
| MediaWorkers.MediaStore.Take | backend/app/infrastructure/database/client.py:85-115 | The store is what its history of steps makes of the empty one |
| MediaWorkers.MediaStore.Others | backend/app/workers/base.py:34-49 | Everybody else leaves a worker's batch and count alone |
| MediaWorkers.MediaCleanupWorker.EnsurePending | backend/app/workers/media_cleanup.py:127-156 | Phase 1 goes on exactly for records not held that are pending or made pending durably |
| MediaWorkers.MediaCleanupWorker.RemoveObject | backend/app/workers/media_cleanup.py:158-176 | Phase 2: success means the object is gone |
| MediaWorkers.MediaCleanupWorker.DeleteExpired | backend/app/workers/media_cleanup.py:125-202 | The three phases; true iff this call made the deleted transition; without faults a record not held ends deleted, its object gone unless a late upload put one there |
| MediaWorkers.MediaCleanupWorker.CheckObjectPresence | backend/app/workers/media_cleanup.py:284-342 | Completes a deletion or fails a record whose object is missing; true iff it made the transition; without faults the record leaves its listed state |
| MediaWorkers.MediaCleanupWorker.FailStaleUpload | backend/app/workers/media_cleanup.py:226-258 | Object first, guarded transition second; once committed the record is not uploading |
| MediaWorkers.MediaCleanupWorker.Select | backend/app/infrastructure/database/repositories/media.py:164-228 | Listed records only, for expiry those whose date the clock has reached, all of them unless the batch is full |
| MediaWorkers.MediaCleanupWorker.SweepBatch | backend/app/workers/media_cleanup.py:109-124 | A sweep lists what the query returns and does right by every record it gets to: the phases carried out as storage and transactions allow |
| MediaWorkers.MediaCleanupWorker.RunOnce | backend/app/workers/media_cleanup.py:90-103 | A cycle of the three sweeps in order returns exactly the number of records it handled, and every listed record it gets to is done right by |
| WebSocket.StepKeepsInv | desktop/src/realtime/WebSocketManager.ts:112-443 | Every call and event keeps subscriptions, connection and sequence tracking consistent |
| WebSocket.RunKeepsInv | desktop/src/realtime/WebSocketManager.ts:112-443 | So does every run |
| WebSocket.SubscriptionsAgree | desktop/src/realtime/WebSocketManager.ts:369-392 | The count of a channel is its live handles, and while the socket is open the server knows exactly the channels with one |
| WebSocket.NoSilentGap | desktop/src/realtime/WebSocketManager.ts:206-218 | An id passed over on the way from the first received to any later one was jumped over by a step that invalidated all caches |
| WebSocket.ReconnectBudget | desktop/src/realtime/WebSocketManager.ts:316-341 | A run schedules at most max reconnects iff what the counter shows plus what resets forgot leaves room; always without an open or a disconnect |
| WebSocket.ReconnectAccount | desktop/src/realtime/WebSocketManager.ts:316-341 | Over any run, scheduled reconnects are those counted plus those opens and disconnects forgot, each reset at most max |
| WebSocket.SchedulesExactly | desktop/src/realtime/WebSocketManager.ts:294-341 | A reconnect is scheduled iff the budget allows and a connection is lost other than by an authentication failure, or a socket could not be created |
| WebSocket.ConnectsExactly | desktop/src/realtime/WebSocketManager.ts:112-152 | connect leaves a live, coming or scheduled connection alone; otherwise, and when the timer fires, one socket is created |
| WebSocket.LatestRequest | desktop/src/realtime/WebSocketManager.ts:369-378 | What is announced for a channel is its latest subscription request |
| WebSocket.LogoutResetsBudget | desktop/src/realtime/WebSocketManager.ts:429-443 | With disconnect calls any number of reconnects is scheduled between two opens |
| WebSocket.LogoutIsFinal | desktop/src/realtime/WebSocketManager.ts:429-443 | After disconnect there is no socket and no timer until connect, whatever late events arrive |
| WebSocket.AuthFailureIsFinal | desktop/src/realtime/WebSocketManager.ts:294-311 | After a close for an authentication failure there is no socket and no timer until connect |
| WebSocketClient.WebSocketManager.Send | desktop/src/realtime/WebSocketManager.ts:419-423 | Messages reach the server only over an open socket |
| WebSocketClient.WebSocketManager.ConnectTo | desktop/src/realtime/WebSocketManager.ts:112-152 | connect keeps a live or scheduled connection and otherwise creates one socket |
| WebSocketClient.WebSocketManager.OnOpen | desktop/src/realtime/WebSocketManager.ts:154-167 | Opening resets the budget and announces every active channel |
| WebSocketClient.WebSocketManager.OnClose | desktop/src/realtime/WebSocketManager.ts:294-311 | Closing halts on logout or authentication failure and otherwise schedules a reconnect |
| WebSocketClient.WebSocketManager.ScheduleReconnectTimer | desktop/src/realtime/WebSocketManager.ts:316-341 | The branches of scheduling |
| WebSocketClient.WebSocketManager.ProcessEventEnvelope | desktop/src/realtime/WebSocketManager.ts:206-218 | Tracking of one envelope, and whether it invalidated all caches |
| WebSocketClient.WebSocketManager.SubscribeChannel | desktop/src/realtime/WebSocketManager.ts:369-378 | One more holder, announced when it is the first over an open socket |
| WebSocketClient.WebSocketManager.ReleaseHandle | desktop/src/realtime/WebSocketManager.ts:380-392 | One holder less, withdrawn with the last |
| WebSocketClient.WebSocketManager.DisconnectNow | desktop/src/realtime/WebSocketManager.ts:429-443 | Logout clears token, attempts and timers and closes the socket |
| WebSocketClient.WebSocketManager.Turn | desktop/src/realtime/WebSocketManager.ts:112-443 | Every call or event leads from a reachable state of the model to the next |
| WebSocketClient.WebSocketManager.RunSchedule | desktop/src/realtime/WebSocketManager.ts:112-443 | After any calls and events the object's counts and announced channels agree with the live handles, no gap is silent and reconnects are accounted for |

## Left out

- SQL text, SQLAlchemy sessions beyond the flush noted above, Redis, S3, FastAPI routes, tracing, metrics, logging and audit payloads: not part of this model.
- Order of rows within a claimed batch, CHECK constraints on lease timestamps, and inbox sources other than the outbox.
- EvidenceWorkers.EvidenceWorker.RunOnce: a cycle cut short by a database error in one of its listing or claiming transactions is not modelled, because it then takes no further step; the same holds for MediaWorkers and for the claims of PipelineWorkers.
- PipelineRecovery.SettleEvent: the schedule is crash-free and lets backoffs and leases run out; fairness of real schedulers is not modelled.
- PipelineSafety.RetriesBoundedInPipeline: crashes and lost claims are not counted, because reclaiming an expired lease consults no budget; the same holds for evidence recoveries.
- Idempotency.Database.Execute: the reclaim-after-lease branch and the wait on a record in progress are left out, because a caller whose claim, handler and completion share one transaction never shows such a record to others.
- Idempotency key validation and the venue access check; SHA-256, and UUID5 for package identities, are replaced by the text they are applied to.
- JsonText.PrintUnique: numbers are carried as their printed tokens, and lone surrogates are excluded by the character type; float formatting is not modelled.
- Validators of the geometry models, and floating-point rounding: coordinates are exact reals.
- Polygons.AreaInvariant: stated for exactly closed rings, which image-space canonicalization does not always produce.
- Evidence source resolution, extraction and the builder's provenance checks are parameters; only their outcomes matter to the protocol. Error texts and telemetry in the metadata are not modelled.
- FramePipeline.CleanRunDeliversAll: the queue is fresh when the run starts, and a cancelled run is modelled as both tasks stopping where they are.
- Decode errors and the lifecycle states of frame sources.
- Media upload and verification beyond the states they leave; the orphan scan is one step that removes objects of failed or deleted records.
- MediaSafety.SweepsFinishExactly: stated for moments with no sweep in progress, because a worker already past the hold check finishes its deletion.
- WebSocketClient.WebSocketManager.OnClose: overlapping sockets are excluded; request contents, event handlers, per-domain invalidation, heartbeat messages and the delay formula are not modelled.
- Temporal, rule and spatial engines, identity, permissions, log redaction, desktop UI, the other migrations and the gate runner.
