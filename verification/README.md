# NEXUS IT: a verified model of telemetry delivery, remote actions and metric maintenance

The repository holds an agent with a durable local queue, a lossy network, and a server with several
workers. This project models the protocols between them in Dafny and proves what they promise over
whole runs. One module per component; every database transaction is one atomic step, and processes
may stop between any two steps.

| part | modules |
|---|---|
| the agent's durable queue | `QueueTables`, `QueueTransactions`, `QueueEvictions`, `QueueInvariants`, `QueueConservation`, `QueueRuns`, `QueueTraces`, class `LocalQueue` |
| the dispatcher and 413 handling | `DispatchPolicy`, `SplitStorm`, class `Dispatcher.BatchDispatcher` |
| the server's batch ledger | `BatchLedger`, class `MetricRepository` |
| end to end: agents, network, server | `Delivery`, `DeliveryRuns` |
| remote actions | `SigningPayload`, `ActionStore`, `ActionRuns`, `ActionPoller`, `RemoteActions` |
| rollups and retention | `Rollups`, `RollupRuns`, `MetricMaintenance` |
| alerts | `AlertRules`, `AlertLifecycle` |
| attachment deletion outbox | `AttachmentOutbox`, `AttachmentRuns` |
| smaller pieces | `CanonicalDecimal`, `ClientBuffer`, `RateLimit`; shared: `Telemetry`, `Numerals`, `Wrappers` |

The pattern is the same throughout. Each transaction is a function on the tables. A class whose
methods update the tables step by step, with the loops the code has, is proved equal to that
function. Lemmas then say what each function means, without the function: which answer is given exactly when,
what a step writes, and what moves a row from one status to another. Others prove what the code
promises about all runs.

## Results that are not what one might expect

- A deleted attachment file can still have a row: when `create_attachment` commits but its caller
  sees an exception, the clean-up deletes the file. `AttachmentRuns.FilesOfRowsStay` says that this is
  the only way, `AttachmentRuns.UnsureInsertLosesFile` is the run.
- A rollup can disagree with the history. `RollupRuns.RollupIsExact` says when, bucket by bucket and over
  every run: exactly when retention purged a row of the bucket that the latest rollup had not seen
  (partitions are dropped for inactive organizations too), or a row arrived after others of its bucket
  were purged. Nothing that happens later makes it good: `RollupRuns.ShortForLife`; the two runs are
  `RollupRuns.UnrolledRowIsLost` and `RollupRuns.LateRowIsLost`. An organization that is active in every
  cycle and sends nothing for a purged day is safe, whatever others do: `RollupRuns.ActiveOrganizationsAgree`.
- The `metric_samples` key has no device, so a PROCESSED batch can lack samples. Over every run all PROCESSED
  batches are stored in full if and only if no two of them share an id, an index and the `recordedAt` at
  that index: `BatchLedger.LossIsCollision`, and `BatchLedger.SharedIdLosesSamples` for a run.
- A window of alert samples can miss a condition that has held for long, exactly when it has no
  sample at or before the start of the duration: `AlertRules.WindowIsEnough`, `AlertRules.SparseSamplesAreMissed`.
- Beyond 28 significant digits different values render alike: `CanonicalDecimal.RoundTrip`, `CanonicalDecimal.LongValuesCollide`.
- TIMED_OUT on the server does not mean that nothing ran (`RemoteActions.TimedOutMayHaveRun`), and the server
  will never know: `RemoteActions.TimedOutIsBlind`. It does mean that nothing will run if the agent has
  not taken up the order and is not handed it within a minute of its expiry: `RemoteActions.TimedOutNeverRuns`.
- The server never learns that an action was interrupted; its statuses EXECUTING, INTERRUPTED and
  UNKNOWN are unreachable with this agent: `RemoteActions.ServerTellsTheTruth`.
- The ingest endpoint answers 202 whenever it succeeds, so the agent's acknowledgement on 200 never
  happens (`DeliveryRuns.IngestAnswered`); batches leave the queue through status reports. Nothing in
  the repository but its tests calls `reconcile_statuses`; the model covers whoever does.

## What is assumed

- Transactions are serializable steps. Clock readings, file sizes and fresh identifiers are inputs of a call.
- Fresh UUIDs never repeat. Batch ids are unique across the devices of an organization, except where a
  result of `BatchLedger` says otherwise.
- "Stored" means ever stored: the ledger and delivery results leave out the retention that deletes
  `metric_samples` after fourteen days, which `RollupRuns` and `MetricMaintenance` cover.
- The clock does not go back from one rollup of an organization to the next, where a result asks for `Clockwise`.
- SHA-256 and `uuid5` are injective and Ed25519 is ideal: a signature verifies exactly when the server signed the payload.
- Encoding and decoding of payloads are inverse; payload sizes come from an arbitrary function, so two
  halves may together be larger than their whole.
- Whether the server answers 413 is a function of the batch's samples alone.
- The database session is in UTC, and `strftime` and `strptime` are inverse on the instants used; what `strptime` accepts has no newline.
- Foreign keys hold: samples and aggregates belong to known organizations.

## Model

| member | source | states |
|---|---|---|
| QueueTables.OldestIsFirst | agent/nexus_agent/storage.py:287-305 | the row selected is the first in `created_at, rowid` order among those that match, and none is selected only if none matches |
| QueueTables.OlderIsOrder | agent/nexus_agent/storage.py:287-305 | that order is by creation and then by rowid, and strict |
| QueueTables.RowidsGrow | agent/nexus_agent/storage.py:198-235 | a new row gets one more than the largest rowid |
| QueueTables.EvictionOrderIsSorted | agent/nexus_agent/storage.py:241-251 | the eviction order lists exactly the unprotected rows, oldest first |
| QueueTables.SurvivorsRows | agent/nexus_agent/storage.py:241-251 | eviction removes the listed prefix and no other row |
| QueueTables.EvictionsAreShortest | agent/nexus_agent/storage.py:241-251 | `_make_room` evicts enough, and no shorter prefix of the order would have been enough |
| QueueTables.EvictionsGiveUp | agent/nexus_agent/storage.py:241-251 | it raises exactly when evicting every unprotected row would not be enough |
| QueueTables.EvictionsFit | agent/nexus_agent/storage.py:241-251 | after the evictions the payload fits the queue quota, quarantine counted in |
| QueueTransactions.DiskEvictionsStop | agent/nexus_agent/storage.py:260-285 | physical-quota eviction goes on exactly while the files are too large and an unprotected row is left |
| QueueTransactions.RoomIsLeast | agent/nexus_agent/storage.py:241-251 | room is made by the shortest prefix of the eviction order that is enough by the bytes actually queued and sealed, and none exactly if there is no such prefix |
| QueueTransactions.WhatFitsEvictsNothing | agent/nexus_agent/storage.py:244 | what fits already costs no row |
| QueueEvictions.EnqueueEvictsLeast | agent/nexus_agent/storage.py:198-235 | an enqueue raises exactly for bad input, for lack of room or for a key in use; otherwise it evicts no more than it must, nothing if it fits, and its row comes last, new and with its packed size |
| QueueEvictions.EnqueueEnds | agent/nexus_agent/storage.py:225-235 | the whole call succeeds exactly if the disk check after the commit does not raise and the row has survived it |
| QueueEvictions.DiskEvictsLeast | agent/nexus_agent/storage.py:260-285 | one row goes for each look at files that are too large, oldest first, and it raises exactly when they still are and no unprotected row is left |
| QueueEvictions.SplitEvictsLeast | agent/nexus_agent/storage.py:350-375 | each half is inserted with as few evictions as possible, one level deeper, the parent named and the protection inherited |
| QueueEvictions.VacateEvictsLeast | agent/nexus_agent/storage.py:389-440 | a quarantine evicts no more than it must after the purge and the removal of the row, and raises exactly for a missing row or for lack of room under either quota |
| QueueEvictions.SealingBatch | agent/nexus_agent/storage.py:389-413 | when a batch can be sealed, and the row and audit row that make it so |
| QueueEvictions.SealingSample | agent/nexus_agent/storage.py:415-440 | the same for a single sample |
| QueueInvariants.EnqueueSound | agent/nexus_agent/storage.py:198-235 | enqueueing keeps keys and both quotas, whatever the disk check says |
| QueueInvariants.SplitSound | agent/nexus_agent/storage.py:350-375 | splitting keeps keys and both quotas although the halves may be larger than the whole |
| QueueInvariants.QuarantineBatchSound | agent/nexus_agent/storage.py:389-413 | sealing a batch keeps both quotas |
| QueueInvariants.QuarantineSampleSound | agent/nexus_agent/storage.py:415-440 | sealing a sample keeps both quotas |
| QueueConservation.EnqueueAccounted | agent/nexus_agent/storage.py:198-235 | an enqueue brings in its samples once if its INSERT committed and nothing otherwise, evictions being logged |
| QueueConservation.SplitAccounted | agent/nexus_agent/storage.py:350-375 | splitting moves no sample in or out, protected ones included |
| QueueConservation.QuarantineBatchAccounted | agent/nexus_agent/storage.py:389-413 | sealing moves a batch's samples from the queue to quarantine; purging and eviction are logged |
| QueueConservation.QuarantineSampleAccounted | agent/nexus_agent/storage.py:415-440 | the same for a single sample |
| QueueRuns.Conservation | agent/nexus_agent/storage.py:198-470 | over every run, enqueued = queued + sealed + acknowledged + evicted + expired as multisets, and the audit log names every eviction and expiry in order |
| QueueRuns.QuotasHold | agent/nexus_agent/storage.py:241-251 | over every run, queue plus quarantine bytes stay within the queue quota and quarantine bytes within theirs |
| QueueRuns.ProtectedNeverEvicted | agent/nexus_agent/storage.py:241-285 | over every run no critical row is evicted, and critical samples stay in critical rows through splits until acknowledged or sealed |
| QueueRuns.RaisingChangesNothing | agent/nexus_agent/storage.py:86-96 | a raising call leaves the tables alone, except an enqueue that fails after its commit |
| QueueRuns.SizesAreTrue | agent/nexus_agent/storage.py:198-235 | over every run the sizes the quotas are held against are those of the payloads and ciphertexts |
| QueueRuns.SealedStays | agent/nexus_agent/storage.py:451-470 | over every run a sealed payload stays through every call before its purge date |
| QueueRuns.SealedForRetention | agent/nexus_agent/storage.py:389-440 | what a quarantine call seals is there for the whole retention from that call on |
| LocalQueue.LocalQueue.MakeRoom | agent/nexus_agent/storage.py:241-251 | the eviction loop evicts the shortest sufficient prefix with its audit entries, and raises exactly when evicting every unprotected row would not do |
| LocalQueue.LocalQueue.EnforceDiskBound | agent/nexus_agent/storage.py:260-285 | the physical-quota loop commits one eviction at a time and ends where specified |
| LocalQueue.LocalQueue.Enqueue | agent/nexus_agent/storage.py:198-235 | insertion, commit, then the disk check, which may raise after the commit |
| LocalQueue.LocalQueue.Acknowledge | agent/nexus_agent/storage.py:335-338 | deletes the row with the key and says whether there was one |
| LocalQueue.LocalQueue.Defer | agent/nexus_agent/storage.py:340-348 | counts an attempt and moves the retry time |
| LocalQueue.LocalQueue.Split | agent/nexus_agent/storage.py:350-375 | replaces the row by its two halves in one transaction, or changes nothing |
| LocalQueue.LocalQueue.QuarantineBatch | agent/nexus_agent/storage.py:389-413 | purge, delete, make room, seal: all or nothing |
| LocalQueue.LocalQueue.QuarantineSample | agent/nexus_agent/storage.py:415-440 | the same for a single sample |
| LocalQueue.LocalQueue.PurgeExpiredQuarantine | agent/nexus_agent/storage.py:451-470 | the rows kept are exactly those whose retention goes on, each removed row gets an audit row in its turn, the number is returned, the queue is left alone |
| LocalQueue.LocalQueue.PurgeTable | agent/nexus_agent/storage.py:457-468 | the loop over the rows selected writes one audit row for each, in order |
| QueueTransactions.KeptExactly | agent/nexus_agent/storage.py:458-463 | SELECT and DELETE split a quarantine table by date, keeping multiplicities |
| LocalQueue.LocalQueue.NextBatch | agent/nexus_agent/storage.py:287-305 | the first row due, or none |
| DispatchPolicy.BackoffSchedule | agent/nexus_agent/dispatcher.py:192-195 | the delay doubles from 30 seconds and stays at 30 minutes |
| DispatchPolicy.KeptBatchWaits | agent/nexus_agent/dispatcher.py:71-118 | a batch kept after an answer is not handed out again before its delay is over, and meanwhile any other due batch is |
| DispatchPolicy.AnswersThatKeep | agent/nexus_agent/dispatcher.py:71-118 | which answers remove, split or seal a batch, and that after any other the batch stays queued with one attempt more and is not due for a poll interval or half a minute |
| DispatchPolicy.NextDue | agent/nexus_agent/dispatcher.py:71-118 | exactly when a kept batch is due again, answer by answer: one poll interval, two, or the backoff for the attempts made |
| DispatchPolicy.DispatchServesFirst | agent/nexus_agent/dispatcher.py:71-82 | the batch acted on is the first due when asked for; if none is due nothing happens |
| DispatchPolicy.AnswersThatEnd | agent/nexus_agent/dispatcher.py:78-118 | an acknowledgement takes out its row alone, and a final refusal seals the batch whole |
| DispatchPolicy.RefusedBySize | agent/nexus_agent/dispatcher.py:172-190 | a 413 answer seals a single sample, seals a batch at depth three, splits any other, and fails exactly if that call raises |
| Dispatcher.ReconciledDue | agent/nexus_agent/dispatcher.py:120-141 | what each status does to the row: removed, or due again in one, two or four poll intervals; an unknown one changes nothing |
| Dispatcher.ReuploadedDue | agent/nexus_agent/dispatcher.py:150-170 | what each answer to a reupload does to the row |
| Dispatcher.BatchDispatcher.DispatchOnce | agent/nexus_agent/dispatcher.py:71-118 | acts on an answer by the outcome policy, branch by branch |
| Dispatcher.BatchDispatcher.AnswerTooLarge | agent/nexus_agent/dispatcher.py:172-190 | seals a single sample or an exhausted batch, splits any other |
| Dispatcher.BatchDispatcher.ReconcileStatus | agent/nexus_agent/dispatcher.py:120-141 | only PROCESSED and PURGE_LOCAL remove a batch, and it says whether one went |
| Dispatcher.BatchDispatcher.ReuploadBatch | agent/nexus_agent/dispatcher.py:150-170 | a reupload never removes the batch |
| SplitStorm.LeavesConcatenate | agent/nexus_agent/dispatcher.py:172-190 | the pieces of a refused batch, left to right, are the batch |
| SplitStorm.AnswersCountNodes | agent/nexus_agent/dispatcher.py:172-190 | the number of 413 answers is twice the number of pieces less one |
| SplitStorm.AnswersBounded | agent/nexus_agent/dispatcher.py:172-190 | at most `2n - 1` answers for `n` samples, and never more than 15 |
| SplitStorm.AnswerLowersPotential | agent/nexus_agent/dispatcher.py:172-190 | each successful 413 answer lowers the queue's potential by exactly one, by more only when eviction fires |
| SplitStorm.AnswerKeepsPieces | agent/nexus_agent/storage.py:350-440 | no 413 answer makes or loses a piece other than by eviction and expiry |
| SplitStorm.StormEnds | agent/nexus_agent/dispatcher.py:71-190 | any storm of 413 answers is no longer than the potential at its start |
| SplitStorm.StormKeepsPieces | agent/nexus_agent/dispatcher.py:71-190 | an undisturbed storm keeps every piece |
| SplitStorm.OneBatchStorm | agent/nexus_agent/dispatcher.py:172-190 | a batch refused to the end leaves an empty queue and exactly its pieces in quarantine, after at most 15 answers |
| BatchLedger.ClaimsAreCounted | backend/app/metrics/service.py:518-526 | over every run, shared ids included, retry and reprocess counters account exactly for the claims; never more than twelve, exactly twelve when exhausted; the CHECKs hold |
| BatchLedger.GuardsAreRedundant | backend/app/metrics/postgres.py:316-331 | neither the `min` nor the reprocess guard ever decides anything |
| BatchLedger.ExactlyOnceProcessing | backend/app/metrics/postgres.py:731-872 | over every run no sample of a batch is stored before it is PROCESSED, and then all are unless it collides; one holder at a time; payload present exactly in RECEIVED and PROCESSING, and always the one first ingested |
| BatchLedger.LossIsCollision | backend/migrations/versions/20260824_0013_metrics_alerts.py:173-178 | over every run all PROCESSED batches are stored in full iff no two of them share id, index and `recordedAt` at that index |
| BatchLedger.UniqueIdsDoNotCollide | backend/app/metrics/postgres.py:143-179 | while batch ids are unique across devices no two batches collide |
| BatchLedger.Finality | backend/app/metrics/postgres.py:391-426 | PROCESSED and DLQ_EXHAUSTED absorb, digests never change, stored rows and purge decisions stay |
| BatchLedger.OnlyIngestAdds | backend/app/metrics/postgres.py:143-179 | a batch enters only by ingest, with the digest of the samples sent |
| BatchLedger.IngestAnswers | backend/app/metrics/postgres.py:114-204 | an ingest is receipted exactly for a valid request of the caller with the samples recorded, if any are, and only the first writes; each refusal has its own reason |
| BatchLedger.ReuploadAnswers | backend/app/metrics/postgres.py:353-429 | a reupload is receipted exactly for an awaited batch and its first samples |
| BatchLedger.RetryAnswers | backend/app/metrics/postgres.py:284-351 | a retry is authorized exactly for a dead-lettered batch with less than three before, and asking again changes nothing |
| BatchLedger.DecisionIsRecorded | backend/app/metrics/postgres.py:473-534 | a decision is taken exactly for an exhausted batch whose purge is not decided; what is recorded is the action asked for, under that id alone |
| BatchLedger.ProcessingAnswers | backend/app/metrics/postgres.py:791-970 | storing and failing are answered by a receipt exactly for a batch in processing, and by its new status |
| BatchLedger.DecisionsWereAskedFor | backend/app/metrics/postgres.py:473-534 | over every run each recorded decision was asked for by an operator on an exhausted batch of that id |
| BatchLedger.DecisionTakesEffect | backend/app/metrics/postgres.py:473-534 | an admissible decision is recorded at once |
| BatchLedger.WhyBatchesMove | backend/app/metrics/postgres.py:284-970 | in every reachable state a batch takes another status exactly by the claim, storing, failure, retry or reupload that is for it |
| BatchLedger.WhyWorkersHold | backend/app/metrics/postgres.py:731-970 | a worker holds a payload exactly from its claim until it fails, crashes or is told that it has stored it |
| BatchLedger.SharedIdLosesSamples | backend/migrations/versions/20260824_0013_metrics_alerts.py:173-178 | a run in which two devices send different samples of one instant under one batch id, and the second PROCESSED batch's is not stored |
| MetricRepository.MetricRepository.IngestBatch | backend/app/metrics/postgres.py:114-204 | idempotent ingest with the identity and digest checks of the service |
| MetricRepository.MetricRepository.AuthorizeRetry | backend/app/metrics/postgres.py:284-351 | DLQ to AWAITING_REUPLOAD, at most three times |
| MetricRepository.MetricRepository.ReuploadBatch | backend/app/metrics/postgres.py:353-429 | only an awaited batch with the digest first ingested |
| MetricRepository.MetricRepository.DecideExhausted | backend/app/metrics/postgres.py:473-534 | records the action asked for under this id alone, exactly when it may be taken; a purge decision is final |
| MetricRepository.MetricRepository.ClaimNext | backend/app/metrics/postgres.py:731-770 | claims the first RECEIVED row by `received_at, id` that nobody has locked, none only if there is none |
| MetricRepository.EarlierIsOrder | backend/app/metrics/postgres.py:744-747 | the order is by time received and then by id |
| MetricRepository.MetricRepository.ClaimPicked | backend/app/metrics/postgres.py:756-770 | the claim is a compare-and-set from RECEIVED |
| MetricRepository.MetricRepository.StoreSamples | backend/app/metrics/postgres.py:791-872 | the loop inserts the samples, conflicts ignored, and flips the status in the same transaction |
| MetricRepository.MetricRepository.RecordProcessingFailure | backend/app/metrics/postgres.py:874-970 | bounded retry, dead-lettering, exhaustion |
| QueueTraces.TraceEnqueue | agent/nexus_agent/storage.py:198-235 | every queued batch stays or is named in the audit log, and a committed one is queued or named |
| QueueTraces.TraceSplit | agent/nexus_agent/storage.py:350-375 | a split takes out its batch alone and brings in its two halves, even if one evicts the other |
| QueueTraces.TraceQuarantineBatch | agent/nexus_agent/storage.py:389-413 | a sealed batch is named in the audit log |
| Delivery.HalvePartition | agent/nexus_agent/storage.py:350-375 | splitting keeps every enqueued sample in exactly one unsplit batch |
| Delivery.HandoverInvariant | agent/nexus_agent/dispatcher.py:71-190 | an agent step whose removed batches are confirmed, purged or split keeps the delivery invariant |
| Delivery.RespondOutcome | agent/nexus_agent/dispatcher.py:71-118 | only a 200 answer acknowledges and only a 413 answer splits |
| DeliveryRuns.LedgerInvariant | backend/app/metrics/postgres.py:114-204 | a server transaction on an issued batch keeps the delivery invariant, and what messages said stays true |
| DeliveryRuns.IngestAnswered | backend/app/api/metrics.py:430-435 | an ingest is answered 202 or refused; the answer never makes an agent drop or split a batch |
| DeliveryRuns.NextInvariant | agent/nexus_agent/dispatcher.py:71-190 | every step of agents, network and server, in any order, keeps the delivery invariant |
| DeliveryRuns.DeliveryIsSafe | backend/app/metrics/postgres.py:731-872 | under loss, duplication, delay and crashes: each enqueued sample is stored at most once across parents and split children, stored rows are genuine, confirmed batches are stored in full, and no sample is lost without a trace |
| DeliveryRuns.EveryEnqueuedSample | agent/nexus_agent/storage.py:198-235 | from its commit on, every enqueued sample is in a batch that is queued, named in the audit log, stored, or given up by an operator, and what is stored for it is that sample |
| DeliveryRuns.DeliveryHappens | agent/nexus_agent/dispatcher.py:120-141 | the conditions can be met: a legal run on which a sample is stored, confirmed to the agent and out of its queue |
| DeliveryRuns.NothingForgotten | agent/nexus_agent/storage.py:350-375 | no step forgets a batch id or what was enqueued under it |
| DeliveryRuns.PurgedByOperator | backend/app/metrics/postgres.py:473-534 | over every run no agent gives up a batch, and none counts as given up, unless the run holds an operator's decision to purge that id |
| DeliveryRuns.WhyPurged | agent/nexus_agent/dispatcher.py:120-141 | an agent gives a batch up exactly on a report of PURGE_LOCAL for a batch it queues |
| DeliveryRuns.WhyConfirmed | agent/nexus_agent/dispatcher.py:71-141 | it takes one for stored exactly on a report of PROCESSED, or a 200 answer that says so or nothing |
| DeliveryRuns.WhatIsRequested | agent/nexus_agent/dispatcher.py:71-170 | what is sent is the batch due first, or again one still queued, with its samples |
| DeliveryRuns.WhatAgentsDo | agent/nexus_agent/dispatcher.py:71-190 | an agent's store changes by the call of its own step alone |
| DeliveryRuns.EndpointSays | backend/app/api/metrics.py:408-465 | 202 is answered exactly when the batch is recorded with the samples sent, 413 exactly to what is too large, with nothing recorded |
| DeliveryRuns.StatementSays | backend/app/api/metrics.py:470-506 | a status report names the status of the batch, and PURGE_LOCAL is reported exactly when it is decided |
| SigningPayload.BuildersAgree | backend/app/support/service.py:362-377 | agent and server build the same payload for a command, and the agent validates what the server sends exactly for catalogued actions with version 4 ids and canonical parameters |
| SigningPayload.JoinInjective | agent/nexus_agent/actions.py:54-68 | a newline join of fields, all but the last free of newlines, determines the fields |
| SigningPayload.PayloadFrame | agent/nexus_agent/actions.py:54-68 | the payload names its version first and carries the parameters last |
| Numerals.UuidDigits | agent/nexus_agent/actions.py:54-68 | a UUID is written in groups of 8, 4, 4, 4 and 12 hexadecimal digits |
| SigningPayload.PayloadDeterminesOrder | agent/nexus_agent/actions.py:170-206 | two valid orders with parsable timestamps and equal payloads differ in the signature at most |
| Numerals.Version4Means | agent/nexus_agent/actions.py:170-206 | a version 4 UUID is one whose thirteenth digit is 4 and whose seventeenth begins with the bits 10 |
| SigningPayload.Window | agent/nexus_agent/actions.py:71-96 | an expiry is returned only for timestamps that parse |
| ActionStore.SQLiteActionStore.AcceptOrder | agent/nexus_agent/actions.py:223-266 | nonce and action are recorded together or not at all; a known nonce or id is refused |
| ActionStore.SQLiteActionStore.VerifyAndAccept | agent/nexus_agent/actions.py:208-221 | nothing is consumed unless the order is timely, signed with a known key, and valid |
| ActionStore.SQLiteActionStore.ExecuteOnce | agent/nexus_agent/actions.py:332-361 | claim, call, finish; no claim without a handler, no call without a claim |
| ActionStore.SQLiteActionStore.ReconcileAfterRestart | agent/nexus_agent/actions.py:363-383 | EXECUTING becomes UNKNOWN and expired ACCEPTED becomes INTERRUPTED, nothing else changes |
| ActionStore.RestartSettles | agent/nexus_agent/actions.py:363-383 | after a restart no row is EXECUTING, those that were are UNKNOWN, an ACCEPTED one is INTERRUPTED exactly if its nonce's expiry has come, and no other row changes |
| ActionStore.AcceptanceIsExact | agent/nexus_agent/actions.py:223-266 | an order is taken exactly if neither its nonce nor its id was seen, and both are recorded |
| ActionStore.CutIsPrefix | agent/nexus_agent/actions.py:304-330 | the summary kept is the first 2000 characters |
| ActionRuns.NextInvariant | agent/nexus_agent/actions.py:223-361 | every event of concurrent pollers, crashes and restarts keeps the store's invariant |
| ActionRuns.AtMostOnce | agent/nexus_agent/actions.py:332-361 | over every run the handler is called at most once per action id and per nonce |
| ActionRuns.StatusTellsRuns | agent/nexus_agent/actions.py:304-361 | SUCCEEDED is one call that returned 0, FAILED one that did not, ACCEPTED and INTERRUPTED none, with exit code and summary as recorded |
| ActionRuns.StatusesMoveForward | agent/nexus_agent/actions.py:268-278 | statuses move along their graph, terminal rows never change, consumed nonces stay consumed |
| ActionRuns.WhyStatusesMove | agent/nexus_agent/actions.py:363-383 | only a restart interrupts an order, and only an expired one; only a restart makes an execution UNKNOWN; only the poller that called the handler finishes it |
| ActionRuns.WhyRowsMove | agent/nexus_agent/actions.py:268-383 | a row takes another status exactly by the claim, finish or restart that is for it |
| ActionRuns.CallsAreRecorded | agent/nexus_agent/actions.py:332-361 | the handler is called by the poller that claimed the order and by nothing else |
| ActionRuns.WhyPollersWork | agent/nexus_agent/actions.py:332-361 | a poller is at work on an order exactly from its claim until it finishes or crashes |
| ActionRuns.RestartSettlesRows | agent/nexus_agent/actions.py:363-383 | a restart settles every row in this way whatever pollers were doing |
| ActionRuns.OnePollerAtATime | agent/nexus_agent/actions.py:268-278 | one poller at most is between claim and finish |
| ActionPoller.NexusAgent.PollAndExecuteActions | agent/run_agent.py:601-654 | the polling loop, with caught exceptions, does what its turns specify, and returns the number of reports |
| ActionPoller.CycleReportsOnce | agent/run_agent.py:601-654 | a cycle touches no order it knew, and reports each order it executed once and truly |
| ActionPoller.TurnTakes | agent/run_agent.py:606-651 | a turn takes an order exactly if it is timely, signed, valid and new, acknowledges it, and runs and reports it exactly if there is a handler |
| ActionPoller.CycleIsComplete | agent/run_agent.py:600-654 | a cycle acknowledges each order it has taken once, reports each it has executed, and passes over nothing it could take |
| ActionPoller.TurnIsRun | agent/run_agent.py:628-651 | a turn is a run of the poller's events, so it is covered by the results on all runs |
| RemoteActions.RepeatedReport | backend/app/support/postgres.py:927-1034 | a repeated terminal report changes nothing and is told so; any other report on a finished action is refused |
| RemoteActions.RequestIsFiled | backend/app/support/postgres.py:633-681 | a request is filed as asked for with a window of five minutes, and only a reboot waits for approval |
| RemoteActions.OrdersVerifyInTheirWindow | agent/nexus_agent/actions.py:71-103 | over every run the order of any action past its approval, reboots included, verifies exactly from a minute before it was issued to a minute after it expires, five minutes later |
| RemoteActions.WhyServerMoves | backend/app/support/postgres.py:683-1034 | in every reachable state an action takes another status exactly by the approval, poll, acknowledgement or report that is for it |
| RemoteActions.AcknowledgeAnswers | backend/app/support/postgres.py:848-925 | an acknowledgement is fresh, a replay, or refused: exactly when |
| RemoteActions.RecordAnswers | backend/app/support/postgres.py:927-1034 | a report on an accepted action is taken exactly with the token that accepted it, while it is valid, and gives it the status reported |
| RemoteActions.WhatIsSent | agent/run_agent.py:628-651 | the agent sends acknowledgements of orders it has and, of finished ones, what their rows say |
| RemoteActions.VerifiedIsTransmitted | agent/nexus_agent/actions.py:71-103 | whatever order verifies is, up to its signature, the one the server made out |
| RemoteActions.NextInvariant | backend/app/support/postgres.py:683-1034 | every step of the composed protocol keeps its invariant |
| RemoteActions.ServerTellsTheTruth | backend/app/support/postgres.py:927-1034 | COMPLETED implies local SUCCEEDED, one call, exit code 0; FAILED implies one call; other agent statuses never arrive |
| RemoteActions.OnlyRequestedActionsRun | backend/app/support/service.py:671-710 | a handler runs once at most, for an action as requested, and a reboot only once approved |
| RemoteActions.ServerMovesForward | backend/app/support/postgres.py:777-925 | server statuses move along their graph and terminal rows never change |
| RemoteActions.TimedOutIsBlind | backend/app/support/postgres.py:777-925 | over every run a TIMED_OUT action was never acknowledged, refuses every acknowledgement and report, and its handler was not called if the agent has no row for it or has it ACCEPTED or INTERRUPTED, and was once if the row is finished |
| RemoteActions.TimedOutNeverRuns | agent/nexus_agent/actions.py:71-103 | in every continuation a TIMED_OUT action the agent has not taken up stays so and is never called, if its order is not delivered within a minute of its expiry |
| RemoteActions.TimedOutMayHaveRun | agent/run_agent.py:631-635 | a run in which the server reports TIMED_OUT and the handler was called |
| Rollups.BucketsAreAligned | backend/app/metrics/maintenance.py:85-101 | no UTC midnight falls inside an hourly or daily bucket |
| Rollups.DownsampleEffect | backend/app/metrics/maintenance.py:85-124 | a rollup computes exactly the buckets with rows up to the cutoff and leaves the others alone |
| Rollups.KeepBucket | backend/migrations/versions/20260830_0023_metric_retention_runtime.py:142-196 | retention keeps all rows of a bucket or none |
| Rollups.UpToBucket | backend/app/metrics/maintenance.py:104-107 | cutting off by time and picking a bucket commute |
| Rollups.SummaryMeaning | backend/app/metrics/maintenance.py:97-101 | count is the number of rows, min and max are attained bounds |
| Rollups.SummaryConcat | backend/app/metrics/maintenance.py:97-103 | a row's summary is its value; of two batches of rows counts and sums add up and the extremes are the outer ones, which fixes the average as sum by count |
| Rollups.SummaryOfMultiset | backend/app/metrics/maintenance.py:97-103 | the summary depends on which rows there are and not on their order |
| Rollups.SummaryMean | backend/app/metrics/maintenance.py:97-103 | the average is between the extremes |
| Rollups.RetentionInDays | backend/migrations/versions/20260830_0023_metric_retention_runtime.py:142-196 | raw rows go once they are more than 14 days old by date, hourly aggregates after 90 days, daily ones after 365 |
| RollupRuns.RollInvariant | backend/app/metrics/maintenance.py:70-145 | a rollup of any organization keeps a bucket's aggregate in agreement with the history |
| RollupRuns.RetainInvariant | backend/migrations/versions/20260830_0023_metric_retention_runtime.py:142-196 | retention keeps a bucket's agreement when what it purges of that bucket was rolled up |
| RollupRuns.RollupsAgreeWithHistory | backend/app/metrics/maintenance.py:202-219 | over every run that is legal for the bucket, whatever other buckets and organizations do, the aggregate of an ended bucket summarises all its rows stored before the latest rollup, purged or not |
| RollupRuns.FreshRollupIsComplete | backend/app/metrics/maintenance.py:85-124 | right after a rollup it summarises the bucket's full history |
| RollupRuns.RollupIsExact | backend/app/metrics/maintenance.py:85-124 | over every run, the aggregate of an ended bucket after a rollup is its full history iff no row of it was purged unseen and none arrived after a purge |
| RollupRuns.PurgeIsExact | backend/migrations/versions/20260830_0023_metric_retention_runtime.py:142-175 | purging a bucket leaves its aggregate complete iff every row was there at the latest rollup and within its cutoff; otherwise it is short |
| RollupRuns.InsertIsExact | backend/app/metrics/postgres.py:791-872 | an arriving row leaves its bucket short iff rows of it have been purged |
| RollupRuns.ShortForLife | backend/app/metrics/maintenance.py:112-124 | no continuation, whatever its steps, makes a short bucket's aggregate complete |
| RollupRuns.RollAllEffect | backend/app/metrics/maintenance.py:202-219 | the loop over the active organizations gives each of their buckets the summary of its rows up to an hour, or a day, before the clock read for it |
| RollupRuns.RollFirstElsewhere | backend/app/metrics/maintenance.py:202-219 | and leaves every other organization's aggregates alone |
| RollupRuns.UnrolledRowIsLost | backend/migrations/versions/20260830_0023_metric_retention_runtime.py:142-175 | a row purged before any rollup leaves its bucket short in every continuation |
| RollupRuns.LateRowIsLost | backend/app/metrics/maintenance.py:112-124 | a row that arrives for a purged bucket leaves it short in every continuation |
| RollupRuns.CycleIsLegal | backend/app/metrics/maintenance.py:202-219 | a cycle in which the organization is rolled up less than 13 days before the retention, with rows arriving only for days not purged or about to be, meets the conditions for all its buckets |
| RollupRuns.CyclesAreLegal | backend/app/metrics/maintenance.py:202-219 | so does every sequence of such cycles, with any interference of other organizations |
| RollupRuns.ProgramCycleRuns | backend/app/metrics/maintenance.py:202-219 | what `run_once` does to the tables is such a cycle for each active organization |
| RollupRuns.ProgramCycleIsRegular | backend/app/metrics/maintenance.py:202-219 | and a regular one for an organization listed once whose rollups come less than 13 days before the retention |
| RollupRuns.ActiveOrganizationsAgree | backend/app/metrics/maintenance.py:202-219 | after any such sequence the next rollup makes every ended bucket of the organization summarise its full history |
| MetricMaintenance.MetricTables.RunDownsampling | backend/app/metrics/maintenance.py:70-145 | raises for an unsupported interval; otherwise exactly the organization's buckets of that size with a row up to the cutoff change, each to the summary of all those rows |
| MetricMaintenance.MetricTables.AttachDays | backend/migrations/versions/20260830_0023_metric_retention_runtime.py:99-140 | the nested loops make the 29 day partitions and move rows into them without losing or reordering any |
| MetricMaintenance.MetricTables.DropOldPartitions | backend/migrations/versions/20260830_0023_metric_retention_runtime.py:142-166 | drops the partitions of days before the boundary and loses no later row |
| MetricMaintenance.PurgeTenants | backend/migrations/versions/20260830_0023_metric_retention_runtime.py:168-196 | after the tenant loop no row before the boundary is left, and the counters are exact |
| MetricMaintenance.RunMetricMaintenance | backend/migrations/versions/20260830_0023_metric_retention_runtime.py:44-219 | exactly the rows from the boundary on remain, each in its day's partition; exactly the outdated aggregates go; all four counters are exact |
| MetricMaintenance.RunOnce | backend/app/metrics/maintenance.py:202-219 | a cycle is the rollups of the active organizations followed by the retention, or nothing without the lock |
| AlertRules.SortSorts | backend/app/metrics/service.py:549 | sorting sorts and keeps every sample |
| AlertRules.SortIsStable | backend/app/metrics/service.py:549 | samples of one instant stay in the order they were in |
| AlertRules.CompareIsOrder | backend/app/metrics/service.py:529-538 | the operators are those of the order of the numbers: exactly one of GT, EQ and LT holds, GTE and LTE are the two unions |
| AlertRules.TriggeredMeans | backend/app/metrics/service.py:541-562 | triggering in terms of the measurements: none from the future, and from one at or before the start of the duration on they satisfy the comparison |
| AlertRules.AnswersAreMonotone | backend/app/metrics/service.py:541-562 | a GT or GTE rule goes on triggering when values rise, an LT or LTE rule when they fall |
| AlertRules.OppositesExclude | backend/app/metrics/service.py:541-562 | rules of one threshold with excluding operators never trigger on the same history |
| AlertRules.WindowIsWide | backend/app/metrics/postgres.py:1024-1026 | the window is twice the duration and at least five minutes |
| AlertRules.FetchedExactly | backend/app/metrics/postgres.py:1048-1073 | the samples fetched are all those in the window, as often as they are there |
| AlertRules.EvaluateRule | backend/app/metrics/service.py:541-562 | the backward scan is true iff the latest sample is not after now and from some sample at or before the start of the duration every sample satisfies the comparison |
| AlertRules.WindowIsEnough | backend/app/metrics/postgres.py:1024-1074 | the fetched window triggers iff the full history does and the window holds a sample at or before the start of the duration |
| AlertRules.SparseSamplesAreMissed | backend/app/metrics/postgres.py:1024-1026 | for every rule with a duration a history that triggers in full and not by its window |
| AlertLifecycle.AlertEvaluator.EvaluateAlerts | backend/app/metrics/postgres.py:992-1175 | the nested loops over rules and devices do what a pass specifies and report the alerts in order |
| AlertLifecycle.PassDecides | backend/app/metrics/postgres.py:1075-1160 | after a pass a firing pair has an active alert and any other no OPEN or ACKNOWLEDGED one |
| AlertLifecycle.JudgeWrites | backend/app/metrics/postgres.py:1075-1175 | a firing pair without an active alert gets one, OPEN from now and of the rule's severity; an OPEN or ACKNOWLEDGED one of a pair that does not fire is resolved now; nothing else changes |
| AlertLifecycle.PassReports | backend/app/metrics/postgres.py:992-1175 | a pass reports each alert it has opened or resolved, once, and no other |
| AlertLifecycle.PointsExactly | backend/app/metrics/postgres.py:1048-1073 | a pair is judged by all samples of its device and metric |
| AlertLifecycle.ExistingIsLatest | backend/app/metrics/postgres.py:1076-1094 | the alert looked at is the active one that triggered last |
| AlertLifecycle.PassIsIdempotent | backend/app/metrics/postgres.py:992-1175 | a pass keeps at most one active alert per pair and RESOLVED iff ended; repeating it changes and reports nothing |
| AlertLifecycle.FiringPairHasOneAlert | backend/migrations/versions/20260824_0013_metrics_alerts.py:281-291 | a firing pair has exactly one active alert |
| AlertLifecycle.DevicesExactly | backend/app/metrics/postgres.py:1027-1046 | the devices evaluated are those with a sample of the metric in the window |
| AttachmentOutbox.PickOldest | backend/app/support/postgres.py:1036-1066 | the claim takes the oldest claimable rows, up to the limit |
| AttachmentOutbox.OutcomeMeans | backend/app/support/service.py:596-622 | after a cycle a claimed row is completed if its file could be deleted, otherwise it has one attempt more and is given up at the fifth |
| AttachmentOutbox.SuccessesCount | backend/app/support/service.py:596-622 | the number returned is that of the rows completed |
| AttachmentOutbox.DeletableMeans | backend/app/support/service.py:596-622 | the files deleted are exactly those of claimed rows whose deletion does not raise |
| AttachmentOutbox.DeletionWorker.ProcessPending | backend/app/support/service.py:596-622 | the loop completes the rows whose file could be deleted, refuses the others, deletes exactly those files, and counts the successes |
| AttachmentRuns.RunInvariant | backend/app/support/service.py:433-456 | every interleaving of uploads, deletions and workers, with exceptions and crashes, keeps the invariant |
| AttachmentRuns.WhyFilesMove | backend/app/support/service.py:433-514 | a file appears and disappears exactly by the upload, clean-up, deletion or worker step that is for it |
| AttachmentRuns.WhyRowsMove | backend/app/support/postgres.py:526-556 | a row appears exactly by an INSERT not rolled back, and disappears exactly by a deletion, which puts its path into the outbox |
| AttachmentRuns.WhyJobsMove | backend/app/support/postgres.py:1036-1128 | an outbox row takes another status exactly by the claim, completion or refusal that is for it |
| AttachmentRuns.WhyHandsMove | backend/app/support/service.py:596-622 | what a worker has in hand, exactly |
| AttachmentRuns.FilesOfRowsStay | backend/app/support/service.py:452-456 | a live row's file is missing iff its INSERT committed but raised and the clean-up ran |
| AttachmentRuns.SureRunsKeepFiles | backend/app/support/service.py:484-514 | without such an INSERT no live row's file is ever deleted |
| AttachmentRuns.UnsureInsertLosesFile | backend/app/support/service.py:452-456 | the three-step run that loses the file of a live row |
| AttachmentRuns.NoFileIsForgotten | backend/app/support/postgres.py:526-556 | every stored file has a live row, an open outbox row or an unfinished upload, and COMPLETED implies the file is gone |
| AttachmentRuns.AttemptsAreBounded | backend/app/support/postgres.py:1103-1128 | claims never exceed the maximum, FAILED iff attempts reached it, and FAILED rows are never claimed again |
| AttachmentRuns.HeldIsNotClaimable | backend/app/support/postgres.py:1049-1066 | a row in a worker's hands cannot be claimed by another |
| CanonicalDecimal.RoundTrip | backend/app/metrics/schemas.py:19-23 | the parsed text is the number iff it has at most 28 significant digits |
| CanonicalDecimal.RenderingIsIdempotent | agent/run_agent.py:58-62 | rendering the parsed text gives the text, so agent and server agree byte for byte |
| CanonicalDecimal.TextIsCanonical | agent/run_agent.py:58-62 | the text has no exponent, no needless leading zero, no fraction that ends in zero, and no negative zero |
| CanonicalDecimal.RoundsHalfEven | backend/app/metrics/schemas.py:19-23 | beyond 28 digits the coefficient is rounded to the nearest, half to even |
| CanonicalDecimal.TextIdentifiesNumber | backend/app/metrics/schemas.py:19-23 | two decimals of at most 28 digits render alike iff they are numerically equal, negative zero and trailing zeros included |
| CanonicalDecimal.LongValuesCollide | backend/app/metrics/schemas.py:19-23 | beyond that, different numbers render alike |
| ClientBuffer.BoundedClientBuffer.Put | backend/app/realtime/hub.py:22-37 | the scan loop evicts the first plain message or refuses |
| ClientBuffer.BoundedClientBuffer.Get | backend/app/realtime/hub.py:39-42 | delivers the oldest message |
| ClientBuffer.RunFaithful | backend/app/realtime/hub.py:22-42 | over every run the size stays within the capacity, deliveries are a subsequence of what was accepted, and no accepted critical message is dropped |
| ClientBuffer.RefusedExactly | backend/app/realtime/hub.py:24-34 | a message is refused iff the buffer is full and it is plain, or full of critical ones |
| ClientBuffer.EvictsOldestPlain | backend/app/realtime/hub.py:27-32 | the one evicted is the oldest plain message |
| ClientBuffer.AdmittedIsNewest | backend/app/realtime/hub.py:22-37 | with room left every message is taken and comes last; a refused one changes nothing |
| RateLimit.MetricIngestRateLimiter.Allow | backend/app/metrics/rate_limit.py:45-62 | counts in the key's window and allows or limits with a waiting time |
| RateLimit.WaitingSuffices | backend/app/metrics/rate_limit.py:12-16 | waiting as long as told reaches the key's expiry |
| RateLimit.WaitIsLeast | backend/app/metrics/rate_limit.py:45-62 | the waiting time is the least whole number of seconds, at least one, that reaches the expiry, told exactly from the third request of a lifetime on |
| RateLimit.LifetimeIsFixed | backend/app/metrics/rate_limit.py:7-17 | a lifetime begins with a request that finds no key and lasts one window whatever comes in |
| RateLimit.WaitingHelps | backend/app/metrics/rate_limit.py:38-62 | whoever waits as long as told and finds the key gone is allowed |
| RateLimit.AtMostLimitPerLifetime | backend/app/metrics/rate_limit.py:7-17 | at most LIMIT requests are allowed per key lifetime |
| RateLimit.AtMostTwiceTheLimit | backend/app/metrics/rate_limit.py:38-62 | at most twice LIMIT in any half-open interval of the window's length, for every trace |

## Left out

- HTTP, WebSocket and Redis transport, FastAPI routing, the frontend, installers, subprocess handlers: I/O and foreign calls.
- RLS policies, grants, CRUD and pagination queries, ticket transitions, logins: they would add only easy members.
- SQLite corruption isolation, WAL and vacuum: the size of the files is an arbitrary sequence of readings.
- Error codes and free texts in audit rows, audit timestamps, and the normalisation of status texts: the model keeps the branch they select.
- Encoding errors of `enqueue` on samples that are no JSON: samples are values of one shape.
- QueueRuns.Conservation: a split or quarantine works on the row as it is at the call; the dispatcher is the only caller and works on one batch at a time.
- Recovery of PROCESSING batches and outbox rows after a crash: nothing in the code does it, and the model lets them stay.
- The order of `received_at, id` in the runs of the ledger: any RECEIVED row may be claimed next, so the results hold for every order.
- DeliveryRuns.DeliveryIsSafe: rate limiting and authentication appear as refusals with any status that is no 2xx and no 413.
- Delivery.HandoverInvariant: the size check of the reupload endpoint; what is too large was never ingested, so its reupload is refused anyway.
- SigningPayload.PayloadDeterminesOrder: the UTF-8 encoding of the payload is injective and left implicit.
- RemoteActions.ServerTellsTheTruth: one device; its rows are filtered by `device_id` in every statement, so other devices' actions do not interfere. The order and limit of polled actions are left out: the agent may be handed any order at any time.
- RemoteActions.NextInvariant: NFC normalisation of summaries and the 32-bit range of exit codes; a report refused for either is a lost one.
- Rollups.DownsampleEffect: values are real numbers; the rounding of the stored `avg_value` is not modelled.
- AlertRules.EvaluateRule: comparisons of floats are comparisons of real numbers; the order of samples with equal timestamps is the order given.
- AlertLifecycle.AlertEvaluator.EvaluateAlerts: the identity of an alert is its place in the table; ids and message texts are left out.
- AttachmentRuns.RunInvariant: a ticket's deletion takes the list of its attachments as given; that the list is complete is the statement's own snapshot.
- CanonicalDecimal.RoundTrip: exponents beyond the context's limits; the schema admits 14 digits.
- ClientBuffer.BoundedClientBuffer.Get: waiting for a message; the call is modelled from the moment the buffer is not empty.
- RateLimit.AtMostTwiceTheLimit: at the very instant of expiry Redis may or may not have dropped the key; both are covered.
