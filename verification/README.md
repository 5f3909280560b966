# Verified model of the archive scheduler

The service moves cold rows of a source table into object storage, registers and loads the
result, deletes the originals, and audits the copy by sampling. This project is a Dafny
model of its hard parts with machine-checked theorems about them. `dafny verify
dfyconfig.toml` checks all of it.

| files | what they model |
|---|---|
| `Merkle`, `RecordEncoding`, `AuditBinding` | Merkle trees, the record encoding, and what equal root hashes say about two sets of records |
| `AuditDispatch`, `AuditJobs`, `AuditRun` | sampling and batching, the audit service's records and critical sections, and one audit job over all interleavings |
| `RingQueue` | the ring-buffer queue, step by atomic step, and its uninterrupted operations |
| `Pipeline` | the four-stage shard pipeline with its bounded channels and synchronous pipe |
| `SourceRepo`, `ShardPlan` | the source table, its iterator and its deletion, and the split into shards |
| `Scheduler`, `Compensation` | the shard scheduler and the retry of failed shards, over all interleavings |
| `ArchiveSaga` | the archive job: which rows survive it, and where |
| `Sequences`, `Ordering`, `Decimal`, `Binary` | shared lists, sorting, decimal text and powers of two |

Concurrent code is a state machine: a function gives the state after one atomic step of one
goroutine (`Exec`, `Step`, `Play`), `Run` iterates it, and the theorems quantify over every
list of steps. The code that runs alone, or under one lock, is a class or a method with the
source's own fields and loops. Where one object is used by both, its methods are tied to
the machine's steps, or both use the same specification functions (`AddStats`, `Settle`,
`Decide`).

External effects are parameters. The hash function is an arbitrary total function from
strings to bytes, of fixed width where a theorem needs it; no theorem assumes that it has
no collisions, each one says among which hashed strings a collision would have to be.
Cleaning, masking and the line format are arbitrary functions. The order in which the
runtime iterates a map, the draws of the random generator, the success of Hive, StarRocks
and deletions, and the schedule under which a shard is processed are parameters too, and
the theorems hold for all of them.

## What the proofs turned up

Each of these is a lemma about the code as it is; where a documented or expected property
fails, the exact condition under which it holds is proved beside it.

- A failing upload must be swallowed once the extract goroutine has finished, whatever is
  scheduled afterwards: closing its channel a second time panics, the panic is recovered,
  and the unnamed result of `ProcessShardSafe` is zero, without an error. Before that point
  the failure can be reported, but in every state it may also be swallowed
  (`Pipeline.UploadFailureSwallowed`, `Pipeline.FailureMayBeSwallowed`). The scheduler then
  marks the shard COMPLETED with an empty path; loading skips it, and the cleanup deletes its
  rows (`ArchiveSaga.SwallowedFailureLosesRow`; `ArchiveSaga.RowFate` says exactly which rows).
- A cancelled pipeline can report success for a wrong object, exactly if a deliverable
  record was still before the masked channel (`Pipeline.CancelHarmlessExactlyWhenDry`): one
  that is truncated (`Pipeline.CancelledRunReportsSuccess`) or, since an interrupted flush
  keeps its batch, has records twice (`Pipeline.CancelledRunRepeats`). A
  shard that times out this way is COMPLETED, and the cleanup deletes its rows
  (`ArchiveSaga.TruncatedShardLosesRow`). A swallowed failure and a cut-short run are the only
  ways to lose an acceptable row (`ArchiveSaga.LossHasACause`).
- `DeleteShard` ignores the cold date: rows of a swept range that are not cold are lost
  (`ArchiveSaga.HotRowIsLost`, `ArchiveSaga.RowFate`).
- A shard repaired by compensation stays FAILED in the job, since the retry works on a copy.
  Its object is in place but is never loaded, and its rows are never deleted (the frame of
  `ArchiveSaga.ArchiveJob.TryCompensate`).
- Registration in Hive is reached exactly if Hive accepts and every shard succeeds in the
  first pass or, for a `MaxRetryCount` of at least two, in its one retry
  (`ArchiveSaga.ArchiveJob.ExecuteJob`). What the objects then hold is in
  `ArchiveSaga.UploadedMeans`; with an undisturbed first pass all are complete
  (`ArchiveSaga.AllArchived`).
- The audit that a completed job submits reads the cold rows of the source after the cleanup
  has deleted them. After a job that loses nothing and deletes everything it compares no
  archived row, and without newly cold rows it is failed (`ArchiveSaga.LeftToAudit`,
  `ArchiveSaga.NothingLeftToAudit`, `AuditDispatch.DispatchBatches`).
- After a cancellation `ProcessShards` can return nil with shards still PENDING
  (`Scheduler.NilWithNothingDone`); `Scheduler.NilAfterCancel` says exactly at which points.
- The queue is a FIFO for one producer and one consumer, and only then
  (`RingQueue.FifoExactlyForOneAndOne`).
- Equal roots do not bind arbitrary leaves (`Merkle.ArbitraryLeavesDoNotBind`); what they do
  bind, across heights, is `Merkle.CrossHeightBinding`. The record encoding is ambiguous
  exactly for values that contain the separator of their own or the next key
  (`RecordEncoding.AmbiguousExactlyWhenStraddling`), such as an order id with "|status:".
- An audit passes although the target has extra rows, since only source ids are compared;
  its roots differ then, up to a collision, but the verdict does not look at the roots
  (`AuditRun.FinalVerdict`, `AuditRun.RootsBindCompletedBatches`). It also passes when every
  batch was dropped by a full queue (`AuditRun.DroppedAuditPasses`).
- A completion check between a batch's status and its counts can pass an audit that has a
  mismatch (`AuditRun.CheckBeforeCountsPasses`; exact form in
  `AuditRun.VerdictOverCompleted`).
- On a range of at most eight ids with a small batch size the dispatcher can slice past the
  sample; the panic is recovered, and the job is never monitored and never ends
  (`AuditDispatch.PlanBatches`, `AuditDispatch.RunsPastHappens`; exactly then:
  `AuditRun.EndsUnlessDispatchPanicked`).

## Model

| member | source | states |
|---|---|---|
| `Merkle.BuildTree` | pkg/crypto/merkletree/merkletree.go:61-89 | builds a tree whose root hash is the level-wise root of the node hashes; every inner node is the digest of its two children, and the last node of an odd level is paired with a copy of itself |
| `Merkle.HexReadsBack` | pkg/crypto/merkletree/merkletree.go:80-93 | each byte of a hash is read back from its two hex digits, the high one first |
| `Merkle.SmallRoots` | pkg/crypto/merkletree/merkletree.go:33-93 | the roots of lists of up to three hashes in full: left before right, the odd last hash twice, the lone hash itself, the digest of the empty string |
| `Merkle.NewMerkleTree` | pkg/crypto/merkletree/merkletree.go:33-59 | leaves in order, root hash equal to the level-wise root, no root node and the digest of the empty string for an empty list |
| `Merkle.LevelwiseIsPerfect` | pkg/crypto/merkletree/merkletree.go:61-89 | the level-wise build equals the perfect binary tree over the list padded to a power of two by repeating the last block at every odd level, and hashes the same strings |
| `Merkle.PerfectBinding` | pkg/crypto/merkletree/merkletree.go:78-86 | two perfect trees of one height with equal roots have equal leaf lists, or two of the strings hashed in them collide |
| `Merkle.EqualHeightBinding` | pkg/crypto/merkletree/merkletree.go:61-89 | trees of equal height over fixed-width leaves: equal padded lists give equal roots, and equal roots give equal padded lists or a collision among the hashed strings |
| `Merkle.EqualLengthBinding` | pkg/crypto/merkletree/merkletree.go:61-89 | two lists of fixed-width hashes of the same length with equal roots are equal, or a collision is among the hashed strings |
| `Merkle.PadInjectiveOnDistinct` | pkg/crypto/merkletree/merkletree.go:72-76 | for lists without repetitions and of the same height the duplication of odd nodes loses nothing: equal padded lists come from equal lists |
| `Merkle.LowerTreeClashes` | pkg/crypto/merkletree/merkletree.go:33-89 | record-hash leaves under trees of different heights can only have equal roots through a collision |
| `Merkle.EmptyTreeClashes` | pkg/crypto/merkletree/merkletree.go:39-44 | a non-empty tree over record-hash leaves and the empty tree can only have equal roots through a collision |
| `Merkle.RootBinding` | pkg/crypto/merkletree/merkletree.go:33-128 | record-hash leaves without repetitions, any two sizes including zero: equal roots mean equal leaf lists, or a collision among the strings hashed for the two trees |
| `Merkle.CrossHeightBinding` | pkg/crypto/merkletree/merkletree.go:61-89 | any two non-empty lists of fixed-width hashes, the second d levels higher: equal paddings, the higher list lifted by d levels, give equal roots, and equal roots give equal paddings or a collision among the hashed strings |
| `Merkle.ArbitraryLeavesDoNotBind` | pkg/crypto/merkletree/merkletree.go:72-76 | for every hash function: [a,b,c] and [a,b,c,c] share a root, and so do a two-leaf tree and the one-leaf tree over its root |
| `RecordEncoding.IterationOrderIrrelevant` | pkg/crypto/merkletree/merkletree.go:113-125 | the encoding is the same for every iteration order of the field map |
| `RecordEncoding.RecordHash` | pkg/crypto/merkletree/merkletree.go:107-128 | the hex digits of the hash of the encoding of the id and the key-sorted fields, for any map iteration order |
| `RecordEncoding.CoreEncoding` | pkg/crypto/merkletree/merkletree.go:104-128 | the encoding of a record of the five core fields in full: id first, then the fields in ascending key order, each with its colon and bar |
| `RecordEncoding.TextOfValue` | pkg/crypto/merkletree/merkletree.go:130-147 | what the text of a value gives back: the carried text of strings, floats, times and others, the number of integers, true or false of booleans |
| `RecordEncoding.TextDeterminesValue` | pkg/crypto/merkletree/merkletree.go:130-147 | two values of one dynamic type have the same text if and only if they are equal |
| `Decimal.ItoaReadsBack` | pkg/crypto/merkletree/merkletree.go:134-137 | the decimal text of an integer gives back the integer, with a sign exactly for negative ones and without padding |
| `Ordering.StringLeIsLexicographic` | pkg/crypto/merkletree/merkletree.go:113-117 | keys and hashes are sorted in lexicographic order |
| `RecordEncoding.EncodingDeterminesId` | pkg/crypto/merkletree/merkletree.go:119-120 | records with different ids never have the same encoding, whatever their fields |
| `RecordEncoding.AmbiguousExactlyWhenStraddling` | pkg/crypto/merkletree/merkletree.go:107-147 | over keys without '&#124;' and ':', another record over the same keys has the same encoding and other texts if and only if some value contains the separator '&#124;key:' of the next key, or, from the second key on, of its own |
| `RecordEncoding.EncodingDeterminesRecord` | pkg/crypto/merkletree/merkletree.go:107-147 | if the first of two records over one such key set does not straddle, the encodings are equal if and only if the ids and all texts are; and if and only if id and fields are equal, where the types of the values agree |
| `RecordEncoding.BarFreeDoesNotStraddle` | pkg/crypto/merkletree/merkletree.go:130-147 | values without '&#124;' are never ambiguous |
| `RecordEncoding.CoreRecordCanBeAmbiguous` | internal/application/service/audit_service.go:367-374 | any audited record whose order id contains '&#124;status:' shares its encoding with a record of other texts |
| `RecordEncoding.EncodingIsLeafPreimage` | pkg/crypto/merkletree/merkletree.go:119-120 | a record encoding starts with a character that no hex digest contains and is not empty, so it is never the preimage of an inner node or of the empty tree |
| `RecordEncoding.StreamingHash.constructor` | pkg/crypto/merkletree/merkletree.go:149-160 | starts with no leaf hashes |
| `RecordEncoding.StreamingHash.Add` | pkg/crypto/merkletree/merkletree.go:169-173 | appends the record hash of the record |
| `RecordEncoding.StreamingHash.AddHash` | pkg/crypto/merkletree/merkletree.go:175-178 | appends the given hash |
| `RecordEncoding.StreamingHash.BuildTree` | pkg/crypto/merkletree/merkletree.go:180-182 | the root over the collected hashes, with as many leaves as were added |
| `RecordEncoding.StreamingHash.Reset` | pkg/crypto/merkletree/merkletree.go:188-191 | forgets all collected hashes |
| `AuditBinding.CompareHashMaps` | internal/application/service/audit_service.go:406-420 | for any iteration order: matched are exactly the source ids with an equal hash in the target, mismatched those with another hash there, missing those that the target lacks, none listed twice; mismatched and missing are empty if and only if the source is contained in the target |
| `AuditBinding.TallyMeans` | internal/application/service/audit_service.go:406-420 | the three tallies are the numbers of source ids with an equal hash in the target, with another one, and absent from it |
| `AuditBinding.TalliesAddUp` | internal/application/service/audit_service.go:406-420 | matches, mismatches and misses add up to the size of the source map; the last two are zero if and only if the source map is contained in the target map |
| `AuditBinding.IterationOrderOfHashes` | internal/application/service/audit_service.go:317-327 | sorting the hashes removes the map iteration order from a batch tree |
| `AuditBinding.SortedHashesMean` | internal/application/service/audit_service.go:317-327 | what goes into a batch tree: all hashes of the map, ascending, as many as there are ids |
| `AuditBinding.ComputeBatchRoot` | internal/application/service/audit_service.go:317-330 | the batch root is the tree root over the sorted hashes of the map, for any iteration order |
| `AuditBinding.BatchBinding` | internal/application/service/audit_service.go:312-330 | equal batch roots mean equal id-to-hash maps, whatever the numbers of records on the two sides, or a collision among the strings hashed for the batch |
| `AuditBinding.JobBinding` | internal/application/service/audit_service.go:504-529 | two lists of batches of the same length with equal job roots have equal id-to-hash maps in every batch, or a collision among the strings hashed anywhere in the two audits |
| `AuditBinding.JobRecordsBinding` | internal/application/service/audit_service.go:355-404 | with the five core fields and no ambiguous source record, equal job roots over lists of the same length mean the same ids and texts in every batch, and equal records where the types of the values agree, or a collision |
| `AuditDispatch.SampleRecordIDs` | internal/application/service/audit_service.go:259-285 | the sample for the given draws: empty, the whole range, or one id from each of count equal strata; over the reals the clamp to maxID never acts |
| `AuditDispatch.SampleMeans` | internal/application/service/audit_service.go:264-282 | the sample id by id: minID plus position for the whole range, otherwise the integer part of (position + draw) times the step |
| `AuditDispatch.WholeRangeSampled` | internal/application/service/audit_service.go:264-270 | when the count reaches the range, the sample holds exactly the ids from minID to maxID, each once |
| `AuditDispatch.SampleSpread` | internal/application/service/audit_service.go:273-282 | sampled ids are in the range and never descend, and neighbours differ by less than twice the step plus one |
| `AuditDispatch.NoIdThrice` | internal/application/service/audit_service.go:276-282 | no id is sampled more than twice |
| `AuditDispatch.NoRepeatsExactlyWhenCountDivides` | internal/application/service/audit_service.go:273-282 | all draws give distinct ids if and only if the sample count divides the size of the range |
| `AuditDispatch.EveryIdHasASampleNearby` | internal/application/service/audit_service.go:273-282 | every id of the range is less than a step plus one away from some sampled id |
| `AuditDispatch.SampleSorted` | internal/application/service/audit_service.go:202-203 | a sample is already sorted, and its length is the requested count capped by the range |
| `AuditDispatch.SampleCount` | internal/application/service/audit_service.go:188-194 | never more than the known records; below that at least ten and at least the configured share; above ten never more than the share |
| `AuditDispatch.BatchesOf` | internal/application/service/audit_service.go:197-200 | the batch count is the sample count divided by the batch size, rounded up, also for a negative count |
| `AuditDispatch.CutBatches` | internal/application/service/audit_service.go:210-254 | the batches are the consecutive pieces of the sample, each with its position as batch index; the slice leaves the sample exactly when the last batch would start beyond its end |
| `AuditDispatch.PlanBatches` | internal/application/service/audit_service.go:176-256 | from id range, counts and draws to the list of batches: failed on an empty range, stopped by the recovered panic exactly when the last batch starts past the sample, monitored otherwise |
| `AuditDispatch.DispatchBatches` | internal/application/service/audit_service.go:160-256 | the same from the source table: the job is failed without a batch if and only if no row is cold at the audit's date; otherwise the sample is drawn between the least and the greatest cold id |
| `AuditDispatch.PlanCoversSample` | internal/application/service/audit_service.go:210-241 | the ids of all batches one after the other are the sorted sample; every batch has one to BatchSize ids, and all but the last have BatchSize |
| `AuditDispatch.RunsPastOnlyOnTinyRanges` | internal/application/service/audit_service.go:188-200 | the panic needs a range of at most eight ids and a batch size of at most nine |
| `AuditDispatch.RunsPastHappens` | internal/application/service/audit_service.go:188-221 | an input on which it occurs: one id, ten known records, batches of three |
| `AuditJobs.ComputeSourceHashes` | internal/application/service/audit_service.go:355-383 | exactly the listed ids whose source row was created before the audit's cold date, each with the digest of its own encoding: each id is read as a one-row shard through the iterator |
| `AuditJobs.ComputeTargetHashes` | internal/application/service/audit_service.go:385-404 | exactly the listed ids that the target holds, each with the digest of the encoding of its five core fields |
| `AuditJobs.CoreFieldsMean` | internal/application/service/audit_service.go:390-398 | the five columns by name; one that the row lacks is hashed as "<nil>" |
| `AuditJobs.EvaluateBatch` | internal/application/service/audit_service.go:312-330 | roots and tallies of a batch depend on the cold source rows and the target rows alone, not on any of the five map iterations; the tallies count the ids that are equal, that differ, and that the target lacks; the last two are zero if and only if the source hashes are contained in the target hashes |
| `AuditJobs.AllDoneMeans` | internal/application/service/audit_service.go:475-488 | the counting test of the completion check holds if and only if there is a batch and none is still pending |
| `AuditJobs.JudgementMeans` | internal/application/service/audit_service.go:531-553 | passed if and only if nothing mismatched or missing; alert if and only if something is and a rate reaches its threshold, stated in numbers of records |
| `AuditJobs.AuditService.constructor` | internal/application/service/audit_service.go:91-104 | an empty service whose counters agree |
| `AuditJobs.AuditService.SubmitAudit` | internal/application/service/audit_service.go:137-153 | registers a pending job with the given total, zero counts, empty roots and an empty batch list, and touches no other job |
| `AuditJobs.AuditService.DispatchAuditBatches` | internal/application/service/audit_service.go:160-256 | the dispatcher without interruption: without a cold row the job is failed with its message and gets no batch; otherwise it runs, with the sample and batch counts, and has one empty batch per task, skipped where the queue refused it |
| `AuditJobs.AuditService.AppendBatch` | internal/application/service/audit_service.go:243-245 | appends the batch to its job and changes nothing else |
| `AuditJobs.AuditService.GetBatch` | internal/application/service/audit_service.go:422-431 | the batch at the index, or none if and only if the job is unknown or the index is beyond its list |
| `AuditJobs.AuditService.RecordResult` | internal/application/service/audit_service.go:332-342 | the addressed batch gets the two roots, its flag and the completed status, and keeps the rest; no other batch changes |
| `AuditJobs.AuditService.ProcessAuditBatch` | internal/application/service/audit_service.go:299-353 | one task without interruption: its batch is filled in if it exists, and the job gets the tallies either way |
| `AuditJobs.AuditService.UpdateJobStats` | internal/application/service/audit_service.go:433-445 | adds matched, mismatched and missing each to its own counter of the job, if it exists |
| `AuditJobs.AuditService.CollectRoots` | internal/application/service/audit_service.go:504-526 | each root is the tree over the non-empty batch hashes of its side, empty when there are none |
| `AuditJobs.AuditService.FinalizeJob` | internal/application/service/audit_service.go:496-574 | sets the roots and the verdict of the job and keeps TotalAudits = Passed + Failed + Alert, counting the job once under its verdict; passed goes with level none, alert with critical, failed with warning |
| `AuditJobs.AuditService.CheckJobComplete` | internal/application/service/audit_service.go:467-494 | finalizes the job if and only if it has batches and none is pending, and reports so |
| `AuditJobs.AuditService.FailJob` | internal/application/service/audit_service.go:624-638 | a known job becomes failed with the message and keeps everything else; no other job changes |
| `AuditRun.GetBatchFindsOwnBatch` | internal/application/service/audit_service.go:422-431 | in every interleaving a task in the queue or in a worker's hands finds the batch that was appended for it, under its own index |
| `AuditRun.CountersAddUp` | internal/application/service/audit_service.go:433-445 | in every reachable state match + mismatch + missing is the sum of the source-map sizes of the batches whose counts were added, and those batches are completed |
| `AuditRun.CountersByKind` | internal/application/service/audit_service.go:433-445 | in every reachable state each counter is the number of ids of its own kind, equal, different or absent, over the batches whose counts were added |
| `AuditRun.FinalVerdict` | internal/application/service/audit_service.go:496-553 | a finalized job is passed if and only if every batch counted by then has its source hashes contained in the target; so a job with nothing counted passes |
| `AuditRun.FinalAlert` | internal/application/service/audit_service.go:531-553 | a finalized job alerts if and only if some counted id is different or absent and the different or the absent ones reach their share of all counted ids; the level is critical exactly then |
| `AuditRun.VerdictOverCompleted` | internal/application/service/audit_service.go:332-344 | over the completed batches the verdict errs exactly by passing a job whose unmatched batches are all uncounted; once all completed batches are counted, passed means all of them matched |
| `AuditRun.CheckBeforeCountsPasses` | internal/application/service/audit_service.go:340-344 | for every one-batch job with a mismatch there is a run in which the check falls between status and counts and the job is passed |
| `AuditRun.CompletedFlag` | internal/application/service/audit_service.go:337-340 | the flag of a completed batch says whether its source hashes are contained in the target |
| `AuditRun.RunningUntilEnded` | internal/application/service/audit_service.go:447-465 | in every run the job is running exactly until its monitor finalizes it or times out, and is only watched after all batches were appended |
| `AuditRun.TimedOutMeansFailed` | internal/application/service/audit_service.go:447-459 | a timeout of the monitor fails the job with its message and leaves counts and roots; it stays failed in every continuation |
| `AuditRun.VerdictNeedsMonitor` | internal/application/service/audit_service.go:447-465 | in every run passed and alert take a finalization, failed a finalization or a timeout |
| `AuditRun.EndedStays` | internal/application/service/audit_service.go:447-465 | in every run, once the job is no longer running, no continuation changes its verdict or its roots |
| `AuditRun.EndsExactlyIfMonitored` | internal/application/service/audit_service.go:447-465 | some run takes the job out of the running state if and only if its monitor was started |
| `AuditRun.EndsUnlessDispatchPanicked` | internal/application/service/audit_service.go:160-256 | for the batches that the dispatcher makes of a non-empty range: some run ends the job if and only if the last batch does not start past the sample |
| `AuditRun.DroppedAuditPasses` | internal/application/service/audit_service.go:247-253 | every monitored job with batches has a run in which a full queue drops all of them and the job is passed |
| `AuditRun.FinalRoots` | internal/application/service/audit_service.go:504-529 | the roots of a finalized job are the job roots over its completed batches; skipped batches leave no trace |
| `AuditRun.RootsBindCompletedBatches` | internal/application/service/audit_service.go:504-529 | equal id-to-hash maps in all completed batches give equal job roots, and equal job roots give equal maps or a collision among the strings hashed |
| `AuditRun.EqualRootsVouchForTheSample` | internal/application/service/audit_service.go:160-529 | from dispatch to rows: with no batch skipped and no ambiguous source row, equal job roots mean that every sampled id is a cold source row and a target row with the same core fields, or is neither, or a collision |
| `RingQueue.ItemCountBounds` | pkg/queue/lock_free_queue.go:35-70 | for P producers and C consumers, in every interleaving, itemCount is completed enqueues minus completed dequeues and lies between 1 - C and capacity + P - 1 |
| `RingQueue.ItemCountBoundsAttained` | pkg/queue/lock_free_queue.go:35-70 | both bounds are reached, for every capacity and all P and C |
| `RingQueue.SpscRefinesFifo` | pkg/queue/lock_free_queue.go:35-70 | one producer, one consumer: every atomic step is an append, a removal of the oldest item, or nothing on a bounded FIFO; refusals happen exactly when it is full or empty; no spin ever repeats |
| `RingQueue.NothingKeptBehind` | pkg/queue/lock_free_queue.go:53-70 | one producer, one consumer, both idle: every slot that holds no item of the queue is nil again |
| `RingQueue.FifoExactlyForOneAndOne` | pkg/queue/lock_free_queue.go:35-70 | the queue is a FIFO in all interleavings if and only if there is one producer and one consumer |
| `RingQueue.TwoProducersBreakFifo` | pkg/queue/lock_free_queue.go:40-48 | with two or more producers some run publishes one item and hands out another in its place (capacity one) or an unfilled slot (larger capacities) |
| `RingQueue.TwoConsumersBreakFifo` | pkg/queue/lock_free_queue.go:54-67 | with two or more consumers some run publishes one item and hands out two results |
| `RingQueue.LockFreeQueue.constructor` | pkg/queue/lock_free_queue.go:19-33 | an empty ring whose capacity is the least power of two that is at least the requested one |
| `RingQueue.LockFreeQueue.Index` | pkg/queue/lock_free_queue.go:40-41 | masking a position with capacity - 1 is its residue modulo the capacity |
| `RingQueue.LockFreeQueue.Enqueue` | pkg/queue/lock_free_queue.go:35-51 | without interruption: refused exactly when full, otherwise appended at the back |
| `RingQueue.LockFreeQueue.Dequeue` | pkg/queue/lock_free_queue.go:53-70 | without interruption: refused exactly when empty, otherwise the oldest item, which leaves the queue |
| `RingQueue.BatchingQueue.DequeueBatch` | pkg/queue/lock_free_queue.go:139-159 | the oldest items in order, as many as there are or as the limit allows |
| `Pipeline.RunInv` | internal/application/service/stream_processor.go:290-400 | at every point of every undisturbed run: what the store has received and what is under way, pushed through the remaining stages, is the whole delivery in order |
| `Pipeline.ReturnedMeansDelivered` | internal/application/service/stream_processor.go:229-414 | every undisturbed call that returns has stored exactly the lines of the cleaned and masked rows in source order, and reports their number |
| `Pipeline.OneMoreRecord` | internal/application/service/stream_processor.go:463-560 | the delivery record by record: an accepted record is masked and goes to the end with its line, a rejected one leaves no trace |
| `Pipeline.NeverStuck` | internal/application/service/stream_processor.go:287-400 | until the call returns some goroutine can move, for every channel capacity of at least one |
| `Pipeline.StepDecreases` | internal/application/service/stream_processor.go:416-560 | every step of an undisturbed run lowers the weight of unread, queued and unreceived data |
| `Pipeline.RunsAreShort` | internal/application/service/stream_processor.go:416-560 | no undisturbed run is longer than a bound linear in the rows and the bytes delivered |
| `Pipeline.BoundedMemory` | internal/application/service/stream_processor.go:257-259 | however many rows a shard has, an undisturbed run never holds more than seven batches and two records, and no channel more than one batch |
| `Pipeline.RunCompletes` | internal/application/service/stream_processor.go:287-400 | every undisturbed run can be continued to the end of the call |
| `Pipeline.UploadFailureSwallowed` | internal/application/service/stream_processor.go:261-285 | after a failing upload in an undisturbed run, under every further schedule: every call that returns gives the zero result, without an error, if and only if the extract goroutine had finished; otherwise the failure can be reported |
| `Pipeline.FailureMayBeSwallowed` | internal/application/service/stream_processor.go:261-285 | from every undisturbed state with the upload open some schedule swallows the failure; so it is certain to be reported in no state, and certain to be swallowed exactly once the extract goroutine has finished |
| `Pipeline.SwallowedWhileExtracting` | internal/application/service/stream_processor.go:261-285 | for every input there is also a run without cancellation in which the failure is swallowed although the extract goroutine has not finished |
| `Pipeline.SwallowPointReached` | internal/application/service/stream_processor.go:287-379 | from every undisturbed state with the upload open, so on every input, a point is reached at which a failing upload must be swallowed |
| `Pipeline.SwallowedRun` | internal/application/service/stream_processor.go:261-379 | for every input there is an uncancelled run in which the upload fails, nothing is stored, and the caller sees no error |
| `Pipeline.FailedUploadStoresNothing` | internal/application/service/stream_processor.go:373-379 | in every run a failed upload stores nothing and never reports a count, the zero result comes from a failed upload only, and a success has stored an object |
| `Pipeline.CancelHarmlessExactlyWhenDry` | internal/application/service/stream_processor.go:350-400 | cancelling an undisturbed run: every further schedule without a failing upload that reports success has stored the whole delivery and counted it right, if and only if no deliverable record is left before the masked channel |
| `Pipeline.SuccessDeliversUnlessCutShort` | internal/application/service/stream_processor.go:229-414 | over all runs, disturbed or not: a call that reports success has stored the whole delivery and counted it right, or was cancelled while a deliverable record was still before the masked channel |
| `Pipeline.CancelledRunReportsSuccess` | internal/application/service/stream_processor.go:350-359 | for every input there is a cancelled run that stores an empty object and reports success with no record |
| `Pipeline.CancelledRunRepeats` | internal/application/service/stream_processor.go:467-515 | with batches of two, any two accepted records and a cancellation inside the first flush, a run reports three records and stores the first line twice |
| `SourceRepo.SourceDB.CountColdData` | internal/infrastructure/persistance/polardb_repo.go:81-97 | the number of cold rows, for any iteration order of the table |
| `SourceRepo.SourceDB.GetMinMaxID` | internal/infrastructure/persistance/polardb_repo.go:99-128 | the least and the greatest id of a cold row; none if and only if there is no cold row |
| `SourceRepo.SourceDB.DeleteShard` | internal/infrastructure/persistance/polardb_repo.go:159-178 | removes exactly the rows of the id range, cold or not |
| `SourceRepo.DataIterator.HasNext` | internal/infrastructure/persistance/polardb_repo.go:240-261 | true if and only if rows remain, and nothing moves |
| `SourceRepo.DataIterator.Next` | internal/infrastructure/persistance/polardb_repo.go:209-238 | the first remaining row, or none if and only if none remain |
| `SourceRepo.DrainIterator` | internal/infrastructure/persistance/polardb_repo.go:209-261 | draining an iterator yields the cold rows of its range, ascending |
| `SourceRepo.RowsCount` | internal/infrastructure/persistance/polardb_repo.go:81-97 | a range is read as many times as it has cold ids |
| `ShardPlan.PrepareShards` | internal/application/service/archive_app_service.go:226-259 | the planned intervals for every shard count of at least one |
| `ShardPlan.ShardsDisjoint` | internal/application/service/archive_app_service.go:238-259 | the intervals of two shards never overlap, also when the later ones run past maxID |
| `ShardPlan.ShardsCover` | internal/application/service/archive_app_service.go:238-259 | every id of the range lies in exactly one shard, named in closed form |
| `ShardPlan.ShardsTile` | internal/application/service/archive_app_service.go:232-259 | with no more shards than ids the shards tile the range, and only the last one differs, by the remainder |
| `ShardPlan.ThinShards` | internal/application/service/archive_app_service.go:232-259 | with more shards than ids every shard but the last is one id wide, also past maxID, and the last one is empty |
| `ShardPlan.StreamsComplete` | internal/infrastructure/persistance/polardb_repo.go:209-261 | the row streams of the shards one after the other are every cold row once, in ascending id order, as many as CountColdData says |
| `Scheduler.SchedulerSafety` | internal/application/service/safe_shard_scheduler.go:194-267 | in every reachable state at most Concurrency workers hold a token, Leaks is not negative, the messages fit their channels, a worker about to send can send, at most one shard is dispatched after cancellation, and the scheduler is cancelled once the reported panics reach the threshold |
| `Scheduler.CapacityReached` | internal/application/service/safe_shard_scheduler.go:208-249 | as many workers as there are tokens, and shards, do run at once in some run |
| `Scheduler.StatusFollowsStage` | internal/application/service/safe_shard_scheduler.go:343-377 | in every reachable state a shard is untouched before its goroutine starts, RUNNING while it works, then COMPLETED with the reported count and path, or FAILED with one more retry used; index and bounds never change |
| `Scheduler.CancellationHasCause` | internal/application/service/safe_shard_scheduler.go:310-336 | in every run a cancellation comes from outside, from the wait timeout, or from panics that have reached the threshold |
| `Scheduler.NormalCompletion` | internal/application/service/safe_shard_scheduler.go:208-307 | when the wait ends normally Leaks is zero, every dispatched shard carries its outcome and every other is untouched, failed is the number of FAILED shards plus at most one refused acquisition, and processed is the sum of the COMPLETED shards' record counts |
| `Scheduler.MessagesAtTheEnd` | internal/application/service/safe_shard_scheduler.go:253-300 | when the wait ends normally the error channel has one message per failure, the result channel one per COMPLETED shard |
| `Scheduler.NilReturn` | internal/application/service/safe_shard_scheduler.go:270-307 | nil is returned only if every dispatched shard is COMPLETED and every other still PENDING; without cancellation all are COMPLETED |
| `Scheduler.NilWithNothingDone` | internal/application/service/safe_shard_scheduler.go:208-215 | cancellation before the first dispatch returns nil with every shard as it was |
| `Scheduler.NilAfterCancel` | internal/application/service/safe_shard_scheduler.go:208-270 | cancelling an undisturbed run at any point: every continuation that returns nil leaves all shards COMPLETED if and only if no shard is left before the cancellation check, or one past it fails, or the one at the semaphore can get no token |
| `Scheduler.ScheduleIrrelevant` | internal/application/service/safe_shard_scheduler.go:194-377 | without cancellation and wait timeout the shards end as if processed one after the other, and nil means that no outcome was an error |
| `Scheduler.NeverStuck` | internal/application/service/safe_shard_scheduler.go:208-267 | until ProcessShards returns, the dispatcher or a worker can move by itself |
| `Scheduler.RunsAreShort` | internal/application/service/safe_shard_scheduler.go:208-377 | no run is longer than thirteen steps a shard and three |
| `Scheduler.Semaphore.Acquire` | internal/application/service/safe_shard_scheduler.go:84-92 | without interruption: the two machine steps that take a token and count it, or a refusal that changes nothing and needs a cancellation |
| `Scheduler.Semaphore.Release` | internal/application/service/safe_shard_scheduler.go:94-101 | without interruption: the machine steps that return a token and count it, or nothing when no token is out |
| `Scheduler.SafeWaitGroup.constructor` | internal/application/service/safe_shard_scheduler.go:26-30 | mirrors the machine in its initial state |
| `Scheduler.SafeWaitGroup.Add` | internal/application/service/safe_shard_scheduler.go:32-38 | adding one goes with the machine step that launches a worker; after the wait has ended any addition leaves the mirrored state as it is |
| `Scheduler.SafeWaitGroup.Done` | internal/application/service/safe_shard_scheduler.go:40-44 | goes with the last machine step of a worker |
| `Scheduler.SafeWaitGroup.WaitWithTimeout` | internal/application/service/safe_shard_scheduler.go:46-70 | returns without an error only when no worker is waited for, with the machine step that fixes the return value; an error goes with the timeout step and its cancellation |
| `Compensation.CreateCompensation` | internal/application/service/compensation_service.go:84-98 | for every failed shard with retries left a fresh copy, in order: PENDING, without a result, with its index, bounds and retry counts |
| `Compensation.CompensationResult` | internal/application/service/compensation_service.go:123-180 | in every interleaving at most three retries run; at the end every retry shard carries its outcome, FailedCount and CompletedCount are exact, and the compensation is COMPLETED if and only if all retry shards are |
| `Compensation.ThreeAtOnce` | internal/application/service/compensation_service.go:123-156 | three retries do run at once in some play, when there are as many |
| `Compensation.NeverStuck` | internal/application/service/compensation_service.go:123-156 | until the compensation has concluded, the loop or a retry can move |
| `Compensation.PlaysAreShort` | internal/application/service/compensation_service.go:123-156 | no compensation takes more than ten steps a retry shard and two |
| `ArchiveSaga.OutcomeMeaning` | internal/application/service/stream_processor.go:373-414 | for every run of a shard, cancelled or not: a success with a path has stored an object, with the cleaned and masked rows in order unless the run was cut short; a success without a path, or an error without cancellation, has stored nothing |
| `ArchiveSaga.ArchiveJob.constructor` | internal/application/service/archive_app_service.go:121-124 | a pending job without shards |
| `ArchiveSaga.ArchiveJob.ProcessShards` | internal/application/service/archive_app_service.go:275-348 | every shard ends with its outcome; the path of a COMPLETED shard is its zero-padded index under the job's directory, and its object is there; no object under another name changes; the error says whether any failed |
| `ArchiveSaga.ArchiveJob.TryCompensate` | internal/application/service/archive_app_service.go:351-377 | retries exactly the retriable failed shards; no error if and only if there was one and all retries succeeded |
| `ArchiveSaga.ArchiveJob.LoadToStarRocks` | internal/application/service/archive_app_service.go:419-437 | loads exactly the paths of the COMPLETED shards that have one and load |
| `ArchiveSaga.ArchiveJob.CleanupSourceData` | internal/application/service/archive_app_service.go:454-466 | sweeps exactly the ranges of the COMPLETED shards whose deletion succeeds |
| `ArchiveSaga.ArchiveJob.UploadShards` | internal/application/service/archive_app_service.go:197-205 | no error if and only if every shard succeeds in the first pass or, with MaxRetryCount of at least two, in its retry; then every key holds what the attempts at its shard have left there |
| `ArchiveSaga.ArchiveJob.ExecuteJob` | internal/application/service/archive_app_service.go:160-224 | over the inputs (table, schedules, deletions): Hive is reached if and only if it accepts and every shard succeeds in the first pass or its one retry; then every key holds what the attempts at its shard have left there; the source changes only in a completed job; there every row that is not dropped is kept, and on a store without the job's keys no dropped one is; a gentle job keeps every row; a completed job has loaded exactly the paths that the first pass reports and StarRocks takes, for a gentle job all shards; only objects with a shard name change |
| `ArchiveSaga.UploadedMeans` | internal/application/service/archive_app_service.go:197-213 | what that means for an object: complete after a success with a path that was not cut short, in the first pass or the retry; unchanged by a success without a path |
| `ArchiveSaga.AllArchived` | internal/application/service/archive_app_service.go:191-211 | with an undisturbed first pass the job gets to registration for every MaxRetryCount, with every shard's object complete |
| `ArchiveSaga.RowFate` | internal/application/service/archive_app_service.go:449-474 | for shards that may be cancelled or have failing uploads: a row that is not dropped is still in the source, was rejected by cleaning, or has its masked line as a block in the object of the shard that its id falls into; a dropped one, on a store without the job's keys, is none of these. Dropped means that the first pass succeeds on a shard around it, which is deleted, although the row is not cold, or acceptable and not in what that pass has stored |
| `ArchiveSaga.LossHasACause` | internal/application/service/archive_app_service.go:449-474 | an acceptable row deleted with its shard is dropped whenever the success has no path, and otherwise only if the shard's run was cancelled with a deliverable record still before the masked channel |
| `ArchiveSaga.NothingLost` | internal/application/service/archive_app_service.go:232-259 | with at most as many shards as ids, no hot row between the bounds, and an undisturbed first pass, every row is kept, whatever the store held before |
| `ArchiveSaga.HotRowIsDropped` | internal/infrastructure/persistance/polardb_repo.go:159-178 | in every job with one shard and an undisturbed first pass, a hot row between the bounds is dropped |
| `ArchiveSaga.HotRowIsLost` | internal/infrastructure/persistance/polardb_repo.go:159-178 | for every environment and cold date, a table and schedules on which that happens |
| `ArchiveSaga.SwallowedFailureLosesRow` | internal/application/service/stream_processor.go:261-285 | for every environment and every acceptable cold row, schedules under which the job is accepted and the row is dropped |
| `ArchiveSaga.TruncatedShardLosesRow` | internal/application/service/safe_shard_scheduler.go:343-377 | for every environment and every acceptable cold row with a non-empty line, schedules under which the shard is cancelled, COMPLETED with a path and an empty object, the job accepted and the row dropped |
| `ArchiveSaga.LeftToAudit` | internal/application/service/archive_app_service.go:449-515 | of the rows that were cold for the job, the source left for the audit holds exactly those whose own shard failed in the first pass or was not deleted |
| `ArchiveSaga.NothingLeftToAudit` | internal/application/service/archive_app_service.go:449-515 | after a gentle job whose deletions all succeed, the cold rows that an audit with any cold date finds are exactly those that were not yet cold for the job; with the job's own date there are none, so the audit is failed |
| `ArchiveSaga.LineInObject` | internal/application/service/stream_processor.go:360-365 | the masked line of an accepted row stands in its object as one contiguous block |
| `ArchiveSaga.ShardKeyInjective` | internal/application/service/stream_processor.go:329-332 | different shard indices never share an object key |
| `ArchiveSaga.ShardKeyNamesShard` | internal/application/service/stream_processor.go:329-332 | the key of a shard is the directory, "/shard_", the digits of its index, four of them below ten thousand and more only from there on, and ".jsonl" |
| `ArchiveSaga.PathNamesShard` | internal/application/service/stream_processor.go:404-413 | the path that the first pass reports carries the index of its shard |
| `ArchiveSaga.FirstPassUnderAnySchedule` | internal/application/service/safe_shard_scheduler.go:194-377 | every schedule of the worker goroutines leaves the shards as the sequential first pass does, with the same verdict |
| `ArchiveSaga.CompletionOrderIrrelevant` | internal/application/service/archive_app_service.go:297-305 | in whatever order shards finish, and even when some are processed again, the object store ends as after the sequential pass |
| `ArchiveSaga.RetryUnderAnySchedule` | internal/application/service/compensation_service.go:112-181 | every schedule of the retry goroutines completes the compensation if and only if every retriable shard's retry succeeds |

## Left out

- ProcessShardSafe, ProcessShards and ExecuteCompensation are state machines on values, not classes: their goroutines share locals, which no single Dafny method can do; aliasing of those locals is captured only as far as the machine state names them.
- ArchiveShard and the audit job and batch records are values inside the objects that own them; that a dispatcher, a worker and a map share one record is expressed by all of them addressing one entry.
- Machine integers: positions, ids and counters are unbounded; wrap-around of the 64-bit positions of the queue and overflow in the shard arithmetic are not modelled.
- Floating point: sampling and rates are over the reals, so the clamp to `maxID` and rounding at the alert thresholds are not exercised.
- RingQueue.BatchingQueue: the flush channel, its ticker, and Stop are not modelled, since nothing in the repository receives from that channel.
- QueueConsumer: its worker loop appears in `AuditRun` as steps that take any queued task any number of times, or never, because with several consumers the queue promises no more.
- AuditRun: mismatched and missing id lists of a batch are kept as counts; both tables are assumed not to change during a job; the webhook alert is not modelled.
- Pipeline: the five-minute wait before a forced close, a panic inside cleaning, masking or serializing, errors returned by the iterator, and uploads that stop reading early are not modelled; serialized lines end in a newline, so the model's treatment of an empty one (written without waiting for a reader) is never met.
- Pipeline: a channel capacity of zero is outside the progress theorems, since a configured batch size is at least one.
- Scheduler: what happens after a wait timeout, the deadlock detector and the goroutine monitor are not modelled; the detector is one more source of cancellation. The goroutine counter is not modelled, since it is lowered after the wait group.
- ArchiveSaga.ArchiveJob.ExecuteJob: assumes one executor per job and no cancellation, timeout or panic of the job or of the scheduler (each shard's own context may be cancelled at any point), shards processed one after the other (any schedule gives the same: `ArchiveSaga.FirstPassUnderAnySchedule`, `ArchiveSaga.RetryUnderAnySchedule`, `ArchiveSaga.CompletionOrderIrrelevant`), and a deletion that either sweeps a whole range or nothing.
- ArchiveSaga: archived and failed counts of the job are left out; on the compensation path the code never sets them.
- Pause, resume, manual compensation, rollback of shards and jobs, listing, statistics and the integrity check of the archive service: no hard property, or superseded.
- CompensationService keeps all compensations in a map; only the one being executed is modelled.
- Hive, StarRocks and the object store beyond success, failure and a map from keys to contents; HTTP, configuration, logging and the webhook sender.
- SHA-256, UUIDs, clocks, timers, and the text format of floats and times: the hash is arbitrary, and formatted text is carried as it comes.
- HashAccumulator and the small wrappers VerifyTree, BatchMerkleRoot and CoreFieldsMap of the Merkle package; the older ProcessShard and its workers.
