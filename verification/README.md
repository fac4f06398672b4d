# A verified model of TiKV's import, read-pool and coprocessor core

This Dafny project models five stateful parts of TiKV and proves what they are for.

* **Duplicate detection** (`DuplicateSpec`, `DuplicateDetection`, `DuplicateTheorems`,
  `DuplicateRun`). The detector is a class whose loops move one cursor over a write column. Its methods are proved
  against a recursive description of the walk, and that description is proved equal to a
  declarative one: which records are reported, in what order, and exactly when a run fails.
* **Ingest latch and admission** (`IngestLatching`, `IngestProtocol`, `IngestAlone`). The latch
  is a class. Any number of concurrent requests is a state machine over atomic steps, with
  theorems over every run: ownership, mutual exclusion, conservative counting, no deadlock,
  termination. A request that nobody disturbs does exactly what the sequential call promises.
* **Unified read pool** (`ReadPoolScaling`, `TimeSlice`, `Admission`, `AdmissionAlone`). Handles
  with copied limits and shared gauges, the auto-scaler, the moving average of the time slice,
  and the interleaving of quota and gauge steps of concurrent requests, with the undisturbed
  request as the link to the sequential call.
* **Coprocessor requests** (`TrackerSpec`, `TrackerTheorems`, `TrackerModel`, `RequestDrivers`,
  `BatchTasks`, `EndpointCalls`, `LockCheck`). The tracker and its destructor, the unary and streaming drivers
  that step it, the collection of batched tasks, the memory-lock check as a single call, and
  the same check interleaved with async-commit writers.
* **Table checksum** (`Checksum`). The scan loop and the algebra of its result.

`Sums` holds finite sums over maps and `Wrappers` the optional and fallible values.

Five results say more than the code's comments do, or less than one might expect; each is an
if-and-only-if, with an input on which the property fails where it can fail.

* A duplicate scan is error-free exactly on *clean* data (`ErrorFreeIffClean`): among other
  things every key whose newest record is above the watermark must have a put there
  (`DeletedKeyFails`). When a run fails, fewer than one batch of pairs already collected is not
  delivered (`BatchingLosesNothing`), and that can be all there is (`FailureLosesTheBatch`).
* The lock check protects a read in every run exactly when the query is not *exposed*
  (`SafeIffNotExposed`). A stale read, and a read at the maximum timestamp, do not raise
  `max_ts` by design, so for them a lock can appear behind the check; those queries rely on
  guarantees made elsewhere.
* Scaling a pool and scaling it back restores the task limit exactly when the limit is a
  multiple of the size and the product in between does not saturate (`ResizeRoundTrip`,
  `LimitCanBeLost`).
* A window of the time-slice inspector holds the average poll time exactly when it has fewer
  than 2^32 polls, because the count is truncated to 32 bits (`WindowIsAverageIff`,
  `TruncatedWindow`).
* An allocation from the memory quota is granted exactly when it fits by signed arithmetic,
  although the first of its two comparisons is made on an unsigned cast (`MemoryQuota.Alloc`).

Conventions. Keys are ranks in byte order, instants and durations are numbers of one unit,
floating-point thresholds and averages are real numbers. What the code gets from outside (clock
readings, snapshot results, handler results, CPU samples, stall checks, completion orders) is a
parameter over which every statement is universally quantified. Bounded machine integers are
written out where they can matter: saturating products, casts between signed and unsigned, the
32-bit truncation. Verify everything with `dafny verify dfyconfig.toml`.

## Model

| member | source | states |
|---|---|---|
| `DuplicateSpec.RunEnd` | tikv/src/import/duplicate_detect.rs:165-175 | The position that skipping all versions of a key ends at is the first one not holding a record of that key |
| `DuplicateSpec.SkipMarks` | tikv/src/import/duplicate_detect.rs:146-163 | The position that skipping locks and rollbacks ends at is the first one not holding such a record of the key |
| `DuplicateSpec.NextImport` | tikv/src/import/duplicate_detect.rs:68-77 | The next import position is the first one that is unreadable or above the watermark |
| `DuplicateDetection.DuplicateDetector.Open` | tikv/src/import/duplicate_detect.rs:27-52 | Opening and seeking may fail; otherwise all responses of the job are pending |
| `DuplicateDetection.DuplicateDetector.MoveToNextImportKey` | tikv/src/import/duplicate_detect.rs:68-77 | Moves the cursor to that position and returns the key and commit timestamp there, nothing at the end, or the iterator's error |
| `DuplicateDetection.DuplicateDetector.SkipLockAndRollback` | tikv/src/import/duplicate_detect.rs:146-163 | Leaves the cursor at the first other record; returns its write only if it is of the same key, or the error met |
| `DuplicateDetection.DuplicateDetector.SkipAllVersion` | tikv/src/import/duplicate_detect.rs:165-175 | Leaves the cursor behind the key's records; fails only if that position is unreadable |
| `DuplicateDetection.DuplicateDetector.CollectCurrentKeyDuplicate` | tikv/src/import/duplicate_detect.rs:79-144 | Appends exactly the group the walk over the key yields and ends where the walk ends, or fails with its error |
| `DuplicateDetection.DuplicateDetector.TakeVersion` | tikv/src/import/duplicate_detect.rs:104-142 | One turn of the version loop neither adds to nor drops from what the rest of the walk yields |
| `DuplicateDetection.DuplicateDetector.PushPairs` | tikv/src/import/duplicate_detect.rs:117-129 | Pushes the pending newest version once, before the first older one, or fails without pushing |
| `DuplicateDetection.DuplicateDetector.TryNext` | tikv/src/import/duplicate_detect.rs:54-66 | Returns whole groups up to the batch limit, leaves exactly the remaining groups, and always makes progress |
| `DuplicateDetection.DuplicateDetector.Next` | tikv/src/import/duplicate_detect.rs:201-223 | Delivers the first pending response and leaves the others; after an error nothing follows |
| `DuplicateDetection.DuplicateDetector.Drain` | tikv/src/import/duplicate_detect.rs:201-223 | A consumer terminates and receives exactly the pending responses |
| `DuplicateTheorems.OlderPushesLive` | tikv/src/import/duplicate_detect.rs:86-144 | The version loop pushes the qualifying older puts, preceded by the pending newest one exactly when there is any |
| `DuplicateTheorems.GroupIsReport` | tikv/src/import/duplicate_detect.rs:79-144 | The group of a key is its reported records, and the cursor ends behind the key |
| `DuplicateTheorems.ScanReportsExactly` | tikv/src/import/duplicate_detect.rs:54-175 | For every sorted column and either mode a scan collects a prefix of the reported records, and all of them without an error |
| `DuplicateTheorems.DetectionIsExact` | tikv/src/import/duplicate_detect.rs:54-175 | An error-free scan yields a pair if and only if a reported record has it, ordered by key and from newest to oldest |
| `DuplicateTheorems.DeliveredIsExactPrefix` | tikv/src/import/duplicate_detect.rs:54-66 | What the responses deliver is a prefix of the exact answer even if the run fails, and all of it otherwise |
| `DuplicateTheorems.ErrorFreeIffClean` | tikv/src/import/duplicate_detect.rs:79-198 | A run is error-free if and only if the data is clean |
| `DuplicateTheorems.KeyOnlyDropsNewest` | tikv/src/import/duplicate_detect.rs:86-130 | Whenever the full-value run succeeds, the key-only run succeeds with the same groups minus each group's newest pair, values absent |
| `DuplicateTheorems.BatchesAreWholeGroups` | tikv/src/import/duplicate_detect.rs:54-66 | No key's group is split across responses |
| `DuplicateTheorems.BatchingLosesNothing` | tikv/src/import/duplicate_detect.rs:54-66 | The concatenated batches are the one-shot result; after an error whole groups amounting to less than one batch are missing |
| `DuplicateTheorems.BatchSizes` | tikv/src/import/duplicate_detect.rs:201-223 | Every response but the last is a full batch, no batch is empty, and an error can only be the last response |
| `DuplicateRun.Detect` | tikv/src/import/duplicate_detect.rs:27-223 | The whole request, end to end: a prefix of the exact answer in full batches, and all of it without an error if and only if the data is clean |
| `DuplicateRun.DeletedKeyFails` | tikv/src/import/duplicate_detect.rs:79-93 | Every key whose newest record above the watermark is a delete makes the run fail |
| `DuplicateRun.FailureLosesTheBatch` | tikv/src/import/duplicate_detect.rs:54-66 | An input whose exact answer has two pairs, of which a failing run delivers none |
| `DuplicateRun.ImportOverExistingRow` | tikv/src/import/duplicate_detect.rs:86-142 | A row imported above the watermark over an unfenced row below it is reported together with that row, and over clean data both are delivered, the imported one only with values |
| `DuplicateRun.FencedRowIsNotReported` | tikv/components/txn_types/src/write.rs:424-441 | A put at or below the watermark with a fence at or below it is not taken for an existing row |
| `DuplicateRun.ValueIsStored` | tikv/src/import/duplicate_detect.rs:177-198 | A pair's value is the embedded one, or else the default column's under the write's start timestamp |
| `IngestLatching.IngestLatch.AcquireLock` | tikv/src/import/ingest.rs:34-38 | Latches the sst's column family and path, and says whether it was free; an unreadable path changes nothing |
| `IngestLatching.IngestLatch.ReleaseLock` | tikv/src/import/ingest.rs:40-44 | Unlatches it and says whether it was latched |
| `IngestLatching.IngestLatch.CountSstsInCf` | tikv/src/import/ingest.rs:46-50 | Counts exactly the latched ssts of the column family |
| `IngestLatching.IngestLatch.AcquireAll` | tikv/src/import/ingest.rs:294-298 | The admission loop latches exactly the ssts it returns |
| `IngestLatching.IngestLatch.ReleaseAll` | tikv/src/import/ingest.rs:301-303 | The release loops unlatch exactly the given ssts |
| `IngestLatching.IngestLatch.Ingest` | tikv/src/import/ingest.rs:258-320 | A request taken by itself leaves the latch as it was, and runs if and only if it is neither suspended nor stalled and its list is free of repetitions and conflicts |
| `IngestLatching.SlotIsIdentity` | tikv/src/import/ingest.rs:34-38 | Two ssts exclude each other if and only if they are the same file of the same column family |
| `IngestLatching.LatchCountsSsts` | tikv/src/import/ingest.rs:46-50 | Counting the slots of a column family is counting the ssts that latched them |
| `IngestLatching.GrantedIsFree` | tikv/src/import/ingest.rs:294-298 | What is granted has no repetition and was not latched before |
| `IngestLatching.GrantedAllIff` | tikv/src/import/ingest.rs:294-300 | Everything is granted if and only if the list is readable, free of repetitions and of conflicts |
| `IngestProtocol.StepKeepsInv` | tikv/src/import/ingest.rs:270-319 | Every atomic step of every request keeps the ownership and counting invariant |
| `IngestProtocol.LatchOwnership` | tikv/src/import/ingest.rs:275-319 | In every state of every run the latch is the disjoint union of what unfinished requests hold, and empty when all are finished |
| `IngestProtocol.IngestsItsWholeList` | tikv/src/import/ingest.rs:294-319 | In every run an ingesting request has latched its whole list, each sst once; a list with a repeated or unreadable sst never gets to ingest, whatever the others do |
| `IngestProtocol.IngestsAreDisjoint` | tikv/src/import/ingest.rs:294-319 | No two ingesting requests share an sst |
| `IngestProtocol.CountIsExact` | tikv/src/import/ingest.rs:283-289 | In every run the count taken for the stall check is the number of write-column ssts that all other requests hold at that moment |
| `IngestProtocol.AdmissionIsConservative` | tikv/src/import/ingest.rs:277-299 | Throughout the guarded section the write-column ssts that the others hold do not exceed that count, and no other request is in that section |
| `IngestProtocol.SomeoneCanStep` | tikv/src/import/ingest.rs:270-319 | No run deadlocks while a request is unfinished |
| `IngestProtocol.EveryRunEnds` | tikv/src/import/ingest.rs:270-319 | Every run is bounded by twice the number of ssts plus seven steps per request |
| `IngestAlone.UndisturbedIngest` | tikv/src/import/ingest.rs:258-320 | Every run of one request's steps alone ends with the latch as before and the guard free, having ingested if and only if the sequential call answers so |
| `IngestAlone.UndisturbedIngestEnds` | tikv/src/import/ingest.rs:258-320 | From every point of such a run there is a way to its end |
| `ReadPoolScaling.ReadPoolHandle.ScalePoolSize` | tikv/src/read_pool.rs:252-272 | Keeps the whole tasks per worker and multiplies by the new size, saturating; size and shared gauge follow |
| `ReadPoolScaling.ReadPoolHandle.SetMaxTasksPerWorker` | tikv/src/read_pool.rs:274-287 | The limit becomes the new per-worker limit times the size, saturating; size and gauge stay |
| `ReadPoolScaling.ReadPoolConfigRunner.Run` | tikv/src/read_pool.rs:597-622 | Every configuration task moves runner and handle together, through the state machine that `RunKeepsScaling` is about |
| `ReadPoolScaling.ReadPoolConfigRunner.AdjustPoolSize` | tikv/src/read_pool.rs:644-693 | A timer tick moves runner and handle together by at most one thread, through the same state machine |
| `ReadPoolScaling.ScaleOneCopy` | tikv/src/read_pool.rs:105-121 | Resizing through one copy of a handle changes no other copy's limits, only the shared gauge |
| `ReadPoolScaling.ScaleKeepsLimit` | tikv/src/read_pool.rs:252-272 | A resize keeps the limit at per-worker limit times size, or strictly below once a product has saturated |
| `ReadPoolScaling.RunKeepsScaling` | tikv/src/read_pool.rs:597-693 | Over every sequence of tasks and ticks size, count and gauge agree, the count stays in its bounds, and the limit is exact if and only if nothing saturated since it was set |
| `ReadPoolScaling.BuiltPoolIsScaled` | tikv/src/read_pool.rs:512-522 | A newly built pool satisfies that invariant |
| `ReadPoolScaling.ResizeRoundTrip` | tikv/src/read_pool.rs:252-272 | Resizing there and back restores the limit if and only if it was a multiple of the size and nothing saturated |
| `ReadPoolScaling.LimitCanBeLost` | tikv/src/read_pool.rs:252-272 | Two pools whose limit shrinks by resizing there and back: one not a multiple, one saturating in between |
| `ReadPoolScaling.PoolSizeTakesEffect` | tikv/src/read_pool.rs:601-608 | A new size is in force at once, unless it is the configured one already, when nothing moves |
| `ReadPoolScaling.AutoAdjustTakesEffect` | tikv/src/read_pool.rs:609-616 | Switching auto-adjustment off returns to the configured size, switching it on moves nothing |
| `ReadPoolScaling.MaxTasksTakesEffect` | tikv/src/read_pool.rs:617-619 | A new per-worker limit sets the task limit, capped, and nothing else |
| `ReadPoolScaling.GaugeShowsThreads` | tikv/src/read_pool.rs:252-272 | The gauge shows the thread count as long as it fits a signed word |
| `ReadPoolScaling.MovesIff` | tikv/src/read_pool.rs:662-685 | A tick adds or removes at most one thread, each exactly under the documented conditions, in numbers |
| `ReadPoolScaling.BusyPoolGrows` | tikv/src/read_pool.rs:644-693 | Under a constant busy reading with room in the quota the pool reaches its maximum and stays |
| `ReadPoolScaling.IdlePoolShrinks` | tikv/src/read_pool.rs:644-693 | With few tasks it shrinks exactly to the least size, not below the configured one, at which one thread less would be 70% busy |
| `ReadPoolScaling.NoQueueNoGrowth` | tikv/src/read_pool.rs:671-678 | With at most three tasks per thread it never grows, however long the reading lasts |
| `ReadPoolScaling.NoAutoNoMove` | tikv/src/read_pool.rs:645-661 | Without auto-adjustment or process statistics ticks change nothing |
| `ReadPoolScaling.OutExcludesIn` | tikv/src/read_pool.rs:644-693 | A reading that asks for growth at one size asks for shrinking at no size up to the grown one |
| `ReadPoolScaling.InExcludesOut` | tikv/src/read_pool.rs:644-693 | And conversely for a reading that asks for shrinking |
| `ReadPoolScaling.TicksGoOneWay` | tikv/src/read_pool.rs:644-693 | Under a constant reading the count moves in one direction only and rests for good once it rests |
| `ReadPoolScaling.TicksSettle` | tikv/src/read_pool.rs:644-693 | It rests within as many ticks as lie between the configured and the maximum size |
| `ReadPoolScaling.RunnerSettles` | tikv/src/read_pool.rs:644-693 | The whole runner, with its handle, is then unchanged by further ticks |
| `ReadPoolScaling.FlappingNeedsADrop` | tikv/src/read_pool.rs:644-693 | Undoing a growth step takes a drop of CPU usage of more than a tenth of a core per thread |
| `TimeSlice.TimeSliceInspector.Refresh` | tikv/src/read_pool.rs:375-406 | An update skips, panics or accepts a window as specified, for any histograms |
| `TimeSlice.TimeSliceInspector.GetEwmaTimeSlice` | tikv/src/read_pool.rs:408-410 | The copy read without the lock is the current average |
| `TimeSlice.SumHistograms` | tikv/src/read_pool.rs:375-386 | The loop over the histograms totals their sums and counts |
| `TimeSlice.WindowsPartition` | tikv/src/read_pool.rs:375-406 | The accepted windows account for all time and polls up to the last accepted sample: skipped updates lose none |
| `TimeSlice.EwmaClosedForm` | tikv/src/read_pool.rs:375-406 | The average is the initial one decayed once per window plus the weighted sum of the window values |
| `TimeSlice.EwmaBelowLargestWindow` | tikv/src/read_pool.rs:375-406 | It never exceeds the largest window value |
| `TimeSlice.EwmaConverges` | tikv/src/read_pool.rs:375-406 | Under constant windows its error shrinks by exactly the factor 0.7 per window |
| `TimeSlice.WindowIsAverageIff` | tikv/src/read_pool.rs:388-403 | A window's value is its average poll time if and only if it has fewer than 2^32 polls; the update panics exactly on a positive multiple |
| `TimeSlice.NewWindowWeighsThreeTenths` | tikv/src/read_pool.rs:376-400 | A new window weighs three tenths and the past seven; an update is skipped exactly below a tenth of a second or without polls |
| `TimeSlice.TruncatedWindow` | tikv/src/read_pool.rs:398 | One second in 2^32 + 1 polls is taken as one poll of one second; with 2^32 polls the update panics |
| `Admission.StepKeepsInv` | tikv/components/tikv_util/src/memory.rs:271-302 | Every atomic step of every request keeps quota and gauges equal to what the requests hold |
| `Admission.QuotaAndGaugesConserved` | tikv/src/coprocessor/endpoint.rs:905-927 | In every interleaving the quota in use is the bytes of the requests that hold them, each gauge its counted tasks, neither negative, grants within the largest capacity, and all zero when all are finished |
| `Admission.CapacityIsSet` | tikv/components/tikv_util/src/memory.rs:258-261 | The capacity can be changed at any moment and nothing else changes |
| `Admission.FreeNeverUnderflows` | tikv/components/tikv_util/src/memory.rs:286-302 | Giving quota back never reaches the correction for a negative amount |
| `Admission.GaugeOvershoot` | tikv/src/read_pool.rs:156-165 | From any consistent state, with at most n spawners between check and increment, the gauge exceeds the largest limit by at most n - 1 |
| `Admission.GaugeOvershootFromInit` | tikv/src/read_pool.rs:156-165 | The same from the start of every run |
| `Admission.OvershootIsReached` | tikv/src/read_pool.rs:156-165 | The bound is tight: for every positive limit and n some run reaches it |
| `AdmissionAlone.UndisturbedSpawn` | tikv/src/coprocessor/endpoint.rs:905-927 | Every run of one request's steps alone: spawned, refused or done exactly as the sequential call decides, holding both resources, neither, and neither again |
| `AdmissionAlone.RefusalIsQuiet` | tikv/components/tikv_util/src/memory.rs:271-277 | A request that does not fit is refused before the amount in use ever moves |
| `AdmissionAlone.UndisturbedSpawnEnds` | tikv/src/coprocessor/endpoint.rs:905-927 | From every point of such a run there is a way to being spawned or refused |
| `EndpointCalls.MemoryQuota.Alloc` | tikv/components/tikv_util/src/memory.rs:271-284 | Grants if and only if the bytes are within the size limit and fit by signed arithmetic; a refusal changes nothing |
| `EndpointCalls.MemoryQuota.Free` | tikv/components/tikv_util/src/memory.rs:286-302 | Gives back exactly the bytes whenever they are in use |
| `EndpointCalls.ReadPool.Spawn` | tikv/src/read_pool.rs:156-165 | Counts the task if and only if the gauge is below the limit |
| `EndpointCalls.SpawnWithMemoryQuotaCheck` | tikv/src/coprocessor/endpoint.rs:905-927 | Takes quota and a place in the pool together or neither; which error is returned follows from one comparison for the quota and one for the gauge |
| `EndpointCalls.Finish` | tikv/src/coprocessor/endpoint.rs:918-923 | The end of a future gives its bytes back, exactly whenever they are in use, and leaves the pool |
| `EndpointCalls.SpawnAndFinish` | tikv/src/coprocessor/endpoint.rs:905-927 | A spawn followed by its end restores quota and pool |
| `EndpointCalls.ConcurrencyManager.UpdateMaxTs` | tikv/components/concurrency_manager/src/lib.rs:212-257 | Raises `max_ts` to at least the timestamp, ignores the maximum timestamp, and changes nothing when it refuses |
| `EndpointCalls.ConcurrencyManager.ReadRangeCheck` | tikv/components/concurrency_manager/src/lock_table.rs:69-110 | Finds the lock with the smallest key of the range that has to stop the read, or shows there is none |
| `EndpointCalls.ConcurrencyManager.CheckMemoryLocksForRanges` | tikv/src/coprocessor/endpoint.rs:930-966 | Unless the timestamp is refused, succeeds if and only if no range has a blocking lock, otherwise reports the smallest one of the first range that has one, as a locked key or under timestamp-checked read committed as a write conflict; `max_ts` is raised even then, and never for a stale read |
| `LockCheck.BlocksIffStops` | tikv/components/txn_types/src/lock.rs:466-556 | The check reports a lock if and only if it has to: at snapshot isolation an unsettled change of data that may commit at or below the read, under timestamp-checked read committed any unsettled change of data |
| `LockCheck.MinCommitTsIsLeast` | tikv/src/storage/txn/actions/prewrite.rs:813-864 | The commit timestamp is the smallest above `max_ts`, the start and the for-update timestamps and not below the requested floor |
| `LockCheck.PublishedLocksAreOwn` | tikv/src/storage/txn/actions/prewrite.rs:813-864 | In every run a lock in the table is that of a prewrite of its key: kind, primary, start, mode, and a commit timestamp within the prewrite's limits |
| `LockCheck.StepKeepsInv` | tikv/src/coprocessor/endpoint.rs:930-966 | Every step of readers, writers and the lock table keeps the protocol invariant |
| `LockCheck.RunKeepsInv` | tikv/src/coprocessor/endpoint.rs:930-966 | So does every run |
| `LockCheck.FallsBackIff` | tikv/src/storage/txn/actions/prewrite.rs:813-864 | A prewrite falls back to two-phase commit exactly if its commit timestamp would exceed its limit, and then leaves nothing in memory |
| `LockCheck.WalkIsOrdered` | tikv/components/concurrency_manager/src/lock_table.rs:91-110 | The walk visits the handles of a range in key order, skipping none, and leaves the range exactly when none is left |
| `LockCheck.BeginsOnce` | tikv/src/coprocessor/endpoint.rs:935-938 | A read begins, or is refused its timestamp, only at its start, and a stale one is never refused |
| `LockCheck.ReaderGoesOn` | tikv/components/concurrency_manager/src/lock_table.rs:69-110 | A read is never stuck, except while the very handle it looks at is inside a writer's critical section |
| `LockCheck.WriterGoesOn` | tikv/components/concurrency_manager/src/key_handle.rs:85-100 | A writer in its critical section can always leave it |
| `LockCheck.StoppedForAReason` | tikv/src/coprocessor/endpoint.rs:930-966 | In every run a read is stopped only by a refused timestamp or by a lock that has to stop it, on a key of its ranges |
| `LockCheck.LookedAtIsSafe` | tikv/components/concurrency_manager/src/key_handle.rs:44-46 | A handle examined under its mutex has a holder that has not read `max_ts` yet or whose lock was just checked |
| `LockCheck.MoverStaysSafe` | tikv/src/storage/txn/actions/prewrite.rs:813-864 | Any move of a writer keeps it safe for a reader that has raised `max_ts`: what it reads now is at least the reader's timestamp and what it publishes lies above |
| `LockCheck.NoLateLock` | tikv/src/storage/txn/actions/prewrite.rs:813-864 | In every run, a lock published on a key behind a guarded reader commits above its timestamp |
| `LockCheck.SnapshotMissesNothing` | tikv/src/coprocessor/endpoint.rs:930-966 | In every run, a guarded reader's snapshot contains every write in its ranges that matters to it: a put or delete, not settled by the client, that may commit at or below its timestamp |
| `LockCheck.UnexposedIsHarmless` | tikv/components/txn_types/src/lock.rs:466-556 | To a query that is neither guarded nor exposed no lock can matter |
| `LockCheck.ExposedCanMiss` | tikv/components/concurrency_manager/src/lib.rs:212-219 | Every query that looks at locks without raising `max_ts` has a run in which a lock that matters appears behind it |
| `LockCheck.SafeIffNotExposed` | tikv/src/coprocessor/endpoint.rs:930-966 | A query is safe in every run if and only if it is not of that kind |
| `TrackerModel.Tracker.constructor` | tikv/src/coprocessor/tracker.rs:89-113 | A new tracker is in the initial stage with nothing accumulated |
| `TrackerModel.Tracker.OnScheduled` | tikv/src/coprocessor/tracker.rs:125-134 | Callable only in the initial stage; exactly one transition, with the schedule wait |
| `TrackerModel.Tracker.OnSnapshotFinished` | tikv/src/coprocessor/tracker.rs:136-145 | Callable only when scheduled; sets snapshot wait and total wait |
| `TrackerModel.Tracker.OnBeginAllItems` | tikv/src/coprocessor/tracker.rs:147-155 | Callable only with a snapshot; sets the handler build time |
| `TrackerModel.Tracker.OnBeginItem` | tikv/src/coprocessor/tracker.rs:157-172 | Callable only between items; adds the suspension since the previous item |
| `TrackerModel.Tracker.OnFinishItem` | tikv/src/coprocessor/tracker.rs:174-189 | Callable only inside an item; adds its process time and statistics |
| `TrackerModel.Tracker.CollectStorageStatistics` | tikv/src/coprocessor/tracker.rs:191-193 | Adds statistics and changes nothing else |
| `TrackerModel.Tracker.GetItemExecDetails` | tikv/src/coprocessor/tracker.rs:202-208 | Callable only between items; says the time inside the latest item, the time between it and the item before, the time until the snapshot and all statistics given so far, as read off the log of operations |
| `TrackerModel.Tracker.GetExecDetails` | tikv/src/coprocessor/tracker.rs:212-219 | Callable only between items; says the time inside all items, the time between them, the time until the snapshot and all statistics given, as read off the log of operations |
| `TrackerModel.Tracker.OnFinishAllItems` | tikv/src/coprocessor/tracker.rs:259-269 | Callable only between items; sets the lifetime and hands the statistics over |
| `TrackerModel.Tracker.Track` | tikv/src/coprocessor/tracker.rs:271-398 | Hands over everything accumulated and nothing twice |
| `TrackerModel.Tracker.Drop` | tikv/src/coprocessor/tracker.rs:451-504 | From every reachable stage, without a panic, ends tracked; hands over exactly what was accumulated unless that was done, and warns exactly when the deadline has passed |
| `TrackerTheorems.RunAccounts` | tikv/src/coprocessor/tracker.rs:125-189 | Every run keeps the three time accounts: waiting, items, lifetime |
| `TrackerTheorems.TimesAddUp` | tikv/src/coprocessor/tracker.rs:259-269 | A finished request's lifetime is exactly wait, handler build, process, suspension and the two idle gaps, all non-negative, for any clock and any number of items |
| `TrackerTheorems.WaitsAreExact` | tikv/src/coprocessor/tracker.rs:125-155 | Schedule wait, snapshot wait and handler build each lie between their own two operations |
| `TrackerTheorems.ItemTimesAreExact` | tikv/src/coprocessor/tracker.rs:157-189 | Process time is the time inside items and suspension the time between them, in total and for the latest item |
| `TrackerTheorems.ItemsTelescope` | tikv/src/coprocessor/tracker.rs:157-189 | Process plus suspension is the last finish minus the first begin |
| `TrackerTheorems.HandedOverOnce` | tikv/src/coprocessor/tracker.rs:271-276 | In every run the statistics are handed over once, in full, at the one end of all items |
| `TrackerTheorems.GivenIsSum` | tikv/src/coprocessor/tracker.rs:174-193 | Every figure of the statistics is the sum over what was given |
| `TrackerTheorems.DetailsAreExact` | tikv/src/coprocessor/tracker.rs:202-219 | Between items every reported figure equals what the log of operations says |
| `RequestDrivers.Poll` | tikv/components/tracker/src/future.rs:49-62 | One poll is one item, whatever the future does |
| `RequestDrivers.PollToEnd` | tikv/src/coprocessor/endpoint.rs:494-531 | A future that becomes ready answers with the totals of all polls; one that is dropped answers nothing |
| `RequestDrivers.Prepare` | tikv/src/coprocessor/endpoint.rs:443-491 | The steps before the first item stop with the first error in order, or reach the items |
| `RequestDrivers.RunUnary` | tikv/src/coprocessor/endpoint.rs:435-532 | The body, with an exit at every point, never reaches a forbidden stage |
| `RequestDrivers.HandleUnary` | tikv/src/coprocessor/endpoint.rs:435-532 | Ends tracked with the handler's statistics handed over once; answers if and only if the handler finishes, a handler error being an answer; refuses if and only if a step before failed; a cached answer is given exactly for an unchanged data version; a bucket mismatch is reported exactly for a named version below the latest; the times told to the client fit in the lifetime |
| `RequestDrivers.StreamOne` | tikv/src/coprocessor/endpoint.rs:776-788 | The times an item reports are exactly what its call added to the totals |
| `RequestDrivers.StreamItems` | tikv/src/coprocessor/endpoint.rs:775-813 | One response per call up to and including the first finished or failed one, silent at nothing, and no further call |
| `RequestDrivers.HandleStream` | tikv/src/coprocessor/endpoint.rs:741-815 | The same for the whole stream with a drop at every await and at any item; the statistics of all calls are handed over once, the items' times sum to the measured totals when the last call answered and never exceed them, and with wait and handler build they fit in the lifetime |
| `BatchTasks.CollectInOrder` | tikv/src/coprocessor/endpoint.rs:688-732 | For every completion order the responses given out are those of the longest finished run of tasks from the first, and all of them if and only if all finished |
| `BatchTasks.ResponsesMatchTasks` | tikv/src/coprocessor/endpoint.rs:695-731 | Each response stands at its task's position with its task's id; a rejected task gets its own error, any other the answer or error its own future ended with |
| `BatchTasks.ErrorStandsAlone` | tikv/src/coprocessor/endpoint.rs:968-979 | Each kind of error fills its own part of the answer and no other |
| `BatchTasks.OrderDoesNotMatter` | tikv/src/coprocessor/endpoint.rs:732-733 | Two completion orders of the same results give the same responses |
| `Checksum.FirstForeign` | tikv/src/coprocessor/checksum.rs:79-81 | The row at which the scan refuses is the first without the new prefix |
| `Checksum.AbsorbContinues` | tikv/src/coprocessor/checksum.rs:104-113 | Writing to a digest continues the fold of the bytes written before |
| `Checksum.RowIsReadByByte` | tikv/src/coprocessor/checksum.rs:74-83 | For the digest that remembers all bytes, a row contributes the old prefix, then the rest of the key, then the value |
| `Checksum.TwinsCancel` | tikv/src/coprocessor/checksum.rs:104-113 | A row scanned twice leaves the checksum as it was and shows in the totals |
| `Checksum.RowIsRewritten` | tikv/src/coprocessor/checksum.rs:82-83 | Continuing from the old prefix's digest gives the digest of the rewritten row from scratch |
| `Checksum.HandleRequest` | tikv/src/coprocessor/checksum.rs:58-97 | The result is the totals of the rewritten rows computed without a rule, or the first error met |
| `Checksum.TotalsAppend` | tikv/src/coprocessor/checksum.rs:77-86 | Checksums combine by exclusive or and byte totals by addition over consecutive rows |
| `Checksum.NoRuleIsPlain` | tikv/src/coprocessor/checksum.rs:67-72 | A request without a rule scans the rows as they are |
| `Checksum.OrderIndependent` | tikv/src/coprocessor/checksum.rs:58-97 | Under every rule, the answer and whether there is one depend only on the multiset of rows |
| `Checksum.SplitIndependent` | tikv/src/coprocessor/checksum.rs:77-91 | Under every rule, for any distribution of the rows over scans, the scans all succeed if and only if the whole one does, and then their answers combine to its answer |
| `Checksum.CopiedTableMatches` | tikv/src/coprocessor/checksum.rs:64-86 | A table copied under a new prefix and checked with the rule has the totals of the original |

## Left out

- Key encoding and the parsing of write records: keys and writes are already decoded, and a decoding failure is a case of the data.
- The Crc64 polynomial: any streaming digest is allowed, so nothing is said about collisions.
- 64-bit overflow of the checksum's byte total and of counters that would need more memory than a machine has: they are unbounded numbers.
- The signed 64-bit overflow of the quota's in-use counter: it needs more concurrent requests than can exist.
- Rounding of floating-point thresholds and averages: real arithmetic is used.
- The future-pool variant of the read pool handle, busy thresholds and estimated wait times: they only add short computations.
- Notification of pool-size changes over channels: best effort in the code, so nothing is claimed.
- Cancellation of spawned tasks and of ingest requests in mid-flight, and pool shutdown: requests run to completion or are refused. The drivers of coprocessor requests are modelled with a drop at every await, the semaphore's included.
- The limit check of `update_max_ts` against the timestamp oracle: its answer is a parameter, or a step that refuses the reader.
- Classification of errors into region, lock and other errors: batched tasks carry the classified error.
- Deadlines and suspension as clocks: each check's answer is a parameter.
- The expiry and renewal of import suspension in `tikv/src/import/ingest.rs`: short computations on one timestamp.
- Metrics, logging, slow-query reporting and perf contexts inside `track`: only the hand-over of statistics is modelled.
- DAG and analyze execution, snapshot retrieval, semaphores and the plugin registry.
