# TensorTorrent: a verified model of the native core

This project models the parts of TensorTorrent's Rust crates that hold state, run concurrently, or
search, and proves what they promise. There are four parts.

**Residency and allocation** (`AllocationTable.dfy`, `ResidencyStore.dfy`, `ResidencyProtocol.dfy`,
`ResidencyLimits.dfy`).
A versioned store of tensor copies sits on a reference-counted allocation table, each behind its
own lock. `put`, `alias` and `replicate` give their locks up half-way. The model has one atomic step
per lock section and any number of calls in progress, and the theorems hold in every interleaving.

**Streaming parameters** (`ChunkCache.dfy`, `LazyQueue.dfy`, `StreamingStore.dfy`,
`StreamingProtocol.dfy`, `StreamingWakeups.dfy`, `StreamingGuarantees.dfy`, `StreamingPins.dfy`,
`StreamingProgress.dfy`, `StreamingExamples.dfy`, and below them `Crc32.dfy`, `PackFile.dfy`, `SpillCodec.dfy`). Acquirers, prefetchers, I/O workers and a closer share a queue, a set of keys in
flight, waiter tickets and a byte cache. The cache's lazily cleaned queue of stamped keys is proved to
behave like an eager move-to-back queue; the protocol is a machine whose runs are all interleavings.

**Schedule validation** (`DependencyGraph.dfy`, `TopologicalSort.dfy`, `ScheduleValidator.dfy`,
`ScheduleSafety.dfy`, `ScheduleVerdicts.dfy`). The validator's loops are proved to find no errors exactly when a declarative
predicate holds; the theorems then speak about every linear extension of the dependencies.

**Placement planning** (`PlacementState.dfy`, `PlacementAccounting.dfy`, `PlanScores.dfy`,
`BeamSearch.dfy`, `SurvivorOrder.dfy`, `LocalSearch.dfy`, `Finalists.dfy`). Placing a region, expanding
and pruning a beam, improving a plan, and choosing finalists.

Where a promise one might expect does not hold of the code, the code is modelled as it is, a lemma
gives a concrete input that breaks the promise, and another lemma says exactly when it breaks:

- A lease does not survive a replacement (`LeaseLostExactlyByReplacement`, `ReplacementCanFreeLeasedBytes`).
- If an acquirer cannot start a worker, it leaves its key registered, and the next acquirer of that key
  sleeps with nobody left to serve it (`FailedStartStrandsWaiter`). `UnattendedExactly` says which steps
  leave a queued key with nobody on the way to it and which steps end that, `UnattendedIffStranded` says
  it of runs, and `SleeperHasHelper`, `HelpedSleeperCanBeServed` and `UnhelpedSleeperSleepsOn` say what
  it means for a sleeper.
- A failed prefetch empties the store while a worker is reading, and a second worker reads the same key
  (`SameKeyReadTwice`; `FlightBreaksExactly` names the steps that break single flight, and
  `EachKeyIsReadOnce` holds up to the first of them and again once single flight is back).
- The validator accepts schedules in which a computation may run before any transfer brings its input
  (`TransferMayComeTooLate`; `RemoteReads` gives the exact condition).
- The validator can accept a schedule in one run and reject it in another, because it keeps the first
  completion it meets in hash order (`VerdictMayDependOnOrder`; `VerdictsDifferIff` gives the exact condition).
- `set_capacity_limit` may set a limit below what is live (`LimitBelowLive`; `OverExactly` for steps and
  `OverIffSetBelow` for runs).
- A worker may store a key over an entry that somebody holds, and the pin is lost (`HeldEntryLosesItsPin`).
  `PinsBreakExactly` says which steps make a pin count wrong and which make it right again, and
  `PinsAreHolders` says it of runs. A pin count is never too high, and wrong only after single flight was broken
  (`FlightKeepsPins`).
- A comment in `search.rs` (lines 776-778) says that dominance pruning does not depend on the order of entries. It
  does if scores are nearly equal (`PruningDependsOnOrder`; `OrderFreeIffChampions` gives the exact
  condition). The search itself does not depend on the number of workers, because the order of the expansion does
  not (`StepBeam`).

Two notions of completion choice occur. `CompletionChoice` picks a completion for each tensor and resource
separately. The code visits the instructions in one order and keeps the first completion it meets,
so only some of these choices can happen (`Visit`). What is proved for every `CompletionChoice` holds for every
run; `ChoicesDifferIff` is the condition for separate choices, `VerdictsDifferIff` the one for visiting orders.

Assumptions. Each lock section is atomic: it touches at most one thing that its own lock does not
protect. `ensure_workers` and the key loop of `prefetch` are split finer than their locks: other threads may act
between two starts and between two keys. That adds runs, so what is proved of every run holds, and the example
runs use none of the added ones. Counters do not overflow 64 bits. Times are real numbers, and a transfer
estimate is never negative. Strings that are only compared are numbers. Workers do not panic. Whoever acquires a chunk
releases it once. Only the residency store uses its allocation table.

`dafny verify dfyconfig.toml` checks everything.

## Model

| member | source | states |
|---|---|---|
| AllocationTables.RegisterKeepsAccounts | crates/tt-memory/src/allocation.rs:48-95 | registering keeps the live counters equal to the sums of live capacities, in total and per resource, and below the peak |
| AllocationTables.ReleaseKeepsAccounts | crates/tt-memory/src/allocation.rs:98-119 | so does releasing, and its saturating subtractions never saturate |
| AllocationTables.LimitsHold | crates/tt-memory/src/allocation.rs:40-95 | no registration or release takes a resource past its limit |
| AllocationTables.ReleaseUndoesRegister | crates/tt-memory/src/allocation.rs:48-119 | releasing right after a successful registration restores records and live counters and frees exactly what was taken |
| AllocationTables.EmptyTableReadsZero | crates/tt-memory/src/allocation.rs:98-135 | with nothing allocated every live counter reads zero |
| AllocationTables.AllocationTable.Register | crates/tt-memory/src/allocation.rs:48-95 | the in-place method computes the new table and the error, and keeps the accounts |
| AllocationTables.AllocationTable.Release | crates/tt-memory/src/allocation.rs:98-119 | likewise for release and the bytes freed |
| AllocationTables.AllocationTable.SetCapacityLimit | crates/tt-memory/src/allocation.rs:40-46 | only the limit of that resource changes |
| ResidencyStores.ResidencyStore.InvalidateSiblings | crates/tt-memory/src/residency.rs:107-156 | every copy on another resource becomes invalid and loses its authority, and nothing else changes |
| ResidencyStores.ResidencyStore.PutOpaque | crates/tt-memory/src/residency.rs:94-156 | run alone, the call is its lock sections in sequence, with registration first and compensation on replacement |
| ResidencyStores.ResidencyStore.AliasSameAllocation | crates/tt-memory/src/residency.rs:163-226 | the same for aliasing, which re-validates its snapshot after registering |
| ResidencyStores.ResidencyStore.Replicate | crates/tt-memory/src/residency.rs:235-301 | the same for replication, which re-validates the version |
| ResidencyStores.ResidencyStore.ReleaseCopy | crates/tt-memory/src/residency.rs:401-427 | the same for release, which refuses a leased copy and unlocks before releasing |
| ResidencyStores.ResidencyStore.Get | crates/tt-memory/src/residency.rs:329-348 | returns the copy on that resource iff it is there and valid |
| ResidencyStores.ResidencyStore.AcquireLease | crates/tt-memory/src/residency.rs:360-378 | counts a lease on a valid copy, or says why not |
| ResidencyStores.ResidencyStore.ReleaseLease | crates/tt-memory/src/residency.rs:380-399 | gives a lease back, or says why not |
| ResidencyProtocol.EveryRunKeepsInv | crates/tt-memory/src/residency.rs:94-427 | accounts, reference balance, coherence, backing and the soundness of every waiting call hold after every run |
| ResidencyProtocol.ReferenceCountsAreExact | crates/tt-memory/src/residency.rs:94-301 | in every interleaving a reference count is the number of copies naming the allocation, stale ones included, plus references held by calls in progress; no ignored release was an error |
| ResidencyProtocol.LiveBytesAreExact | crates/tt-memory/src/allocation.rs:48-135 | in every interleaving live bytes are exact sums, in total and per resource |
| ResidencyProtocol.NothingLeaks | crates/tt-memory/src/residency.rs:401-427 | once all calls have returned and all copies are released, nothing is allocated and the counters are zero |
| ResidencyProtocol.ValidCopiesAreCurrent | crates/tt-memory/src/residency.rs:107-300 | in every interleaving a valid copy has its record's version and layout, and an allocation of exactly the size that layout needs |
| ResidencyProtocol.OneValidAuthority | crates/tt-memory/src/residency.rs:107-156 | in every interleaving at most one copy of a tensor is authoritative, and it is valid |
| ResidencyProtocol.HistoryIsKept | crates/tt-memory/src/residency.rs:107-300 | continuing a run never removes a record, lowers a version or changes what a version means |
| ResidencyProtocol.LeaseLostExactlyByReplacement | crates/tt-memory/src/residency.rs:107-300 | other than by being returned, a lease is lost iff a put, alias or replica is installed over its copy |
| ResidencyProtocol.ReplacementCanFreeLeasedBytes | crates/tt-memory/src/residency.rs:270-300 | a run in which a replica frees the allocation under a lease |
| ResidencyLimits.OverExactly | crates/tt-memory/src/allocation.rs:40-95 | a step of any call takes a resource above its limit iff it sets a limit below the live bytes; while a resource stands above, no step adds to it |
| ResidencyLimits.OverIffSetBelow | crates/tt-memory/src/allocation.rs:40-95 | after every run a resource stands above its limit iff the limit in force was set below the bytes then live, and since then they have only fallen and stayed above it |
| ResidencyLimits.LimitBelowLive | crates/tt-memory/src/allocation.rs:40-46 | a run in which a limit is set below the live bytes |
| ChunkCaches.TouchKeeps | crates/tt-storage/src/cache.rs:44-74 | a lookup keeps the queue a duplicate-free list of exactly the cached keys, and the byte count exact |
| ChunkCaches.UnpinKeeps | crates/tt-storage/src/cache.rs:120-125 | so does a release |
| ChunkCaches.InsertKeeps | crates/tt-storage/src/cache.rs:76-118 | so does an insertion |
| ChunkCaches.EvictionIsAPass | crates/tt-storage/src/cache.rs:84-102 | eviction looks at a prefix of the queue in order, each key while space is still short; it drops exactly the unpinned ones, moves the pinned ones to the back, and stops when the need fits or all were looked at |
| ChunkCaches.InsertMakesRoom | crates/tt-storage/src/cache.rs:76-118 | after an insertion the entry is cached, unpinned and last; only unpinned others are gone; and all fits or everything else is pinned |
| LazyQueues.ChunkCache.Get | crates/tt-storage/src/cache.rs:44-74 | the stamped queue does what the eager one does; counters and the queue's length bound are kept |
| LazyQueues.ChunkCache.MoveToBack | crates/tt-storage/src/cache.rs:58-72 | a new stamp stands for the key, the live keys are those before plus this one, and after tidying up the queue is at most four times as long as the cache (or 64) |
| LazyQueues.ChunkCache.Compact | crates/tt-storage/src/cache.rs:64-72 | exactly the live stamps are kept, in order |
| LazyQueues.ChunkCache.MakeRoom | crates/tt-storage/src/cache.rs:84-102 | the loop over stamped keys, which skips dead stamps, terminates and equals eviction from the eager queue |
| LazyQueues.ChunkCache.Insert | crates/tt-storage/src/cache.rs:76-118 | equals insertion into the eager cache |
| LazyQueues.ChunkCache.Release | crates/tt-storage/src/cache.rs:120-125 | equals unpinning in the eager cache |
| Crc32.BurstIsDetected | crates/tt-storage/src/pack.rs:266-276 | payloads that differ only within four consecutive bytes never have the same checksum, at any length |
| Crc32.OneByteIsDetected | crates/tt-storage/src/pack.rs:266-276 | payloads of equal length that differ in one byte never have the same checksum |
| Crc32.ZeroByteChecksum | crates/tt-storage/src/pack.rs:266-276 | the checksum of one zero byte is the published value |
| Crc32.Crc32Ieee | crates/tt-storage/src/pack.rs:266-276 | the nested loop computes the checksum that the lemmas are about |
| PackFiles.SortRanges | crates/tt-storage/src/pack.rs:112 | some sorted permutation by offset and end |
| PackFiles.Sweep | crates/tt-storage/src/pack.rs:113-125 | on sorted ranges the one pass reports an overlap iff two ranges share a byte, empty ranges in between included |
| PackFiles.DisjointIsOrderFree | crates/tt-storage/src/pack.rs:112-125 | whether ranges overlap does not depend on how a sort orders them |
| PackFiles.CheckEntries | crates/tt-storage/src/pack.rs:65-111 | no error iff every entry is well formed and names are distinct |
| PackFiles.Validate | crates/tt-storage/src/pack.rs:52-126 | no error iff the version is right, entries are well formed, names are distinct and no two tensors share a byte |
| PackFiles.Open | crates/tt-storage/src/pack.rs:139-192 | succeeds iff the manifest is acceptable and every range is inside the file, and then indexes every name |
| PackFiles.OpenedReadsSucceed | crates/tt-storage/src/pack.rs:204-262 | after opening, a read returns exactly the tensor's bytes unless its checksum disagrees |
| PackFiles.TensorsAreIndependent | crates/tt-storage/src/pack.rs:204-262 | overwriting one tensor's bytes never changes what is read for another |
| PackFiles.CorruptionIsReported | crates/tt-storage/src/pack.rs:250-262 | a tensor with a checksum never reads back silently wrong after damage within four consecutive bytes |
| SpillCodec.WrittenThenRead | crates/tt-storage/src/spill.rs:27-200 | reading what was written returns the metadata and the payload |
| SpillCodec.ReadIsWritten | crates/tt-storage/src/spill.rs:111-200 | every file the reader accepts is the encoding of what it returns |
| SpillCodec.NoTruncationOrExtension | crates/tt-storage/src/spill.rs:111-200 | no extension of an accepted file is accepted |
| SpillCodec.WriteSpill | crates/tt-storage/src/spill.rs:27-108 | writes the layout exactly when the metadata and payload may be written |
| SpillCodec.ReadSpill | crates/tt-storage/src/spill.rs:111-200 | the sequential reader computes the decoder that the lemmas are about, errors included |
| StreamingStores.HintsAreDeduplicated | crates/tt-storage/src/streaming.rs:138-161 | a batch of hints appends only new keys, each once, never past the limit; it changes no entry and no pin; if the queue did not fill up, every key is cached or in flight |
| StreamingStores.StreamingStore.Prefetch | crates/tt-storage/src/streaming.rs:138-161 | the loop does that in place |
| StreamingStores.StreamingStore.Ask | crates/tt-storage/src/streaming.rs:184-205 | the locked section of an acquisition: a hit, a ticket to wait for, or a new ticket with the key put first |
| StreamingStores.StreamingStore.Look | crates/tt-storage/src/streaming.rs:322-336 | a worker takes the first key, leaves a closed store, or sleeps |
| StreamingStores.StreamingStore.Serve | crates/tt-storage/src/streaming.rs:337-374 | a worker's round: read, store or record the error, finish the key, mark its ticket |
| StreamingStores.StreamingStore.FailPending | crates/tt-storage/src/streaming.rs:302-318 | empties the store, leaves the error for every awaited key, marks every ticket, whatever the order |
| StreamingStores.StreamingStore.Close | crates/tt-storage/src/streaming.rs:256-275 | the first call empties the store and marks every ticket; later calls do nothing |
| StreamingProtocol.KindOf | crates/tt-storage/src/streaming.rs:132-375 | every action of every thread is a section of one of seven kinds |
| StreamingProtocol.EveryRunKeepsInv | crates/tt-storage/src/streaming.rs:132-375 | all protocol invariants hold after every run |
| StreamingGuarantees.NoLostWaiter | crates/tt-storage/src/streaming.rs:176-226 | in every reachable state, races with close included, an awaited ticket is done, or registered with its key queued or with a worker, or in the hands of a thread about to mark it; a sleeper's registered ticket in a closed store has yet to be collected by close; and who is not asleep yet does not fall asleep in a closed store |
| StreamingWakeups.UnattendedExactly | crates/tt-storage/src/streaming.rs:138-205 | from an attended state, a step leaves a queued key in an open store with nobody on the way to it iff it is an acquirer's failed start with a key queued, the store open and no other thread poised; from an unattended one, a step ends that iff it queues a new key or closes the store |
| StreamingWakeups.UnattendedIffStranded | crates/tt-storage/src/streaming.rs:138-205 | after every run a queued key is unattended iff such a failed start happened and nothing since has queued a new key or closed the store |
| StreamingGuarantees.SleeperHasHelper | crates/tt-storage/src/streaming.rs:176-375 | in every reachable state a sleeping acquirer has a helper iff the run has not left the queue stranded or a thread has its ticket in hand; and every helper can take a step |
| StreamingProgress.HelpedSleeperCanBeServed | crates/tt-storage/src/streaming.rs:176-375 | after every run, if a sleeper has a helper, some continuation without new calls and without failed starts marks its ticket done |
| StreamingProgress.UnhelpedSleeperSleepsOn | crates/tt-storage/src/streaming.rs:193-226 | a sleeper without a helper stays asleep, its ticket unmarked, in every continuation in which nobody queues a new key or closes the store |
| StreamingGuarantees.JoinedWorkersGoOn | crates/tt-storage/src/streaming.rs:256-280 | each worker that close waits for has left or can take a step |
| StreamingProgress.CloseCanFinish | crates/tt-storage/src/streaming.rs:256-280 | after every run, a call of close, wherever it stands, is over after some continuation without new calls and without failed starts |
| StreamingGuarantees.EachKeyIsReadOnce | crates/tt-storage/src/streaming.rs:132-226 | from any point at which single flight holds, the start included, until the store is emptied while a worker is busy: waiters are the keys in flight, the queue has no duplicates, each key in flight is queued or with exactly one worker, and no insertion overwrites a cached entry |
| StreamingGuarantees.FlightBreaksExactly | crates/tt-storage/src/streaming.rs:256-318 | a step breaks single flight iff it is close or a failed prefetch emptying the store while a worker is busy with a key |
| StreamingGuarantees.EmptyingRestoresFlight | crates/tt-storage/src/streaming.rs:256-318 | whatever went before, after the store is emptied single flight holds iff no worker is busy with a key |
| StreamingGuarantees.AcquiredBytesAreTheFile | crates/tt-storage/src/streaming.rs:176-226 | in every reachable state acquired and cached bytes are those of the file; an acquisition is refused only for a stated cause that holds |
| StreamingPins.PinsBreakExactly | crates/tt-storage/src/cache.rs:76-125 | a step makes the pin count of a key differ from the number of its holders iff a worker stores the key over a pinned entry, and makes it right again iff the last holder lets go |
| StreamingPins.PinsAreHolders | crates/tt-storage/src/streaming.rs:176-230 | after every run a pin count is at most the number of callers holding the entry, and is that number iff no worker has stored the key over a pinned entry whose holders have not all let go since; then what is held is cached |
| StreamingPins.FlightKeepsPins | crates/tt-storage/src/streaming.rs:176-318 | if the store was never emptied while a worker was busy, every pin count is the number of holders |
| StreamingExamples.FailedStartStrandsWaiter | crates/tt-storage/src/streaming.rs:193-204 | a run in which a failed worker start leaves a second acquirer asleep and no thread with a step to take |
| StreamingExamples.SameKeyReadTwice | crates/tt-storage/src/streaming.rs:138-204 | a run in which a failed prefetch empties the store while a worker reads a key, and a second worker then reads it too |
| StreamingExamples.HeldEntryLosesItsPin | crates/tt-storage/src/streaming.rs:337-362 | a run in which the second of these workers stores the key over an entry that an acquirer holds, which then counts no pins |
| DependencyGraphs.AncestorsPrecede | crates/tt-ir/src/validate.rs:211-238 | an ancestor stands earlier in every linear extension |
| DependencyGraphs.ClosedFirst | crates/tt-ir/src/validate.rs:211-238 | moving a dependency-closed set to the front of a linear extension gives another one |
| DependencyGraphs.AncestorIffAlwaysBefore | crates/tt-ir/src/validate.rs:355-357 | being an ancestor is exactly standing earlier in every linear extension |
| TopologicalSort.ListDependents | crates/tt-ir/src/validate.rs:174-182 | each instruction is listed under a dependency as often as it names it |
| TopologicalSort.Relax | crates/tt-ir/src/validate.rs:190-199 | degrees stay exact and never underflow, duplicate edges included, and each instruction is queued when its degree reaches zero |
| TopologicalSort.StuckHasCycle | crates/tt-ir/src/validate.rs:201-209 | a set in which everything depends on a member contains a cycle |
| TopologicalSort.Kahn | crates/tt-ir/src/validate.rs:169-209 | for any map order the result is complete iff a linear extension exists, and then is one; with known dependencies it is incomplete iff there is a cycle |
| TopologicalSort.Ancestors | crates/tt-ir/src/validate.rs:211-238 | for every consistent cache the memoised walk returns exactly the transitive closure and keeps the cache consistent |
| ScheduleValidator.IndexByName | crates/tt-ir/src/validate.rs:25-34 | the first instruction of a name is kept; no error iff names are unique |
| ScheduleValidator.CheckInstruction | crates/tt-ir/src/validate.rs:47-166 | no error iff the instruction carries what its opcode requires |
| ScheduleValidator.CheckInstructions | crates/tt-ir/src/validate.rs:36-167 | no error iff all dependencies are known and all instructions well formed; the recorded events are collected |
| ScheduleValidator.CheckWait | crates/tt-ir/src/validate.rs:300-343 | no error iff the wait's event, named or implied, is recorded by the instruction of that name |
| ScheduleValidator.IndexCompletions | crates/tt-ir/src/validate.rs:240-268 | one completion for each tensor and resource that has any: the first in the order in which the instructions were visited, which is any order |
| ScheduleValidator.IndexUsers | crates/tt-ir/src/validate.rs:270-298 | the index lists, for each tensor, exactly the instructions that use it |
| ScheduleValidator.CheckRelease | crates/tt-ir/src/validate.rs:344-366 | no error iff every other reader of the released tensors is an ancestor |
| ScheduleValidator.CheckRead | crates/tt-ir/src/validate.rs:370-424 | no error iff the chosen completion, if any, is an ancestor, and a computed tensor has a producer on this resource |
| ScheduleValidator.ValidateSchedule | crates/tt-ir/src/validate.rs:23-429 | no errors iff the schedule is accepted with the completions that are first in this run's visiting order |
| ScheduleSafety.NothingReadsAfterRelease | crates/tt-ir/src/validate.rs:344-366 | in every linear extension of an accepted schedule every reader of a released tensor precedes the release |
| ScheduleSafety.ReleasedOnce | crates/tt-ir/src/validate.rs:344-366 | an accepted schedule releases no tensor by two instructions |
| ScheduleSafety.ReleaseCheckIsExact | crates/tt-ir/src/validate.rs:344-366 | the release check passes iff every linear extension puts the readers first |
| ScheduleSafety.CompletionPrecedesIffAny | crates/tt-ir/src/validate.rs:367-383 | for every map order, some completion of a read precedes it in every linear extension iff the schedule has one |
| ScheduleSafety.RemoteReads | crates/tt-ir/src/validate.rs:240-425 | a computed tensor with no local computation or load is brought by a transfer; it is completed before every read iff some wait lists it or some transfer carries it there |
| ScheduleSafety.TransferMayComeTooLate | crates/tt-ir/src/validate.rs:257-291 | an accepted schedule with a linear extension that runs the reader before any transfer or wait |
| ScheduleVerdicts.AcceptedByKeys | crates/tt-ir/src/validate.rs:240-424 | a schedule is accepted iff every other check passes and each chosen completion is an ancestor of all reads checked against its tensor and resource |
| ScheduleVerdicts.ChoicesDifferIff | crates/tt-ir/src/validate.rs:240-383 | two choices made key by key give different verdicts iff every other check passes, each tensor and resource with a completion has one that is an ancestor of all reads checked against it, and some read has a possible completion that is not its ancestor |
| ScheduleVerdicts.VerdictsDifferIff | crates/tt-ir/src/validate.rs:240-383 | two visiting orders give different verdicts iff every other check passes, some read has a possible completion that is not its ancestor, and there is no set of instructions of which each, visited first of them, becomes the completion of a read it does not precede |
| ScheduleVerdicts.VerdictMayDependOnOrder | crates/tt-ir/src/validate.rs:240-268 | a schedule that one visiting order accepts and another rejects |
| PlacementStates.ExtendState | crates/tt-planner/src/search.rs:279-380 | the loops over dependencies compute the placement step that the theorems are about, failures included |
| PlacementAccounting.ConsumeOne | crates/tt-planner/src/search.rs:360-373 | consuming a dependency keeps live bytes exact and never takes away more than is there |
| PlacementAccounting.MemoryIsExact | crates/tt-planner/src/search.rs:279-380 | with exact consumer counts, after any placements live bytes are the outputs with a consumer to come, at most the peak, which is at most the capacity |
| PlacementAccounting.NothingLiveAtTheEnd | crates/tt-planner/src/search.rs:355-373 | after the last region nothing is live |
| PlacementAccounting.TimesAreConsistent | crates/tt-planner/src/search.rs:297-377 | after any placements busy times are within free times, those within the makespan, and that within all computation and transfer time |
| PlacementAccounting.ThroughputIsOneOverMakespan | crates/tt-planner/src/search.rs:511-525 | the initiation interval is at most the makespan, and with one request in flight throughput is one over it |
| PlanScores.MemoryPressure | crates/tt-planner/src/score.rs:10-21 | the loop computes the sum of the devices' pressures |
| PlanScores.PressureGrows | crates/tt-planner/src/score.rs:10-21 | pressure never falls when peaks rise, and devices within capacity add at most one each |
| PlanScores.ScoreIsMonotone | crates/tt-planner/src/score.rs:25-42 | a state that is no later, no busier and no fuller anywhere never scores higher, for weights that are not negative |
| PlanScores.OneRequestRanksByLatency | crates/tt-planner/src/score.rs:47-67 | with one request in flight the throughput and latency scores of a finalist are the same number, its makespan |
| BeamSearch.ExpandChunked | crates/tt-planner/src/search.rs:774-851 | for any number of workers the rows put together are the serial expansion |
| BeamSearch.ExpansionIsDistinct | crates/tt-planner/src/search.rs:825-850 | children of different states have different placements and extend a parent's |
| BeamSearch.SurvivorsOk | crates/tt-planner/src/search.rs:856-869 | pruning keeps one entry per key, with different placements, and at least one if there was any |
| BeamSearch.SurvivorsAreEntries | crates/tt-planner/src/search.rs:856-869 | every survivor is an entry that was there |
| BeamSearch.SurvivorIsBest | crates/tt-planner/src/search.rs:856-869 | every entry has a survivor under its key that scores below the entry's score plus 1e-18 |
| BeamSearch.Prune | crates/tt-planner/src/search.rs:856-868 | the table holds exactly the survivors |
| SurvivorOrder.OrderFreeIffChampions | crates/tt-planner/src/search.rs:774-869 | for different entries, every order has the same survivors iff each key has an entry that stays against every other of the key and that no other stays against |
| SurvivorOrder.PruningDependsOnOrder | crates/tt-planner/src/search.rs:856-869 | two entries of one key of which whichever comes first survives |
| BeamSearch.SelectionIsOrderFree | crates/tt-planner/src/search.rs:414-435 | the selection is the same for every permutation of entries with different placements |
| BeamSearch.SelectionIsBest | crates/tt-planner/src/search.rs:421-435 | the selected states come first in the beam's order, and none left out comes before one taken |
| BeamSearch.StepBeam | crates/tt-planner/src/search.rs:769-875 | one step gives the same beam whatever the number of workers and the order of the table |
| LocalSearch.SearchBeam | crates/tt-planner/src/search.rs:760-875 | so does the whole search |
| LocalSearch.BeamStatesAreReplays | crates/tt-planner/src/search.rs:769-875 | every state of the beam is the replay of the candidates it records |
| LocalSearch.PrefixReplayIsFullReplay | crates/tt-planner/src/search.rs:575-600 | replay from the state after a prefix equals replay from scratch |
| LocalSearch.ReplayAssignment | crates/tt-planner/src/search.rs:575-600 | the loop computes the full replay whether or not it is given a prefix |
| LocalSearch.AssignmentOf | crates/tt-planner/src/search.rs:613-625 | finds the assignment the indices spell, or fails iff there is none |
| LocalSearch.BeamIsRecorded | crates/tt-planner/src/search.rs:877-898 | every state that local search can be given is the replay of the candidates its indices spell |
| LocalSearch.TryAlternates | crates/tt-planner/src/search.rs:654-695 | the incumbent is the old plan or a replay better by more than the tolerance, and no candidate beats it by more than that |
| LocalSearch.ImprovePass | crates/tt-planner/src/search.rs:628-711 | a pass keeps the plan a replay, lowers the score with each change, and changes nothing only if no single replacement helps |
| LocalSearch.LocalSearchImprove | crates/tt-planner/src/search.rs:603-714 | the score never rises, the plan stays the replay of its assignment, and on convergence no single replacement improves it by more than the tolerance |
| LocalSearch.PlansAreAccounted | crates/tt-planner/src/search.rs:511-555 | every replayed plan accounts exactly for memory and time |
| Finalists.RankPlans | crates/tt-planner/src/search.rs:1051-1060 | the plans, sorted by score, signature and subset |
| Finalists.CappedPass | crates/tt-planner/src/search.rs:1068-1094 | takes the plan of a rank iff no better-ranked plan has its signature, fewer than the cap of its subset and fewer than the wanted number were taken before it; the best first, in rank order |
| Finalists.FillPass | crates/tt-planner/src/search.rs:1096-1118 | adds the plan of a rank iff no better-ranked plan has its signature, the first pass did not take that signature and the list is not full |
| Finalists.SelectFinalists | crates/tt-planner/src/search.rs:1051-1118 | exactly as many plans as asked for or as there are signatures, all different, with consecutive ranks, the best first; the list is what the capped pass takes followed by what the fill adds |

## Left out

- LocalSearch.LocalSearchImprove: assumes that a state whose indices are all in the pools is the replay of those candidates, which BeamIsRecorded proves of the states it is given.
- BeamSearch.StepBeam: takes pools in which no index occurs twice; ranking and cutting candidates per device (`filter_pool`) is not modelled.
- Finalists.SelectFinalists: a signature is an opaque name; that its text separates the fields of a placement is not modelled.
- StreamingProgress.HelpedSleeperCanBeServed: the continuation may let a thread act between two starts of workers or two prefetched keys, where the code holds a lock, because the model has no lock owners.
- StreamingProgress.CloseCanFinish: the same holds of its continuation.
- Optimality of the beam search, which prunes states that differ in finish times.
- The ranking of terminal states within a subset and the statistics that the planner reports.
- The transfer estimate of the machine model, the discrete-event simulator and the executor.
- Transfer deduplication (`begin_transfer`, `end_transfer`), which is a set insertion.
- Tensor size validation of schedules, which checks fields one by one.
- Files, paths, free-space and memory probing; a file is a sequence of bytes.
- JSON, the Python bindings, device backends, telemetry and I/O timing.
- Floating-point rounding, counter wrap-around, thread panics.
