# A model of AsyncFlowKit's queues, sessions and worker protocol

AsyncFlowKit is a C++ thread pool. Its workers visit *sessions*; a session owns a list of routines
and a queue of items, and a visit pulls items and passes each one through the routines. Below the
sessions lie several layers of queues, above them the pool's table of sessions, its shutdown
protocol and its garbage collector. This project models these parts in Dafny and proves what they
keep. `dafny verify dfyconfig.toml` checks it.

The classes keep the fields, branches and loops of the C++ classes. Each of their methods is tied to
a step of a specification on values; the theorems are about whole runs of these steps. What happens
between threads is given as transition systems: a region under one mutex is one step, and an atomic
access outside a mutex is a step of its own.

| file | part |
|---|---|
| `Sequences.dfy` | facts about lists of batches |
| `Queue.dfy` | the plain queue with its size limits |
| `BatchSpec.dfy`, `BatchingQueue.dfy` | the batching queue: specification with a flat FIFO as reference, class |
| `WrapLifetime.dfy` | allocation, relaxation and deletion of batch wrappers, any interleaving |
| `ReleaseSpec.dfy`, `ReleaseQueue.dfy` | the queues that hold a drained batch until it is released |
| `OwnedFifo.dfy`, `ThreadpoolQueue.dfy`, `HybridQueue.dfy` | one FIFO with an owner, and the two session queues that refine it |
| `HotSwap.dfy` | double-buffered handlers |
| `Collector.dfy` | the garbage collector's three queues |
| `Composition.dfy` | the routines applied to one item, and what is handed to the collector |
| `SessionSpec.dfy`, `Session.dfy` | the composing session and the worker's visit |
| `Ledger.dfy` | what becomes of every posted item, any interleaving with one worker |
| `Registry.dfy`, `Pool.dfy` | the table of sessions and the workers' list |
| `WorkSplit.dfy` | the division of slots over workers |
| `Shutdown.dfy` | workers, counter, mutex, condition variable and collector during a shutdown |

Fields the C++ leaves uninitialised are taken to start as: no occupant, no last item kind, all
control flags false.

## What was found

Where the code differs from what it seems meant to do, the model follows the code. Each point is
proved by the members named.

- The shutdown counter and the stored processor count have 16 bits. A pool of n workers, n being what
  `hardware_concurrency()` answers, can be built if and only if n is not a multiple of 65536: otherwise
  the creation divides by zero (`Shutdown.PoolExistsIff`). Among the pools that can be built completion
  is trustworthy exactly for fewer than 65536 workers (`Shutdown.CompletionSoundIff`).
- With `autodelete` off every routine gets the original item. A session stores its units by value, so
  their methods are those of the base type and return null. For such units the loop computes the
  composition of README.md:16 for certain if and only if `autodelete` is on, or only methods are run, or
  there is no unit, or there is one and its lambda does not come after its method
  (`Composition.StoredUnitsComposeIff`). Were the methods arbitrary, it would be at most one call
  (`Composition.ComposesIff`).
- Items posted before a session has its data queue are not moved to it: a visit that begins while there
  is a data queue drops them (`Ledger.VisitDropsEarly`), as the second visit does in
  `Ledger.EarlyItemLost`. `postData` answers false for them although it stores them
  (`Sessions.ComposingSession.PostData`).
- Setting the routines again loses every item that the data queue holds when the worker next looks at
  them. The items are neither processed nor handed to the collector, even with `autodelete`
  (`Ledger.RebuildDropsQueued`, `Ledger.QueuedItemLost`).
- Between two visits, with the session's lock free and one worker, a pending item can still be processed
  if and only if it was not posted early, no change of routines is pending, no cancellation is requested,
  and no flush is, unless a caller posting an empty vector is about to take that request back
  (`Ledger.ServableIff`).
- A vector posted to a session is recorded in the run-length mapper but never stored, and the answer
  is true (`Sessions.ComposingSession.PostDataAsVector`, `HybridQueues.HybridQueue.CastVector`); hence
  the mapper promises exactly what is stored if and only if no vector with items was cast
  (`HybridQueues.RecordExactIff`).
- A null item is accepted, and ends the drain of its queue early. A flush empties the queues if and only
  if nobody owns the data queue and no null is queued before a queue's last item
  (`SessionSpec.FlushEmptiesIff`).
- The counter of the releasing queues grows by one per cast vector. It is exact if and only if there
  were as many items as casts (`ReleaseSpec.CounterExactIff`). An empty vector blocks such a queue for
  good: a batch can still be delivered if and only if neither it nor a batch cast before it is empty
  (`ReleaseSpec.EmptyBatchBlocks`, `ReleaseSpec.DeliverableIff`, `ReleaseSpec.EmptyVectorFirst`).
- The wait-for-first queue never sets `success` (`ReleaseQueues.ReleaseQueue.PullAndBatchStatus`).
- `reassignProcs` computes from the caller's copy of the configuration and records the new size
  elsewhere: the partition in force is the one for the size just given if and only if the call before
  gave the same size (`WorkSplit.PartitionLagsOneCall`, `WorkSplit.SecondSlotUnserved`).
- A session that is paused while the workers' list is rebuilt stays off the list after it is resumed,
  until the next rebuild (`RegistrySpec.ListedIff`), which may never come (`RegistrySpec.EmptyListStays`,
  `RegistrySpec.ResumedButUnlisted`).
- A rebuild moves sessions to other places, so that two workers can serve the same session
  (`RegistrySpec.TwoWorkersShare`); without a rebuild they cannot
  (`RegistrySpec.SharedOnlyAfterRebuild`). With two readers a setter can write the slot one of them is
  using, exactly in the runs named by `HotSwap.SlotInUseWrittenIff`.
- The wrapper of a committed batch is never marked as discarded, so it is never freed; a relaxing wrapper
  can be freed if and only if it is not one of these (`WrapLifetime.CommittedNeverFreed`,
  `WrapLifetime.FreeableIff`). Nor are the wrappers that a purge finds in the queue
  (`WrapLifetime.PurgedNeverFreed`).
- The plain queue compares its signed limits with an unsigned size. Some run of a new queue jams it if
  and only if the limits are equal or the lower one alone is negative (`Queues.JamsIff`,
  `Queues.SmallJam`).

One difference is only noted: the pull of the wait-for-first queue is not virtual and has another
parameter type than the one of its base class (src/CPPAFKThreadpool.hpp:401, 553), so that a caller
holding the base class would get wait-for-last. The only such call is unreachable
(`HybridQueues.HybridQueue.PullAndOccupyWithId`).

## Model

| member | source | states |
|---|---|---|
| `Queues.RunConservesItems` | src/CPPAFKQueue.hpp:169-188 | between two resets, initial contents followed by everything accepted equals everything delivered followed by what is left, whatever becomes of limits and pausing (also 236-251) |
| `Queues.LimitsStayOrdered` | src/CPPAFKQueue.hpp:104-138 | over every run the stored lower limit never exceeds the stored upper one |
| `Queues.SizeStaysWithin` | src/CPPAFKQueue.hpp:169-188 | while the limits stand, casts never carry the size above the upper limit and pulls never below the lower one, both read as unsigned (also 236-256) |
| `Queues.PausedDeliversNothing` | src/CPPAFKQueue.hpp:210-213 | after a pause nothing is delivered until the queue is resumed or reset (also 274-278) |
| `Queues.ResumedDelivers` | src/CPPAFKQueue.hpp:236-239 | after a resumption pulls deliver the oldest items in order, down to the lower limit (also 278) |
| `Queues.ResetForgets` | src/CPPAFKQueue.hpp:60-74 | a reset queue goes on like a new one, whatever follows (also 283-285) |
| `Queues.NewQueueHolds` | src/CPPAFKQueue.hpp:66-74 | a new queue takes exactly 2^63-1 items (also 169-188) |
| `Queues.JamsIff` | src/CPPAFKQueue.hpp:104-138 | under given limits some run of a new queue reaches a state that refuses both a cast and a pull, if and only if the limits are equal or the lower one alone is negative (also 173, 237) |
| `Queues.JamLasts` | src/CPPAFKQueue.hpp:169-188 | a jammed queue keeps its items, and accepts and delivers nothing, until its limits are changed or it is reset (also 236-251) |
| `Queues.SmallJam` | src/CPPAFKQueue.hpp:104-138 | limits 1 and -1 and one item: neither casts nor pulls ever succeed again (also 169-188) |
| `Queues.NegativeMinimumDeliversNothing` | src/CPPAFKQueue.hpp:236-251 | with a negative lower limit a run whose operations and initial items together do not exceed that limit read as unsigned, at least 2^63, delivers nothing |
| `Queues.Queue.CastObject` | src/CPPAFKQueue.hpp:169-188 | accepts exactly below the upper limit, and then appends; otherwise nothing changes |
| `Queues.Queue.Pull` | src/CPPAFKQueue.hpp:209-254 | delivers the oldest item exactly when not paused and above the lower limit (reading without waiting) |
| `Queues.Queue.SetMaxQSize` | src/CPPAFKQueue.hpp:104-120 | refused exactly below the lower limit |
| `Queues.Queue.SetMinQSize` | src/CPPAFKQueue.hpp:127-138 | refused exactly above the upper limit |
| `Queues.Queue.Reset` | src/CPPAFKQueue.hpp:60-74 | drops the items and restores the default limits (also 283-285) |
| `BatchSpec.StepRefinesFlat` | src/CPPAFKBatchingQueue.hpp:104-133 | every operation on batches, candidate and signed limits answers as the flat FIFO with natural limits does, and keeps batches non-empty and lower <= upper (unsigned) (also 211-269, 308-365) |
| `BatchSpec.RunRefinesFlat` | src/CPPAFKBatchingQueue.hpp:36-50 | over every run, with purges, resets and limit changes, the answers are those of the flat FIFO; limits stay ordered unsigned; an unforced commit succeeds exactly for a non-empty candidate within the limits (also 104-133, 169-182, 211-269, 308-365) |
| `BatchSpec.RunConservesItems` | src/CPPAFKBatchingQueue.hpp:169-182 | over every run without purge or reset, delivered items followed by the queued ones are the single items and committed batches in the order they entered, each batch contiguous (also 245-250, 318-340) |
| `BatchSpec.EmptyIsWellFormed` | src/CPPAFKBatchingQueue.hpp:36-50 | a new queue is well formed and its flat view is empty with limits 0 and 2^64-1, although the upper one is stored as -1 |
| `BatchSpec.ConversionsInverse` | src/CPPAFKBatchingQueue.hpp:29-30 | the conversions of the limits undo each other and are congruent modulo 2^64; the default upper limit is stored as -1 (also 37-38) |
| `BatchSpec.CandidateAccumulates` | src/CPPAFKBatchingQueue.hpp:211-222 | items added to the candidate batch keep the order of their addition |
| `BatchSpec.CommitSucceedsIff` | src/CPPAFKBatchingQueue.hpp:228-253 | an unforced commit succeeds exactly for a non-empty candidate within the limits, a forced one exactly for a non-empty one; the batch is then the last one |
| `BatchSpec.LimitAcceptedIff` | src/CPPAFKBatchingQueue.hpp:104-124 | a limit is accepted exactly when the two stay in order, unsigned, and is then in force |
| `BatchSpec.PauseAndResume` | src/CPPAFKBatchingQueue.hpp:277-288 | nothing is delivered between a pause and a resumption or reset; a resumed queue delivers its oldest item (also 312-315) |
| `BatchSpec.WhatIsDropped` | src/CPPAFKBatchingQueue.hpp:125-168 | what a purge, discarding the candidate and a reset drop, and what they leave (also 258-269) |
| `BatchingQueues.BatchingQueue.ClearRelaxQ` | src/CPPAFKBatchingQueue.hpp:54-71 | one pass over the relaxation queue removes exactly the discarded wrappers and keeps the order of the others |
| `BatchingQueues.BatchingQueue.SetUpperBatchLimit` | src/CPPAFKBatchingQueue.hpp:104-114 | refused exactly below the lower limit, unsigned |
| `BatchingQueues.BatchingQueue.SetLowerBatchLimit` | src/CPPAFKBatchingQueue.hpp:115-124 | refused exactly above the upper limit, unsigned |
| `BatchingQueues.BatchingQueue.CastObject` | src/CPPAFKBatchingQueue.hpp:169-182 | appends a batch of one in a fresh wrapper that ends marked as discarded; `netCount` still equals the sum of the batch sizes; how the relaxation queue changes |
| `BatchingQueues.BatchingQueue.CastObjectToBatch` | src/CPPAFKBatchingQueue.hpp:211-222 | adds a present object to the candidate batch, refuses an absent one |
| `BatchingQueues.BatchingQueue.CommitBatch` | src/CPPAFKBatchingQueue.hpp:228-253 | appends the candidate wrapper, not marked as discarded, exactly when it is non-empty and forced or within the limits; how the relaxation queue changes |
| `BatchingQueues.BatchingQueue.DropCandidate` | src/CPPAFKBatchingQueue.hpp:258-269 | empties the candidate, answers whether there was anything |
| `BatchingQueues.BatchingQueue.PopItem` | src/CPPAFKBatchingQueue.hpp:319-336 | takes the first item of the front batch; a drained wrapper, and no other, moves to the relaxation queue, once |
| `BatchingQueues.BatchingQueue.Pull` | src/CPPAFKBatchingQueue.hpp:308-365 | delivers the oldest item unless paused or empty (reading without waiting); which wrappers leave and enter the relaxation queue; no wrapper is in two places |
| `BatchingQueues.BatchingQueue.Purge` | src/CPPAFKBatchingQueue.hpp:137-168 | drops all queued batches and nothing else |
| `BatchingQueues.BatchingQueue.Reset` | src/CPPAFKBatchingQueue.hpp:125-133 | back to the state of a new queue |
| `BatchingQueues.BatchingQueue.SetPaused` | src/CPPAFKBatchingQueue.hpp:277-288 | sets the flag, contents unchanged |
| `BatchingQueues.BatchingQueue.Size` | src/CPPAFKBatchingQueue.hpp:367-373 | `netCount` is the total of the batch sizes |
| `BatchingQueues.BatchingQueue.IsEmpty` | src/CPPAFKBatchingQueue.hpp:374-380 | agrees with size zero |
| `WrapLifetime.RunKeepsInv` | src/CPPAFKBatchingQueue.hpp:51-71 | every wrapper ever pushed is in at most one place; wrappers waiting for their last write or being filled are not freed (also 137-182, 211-269, 318-336) |
| `WrapLifetime.FreedIsFinal` | src/CPPAFKBatchingQueue.hpp:51-71 | under any interleaving a freed wrapper was freed once, is in no queue, and its producer has made its last write (also 169-182, 318-336) |
| `WrapLifetime.FreedIsDrained` | src/CPPAFKBatchingQueue.hpp:318-336 | a wrapper is freed only after all its items were pulled (also 54-71) |
| `WrapLifetime.PurgedNeverFreed` | src/CPPAFKBatchingQueue.hpp:137-168 | the wrappers that a purge finds in the queue are freed in no continuation |
| `WrapLifetime.CommittedNeverFreed` | src/CPPAFKBatchingQueue.hpp:54-71 | a wrapper committed as a batch in a run is freed in no continuation (also 245-250) |
| `WrapLifetime.CommitHappens` | src/CPPAFKBatchingQueue.hpp:211-222 | a run in which a wrapper is committed as a batch (also 245-250) |
| `WrapLifetime.FreeableIff` | src/CPPAFKBatchingQueue.hpp:54-71 | a relaxing wrapper is freed in some continuation if and only if the run never committed it as a batch (also 179, 245-250) |
| `ReleaseSpec.RunFollows` | src/CPPAFKThreadpool.hpp:401-472 | items delivered are the finished batches in order of casting, then the part taken of the current one; what is queued is the rest (also 485-587) |
| `ReleaseSpec.CounterExactIff` | src/CPPAFKThreadpool.hpp:414 | the counter tells the number of queued items if and only if all casts so far brought as many items as there were casts (also 455, 469) |
| `ReleaseSpec.AtMostOneDeferred` | src/CPPAFKThreadpool.hpp:405-446 | wait-for-last: at most one wrapper is deferred, and while it is the next batch is untouched (also 485-520) |
| `ReleaseSpec.NothingBeforeRelease` | src/CPPAFKThreadpool.hpp:405-446 | wait-for-last: after a batch is finished, no casts and pulls deliver anything until a release |
| `ReleaseSpec.FirstAfterRelease` | src/CPPAFKThreadpool.hpp:405-446 | wait-for-last: the first pull after the release delivers the first item of the next batch, if there is a non-empty one, and nothing else (also 485-504) |
| `ReleaseSpec.EmptyBatchBlocks` | src/CPPAFKThreadpool.hpp:409-439 | if the i-th batch cast is empty then, under either policy and in every run, no batch from it on is finished and nothing cast after it is delivered (also 459-472, 559-583) |
| `ReleaseSpec.DeliverableIff` | src/CPPAFKThreadpool.hpp:401-472 | a batch that was cast can still be delivered in full by pulls and releases if and only if neither it nor any batch cast before it is empty (also 485-520, 553-587) |
| `ReleaseSpec.EmptyVectorFirst` | src/CPPAFKThreadpool.hpp:409-439 | after the cast of an empty vector nothing is ever delivered, whatever follows (also 459-472) |
| `ReleaseSpec.WaitForLastIsPrefix` | src/CPPAFKThreadpool.hpp:401-448 | on the same operations (empty vectors included) the output of wait-for-last is a prefix of that of wait-for-first, and the lead is what the latter took from batches the former still holds (also 485-504, 532-587) |
| `ReleaseQueues.ReleaseQueue.CastObject` | src/CPPAFKThreadpool.hpp:449-458 | appends a batch of one |
| `ReleaseQueues.ReleaseQueue.CastVector` | src/CPPAFKThreadpool.hpp:459-472 | appends the vector as one batch, even an empty one; the counter grows by one |
| `ReleaseQueues.ReleaseQueue.PopItem` | src/CPPAFKThreadpool.hpp:412-432 | first item of the front batch; a drained wrapper is deferred when writers block (also 562-578) |
| `ReleaseQueues.ReleaseQueue.PullAndBatchStatus` | src/CPPAFKThreadpool.hpp:401-448 | which item is delivered, whether it ends its batch, whether `success` is set, under both policies (also 553-587) |
| `ReleaseQueues.ReleaseQueue.ReleaseFirst` | src/CPPAFKThreadpool.hpp:485-504 | the oldest deferred wrapper moves to relaxation (also 532-551) |
| `ReleaseQueues.ReleaseQueue.ReleaseAll` | src/CPPAFKThreadpool.hpp:505-520 | all deferred wrappers move to relaxation, in order |
| `OwnedFifos.RunKeepsWellOwned` | src/CPPAFKThreadpoolQueue.hpp:45-114 | over every run nobody owns an empty queue (also src/CPPAFKThreadpool.hpp:697-798) |
| `OwnedFifos.OwnershipLasts` | src/CPPAFKThreadpoolQueue.hpp:45-107 | a worker that pulled and left items behind keeps the queue until it is given back or another pull succeeds (also src/CPPAFKThreadpool.hpp:697-798) |
| `OwnedFifos.OwnershipChanges` | src/CPPAFKThreadpoolQueue.hpp:45-107 | two consecutive successful pulls by different workers: the queue was emptied by the first, or was given back in between (also src/CPPAFKThreadpool.hpp:697-798) |
| `OwnedFifos.OwnerHolds` | src/CPPAFKThreadpoolQueue.hpp:45-107 | in every run of a new queue a worker owns it if and only if it made the last successful pull, left items behind, and the queue has not been given back since (also src/CPPAFKThreadpool.hpp:697-798) |
| `OwnedFifos.PullSucceedsIff` | src/CPPAFKThreadpoolQueue.hpp:45-107 | in every run a pull delivers if and only if the queue is not empty and no other worker holds it, and then the oldest item (also src/CPPAFKThreadpool.hpp:697-798) |
| `OwnedFifos.RunConservesItems` | src/CPPAFKThreadpoolQueue.hpp:45-114 | whoever pulls, items leave in the order they were cast and none is lost (also src/CPPAFKThreadpool.hpp:668-675, src/CPPAFKThreadpool.hpp:697-798) |
| `ThreadpoolQueues.ThreadpoolQueue.PullAndOccupyWithId` | src/CPPAFKThreadpoolQueue.hpp:45-85 | is a pull of the owned FIFO; the status packet after it |
| `ThreadpoolQueues.ThreadpoolQueue.Pull` | src/CPPAFKThreadpoolQueue.hpp:86-95 | is a pull by nobody: it delivers unless empty or owned |
| `ThreadpoolQueues.ThreadpoolQueue.CastObject` | src/CPPAFKThreadpoolQueue.hpp:108-114 | appends the item and its index |
| `ThreadpoolQueues.ThreadpoolQueue.CastVector` | src/CPPAFKThreadpoolQueue.hpp:119-127 | stores no item, only indexes |
| `ThreadpoolQueues.ThreadpoolQueue.UnoccupyWithId` | src/CPPAFKThreadpoolQueue.hpp:96-102 | frees the queue exactly for its owner |
| `ThreadpoolQueues.ThreadpoolQueue.Unoccupy` | src/CPPAFKThreadpoolQueue.hpp:103-107 | frees the queue |
| `ThreadpoolQueues.ThreadpoolQueue.Reset` | src/CPPAFKThreadpoolQueue.hpp:133-136 | drops the items |
| `HybridQueues.PromisesVectorsToo` | src/CPPAFKThreadpool.hpp:668-686 | over every run the mapper promises the items stored and all vector items ever cast (also 728-735) |
| `HybridQueues.RecordExactIff` | src/CPPAFKThreadpool.hpp:668-686 | the mapper promises exactly what is stored if and only if no vector with items was cast (also 728-735) |
| `HybridQueues.HybridQueue.CastObject` | src/CPPAFKThreadpool.hpp:668-676 | appends one item to the owned FIFO; the mapper promises one more |
| `HybridQueues.HybridQueue.CastVector` | src/CPPAFKThreadpool.hpp:677-686 | the mapper promises as many more as the vector has items, the FIFO does not change |
| `HybridQueues.HybridQueue.UseUpOne` | src/CPPAFKThreadpool.hpp:728-735 | one item of the front run is used up; runs stay positive |
| `HybridQueues.HybridQueue.TakeRegular` | src/CPPAFKThreadpool.hpp:724-740 | delivers exactly when the regular queue is not empty, with the remaining run length as index |
| `HybridQueues.HybridQueue.SettleOwner` | src/CPPAFKThreadpool.hpp:768-788 | the puller owns the queue exactly when it got an item and items remain |
| `HybridQueues.HybridQueue.PullAndOccupyWithId` | src/CPPAFKThreadpool.hpp:697-798 | is a pull of the owned FIFO: every permitted pull on a non-empty queue succeeds; `empty` and `endbatch` hold exactly when the queue is empty afterwards; the batch branch is never taken |
| `HybridQueues.HybridQueue.Pull` | src/CPPAFKThreadpoolQueue.hpp:86-95 | is a pull by nobody (also src/CPPAFKThreadpool.hpp:697-798) |
| `HybridQueues.HybridQueue.Size` | src/CPPAFKThreadpool.hpp:654-667 | the number of items of the FIFO |
| `HybridQueues.HybridQueue.UnoccupyWithId` | src/CPPAFKThreadpoolQueue.hpp:96-102 | frees the queue exactly for its owner |
| `HybridQueues.HybridQueue.Unoccupy` | src/CPPAFKThreadpoolQueue.hpp:103-107 | frees the queue |
| `HotSwap.RunRefinesPair` | src/CPPAFKThreadpoolSession.cpp:95-162 | over every run of sets and switches the two slots behave as a (current, pending) pair, and read and write index always differ (also 188-201) |
| `HotSwap.ReadsLastSetBeforeSwitch` | src/CPPAFKThreadpoolSession.cpp:95-162 | the value read is the last one set before the last effective switch, or the first value (also 188-201) |
| `HotSwap.SlotInUseWrittenIff` | src/CPPAFKThreadpoolSession.cpp:95-150 | the slot a reader is using gets written if and only if the operations since its switch hold a set, a later switch and a later set |
| `HotSwap.SingleReaderIsSafe` | src/CPPAFKThreadpoolSession.cpp:95-150 | between two switches of a single reader no setter changes the slot in use (also src/CPPAFKComposingSession.cpp:192-224) |
| `HotSwap.HotSlots.Store` | src/CPPAFKThreadpoolSession.cpp:136-151 | a set of the pair (also 203-214) |
| `HotSwap.HotSlots.Offer` | src/CPPAFKThreadpoolSession.cpp:152-163 | a set of the pair, unless there is no handler (also 188-201) |
| `HotSwap.HotSlots.SwitchOver` | src/CPPAFKThreadpoolSession.cpp:95-134 | an effective switch of the pair exactly when a change is pending |
| `Collectors.Collector.Dispose` | src/CPPAFKThreadpool.cpp:121-160 | deletes the oldest 1000 (or all) entries of each kind in order and keeps the others; of the killed sessions only the cancelled ones are deleted |
| `Collectors.Collector.DisposeAll` | src/CPPAFKThreadpool.cpp:161-201 | empties all three queues in order |
| `Collectors.Collector.DisposeUpTo` | src/CPPAFKThreadpool.cpp:121-201 | deleted followed by kept is what was there, each kind cut at the limit |
| `Collectors.Collector.DisposeSessions` | src/CPPAFKThreadpool.cpp:146-159 | the oldest killed sessions leave the queue, the cancelled ones among them are deleted (also 186-200) |
| `Collectors.DeletesInOrder` | src/CPPAFKThreadpool.cpp:146-159 | the deleted sessions are a part of the queue, in its order (also 186-200) |
| `Collectors.DeletesTheCancelled` | src/CPPAFKThreadpool.cpp:146-159 | every entry of a cancelled session is deleted as often as it was queued, and no other (also 186-200) |
| `Composition.TrailEndsInComposition` | src/CPPAFKComposingSession.cpp:224-339 | the chain of results ends in the left-to-right composition (also README.md:16) |
| `Composition.ComposeJoins` | src/CPPAFKComposingSession.cpp:224-339 | composing one list after another, and the composition of none and of one routine: the first routine is applied first (also README.md:16) |
| `Composition.OneCallEach` | src/CPPAFKComposingSession.cpp:229-256 | in the modes that run one routine the calls are those routines of the units, in order |
| `Composition.TwoCallsEach` | src/CPPAFKComposingSession.cpp:258-311 | in the other modes the calls are both routines of each unit in the order of the mode |
| `Composition.LoopComputes` | src/CPPAFKComposingSession.cpp:224-339 | for every routine list and run mode the loop ends with the composition when autodelete is on, and with the last call applied to the original item when it is off |
| `Composition.UnitsMeaning` | src/CPPAFKComposingSession.cpp:224-339 | after any number of units: result, current argument, world and objects handed over in terms of the chain of calls |
| `Composition.ComposesIff` | src/CPPAFKComposingSession.cpp:234-242 | for n units of arbitrary well-behaved methods and lambdas in a given mode, on existing items, the loop leaves the composition of the calls always if and only if autodelete is on or at most one call is made (also README.md:16) |
| `Composition.NotComposed` | src/CPPAFKComposingSession.cpp:234-242 | a list of well-behaved routines and an existing item for which it does not, for every n and mode with two calls or more |
| `Composition.StoredUnitsComposeIff` | src/CPPAFKComposingSession.cpp:224-339 | for n units as a session stores them, their methods returning null and their lambdas well behaved, the loop leaves the composition, side effects included, always if and only if autodelete is on, or only methods are run, or n is 0, or n is 1 and the lambda does not come after the method (also src/CPPAFKThreadpoolSession.cpp:144, src/CPPAFKThreadpool.hpp:88, src/CPPAFKBase.hpp:237-242) |
| `Composition.StoredUnitsNotComposed` | src/CPPAFKComposingSession.cpp:224-339 | a list of such units and an existing item for which it does not, in every other case |
| `Composition.TrailEachOnce` | src/CPPAFKComposingSession.cpp:234-310 | with well-behaved routines, the objects replaced along the chain together with its end are each distinct non-null object of the chain once |
| `Composition.ItemHandedOverOnce` | src/CPPAFKComposingSession.cpp:219-413 | autodelete on: on the normal, flush and cancel paths each non-null object produced for an item goes to the collector exactly once and nothing else does |
| `Composition.EndHandedOverOnce` | src/CPPAFKComposingSession.cpp:316-411 | the same for the end of an item, from any chain of results |
| `Composition.SummaryEndsComposition` | src/CPPAFKComposingSession.cpp:381-405 | with autodelete the summary gets the composition, and what it returns and leaves is the composition with the summary as the last routine |
| `Composition.WithoutAutodelete` | src/CPPAFKComposingSession.cpp:224-242 | without autodelete the summary gets the last answer for the original item, and nothing is handed to the collector (also 381-411) |
| `Composition.NothingHandedWithout` | src/CPPAFKComposingSession.cpp:390 | without autodelete nothing is handed over for any list of items (also 408) |
| `Composition.ProcessAllJoins` | src/CPPAFKComposingSession.cpp:168-447 | processing one list of items after another is processing them in order |
| `Composition.Invoke` | src/CPPAFKComposingSession.cpp:234-242 | one call with its hand-over |
| `Composition.RunUnit` | src/CPPAFKComposingSession.cpp:227-314 | one unit in each of the four run modes |
| `Composition.RunRoutines` | src/CPPAFKComposingSession.cpp:224-339 | the loop with a cancellation that may be seen after any unit |
| `SessionSpec.OperationsKeepConsistent` | src/CPPAFKComposingSession.cpp:22-81 | every operation keeps: a data queue exists exactly when the routine list being read is not empty (also 473-519, src/CPPAFKThreadpoolSession.cpp:81-93) |
| `SessionSpec.DrainsIff` | src/CPPAFKComposingSession.cpp:36-60 | a drain empties its queue if and only if no null is queued before the last item, and hands over everything if and only if there is no null (also src/CPPAFKThreadpoolQueue.hpp:86-95) |
| `SessionSpec.FlushEmptiesIff` | src/CPPAFKComposingSession.cpp:33-81 | a flush leaves nothing queued if and only if nobody owns the data queue and no queue holds a null before its last item |
| `SessionSpec.FlushTakesAll` | src/CPPAFKComposingSession.cpp:33-81 | without nulls a flush hands over the early queue and a free data queue entirely, in order |
| `SessionSpec.FlushFrees` | src/CPPAFKComposingSession.cpp:71 | after a flush nobody owns the data queue, an owned one has kept its items, and the routine lists are as before |
| `SessionSpec.PostedThenFlushed` | src/CPPAFKComposingSession.cpp:33-81 | posting items and flushing hands over what was queued followed by them, in order, if there are no nulls and nobody owns the data queue (also 473-497) |
| `SessionSpec.SetThenRead` | src/CPPAFKThreadpoolSession.cpp:95-108 | the list set is the list read after the next look, which leaves an empty data queue exactly for a non-empty list (also 136-151, src/CPPAFKComposingSession.cpp:192-202) |
| `SessionSpec.LastSetIsRead` | src/CPPAFKThreadpoolSession.cpp:136-151 | setting the routines again before the look replaces the pending list |
| `SessionSpec.VisitRunsWhatWasSet` | src/CPPAFKComposingSession.cpp:105-206 | whatever the first visit after a set begins with, the list it runs is the one set (also 467-472) |
| `Sessions.ComposingSession.PostData` | src/CPPAFKComposingSession.cpp:473-497 | where the item goes and what is answered; refused exactly while a flush is requested |
| `Sessions.ComposingSession.PostDataAsVector` | src/CPPAFKComposingSession.cpp:498-531 | no queue changes whatever the vector holds; answers true exactly when there are items, a data queue and no requested flush |
| `Sessions.ComposingSession.SetRoutines` | src/CPPAFKComposingSession.cpp:467-472 | the list given becomes the pending one (also src/CPPAFKThreadpoolSession.cpp:136-151) |
| `Sessions.ComposingSession.ReconfigureDataqueues` | src/CPPAFKComposingSession.cpp:22-32 | the data queue becomes an empty one, or none, as the list being read is non-empty or empty |
| `Sessions.ComposingSession.Reload` | src/CPPAFKComposingSession.cpp:192-202 | an effective switch replaces the data queue by an empty one, or by none |
| `Sessions.ComposingSession.AdoptDataFromZeroQueue` | src/CPPAFKThreadpoolSession.cpp:81-93 | the early queue is emptied, nothing is moved |
| `Sessions.ComposingSession.DrainZero` | src/CPPAFKComposingSession.cpp:36-46 | terminates; takes the items up to the first null, which it pulls and drops, and hands them over in order under autodelete (also src/CPPAFKThreadpoolQueue.hpp:86-95) |
| `Sessions.ComposingSession.DrainData` | src/CPPAFKComposingSession.cpp:47-74 | terminates; the same for a free data queue, nothing for an occupied one; the queue ends free (also src/CPPAFKThreadpoolQueue.hpp:86-95) |
| `Sessions.ComposingSession.FlushLocked` | src/CPPAFKComposingSession.cpp:33-81 | is the flush of the specification on both queues; the items taken go to the collector in FIFO order; an occupied data queue keeps its items; nobody owns the data queue afterwards; the request is taken back |
| `Sessions.ComposingSession.Flush` | src/CPPAFKComposingSession.cpp:82-85 | the same, with the request flag down at the end |
| `Sessions.ComposingSession.Summarize` | src/CPPAFKComposingSession.cpp:381-413 | the summary in force gets the result and its answer is returned; both go to the collector once with autodelete, nothing without |
| `Sessions.ComposingSession.ProcessItem` | src/CPPAFKComposingSession.cpp:214-413 | result, hand-overs and session state after one item on the normal, flush and cancel paths |
| `Sessions.ComposingSession.EndItem` | src/CPPAFKComposingSession.cpp:316-413 | what follows the routines on each path: what the summary gets, what is handed over, that a cancelled session stays cancelled |
| `Sessions.ComposingSession.HandOverAndFlush` | src/CPPAFKComposingSession.cpp:317-328 | the current result, then everything queued, goes to the collector (also 343-356, 367-379) |
| `Sessions.ComposingSession.PullItem` | src/CPPAFKComposingSession.cpp:204-214 | the worker gets the oldest item and may own the queue |
| `Sessions.ComposingSession.ProcessUndisturbed` | src/CPPAFKComposingSession.cpp:214-413 | with no flag set, an item is processed as the program says and no queued item is touched |
| `Sessions.ComposingSession.ServeNext` | src/CPPAFKComposingSession.cpp:207-447 | one round of the loop: oldest item processed, the rest still queued, queue free |
| `Sessions.ComposingSession.Prepare` | src/CPPAFKComposingSession.cpp:184-206 | requested flush, then reload |
| `Sessions.ComposingSession.Enter` | src/CPPAFKComposingSession.cpp:105-115 | a paused session is freed and unpaused, the early queue is dropped if there is a data queue |
| `Sessions.ComposingSession.ServeQueue` | src/CPPAFKComposingSession.cpp:165-449 | the loop terminates having processed all items in order |
| `Sessions.ComposingSession.SteadyRound` | src/CPPAFKComposingSession.cpp:165-449 | one round up to the next pull, with no flag set |
| `Sessions.ComposingSession.Serve` | src/CPPAFKComposingSession.cpp:165-451 | preparation and loop |
| `Sessions.ComposingSession.Select` | src/CPPAFKComposingSession.cpp:105-451 | a visit without interference: a cancelled session is flushed; otherwise every item of the data queue is processed in order and the queue ends empty and free |
| `Ledger.RunKeepsInv` | src/CPPAFKComposingSession.cpp:33-81 | every step of posting, flushing, changing routines and visiting keeps the balance of places and the order of the line (also 105-224, 473-497, src/CPPAFKThreadpoolSession.cpp:81-93) |
| `Ledger.EveryItemInOnePlace` | src/CPPAFKComposingSession.cpp:22-81 | over every run each accepted item is, once, in exactly one of: queues, in flight, processed, collected, discarded; nothing else is in these places (also 192-222, 473-497, src/CPPAFKThreadpoolSession.cpp:81-93) |
| `Ledger.GivenInOrder` | src/CPPAFKComposingSession.cpp:192-224 | the items given to the first routine are posted items in posting order, without repetition, none of them from the early queue (also 473-497) |
| `Ledger.ServableIff` | src/CPPAFKComposingSession.cpp:105-224 | between two visits with the lock free, a pending item can still be given to the routines if and only if it was not accepted by the early queue, no change of routines is pending, no cancellation is requested, and no flush either, unless a caller posting an empty vector is about to take the request back (also 473-510, src/CPPAFKThreadpoolSession.cpp:81-93) |
| `Ledger.EarlyItemsNeverServed` | src/CPPAFKComposingSession.cpp:479-485 | in every run an item accepted by the early queue is in that queue, collected or discarded, and not processed (also src/CPPAFKThreadpoolSession.cpp:81-93) |
| `Ledger.VisitDropsEarly` | src/CPPAFKComposingSession.cpp:105-115 | in every run a visit that begins while there is a data queue discards exactly what is in the early queue, and no early item is pending any more (also src/CPPAFKThreadpoolSession.cpp:81-93) |
| `Ledger.RebuildDropsQueued` | src/CPPAFKComposingSession.cpp:22-32 | in every run a look at the routines with a change pending discards exactly what is in the data queue; none of it was processed or is collected (also 193-200) |
| `Ledger.QueuedItemLost` | src/CPPAFKComposingSession.cpp:22-32 | a run in which an item accepted by the data queue is discarded because the routines are set again (also 193-200, 467-497) |
| `Ledger.EarlyItemLost` | src/CPPAFKComposingSession.cpp:479-485 | a run in which an item posted before the first visit is discarded by the second (also src/CPPAFKThreadpoolSession.cpp:81-93) |
| `Ledger.QueueFollowsRoutines` | src/CPPAFKComposingSession.cpp:22-32 | at every moment a data queue exists exactly when the routine list being read is not empty (also 192-206) |
| `Ledger.UninterruptedFlush` | src/CPPAFKComposingSession.cpp:33-81 | a flush that runs through from any state with the lock free empties the early queue and, unless it is owned, the data queue, collects their items in that order, and leaves the data queue free |
| `Ledger.CancelIsFinal` | src/CPPAFKComposingSession.cpp:86-88 | a cancellation is never taken back, in any run (also 169-186) |
| `Ledger.CancelledVisitCollects` | src/CPPAFKComposingSession.cpp:121-138 | a visit to a session cancelled between two visits collects what the data queue holds and runs no routine |
| `Ledger.RequestedFlushCollects` | src/CPPAFKComposingSession.cpp:187-191 | a flush requested between two visits collects what the data queue holds before the next look at the routines |
| `Ledger.StepKeepsQueues` | src/CPPAFKComposingSession.cpp:33-81 | one step of any kind keeps the balance and the order (also 105-224) |
| `RegistrySpec.RunKeepsInv` | src/CPPAFKThreadpool.cpp:109-117 | over every interleaving the workers' list has no duplicates and each entry is registered or cancel-requested (also 528-601, 659-711) |
| `RegistrySpec.RunKeepsCancelled` | src/CPPAFKThreadpool.cpp:528-550 | a session cancelled at any point of a run stays unregistered and cancelled |
| `RegistrySpec.ChosenIsRegistered` | src/CPPAFKThreadpool.cpp:659-697 | a session a worker leaves with is registered and was not cancelled by `cancelSession` before |
| `RegistrySpec.RequestedIff` | src/CPPAFKThreadpool.cpp:528-550 | a session is cancel-requested if and only if some operation has asked it to cancel (also 688) |
| `RegistrySpec.PausedIff` | src/CPPAFKThreadpool.cpp:555-601 | a session is paused if and only if it was paused at some point and not resumed, nor unpaused by a visit, since (also src/CPPAFKComposingSession.cpp:108) |
| `RegistrySpec.ListedIff` | src/CPPAFKThreadpool.cpp:109-117 | a registered session is on the list if and only if it was not paused at the last rebuild since it was registered (also 555-615, 688-692) |
| `RegistrySpec.EmptyListStays` | src/CPPAFKThreadpool.cpp:660-692 | an empty list stays empty until a session is added |
| `RegistrySpec.ResumedButUnlisted` | src/CPPAFKThreadpool.cpp:109-117 | a run that leaves a registered, resumed session off an empty list (also 528-601) |
| `RegistrySpec.SharedOnlyAfterRebuild` | src/CPPAFKThreadpool.cpp:109-117 | two workers that choose at different moments leave with different sessions unless the list was rebuilt in between (also 659-697) |
| `RegistrySpec.TwoWorkersShare` | src/CPPAFKThreadpool.cpp:109-117 | a run in which two workers are given the same session (also 659-697) |
| `Pools.Pool.AddSession` | src/CPPAFKThreadpool.cpp:704-718 | registers and lists the session exactly when there is one and the id is free |
| `Pools.Pool.CancelSession` | src/CPPAFKThreadpool.cpp:528-550 | removes the session, requests its cancellation, and passes it to the collector, once per session |
| `Pools.Pool.PauseSession` | src/CPPAFKThreadpool.cpp:555-568 | sets the session's flag, the list stays |
| `Pools.Pool.ResumeSession` | src/CPPAFKThreadpool.cpp:586-601 | clears the session's flag, the list stays |
| `Pools.Pool.CloneSessionsMap2Vector` | src/CPPAFKThreadpool.cpp:109-117 | the list becomes an enumeration without repetition of the registered sessions that are not paused |
| `Pools.Pool.Choose` | src/CPPAFKThreadpool.cpp:659-697 | the session at the worker's place if the lagging range is not empty and the session not cancel-requested; if it is cancel-requested, none, and the list is rebuilt; the slots are divided before and after a rebuild |
| `WorkSplit.PartitionIsContiguous` | src/CPPAFKThreadpool.cpp:91-107 | required >= actual > 0: ranges contiguous, non-empty, lengths differing by at most one, from 0 to required |
| `WorkSplit.EverySlotServedOnce` | src/CPPAFKThreadpool.cpp:91-107 | required >= actual > 0: every slot below required lies in exactly one range, no other slot in any |
| `WorkSplit.LongerFirst` | src/CPPAFKThreadpool.cpp:91-106 | required >= actual > 0: earlier workers have the longer ranges |
| `WorkSplit.LayoutIsTheDivision` | src/CPPAFKThreadpool.cpp:91-106 | required >= actual > 0: the layout is the only list of consecutive ranges from 0 to required with lengths at most one apart and not increasing |
| `WorkSplit.WorkersCycle` | src/CPPAFKThreadpool.cpp:70-90 | required < actual: the first workers take the slots in order and the others repeat them; without slots all ranges are empty |
| `WorkSplit.WorkersSpreadEvenly` | src/CPPAFKThreadpool.cpp:77-90 | 0 < required < actual: slot s has share+1 workers if s < residue and share otherwise |
| `WorkSplit.InstalledIsPrevious` | src/CPPAFKThreadpool.cpp:64-68 | each call installs the partition of the size given by the call before (also 660-668) |
| `WorkSplit.PartitionLagsOneCall` | src/CPPAFKThreadpool.cpp:64-68 | the partition in force after a call is that of the size just given if and only if the call before gave the same size (also 660-668) |
| `WorkSplit.LayoutsDiffer` | src/CPPAFKThreadpool.cpp:70-107 | different sizes have different partitions |
| `WorkSplit.SecondSlotUnserved` | src/CPPAFKThreadpool.cpp:64-107 | two workers, one session and then two: the second session has no worker in the partition in force (also 660-668) |
| `WorkSplit.Distributor.ReassignProcs` | src/CPPAFKThreadpool.cpp:64-108 | the loops with their running bound and residue compute the closed form from the caller's copy (required >= actual: lowBound(p) = p*share + min(p, residue)) and record the new size |
| `WorkSplit.Distributor.Divide` | src/CPPAFKThreadpool.cpp:660-668 | a worker's call on a fresh copy |
| `Shutdown.RunKeepsInv` | src/CPPAFKThreadpool.cpp:375-384 | the invariant of counter, mutex, flag and collector holds over every run with fewer than 65536 workers (also 386-412, 634-657) |
| `Shutdown.PoolExistsIff` | src/CPPAFKThreadpool.cpp:386-397 | a pool of n workers can be built if and only if n is not a multiple of 65536: the stored processor count is a divisor (also src/CPPAFKThreadpool.hpp:205) |
| `Shutdown.ShutdownIsSafe` | src/CPPAFKThreadpool.cpp:375-384 | for fewer than 65536 workers and any interleaving: completion only after every worker decremented and left its loop; at most one thread in the disposals; once all returned, completion is declared and the caller is not asleep; when the caller or all workers have returned, a full disposal is finished (also 408, 638-657) |
| `Shutdown.DisposalHappens` | src/CPPAFKThreadpool.cpp:653-657 | workers do enter the bounded disposal, in every pool that can be built |
| `Shutdown.SomeStepIsEnabled` | src/CPPAFKThreadpool.cpp:375-384 | after a request, as long as the caller has not returned, some step other than a spurious wake-up is possible (also 638-657) |
| `Shutdown.ShutdownEnds` | src/CPPAFKThreadpool.cpp:375-384 | every stretch of steps after a request without spurious wake-ups is bounded, and can be continued until the caller returns (also 638-657) |
| `Shutdown.OverflowDeclaresTooEarly` | src/CPPAFKThreadpool.cpp:408 | with more workers, unless their number is a multiple of 65536, a reachable state declares completion while a worker is in its loop (also 639-642, src/CPPAFKThreadpool.hpp:205-206) |
| `Shutdown.CompletionSoundIff` | src/CPPAFKThreadpool.cpp:408 | of the pools that can be built, completion implies that all workers left, in every reachable state, if and only if there are fewer than 65536 workers (also 639-642, src/CPPAFKThreadpool.hpp:205-206) |

## Left out

- Blocking reads and blocked callers: waiting on the queues' condition variables, their predicates and wake-ups; a pull is modelled as it behaves when reading does not wait. No freedom from deadlock or wake-up is claimed for them.
- A purge of a batching queue with blocking writes, which locks a mutex it holds; and the read of the relaxation queue's size outside the lock, taken as inside.
- BatchingQueues.BatchingQueue.CastObject: the producer's last write after the unlock is part of the method here; the interleavings are in `WrapLifetime`.
- ReleaseSpec.WaitForLastIsPrefix: only with blocking writes on, the mode in which the two queues are created.
- `pullDeferred` and `getResidual`: a shadowed variable makes the first answer null always, and the batch queue behind it stays empty.
- HybridQueues.HybridQueue.PullAndOccupyWithId: the batch branch is proved unreachable and has no body here.
- Sessions.ComposingSession.PostData: the unlocked test of the flush request is part of the method here and a separate input in `Ledger`.
- Sessions.ComposingSession.Select: no interference during the visit, no expiration; interference is the subject of `Ledger`, where expiration is an arbitrary boolean.
- Sessions.ComposingSession.Prepare: no cancellation arrives between two items; `Ledger` covers that.
- Sessions.ComposingSession.Serve: no interference and no expiration, as for `Select`.
- Sessions.ComposingSession.ServeQueue: the same.
- Sessions.ComposingSession.SteadyRound: the same.
- Sessions.ComposingSession.ServeNext: the same.
- Sessions.ComposingSession.ProcessUndisturbed: no flag is seen while the item is processed; the cancel and flush paths of an item are in `ProcessItem`.
- Ledger.EveryItemInOnePlace: items are not null, and one worker visits the session; all results of `Ledger` hold only up to the first rebuild of the workers' list that moves the session, after which a second worker may visit it (`RegistrySpec.TwoWorkersShare`); what that does to the routine list in use is `HotSwap.SlotInUseWrittenIff`.
- Ledger.ServableIff: says that some continuation serves the item, not that every fair one does; and the worker's own test that the session is not paused is not a step.
- Ledger.GivenInOrder: routines are names there; what they compute is the subject of `Composition`.
- Composition.RunRoutines: every lambda of a unit is set; calling an empty one throws in the C++.
- Calls of the cancellation handlers, of the expiration routine and of the progress routine. The cancellation handler may be called more than once for one cancellation.
- The `_setRoutines` copying loop: one assignment of a list.
- `busyCount`, `countPaused` and the priority queue `pq`: they do not influence what is modelled, or do not count what their names say.
- Collectors.Collector.Dispose: the collector's queues are lists without the limit of 2^63-1 entries.
- Pausing and resuming all sessions at once: repetitions of the single operations.
- Pools.Pool.Choose: the worker's later test that the session is not paused, made without the pool's mutex.
- RegistrySpec.ChosenIsRegistered: speaks of the moment the lock is released; a session may be cancelled while it is being served.
- Pools.Pool.AddSession: session objects are added once, right after their creation, as `createSession` does; the session's `deploy` is not part of it. Deletion of session objects is left out: they are never freed.
- Fairness over sessions: `selectedSlot` is computed and not used, and the range consulted is always that of worker 0.
- WorkSplit.Distributor.ReassignProcs: sizes are natural numbers without a width; there is at least one worker.
- Shutdown.ShutdownIsSafe: one thread calls the shutdown, possibly again after it returned; thread creation is part of the run. The part of the loop that serves sessions is one step.
- Operations that only warn and return false (`callObject`, `callVector`, `prepend`, `pullBatchAsArray` and the like), names, logging, affinity, random identifiers, clocks, and the control block's map.
