# Buffer queues, their consumers, and the video pipeline: a verified model

The project models the parts of a graphics stack that pass frames from producers to consumers, and proves what
they promise over whole runs.

**The BufferQueue.** 64 slots move between FREE, DEQUEUED, QUEUED and ACQUIRED, and a queue of items outlives the
slots that they were queued from. `BufferQueueTypes` and `BufferQueueSpec` give the shared state as a value and each
locked section as a function on it; `QueueRuns` takes any interleaving of those sections. The classes of `QueueCore`,
`QueueProducer` and `QueueConsumer` update fields and a slot array in place, loop by loop, and are proved to compute
these functions, so that everything proved about runs holds of them:

- `Correspondence`, `QueueInvariant`, `SlotMoves`, `SlotOwnership`, `StaleReleases`: slots, items and owners agree in every reachable
  state, what each call may do to a slot, and when the consumer loses a buffer that it holds;
- `DequeueLimits`, `BufferChoice`, `BufferCounts`, `NonBlocking`, `RoomToDequeue`, `Wakeup`, `BufferLifeCycle`: which
  slot and buffer are handed out, how many may be out, when a dequeue blocks, who sleeps on, and which buffers are
  accepted; `Settings` gives the connections and counts as a machine of their own; `Examples` holds runs in
  which promises fail;
- `QueueHistory`, `FrameStamps`, `LateFrames`: every frame has exactly one fate and is acquired with what it was queued
  with, frames leave in order, and which are dropped or put off;
- `PreAllocation`, `CallbackTickets`: allocation ahead of use, and the order of concurrent callbacks;
- `ConsumerCache`, `CacheExamples`, `ConsumerBase`: the consumer's cache, which must hold buffers that the queue no
  longer sends.

**The StreamSplitter** hands each buffer of one queue to several others and returns it when all have let go.

**The video pipeline.** `DataBuffer` is a ring buffer whose counters wrap; `VideoPipeline` is the protocol of a
producer, a compressor and a transmitter over shared slots and that ring.

**Arithmetic and small protocols.** `DispSync` (event times of the software vsync), `Nv12Rescale` (fixed-point
sampling), `MessageCoalescing` (an atomic mask of pending messages) and `FrameTracker` (a scan that stops early).
`Machine`, `Occurrences` and `SlotScans` hold what several modules share.

## Conventions

A step is what happens under one hold of a mutex, and a run is any sequence of steps by any callers. A wait on a
condition is a step that ends, followed by a new attempt. Where a promise fails of the code, the code is kept; one lemma
gives an input or a run for which it fails, and another the exact condition under which it holds:

| promise | holds if and only if | fails for |
|---|---|---|
| the end of every wait is announced | `Wakeup.SilentEndIff` | `Examples.AsyncWakeupLost`, `Examples.SyncWakeupLost` |
| dequeues do not block | `RoomToDequeue.NeverBlocksIff` | `RoomToDequeue.BlocksWithoutRoom`, `Examples.WouldBlockWithoutAsyncBuffer` |
| the consumer owns a buffer until it gives it up | `SlotOwnership.LeavesConsumerIff` | `Examples.PassTakesBuffer` |
| slots beyond the limit are FREE (asserted) | `SlotOwnership.FreeBeyondLimitIff` | `Examples.PassTakesBuffer` |
| a count that is set suffices (asserted) | `BufferCounts.CountBreaksIff` | `Examples.CountTooLow` |
| the cache holds an attached buffer once it is acquired | `ConsumerCache.AttachKeepsCacheIff`, `ConsumerCache.AttachedBufferIsCachedIff` | `CacheExamples.AttachedBufferNotCached` |
| frames are queued in order | `QueueHistory.QueueingKeepsOrderIff` | `Examples.NewestFrameOvertakes` |
| a buffer that outputs refuse is still let go of | `StreamSplitter.StaysForEverIff` | `StreamSplitter.RefusedByAll` |
| the next event is the first that is due | `DispSync.NextEventIsFirstDueIff` | `DispSync.NextEventSkipsOne` |
| frames shown are counted (services/surfaceflinger/FrameTracker.h:147-152) | `FrameTracker.ScanTotal` | `FrameTracker.ShownButNotCounted` |
| an event announced is fired | `DispSync.AnnouncedIsFiredIff` | `DispSync.AnnouncedIsNotFired` |

Runs of the BufferQueue assume what its callers and its allocator owe it (`QueueRuns.Legal`): allocated and attached
buffers are in no slot and no item, because `stillTracking` compares handles; and while dequeueBuffer allocates with the
mutex dropped, nobody uses that slot or disconnects the producer. Two assertions of the code fail on some runs, which
the model goes through all the same: that of libs/gui/BufferQueueCore.cpp:156 (`BufferCounts`), after a count that
setBufferCount accepts, a later connection or a later acquire limit, and that of
libs/gui/BufferQueueProducer.cpp:175 (`SlotOwnership.FreeBeyondLimitIff`).

Where code and comments disagree the model follows the code: include/gui/BufferQueueCore.h:230-231 says that the frame
counter also counts allocations, but only queueBuffer increments it; include/gui/BufferSlot.h:84-89 names releaseBuffer
as the way from ACQUIRED to FREE, but a producer's pass, count or disconnection also frees acquired buffers
(`SlotOwnership.LeavesConsumerIff`), and releasing one later is refused as stale (`SlotOwnership.LostBufferIsStale`);
libs/gui/StreamSplitter.cpp:153-159 counts a refusal as a release so that the buffer is released eventually, but one
that every output refuses never is (`StreamSplitter.StaysForEverIff`).

## Model

| member | source | states |
|---|---|---|
| `Correspondence.QueuedSlotHasOneItem` | libs/gui/BufferQueueProducer.cpp:606-633 | a QUEUED slot is named by exactly one item that still holds its buffer, and that item carries the slot's frame number |
| `Correspondence.TrackedItemMatches` | libs/gui/BufferQueueCore.cpp:215-229 | an item whose buffer is still in its slot finds the slot QUEUED with the same buffer, frame, fence and acquire flag |
| `Correspondence.QueueSlot` | libs/gui/BufferQueueProducer.cpp:616-633 | marking a DEQUEUED slot QUEUED and inserting its item anywhere keeps the correspondence of slots and items |
| `Correspondence.RemoveFront` | libs/gui/BufferQueueConsumer.cpp:120-167 | taking the front item off, dropped or acquired, keeps the correspondence whether or not its slot was freed meanwhile |
| `Correspondence.FreeSlots` | libs/gui/BufferQueueCore.cpp:190-213 | freeing any set of slots keeps the correspondence although the queue keeps their items |
| `QueueInvariant.StepKeepsInv` | libs/gui/BufferQueueProducer.cpp:93-1125 | each of the 24 locked sections of producer and consumer keeps the invariant: distinct buffers in slots and items, items matching their slots, fences handed over, slots under allocation empty, at most one DEQUEUED slot without a count override, a listener while a producer is connected |
| `QueueInvariant.RunKeepsInv` | include/gui/BufferSlot.h:115-132 | the invariant holds in every state that an interleaving of the calls can reach |
| `QueueInvariant.KeepsQueueBuffer` | libs/gui/BufferQueueProducer.cpp:740-765 | queueing, with or without replacing a droppable front item, keeps the invariant |
| `QueueInvariant.KeepsRelease` | libs/gui/BufferQueueConsumer.cpp:292-324 | a release, fresh or stale, keeps the invariant; a QUEUED slot is never released |
| `QueueInvariant.FoundLeavesRoom` | libs/gui/BufferQueueProducer.cpp:182-214 | a slot found is FREE and below the limit and, without a count override, no slot is DEQUEUED |
| `SlotOwnership.SlotsChangeAsAllowed` | include/gui/BufferSlot.h:54-91 | in every reachable state every call makes only these state changes: the producer gets a slot only from FREE, the consumer only from QUEUED or by attaching, a DEQUEUED slot leaves the producer only by its own calls or a disconnection, while an ACQUIRED slot may also be freed by a producer's pass, count or disconnection |
| `SlotOwnership.LeavesConsumerIff` | include/gui/BufferSlot.h:84-91 | for every call in every reachable state: a buffer that the consumer holds leaves its slot if and only if the consumer releases or detaches it or disconnects, or the producer takes it: by a pass that trims, the slot lying at or beyond the limit and holding a buffer, by setting a count or by disconnecting |
| `SlotOwnership.TakenIsFreed` | libs/gui/BufferQueueProducer.cpp:173-180 | a buffer taken away leaves its slot freed: no buffer, the frame number of freed slots, marked for clean-up |
| `SlotOwnership.LostBufferIsStale` | libs/gui/BufferQueueConsumer.cpp:292-296 | on every run that has not issued the freed number, the consumer's release of a buffer taken away is refused as stale and changes nothing |
| `StaleReleases.ReleaseAnswers` | libs/gui/BufferQueueConsumer.cpp:292-324 | what releaseBuffer answers on every run: success, stale or bad value, by frame number, queue, ownership and whether a late release is expected |
| `StaleReleases.FlagIsExpected` | include/gui/BufferSlot.h:129-132 | on every run the clean-up flag of a slot is set exactly while a late release is expected: the slot lost its buffer while the consumer held it, and has neither come back to the consumer nor been released since |
| `SlotOwnership.RunKeepsFacts` | libs/gui/BufferQueueConsumer.cpp:250-272 | in every reachable state an ACQUIRED slot has a buffer, and a frame number that was issued or, if it was attached and never acquired, zero; a QUEUED slot has an issued one |
| `SlotOwnership.FreeBeyondLimitIff` | libs/gui/BufferQueueProducer.cpp:173-180 | the assertion that slots beyond the limit are FREE holds, in every reachable state in which a pass comes to it, if and only if the consumer holds no slot from the limit on, which is the case if and only if the pass takes nothing from it |
| `Examples.PassTakesBuffer` | libs/gui/BufferQueueProducer.cpp:173-180 | a run from a new queue after which the assertion fails and every synchronous pass makes the consumer's slot 2 FREE |
| `SlotMoves.StepMoves` | libs/gui/BufferQueueProducer.cpp:63-1125 | for each of the 24 locked sections: what every slot that changes becomes, field by field, and from which state |
| `SlotMoves.AcquireMoves` | libs/gui/BufferQueueConsumer.cpp:92-167 | an acquire turns QUEUED slots of dropped items into FREE ones and a QUEUED slot into an ACQUIRED one whose buffer is seen, and leaves every other slot as it was |
| `SlotMoves.QueueMoves` | libs/gui/BufferQueueProducer.cpp:616-757 | queueing makes the one DEQUEUED slot QUEUED under the next frame number with the fence given, at most overwrites a QUEUED slot, which becomes FREE with frame zero, and leaves the others as they were |
| `DequeueLimits.MaxBufferCountIsLeast` | libs/gui/BufferQueueCore.cpp:151-172 | the limit is the least n, not below the base, such that no slot from n on is QUEUED or DEQUEUED, and conversely |
| `DequeueLimits.FoundIsOldestFree` | libs/gui/BufferQueueProducer.cpp:186-206 | the slot found has the least frame number among the FREE slots below the limit, the lowest index winning |
| `DequeueLimits.MustWaitIff` | libs/gui/BufferQueueProducer.cpp:239-250 | a pass must wait if and only if no slot below the limit is FREE or the queue is longer than the limit |
| `DequeueLimits.PassAnswers` | libs/gui/BufferQueueProducer.cpp:154-263 | what a pass answers, in every state: abandoned, conflicting count, one dequeued too many (also: the exact condition), would block, wait or found |
| `DequeueLimits.ConflictIff` | libs/gui/BufferQueueProducer.cpp:161-170 | asynchronous callers are refused exactly if a count is set and a slot at or beyond it is DEQUEUED or QUEUED |
| `DequeueLimits.DequeueLeavesEnough` | libs/gui/BufferQueueProducer.cpp:210-233 | a successful dequeue leaves, once a frame was queued, at least the minimum undequeued; without a count override its buffer is the only one out |
| `DequeueLimits.AtMostOneDequeued` | libs/gui/BufferQueueProducer.cpp:208-214 | in every reachable state without a count override at most one slot is DEQUEUED |
| `BufferCounts.CountBreaksIff` | libs/gui/BufferQueueCore.cpp:151-157 | for every call: where a set count reaches the minimum, the assertion that it does fails afterwards if and only if the call is setBufferCount with a count accepted without room for the extra asynchronous buffer, a connection that makes dequeues non-blocking for a count that has no room for it, or an acquire limit that outgrows the count |
| `Settings.RunFollows` | include/gui/BufferQueueCore.h:130-245 | on every run the settings and connections are those of a machine of its own, on which buffers bear only by whether one is dequeued and whether a frame is accepted |
| `Settings.RunIsSound` | include/gui/BufferQueueCore.h:130-245 | on every run a listening producer is connected, a connected one has a consumer unless the queue is abandoned, and an abandoned queue stays so |
| `Settings.AbandonedRefuses` | include/gui/BufferQueueCore.h:135-140 | on an abandoned queue no call of the producer but allocateBuffers has any effect, and a pass fails with NO_INIT |
| `Settings.SettingAnswers` | libs/gui/BufferQueueProducer.cpp:93-138 | what setBufferCount and connect answer, in every state |
| `BufferCounts.CountSufficesOnRuns` | libs/gui/BufferQueueCore.cpp:151-157 | on every run in which no call meets that guard the assertion holds |
| `Examples.CountTooLow` | libs/gui/BufferQueueProducer.cpp:126-135 | a run from a new queue after which the accepted count of 2 is below the asynchronous minimum of 3 |
| `SlotScans.OldestIsOldest` | libs/gui/BufferQueueProducer.cpp:186-206 | the scan finds an eligible slot if there is one, of the least frame number and lowest index |
| `SlotScans.InUseEndIsLeast` | libs/gui/BufferQueueCore.cpp:161-169 | the upward scan ends at the least bound above which no slot is QUEUED or DEQUEUED |
| `BufferLifeCycle.BufferComesBack` | libs/gui/BufferQueueProducer.cpp:269-406 | through an empty queue a buffer that is dequeued, requested, queued, acquired and released ends in its FREE slot with the same buffer, the issued frame number and the consumer's fence; only trimmed slots change besides |
| `BufferLifeCycle.DequeuedIsAcceptedIff` | libs/gui/BufferQueueProducer.cpp:269-614 | from any dequeue that finds slot b, whatever calls interleave, the allocation included, as long as b stays DEQUEUED: queueBuffer accepts b if and only if the input is valid, asynchronous use does not conflict with a count, its buffer was requested since or was kept and requested before, and the allocation, if there is one, has delivered; detachBuffer accepts it if and only if it was so requested |
| `BufferLifeCycle.QueueAcceptsIff` | libs/gui/BufferQueueProducer.cpp:563-614 | in every state a slot out with the producer is below the limit, so that this never refuses one |
| `BufferLifeCycle.QueueAnswers` | libs/gui/BufferQueueProducer.cpp:544-614 | every answer of queueBuffer, in every state |
| `BufferChoice.KeptIffFits` | libs/gui/BufferQueueProducer.cpp:293-346 | the slot found keeps its buffer if and only if that has the size asked for, or the default size if none is, the format asked for or the default, and the requested and the consumer's usage bits; else it is emptied and exactly such a buffer is asked for |
| `BufferChoice.HandedOutFits` | libs/gui/BufferQueueProducer.cpp:269-406 | what dequeueBuffer hands out, kept or allocated as asked, so fits |
| `BufferChoice.HalfSizeIsRefused` | libs/gui/BufferQueueProducer.cpp:281-284 | a size with one zero dimension is refused without effect |
| `BufferChoice.ReleasesAllIff` | libs/gui/BufferQueueProducer.cpp:173-180 | the producer is told to drop its cached buffers exactly if the pass frees one |
| `BufferChoice.AllocationAsks` | libs/gui/BufferQueueProducer.cpp:1066-1069 | allocateBuffers asks for each dimension and the format given, or the default where zero is given, and for the bits of both sides |
| `BufferChoice.InstalledFits` | libs/gui/BufferQueueProducer.cpp:1066-1116 | what it installs fits a dequeue that asks for the same |
| `BufferLifeCycle.DetachNextTakesOldest` | libs/gui/BufferQueueProducer.cpp:439-482 | detachNextBuffer empties the slot of the least frame number, the lowest index winning, among the FREE slots with a buffer, and touches nothing else |
| `BufferLifeCycle.DetachNextTakesNothing` | libs/gui/BufferQueueProducer.cpp:439-482 | with none there, or on an abandoned queue, it changes nothing |
| `BufferLifeCycle.OutKeeps` | include/gui/BufferSlot.h:62-71 | however calls interleave, a slot that stays DEQUEUED keeps its buffer until its allocation ends, and is requested exactly if it was or requestBuffer named it |
| `LateFrames.DropsLongestLatePrefix` | libs/gui/BufferQueueConsumer.cpp:92-126 | the loop drops exactly the longest prefix of items that are not auto-timestamped and are followed by a timely one, and frees exactly the slots that still held them |
| `LateFrames.LatePrefixIsUnique` | libs/gui/BufferQueueConsumer.cpp:92-126 | there is one such prefix |
| `LateFrames.PresentLaterChangesNothing` | libs/gui/BufferQueueConsumer.cpp:128-138 | PRESENT_LATER is returned only when nothing was dropped and the front is due after the expected time, by less than a second; the state is unchanged |
| `LateFrames.AcquireAnswers` | libs/gui/BufferQueueConsumer.cpp:47-138 | in numbers, for every state and time: too many held, nothing queued, put off exactly if the frame behind the longest late prefix is due after the expected time but less than 1 000 000 000 ns after it, taken otherwise |
| `LateFrames.AttachAnswers` | libs/gui/BufferQueueConsumer.cpp:206-246 | what the consumer's attachBuffer answers: too many held, no FREE slot, or success |
| `FrameStamps.AcquiredAsQueued` | libs/gui/BufferQueueProducer.cpp:616-633 | on every run the item acquired under a frame number carries the slot, buffer, fence, timestamp, auto flag and droppability of the queueBuffer call that issued the number |
| `FrameStamps.QueueingStamps` | libs/gui/BufferQueueProducer.cpp:740-765 | an accepted frame enters at the end, or over a droppable front, with all that the call was given, and the other items stay |
| `LateFrames.AcquireTakesFirstNotLate` | libs/gui/BufferQueueConsumer.cpp:38-177 | an acquire changes nothing or takes the first item behind the late prefix, which is not deferred |
| `Correspondence.TracksIffUnchanged` | libs/gui/BufferQueueCore.cpp:215-229 | an item is still tracked if and only if its slot is unchanged since it was queued; the core's stillTracking says the same of an item of the queue |
| `BufferLifeCycle.AcceptedUnrequestedIff` | libs/gui/BufferQueueProducer.cpp:332-346 | a dequeued buffer is accepted without being requested if and only if it was not newly allocated and its slot had been requested before |
| `BufferLifeCycle.InstalledKeepsRequested` | libs/gui/BufferQueueProducer.cpp:1105-1119 | a buffer that allocateBuffers installs inherits the request flag of its slot |
| `BufferLifeCycle.OverwrittenGoesFirst` | libs/gui/BufferQueueProducer.cpp:752-757 | after a frame is overwritten a FREE slot of frame zero no higher than its own is found next, its own if and only if no lower slot is FREE with frame zero |
| `BufferLifeCycle.CancelledGoesFirst` | libs/gui/BufferQueueProducer.cpp:837-840 | the same for a cancelled slot, which keeps its buffer and gets the given fence |
| `QueueHistory.FramesConserved` | libs/gui/BufferQueueProducer.cpp:616-633 | on every run each issued frame number is exactly one of queued, acquired, dropped late, overwritten or cleared, and no other number is any of these |
| `QueueHistory.FramesLeaveInOrder` | libs/gui/BufferQueueConsumer.cpp:92-167 | with one droppability frames leave the queue in strictly increasing order over the whole run and before all still queued; a droppable queue holds at most one item |
| `QueueHistory.QueueingKeepsOrderIff` | libs/gui/BufferQueueProducer.cpp:748-760 | queueing keeps the queue in frame order if and only if no droppable front is replaced ahead of other items |
| `QueueHistory.StepConserves` | libs/gui/BufferQueueProducer.cpp:740-765 | each call accounts for every frame that enters or leaves the queue |
| `QueueHistory.AcquireSplitsQueue` | libs/gui/BufferQueueConsumer.cpp:92-167 | the dropped prefix, the item taken and the rest make up the queue before |
| `NonBlocking.ConnectingStarts` | libs/gui/BufferQueueProducer.cpp:889-952 | connecting two application-controlled ends establishes the starting state of that guarantee |
| `NonBlocking.StepKeepsAsync` | libs/gui/BufferQueueConsumer.cpp:47-57 | every call that keeps the connection keeps at most one item queued and at most one buffer above the limit acquired |
| `NonBlocking.AtMostOneQueued` | libs/gui/BufferQueueProducer.cpp:748-760 | with at most one item at most one slot is QUEUED |
| `NonBlocking.NeverWouldBlock` | libs/gui/BufferQueueProducer.cpp:182-263 | in the application-controlled mode INVALID_OPERATION is reported exactly if something is dequeued; with a base limit of at least the acquire limit plus two, a pass with nothing dequeued finds a slot, or waits only because the consumer holds its one extra buffer, and WOULD_BLOCK is never reported |
| `NonBlocking.DequeueDoesNotBlock` | libs/gui/BufferQueueProducer.cpp:251-261 | on every run of a connection that starts with an empty queue and FREE slots, whenever there is that room, nothing is dequeued and the consumer is within its limit, dequeueBuffer finds a slot at once |
| `NonBlocking.RoomyIff` | libs/gui/BufferQueueCore.cpp:133-159 | there is that room if and only if the extra buffer for asynchronous use is enabled or the default count makes up for it |
| `RoomToDequeue.NeverBlocksIff` | libs/gui/BufferQueueProducer.cpp:251-261 | on all runs of a connection that leave the counts alone no such pass reports WOULD_BLOCK, if and only if there is room |
| `RoomToDequeue.BlocksWithoutRoom` | libs/gui/BufferQueueProducer.cpp:251-261 | without room some run of the connection, for every setting of the counts, ends where a pass blocks |
| `RoomToDequeue.RoomLasts` | libs/gui/BufferQueueConsumer.cpp:445-481 | the settings that room depends on last as long as the connection, unless the default count is changed |
| `Examples.WouldBlockWithoutAsyncBuffer` | libs/gui/BufferQueueProducer.cpp:258-261 | a run from a new queue, with the extra buffer disabled, that ends in WOULD_BLOCK with nothing dequeued and the consumer within its limit |
| `Examples.NewestFrameOvertakes` | libs/gui/BufferQueueProducer.cpp:748-760 | a run from a new queue after which queueing puts frame 4 ahead of frame 3 |
| `Wakeup.StepWakes` | include/gui/BufferQueueCore.h:95-102 | while a producer is connected, a call that may end the wait of callers in one mode broadcasts the dequeue condition |
| `Wakeup.PassWaitsAgain` | libs/gui/BufferQueueProducer.cpp:251-263 | a waiting pass leaves the others waiting |
| `Wakeup.SilentEndIff` | include/gui/BufferQueueCore.h:95-102 | for every call and both modes of waiters: while a producer is connected, the call ends their wait without a broadcast if and only if a guard holds; for asynchronous waiters a synchronous dequeue or attach, the queue within the limit and a buffer held between the two limits, for synchronous waiters an asynchronous dequeue that finds a slot |
| `Wakeup.AsyncWaiterIff` | libs/gui/BufferQueueProducer.cpp:173-180 | the case of asynchronous waiters and a synchronous pass |
| `Wakeup.SyncWaiterIff` | libs/gui/BufferQueueProducer.cpp:208-214 | the case of synchronous waiters and an asynchronous dequeue, after which their pass would fail instead of waiting |
| `Wakeup.NoLostWakeup` | libs/gui/BufferQueueProducer.cpp:152-267 | on every run, in whatever modes, in which no call meets the guard while callers in a mode sleep, none of them sleeps while a pass would not wait |
| `Wakeup.OneModeIsNeverSilent` | libs/gui/BufferQueueProducer.cpp:152-267 | calls that share one mode never meet the guard |
| `Examples.AsyncWakeupLost` | libs/gui/BufferQueueProducer.cpp:173-180 | a run from a new queue after which every synchronous pass loses the wakeup of asynchronous waiters |
| `Examples.SyncWakeupLost` | libs/gui/BufferQueueProducer.cpp:208-214 | a run from a new queue after which every asynchronous dequeue loses the wakeup of synchronous waiters |
| `ConsumerCache.CacheHoldsQueuedBuffer` | libs/gui/ConsumerBase.cpp:182-200 | on every run (one droppability, buffers released once, the producer attaching to unseen slots only) a successful acquire leaves in the cache the buffer queued in the item, sent or not, with its frame number and fence, and no other entry changes, whatever callbacks and stale releases came late |
| `ConsumerCache.HeldBufferIsAcceptedBackIff` | libs/gui/BufferQueueConsumer.cpp:286-311 | on every such run a held buffer still in the cache is accepted back if and only if the queue counts its slot's buffer as seen; the slot freed is then the consumer's and holds that buffer and no other |
| `ConsumerCache.StepKeepsWorld` | libs/gui/ConsumerBase.cpp:116-258 | every step of producer and consumer keeps slots, items, cache and held buffers coherent |
| `ConsumerCache.MaskForgotten` | libs/gui/BufferQueueConsumer.cpp:398-414 | forgetting the reported slots, at any time, loses no buffer that will be needed |
| `ConsumerCache.CallbackKeepsIff` | libs/gui/BufferQueueConsumer.cpp:398-414 | after the callback an entry of a queue not abandoned is what it was if its slot's buffer is seen or an item queued as seen names the slot, and empty otherwise |
| `ConsumerCache.CallbackOnAbandoned` | libs/gui/BufferQueueConsumer.cpp:391-394 | from an abandoned queue the callback learns nothing and the cache stays |
| `ConsumerCache.CallbackEmptiesCache` | libs/gui/BufferQueueProducer.cpp:954-993 | after a producer's disconnection with an empty queue the callback empties the whole cache |
| `ConsumerCache.ReleaseLeaves` | libs/gui/ConsumerBase.cpp:237-258 | a stale release empties the entry, another takes its fence, and an entry that does not hold the buffer is left alone |
| `ConsumerCache.LeaseReturned` | libs/gui/ConsumerBase.cpp:237-258 | returning a buffer keeps the cache coherent whatever the queue answers |
| `ConsumerCache.FrontAcquired` | libs/gui/BufferQueueConsumer.cpp:146-167 | acquiring the front item, with or without its buffer, keeps the cache coherent and makes it hold the buffer |
| `ConsumerCache.ReleaseAccepted` | libs/gui/BufferQueueConsumer.cpp:292-316 | a lease on a slot that the queue counts as seen is out on that slot, no item names it, and its release succeeds |
| `ConsumerCache.AttachKeepsCacheIff` | libs/gui/BufferQueueProducer.cpp:521-525 | after the producer attaches a buffer the cache is right if and only if the slot found was unseen, for the acquire flag is not reset |
| `ConsumerCache.AttachedBufferIsCachedIff` | libs/gui/BufferQueueProducer.cpp:521-525 | a buffer that the producer attaches, queues through an empty queue and the consumer acquires is in the cache afterwards if and only if the slot found was unseen |
| `CacheExamples.AttachedBufferNotCached` | libs/gui/BufferQueueProducer.cpp:521-525 | a run from a new queue and consumer, legal but for its one attach to a seen slot, after which queue and acquire succeed and the cache does not hold the acquired buffer |
| `QueueCore.BufferQueueCore.constructor` | libs/gui/BufferQueueCore.cpp:44-78 | the initial state |
| `QueueCore.BufferQueueCore.GetMaxBufferCount` | libs/gui/BufferQueueCore.cpp:151-172 | the scanning loop computes the limit that MaxBufferCountIsLeast characterises |
| `QueueCore.BufferQueueCore.SetDefaultMaxBufferCount` | libs/gui/BufferQueueCore.cpp:174-188 | the default changes with a broadcast, or an out-of-range count is refused and nothing changes |
| `QueueCore.BufferQueueCore.FreeBuffer` | libs/gui/BufferQueueCore.cpp:190-206 | one slot is freed, marked for clean-up if it was ACQUIRED |
| `QueueCore.BufferQueueCore.FreeAllBuffers` | libs/gui/BufferQueueCore.cpp:208-213 | all slots are freed; the queue stays |
| `QueueProducer.BufferQueueProducer.RequestBuffer` | libs/gui/BufferQueueProducer.cpp:68-91 | the whole new state, the status and the buffer handed over |
| `QueueProducer.BufferQueueProducer.SetBufferCount` | libs/gui/BufferQueueProducer.cpp:93-150 | refused with a DEQUEUED slot or a count out of range; zero clears the override; else all slots are freed and the queue kept |
| `QueueProducer.BufferQueueProducer.FreeSlotPass` | libs/gui/BufferQueueProducer.cpp:155-264 | one pass of the wait loop trims the slots beyond the limit, decides as characterised by FoundIsOldestFree, MustWaitIff and NeverWouldBlock, and says whether cached buffers must be dropped |
| `QueueProducer.BufferQueueProducer.TrimSlots` | libs/gui/BufferQueueProducer.cpp:173-180 | exactly the buffers in slots beyond the limit are freed, and whether there are any is told |
| `QueueProducer.BufferQueueProducer.BeginDequeueBuffer` | libs/gui/BufferQueueProducer.cpp:284-382 | the first locked section: new state, fence handed over, what to allocate if the buffer does not suit, and the flags: cached buffers to drop, and reallocation, also for buffers that the consumer attached |
| `QueueProducer.BufferQueueProducer.AttachBuffer` | libs/gui/BufferQueueProducer.cpp:484-528 | a pass, then the buffer enters the found slot; the acquire flag stays; whether cached buffers must be dropped |
| `QueueProducer.BufferQueueProducer.ScanSlots` | libs/gui/BufferQueueProducer.cpp:182-206 | the loop finds the oldest FREE slot and counts DEQUEUED and ACQUIRED ones |
| `QueueProducer.BufferQueueProducer.TakeSlot` | libs/gui/BufferQueueProducer.cpp:321-353 | the found slot becomes DEQUEUED, without its buffer and flags if that does not suit |
| `QueueProducer.BufferQueueProducer.FinishDequeueBuffer` | libs/gui/BufferQueueProducer.cpp:366-376 | the new buffer enters the slot with the freed frame number, unless the queue was abandoned |
| `QueueProducer.BufferQueueProducer.DetachBuffer` | libs/gui/BufferQueueProducer.cpp:408-437 | the slot is freed with a broadcast, or nothing changes |
| `QueueProducer.BufferQueueProducer.DetachNextBuffer` | libs/gui/BufferQueueProducer.cpp:439-482 | the oldest FREE buffer leaves its slot and is returned with its fence |
| `QueueProducer.BufferQueueProducer.QueueBuffer` | libs/gui/BufferQueueProducer.cpp:530-777 | new state, status for every refusal, and which callback follows |
| `QueueProducer.BufferQueueProducer.PlaceItem` | libs/gui/BufferQueueProducer.cpp:616-768 | the slot is marked, a frame number issued, the item appended or put over a droppable front, with a broadcast |
| `QueueProducer.BufferQueueProducer.EnterQueue` | libs/gui/BufferQueueProducer.cpp:740-765 | the item goes to the end, or over a droppable front whose slot, if tracked, becomes FREE with frame zero |
| `QueueProducer.BufferQueueProducer.CancelBuffer` | libs/gui/BufferQueueProducer.cpp:814-841 | a DEQUEUED slot becomes FREE with frame zero and the given fence, with a broadcast |
| `QueueProducer.BufferQueueProducer.Connect` | libs/gui/BufferQueueProducer.cpp:889-952 | the connection and the two mode flags; an unknown api is refused after the flags are rewritten |
| `QueueProducer.BufferQueueProducer.Disconnect` | libs/gui/BufferQueueProducer.cpp:954-1011 | all slots are freed with a broadcast if the api matches |
| `QueueProducer.BufferQueueProducer.BeginAllocation` | libs/gui/BufferQueueProducer.cpp:1037-1070 | the slots to allocate for, none if nothing is missing or too few are free |
| `QueueProducer.BufferQueueProducer.FinishAllocation` | libs/gui/BufferQueueProducer.cpp:1088-1123 | buffers enter the targets still FREE, or all are discarded if the defaults changed |
| `QueueProducer.BufferQueueProducer.CreateBuffers` | libs/gui/BufferQueueProducer.cpp:1072-1086 | all buffers or, at the first failure, none |
| `QueueProducer.BufferQueueProducer.AllocateOnce` | libs/gui/BufferQueueProducer.cpp:1029-1123 | one round reaches the limit, or changes nothing |
| `QueueProducer.BufferQueueProducer.AllocateBuffers` | libs/gui/BufferQueueProducer.cpp:1027-1125 | the while(true) loop terminates; it touches only FREE slots without a buffer and reaches exactly the limit, or changes nothing if nothing is missing, slots are too few or an allocation fails |
| `PreAllocation.InstallingReaches` | libs/gui/BufferQueueProducer.cpp:1055-1123 | installing the missing buffers brings their number to the limit, which does not move, and changes only the targets |
| `PreAllocation.InstalledFillsTargets` | libs/gui/BufferQueueProducer.cpp:1105-1119 | each target gets its buffer and every other slot stays |
| `PreAllocation.LimitIsFinal` | libs/gui/BufferQueueProducer.cpp:1055-1056 | at the limit the next round allocates nothing |
| `PreAllocation.AllocatesIff` | libs/gui/BufferQueueProducer.cpp:1056-1064 | buffers are allocated exactly if there are fewer than the limit and no more slots are in use without a buffer than lie beyond the limit; with none there are always slots enough |
| `PreAllocation.TargetsAreLowest` | libs/gui/BufferQueueProducer.cpp:1038-1064 | the slots taken are the lowest FREE ones without a buffer, as many as buffers are missing |
| `QueueConsumer.BufferQueueConsumer.AcquireBuffer` | libs/gui/BufferQueueConsumer.cpp:38-177 | new state, status, the item and the buffer sent with it |
| `QueueConsumer.BufferQueueConsumer.DropLateItems` | libs/gui/BufferQueueConsumer.cpp:92-126 | the loop computes the dropping that DropsLongestLatePrefix characterises |
| `QueueConsumer.BufferQueueConsumer.DropFrontItem` | libs/gui/BufferQueueConsumer.cpp:120-125 | the front item leaves and its slot, if tracked, becomes FREE |
| `QueueConsumer.BufferQueueConsumer.TakeFrontItem` | libs/gui/BufferQueueConsumer.cpp:146-172 | the front item leaves, its slot, if tracked, becomes ACQUIRED, and the buffer is sent unless seen before |
| `QueueConsumer.BufferQueueConsumer.CountAcquired` | libs/gui/BufferQueueConsumer.cpp:47-52 | the number of ACQUIRED slots |
| `QueueConsumer.BufferQueueConsumer.DetachBuffer` | libs/gui/BufferQueueConsumer.cpp:179-204 | an ACQUIRED slot is freed with a broadcast, or nothing changes |
| `QueueConsumer.BufferQueueConsumer.AttachBuffer` | libs/gui/BufferQueueConsumer.cpp:206-275 | the buffer enters the oldest FREE slot, ACQUIRED and unseen, unless the limit is reached |
| `QueueConsumer.BufferQueueConsumer.ReleaseBuffer` | libs/gui/BufferQueueConsumer.cpp:277-336 | new state, status for stale, queued and foreign slots, and whether the producer is told |
| `QueueConsumer.BufferQueueConsumer.IsQueued` | libs/gui/BufferQueueConsumer.cpp:298-307 | whether some item names the slot |
| `QueueConsumer.BufferQueueConsumer.Connect` | libs/gui/BufferQueueConsumer.cpp:338-361 | the listener and the control flag |
| `QueueConsumer.BufferQueueConsumer.Disconnect` | libs/gui/BufferQueueConsumer.cpp:363-381 | the queue is abandoned and emptied and all slots are freed, with a broadcast |
| `QueueConsumer.BufferQueueConsumer.GetReleasedBuffers` | libs/gui/BufferQueueConsumer.cpp:383-419 | the mask is that of the unseen slots, less those named by an item whose buffer will not be sent |
| `QueueConsumer.BufferQueueConsumer.DisableAsyncBuffer` | libs/gui/BufferQueueConsumer.cpp:445-458 | refused once a consumer is connected |
| `QueueConsumer.BufferQueueConsumer.SetMaxAcquiredBufferCount` | libs/gui/BufferQueueConsumer.cpp:460-481 | refused out of range or while a producer is connected |
| `ConsumerBase.ConsumerBase.OnBuffersReleased` | libs/gui/ConsumerBase.cpp:116-133 | exactly the reported slots are forgotten |
| `ConsumerBase.ConsumerBase.AbandonLocked` | libs/gui/ConsumerBase.cpp:138-156 | the cache is emptied and the queue disconnected, once |
| `ConsumerBase.ConsumerBase.AcquireBufferLocked` | libs/gui/ConsumerBase.cpp:182-200 | the queue's and the cache's new states; on success the entry of the slot is updated, its buffer only if one was sent |
| `ConsumerBase.ConsumerBase.ReleaseBufferLocked` | libs/gui/ConsumerBase.cpp:237-258 | the queue's and the cache's new states; a stale answer clears the entry; an untracked buffer changes nothing |
| `ConsumerBase.ConsumerBase.FreeBuffer` | libs/gui/ConsumerBase.cpp:94-99 | the entry is cleared |
| `ConsumerBase.ConsumerBase.constructor` | libs/gui/ConsumerBase.cpp:60-76 | an empty cache, connected to the queue |
| `CallbackTickets.CallbacksInOrder` | libs/gui/BufferQueueProducer.cpp:775-809 | under every interleaving the callbacks made are the items queued, in order, short of the outstanding tickets |
| `CallbackTickets.OneCallbackAtATime` | libs/gui/BufferQueueProducer.cpp:795-805 | the listener is called by one caller at a time |
| `CallbackTickets.CurrentHolderCanMove` | libs/gui/BufferQueueProducer.cpp:797-808 | while tickets are outstanding the holder of the current one exists, is awake, and its next step is enabled |
| `CallbackTickets.AllReturn` | libs/gui/BufferQueueProducer.cpp:797-811 | when no ticket is outstanding every callback was made and every caller has returned |
| `CallbackTickets.StepKeepsInv` | libs/gui/BufferQueueProducer.cpp:793-809 | taking a ticket, entering and leaving the callback keep the invariant |
| `StreamSplitter.RunKeepsInv` | libs/gui/StreamSplitter.cpp:101-248 | at every unlocked point the release count of each tracked buffer is the number of outputs not holding it, the merged fences are those given back, at most two buffers are outstanding |
| `StreamSplitter.ReturnedWhenAllLetGo` | libs/gui/StreamSplitter.cpp:213-243 | a buffer returns to the input only when every output has given it back, never after abandonment, with a fence that merges those of all outputs |
| `StreamSplitter.ReturnedAtMostOnce` | libs/gui/StreamSplitter.cpp:139-246 | each acquisition ends in at most one return or discard; the outstanding count is at most two and equals the number of tracked buffers while not abandoned |
| `StreamSplitter.AbandonedIff` | libs/gui/StreamSplitter.cpp:150-262 | the splitter is abandoned exactly from the first step on that shows an output to be |
| `StreamSplitter.StreamSplitter.OnFrameAvailable` | libs/gui/StreamSplitter.cpp:101-184 | one pass of the wait: sleeps when two are outstanding, finishes when woken after abandonment, aborts when the input yields nothing, else tracks and distributes the buffer |
| `StreamSplitter.StreamSplitter.Distribute` | libs/gui/StreamSplitter.cpp:149-183 | each output holds the buffer or, being abandoned, counts as having released it |
| `StreamSplitter.StreamSplitter.OnBufferReleasedByOutput` | libs/gui/StreamSplitter.cpp:186-248 | counts the release and, at the last, returns the buffer with the merged fence or, if abandoned, drops it |
| `StreamSplitter.StreamSplitter.OnAbandoned` | libs/gui/StreamSplitter.cpp:250-257 | the splitter is abandoned |
| `StreamSplitter.StreamSplitter.AddOutput` | libs/gui/StreamSplitter.cpp:72-94 | one more output, before any buffer |
| `StreamSplitter.TrackedBufferHasHolder` | libs/gui/StreamSplitter.cpp:138-183 | while not abandoned every tracked buffer is held by some output; none is left behind that all outputs gave back |
| `StreamSplitter.NoHolderIff` | libs/gui/StreamSplitter.cpp:138-216 | on every run, abandoned or not, a tracked buffer has no holder if and only if every output refused it |
| `StreamSplitter.StaysForEverIff` | libs/gui/StreamSplitter.cpp:152-175 | a tracked buffer is let go of on no continuation of the run if and only if every output refused it; otherwise its holders can still bring it to an end |
| `StreamSplitter.RefusedByAll` | libs/gui/StreamSplitter.cpp:152-160 | a run after which the only output has refused the buffer, which stays tracked for ever |
| `DataBuffer.DataBuffer.Write` | libs/videoshare/DataBuffer.cpp:49-67 | appends all the bytes to the queue, or none if they do not fit, also across the end of the buffer and the wrap of the counters |
| `DataBuffer.DataBuffer.GetReadSpace` | libs/videoshare/DataBuffer.cpp:15-17 | the number of bytes in the queue, also after the counters wrapped |
| `DataBuffer.DataBuffer.GetWriteSpace` | libs/videoshare/DataBuffer.cpp:19-21 | the room left |
| `DataBuffer.DataBuffer.Reset` | libs/videoshare/DataBuffer.cpp:69-73 | the queue is empty |
| `DataBuffer.DataBuffer.constructor` | libs/videoshare/DataBuffer.cpp:5-10 | the queue is empty |
| `DataBuffer.WrapIsSeamlessIff` | libs/videoshare/DataBuffer.cpp:33-52 | successive bytes follow one another round the buffer, whatever the counter, if and only if the size divides the word modulus |
| `DataBuffer.RingGrows` | libs/videoshare/DataBuffer.cpp:52-63 | bytes laid behind the contents, split or not, extend them |
| `DataBuffer.DataBuffer.Read` | libs/videoshare/DataBuffer.cpp:32-47 | delivers the bytes from the reader's position on, split or not, and advances it; if no more is read than is available these are the oldest bytes of the queue, which it removes |
| `VideoPipeline.SentAndInFlightAreAccepted` | libs/videoshare/VideoShare.cpp:374-552 | under every interleaving the images sent and those in flight are the images of the accepted frames, in order and byte for byte, and the ring holds exactly the unsent ones with their sizes |
| `VideoPipeline.AllSentAtRest` | libs/videoshare/VideoShare.cpp:319-552 | with all threads at rest and pool and ring empty every image was sent |
| `VideoPipeline.RewrittenOnlyWhenWritable` | libs/gui/BufferQueueProducer.cpp:667-675 | a slot is rewritten only when it holds no frame that is pending or being compressed |
| `VideoPipeline.CanWriteId` | libs/gui/BufferQueueProducer.cpp:1176-1181 | the slot chosen is writable |
| `VideoPipeline.CopyTakesLowest` | libs/gui/BufferQueueProducer.cpp:666-681 | a frame is dropped only when all slots are in use, and else copied into the lowest that is not |
| `VideoPipeline.HeldIff` | libs/videoshare/VideoShare.cpp:388-410 | on every run a slot cannot be written exactly while its frame is pending or being compressed: none is lost |
| `VideoPipeline.NeverStuck` | libs/videoshare/VideoShare.cpp:397-540 | on every run, unless all threads are at rest, one of them can move, if the image in hand fits the ring with its header |
| `VideoPipeline.RingNeverDropsNorStarves` | libs/videoshare/VideoShare.cpp:397-405 | no ring write is dropped although its result is ignored, and a header is never read before its image is there |
| `VideoPipeline.PoppedIsReadable` | libs/videoshare/VideoShare.cpp:388-394 | a popped slot is always readable and holds the next accepted frame, so the state check skips nothing |
| `VideoPipeline.ImageIsThere` | libs/videoshare/VideoShare.cpp:535-542 | behind a header lies exactly the next image |
| `VideoPipeline.DecodeEncode` | libs/videoshare/VideoShare.cpp:404-537 | a size survives the four bytes of its header |
| `VideoPipeline.StepKeepsInv` | libs/videoshare/VideoShare.cpp:374-552 | every step of the three threads keeps the invariant |
| `DispSync.NextEventIsDue` | services/surfaceflinger/DispSync.cpp:241-257 | for every reference the time computed has the right phase, lies after the reference and the last event, and at least half a period after the latter |
| `DispSync.NextEventIsFirstDueIff` | services/surfaceflinger/DispSync.cpp:241-257 | it is the first such time if and only if the reference is not before the phase, or has that phase, or the first time after it is too close to the last event |
| `DispSync.FiredWithinLastPeriod` | services/surfaceflinger/DispSync.cpp:221-236 | an event fired was due within the last period |
| `DispSync.InvokedIff` | services/surfaceflinger/DispSync.cpp:221-239 | a gathering calls back, in order and once each, exactly the listeners with an event due after the start of the last period and before now, that start or the last event being not before the phase, with that event's time |
| `DispSync.GatheredIff` | services/surfaceflinger/DispSync.cpp:221-236 | a listener's last event becomes the one due so, if there is one, and stays otherwise |
| `DispSync.OneDueAt` | services/surfaceflinger/DispSync.cpp:221-236 | there is at most one such event for a listener and a time |
| `DispSync.AnnouncedIsFiredIff` | services/surfaceflinger/DispSync.cpp:207-239 | an event announced for t is fired by a gathering within the period after t if and only if the start of that gathering's period, or the last event, is not before the phase |
| `DispSync.AnnouncedIsNotFired` | services/surfaceflinger/DispSync.cpp:249-250 | a model and a listener for which an announced event is not fired |
| `DispSync.DispSyncThread.AddEventListener` | services/surfaceflinger/DispSync.cpp:147-172 | the listener is appended unless its callback is registered |
| `DispSync.DispSyncThread.RemoveEventListener` | services/surfaceflinger/DispSync.cpp:174-186 | the first listener with the callback is removed, if any |
| `DispSync.DispSyncThread.ComputeNextEventTime` | services/surfaceflinger/DispSync.cpp:207-219 | the minimum of the listeners' next event times and the largest time |
| `DispSync.DispSyncThread.ComputeListenerNextEventTime` | services/surfaceflinger/DispSync.cpp:241-257 | the time that NextEventIsDue characterises |
| `DispSync.DispSyncThread.GatherCallbackInvocations` | services/surfaceflinger/DispSync.cpp:221-239 | every listener whose time is past fires once, in order, and remembers that time |
| `DispSync.NextEventSkipsOne` | services/surfaceflinger/DispSync.cpp:249-250 | a model, a listener and a reference before the phase for which an earlier time is due |
| `DispSync.EventsAreSpaced` | services/surfaceflinger/DispSync.cpp:221-239 | on every run of a listener, registered before or after the first model and across model updates, fired times increase and are at least half the period current at the later one apart; under one model they are exact multiples of the period apart |
| `DispSync.FirstEventNotInPast` | services/surfaceflinger/DispSync.cpp:160-165 | a new listener's first event is not before its registration and, unless the phase lies ahead, is the first time of its phase that is after the reference and not before the registration |
| `Nv12Rescale.SampleIsFloorOrNext` | libs/nv12-rescale/nv12rescale.cpp:24-49 | for destinations of at most 65536 each sampled coordinate is the exact rounded-down quotient or one more |
| `Nv12Rescale.SampleIsNear` | libs/nv12-rescale/nv12rescale.cpp:24-49 | for all sizes each sampled coordinate is the exact rounded-down quotient, or one more, or one more for every 65536 of them |
| `Nv12Rescale.ScaledPixel` | libs/nv12-rescale/nv12rescale.cpp:24-65 | for all sizes the luma byte written at a place is the source's near the proportional place, and the chroma pair of an even place, U before V, is the pair of that same source pixel |
| `Nv12Rescale.RestStays` | libs/nv12-rescale/nv12rescale.cpp:24-65 | the bytes beyond the last multiple of eight stay |
| `Nv12Rescale.SampleInRange` | libs/nv12-rescale/nv12rescale.cpp:24-49 | if d(d-1) < 65536 s every sample lies in the source |
| `Nv12Rescale.SamplesInRangeIff` | libs/nv12-rescale/nv12rescale.cpp:36-49 | the first n samples lie in the source if and only if the last one does, with the exact condition |
| `Nv12Rescale.SourceInImage` | libs/nv12-rescale/nv12rescale.cpp:38-63 | every luma byte comes from the luma plane and every chroma byte from the chroma plane of the source |
| `Nv12Rescale.NearestScale` | libs/nv12-rescale/nv12rescale.cpp:17-70 | the loops fill the multiple-of-eight region, luma and paired chroma, from the sampled source bytes and change nothing else |
| `Nv12Rescale.ScalePixel` | libs/nv12-rescale/nv12rescale.cpp:49-65 | one turn writes the luma byte and, at even coordinates, the chroma pair |
| `Nv12Rescale.EqualSizesCopy` | libs/nv12-rescale/nv12rescale.cpp:24-68 | between equal sizes the region is copied exactly |
| `Nv12Rescale.ModerateSizesAreScalable` | libs/nv12-rescale/nv12rescale.cpp:24-49 | even source sizes and moderate destination sizes meet what the scaling needs |
| `MessageCoalescing.BitMeansOneMessage` | services/surfaceflinger/MessageQueue.cpp:52-85 | under every interleaving a kind's bit is set if and only if exactly one message of the kind is about to be sent, pending or popped and not cleared; at most one is pending |
| `MessageCoalescing.DispatchIsHandled` | services/surfaceflinger/MessageQueue.cpp:52-85 | a dispatch that no handler run has started after has a message on its way; if none is, a run has started after every dispatch |
| `MessageCoalescing.StepMovesMessages` | services/surfaceflinger/MessageQueue.cpp:52-85 | only finding the bit clear creates a message and only clearing it uses one up |
| `MessageCoalescing.MessageMovesOn` | services/surfaceflinger/MessageQueue.cpp:52-85 | a message on its way always has a next step of its own that is enabled: it brings the run of its handler one step nearer, and the last starts that run |
| `MessageCoalescing.NobodyDelays` | services/surfaceflinger/MessageQueue.cpp:52-85 | once the message is pending no step of anyone takes it further away |
| `FrameTracker.CounterCoversFences` | services/surfaceflinger/FrameTracker.cpp:51-117 | on every run the fence counter is at least the number of fences in the records |
| `FrameTracker.CounterIsExact` | services/surfaceflinger/FrameTracker.cpp:51-117 | if each fence is set at most once per frame, and none is null, the counter equals the number of fences |
| `FrameTracker.CounterStaysExactIff` | services/surfaceflinger/FrameTracker.cpp:51-66 | an operation keeps the counter exact if and only if it does not set a null fence or replace one |
| `FrameTracker.RestChangesNothing` | services/surfaceflinger/FrameTracker.cpp:151-183 | with no fence left the rest of the scan changes nothing |
| `FrameTracker.ScanSettles` | services/surfaceflinger/FrameTracker.cpp:155-177 | after the scan, for every record but the current one and field by field: a signaled fence is gone and its own time is set, an unsignaled one stays, a time without a fence stays |
| `FrameTracker.StatsCount` | services/surfaceflinger/FrameTracker.cpp:185-214 | a frame shown, like the one before it, at a known time is counted once, by the number of periods between them rounded to the nearest |
| `FrameTracker.ScanCounts` | services/surfaceflinger/FrameTracker.cpp:155-182 | a record enters the statistics, with its times set, at each scan that finds a fence of it signaled, and only then |
| `FrameTracker.ScanTotal` | services/surfaceflinger/FrameTracker.cpp:151-214 | a scan adds to the statistics exactly the frames with a fence that has signaled and a known time whose predecessor's time was known when the scan began |
| `FrameTracker.ShownButNotCounted` | services/surfaceflinger/FrameTracker.cpp:151-183 | a run after which two frames are known to have been shown a period apart and neither is counted, their fences having signaled together |
| `FrameTracker.BucketIsFirst` | services/surfaceflinger/FrameTracker.cpp:201-212 | the buckets are bounded by 2, 4, 8, 16, 32 and 64 periods |
| `FrameTracker.CurrentIsLastSet` | services/surfaceflinger/FrameTracker.cpp:45-102 | on every run the current record holds what was last set of the current frame, and the records are used in turn |
| `FrameTracker.OthersAfter` | services/surfaceflinger/FrameTracker.cpp:73-117 | the other records change only as their fences signal, until they are cleared |
| `FrameTracker.FrameTracker.ProcessFences` | services/surfaceflinger/FrameTracker.cpp:151-183 | the scan that stops when the counter is zero leaves the same records, counter and statistics as the scan of all 127 records |
| `FrameTracker.FrameTracker.ScanRecord` | services/surfaceflinger/FrameTracker.cpp:155-182 | one record: signaled fences become times and, if any did, the statistics are updated |
| `FrameTracker.FrameTracker.SettleRecord` | services/surfaceflinger/FrameTracker.cpp:159-177 | each fence becomes a time and goes if it has signaled, and the counter goes down with it |
| `FrameTracker.FrameTracker.UpdateStats` | services/surfaceflinger/FrameTracker.cpp:185-214 | the loop counts the frame in the first bucket that its number of periods falls in |
| `FrameTracker.FrameTracker.AdvanceFrame` | services/surfaceflinger/FrameTracker.cpp:73-102 | statistics, an emptied next record with its fences no longer counted, then the scan |
| `FrameTracker.FrameTracker.NextFrame` | services/surfaceflinger/FrameTracker.cpp:76-97 | the part of it before the scan |
| `FrameTracker.FrameTracker.ClearStats` | services/surfaceflinger/FrameTracker.cpp:104-117 | empty records, no fences counted |
| `FrameTracker.FrameTracker.SetFrameReadyFence` | services/surfaceflinger/FrameTracker.cpp:51-55 | the fence is set and counted |
| `FrameTracker.FrameTracker.SetActualPresentFence` | services/surfaceflinger/FrameTracker.cpp:62-66 | the fence is set and counted |

## Left out

- FreeSlotPass: the loop of waitForFreeSlotThenRelock is a sequence of passes, each one step; a caller that has waited settles on the default format and usage bits before its first pass in the source, and at its last pass here.
- BeginDequeueBuffer: the EGL fence is left out; the flag that earlier passes of the call have left is a parameter.
- QueueBuffer: crop rectangle and scaling mode are the outcomes of their checks; transforms, the output's size fields and the throttling of EGL producers are left out.
- waitWhileAllocatingLocked only delays callers; the theorems hold for all interleavings, those that it rules out included.
- Frame numbers are unbounded: a run that reaches the number that marks freed slots (UINT32_MAX) is not modelled as special.
- Callback tickets are unbounded integers; the wrap of the 32-bit counters is not modelled.
- ConsumerBase: each call is one step under the consumer's mutex; addReleaseFence and the frame-available callback are left out, fences being opaque tokens.
- CacheHoldsQueuedBuffer: assumes one droppability and no double release; the producer attaches only where AttachKeepsCacheIff keeps the cache right, and what the consumer attaches it does not release through the cache.
- OnFrameAvailable: failures other than an abandoned output abort the process and are not modelled further; outputs are added before any buffer, as the splitter's header demands.
- TrackedBufferHasHolder, StaysForEverIff: a holder can release the buffer; that it does is not promised, for an output that overwrites a droppable frame frees its slot without a release callback.
- Read: a read of more bytes than the buffer holds, which would leave its memory, is excluded.
- setReadPos, setWritePos and seek of the ring buffer move its counters at will and are left out.
- VideoPipeline: compression is a property of the frame (the bytes that it yields), frames keep one size, sends succeed, images fit the ring, and no thread is stopped; a ring operation is one step; the unpredicated condition waits are not modelled: a thread that can move may still sleep on a signal that came too early.
- The video hook in queueBuffer is represented by its choice of a slot and the change of its state; copying pixels, the playback pool and clip_resize are left out.
- GatherCallbackInvocations: the period is positive; with a zero one the thread waits, and negative ones are not modelled here; 64-bit overflow of times is not modelled; the wakeup latency and the sine and cosine fit of the phase are left out.
- nv12_bilinear_scale is left out, its call being commented out.
- NearestScale: odd source widths or heights and empty destinations are excluded, as are sizes whose 16-bit shift overflows a 32-bit integer and sizes with which the source reads beyond its image.
- MessageCoalescing: other messages of the looper are left out, and its two atomic operations are steps.
- ProcessFences: signal times are given by a map from fences to times.
- Plain getters and setters, argument checks for null, names, transform hints, sideband streams, logging, tracing and dumps are left out; they are one-branch facts.
- Binder proxies, parcels, graphics memory, sockets and JPEG encoding are not part of this model.
- Layer, GLConsumer, DisplayDevice and Surface geometry are left out.
