# Verified models of the message-passing machinery

The repository implements several ways of passing messages over RDMA: rings in the receiver's memory that the sender
writes to remotely, buffers whose addresses circulate between the two sides, a ring shared by many senders, pools of
receive buffers, and a lock-free single-producer/single-consumer queue that ties the threads of a process together.
This project models these protocols and proves that they deliver what was sent, once and in order, that nothing in use
is ever overwritten, that every call gets done and nothing is left behind, or it proves exactly when that holds.

Every protocol is a state machine. Its state holds what the code keeps (offsets, shadow copies, slots, maps, program
counters between atomic accesses) and, as history, what happened so far; its actions are the atomic steps of the
threads and of the network; a run is any interleaving of them. The network interface is reduced to remote writes, reads
and fetch-and-adds that act in the order they were posted on one queue pair, byte by byte where that matters. Each
invariant is proved for every step (`StepKeeps`, `KeptByStep`) and hence for every run (`RunKeepsInvariant`), and the
theorems follow from it. What was asked for is read off the calls among the actions of a run. The modules named
`...Progress` say what must happen, by counting steps: how many steps of its own a call takes at most whatever the others
do, how many steps bring everything to the other side, and that then exactly the rest is received. Beside the state
machines stand classes in the form of the source's objects, whose methods are proved against the same functions.

| file | what it models |
|---|---|
| `SpscQueue`, `SpscRuns`, `SpscProgress`, `SpscZeroRequest` | `ReaderWriterQueue`, every atomic load and store of producer and consumer interleaved, with growth |
| `ReaderWriterQueue` | the same queue as an object used by one thread at a time, with its loops and its capacity |
| `PowersOfTwo` | the rounding by bit smearing and the index masks |
| `Semaphore`, `BlockingQueue`, `BlockingProgress` | `LightweightSemaphore` with its timeout repair loop, and the blocking queue built from it |
| `SharedWrite`, `SharedProgress`, `WriteAtomic` | the shared ring with many senders |
| `RingBuffer`, `BufferedWrite`, `BufferedProgress`, `FlushLag`, `WriteOffset`, `Completions` | the double-mapped ring and the buffered-write protocols with both acknowledgers |
| `ReverseRing`, `ReverseWrite`, `ReverseProgress`, `ReverseFlush` | the reversed ring, where a byte of the message shows its arrival, and its flush policy |
| `DirectWrite`, `DirectProgress`, `StaleReceive`, `SlotObjects` | receive buffers circulating through two rings of slots |
| `DirectWait` | waiting for sends on a direct-write connection that also frees buffers |
| `ReceiveQueue`, `ReceivePool`, `ReceiveProgress` | the batched reposting of receive buffers, with one queue of blocks per connection |
| `Bytes`, `Modular` | lengths in bytes, the double mapping, and arithmetic of offsets |

Assumptions, stated once: threads and network keep taking steps; messages put into a ring are not empty and shorter than the ring; a received region is freed
once; 64-bit counters do not overflow; memory is sequentially consistent; a call that the source lets spin is a step
that is enabled once its condition holds. Buffer sizes are below 2^31, so that the 32-bit offset computations do not
wrap around and are written with unbounded integers.

## What turned out to be false

- A queue constructed for 0 elements starts with a block of one slot, in which no element can be told from none. Once
  the ring has grown, the assertion on entering a next block fails (`AssertionsNeedARequest`: the assertions hold in all
  runs if and only if at least one element is asked for).
- `acked_head_` of the shared-write receiver is never assigned, so in device-memory mode the head that senders read
  stays 0 until the true head passes 10240. A sender can wait forever, although everything before it is freed
  (`WaitingSenderPasses` says exactly when, `SharedWrite.StuckForGood` and `SharedWrite.StuckReachable` that it happens).
- A message of exactly the ring's length is accepted when the ring is empty, and the next head update forgets that the
  ring is full (`WholeLengthIsLost`).
- With read acknowledgements the head recorded as flushed can fall behind by more than half the buffer, because the
  offsets only show the lag modulo the length (`ExceedsByOffset`, `FreeRestoresBound`, `LagGrows`). Nothing depends on
  it there: a flush does nothing and the sender reads the head itself (`FreshHeadAccepts`).
- The reversed ring's `Free` takes the head from the low end of the next region, which is its far end: with more than
  one region in use the head passes a region that is not free (`FreeOldestSafeIff`, `SecondRegionLost`). Two reads and a
  free get there in a ring of any length (`SecondRegionLostReachable`).
- The direct-write receiver, when the application holds all buffers, returns a buffer that is held already
  (`AllHeldIsStale`, `FreshIff`), and for any number of buffers a run leads there (`StaleReachable`).
- The direct-write `Free` drains the completions of sends that `Wait` polls for. On a connection used in both directions a
  sender then waits for good, exactly when `Free` has taken the completion of the newest send (`DirectWait.StuckIff`,
  `DirectWait.StuckForGood`, `DirectWait.StuckReachable`); without a `Free` between a send and its wait it never does
  (`DirectWait.NoFreeNoStarvation`).
- `signal(0)` releases a waiter that was counted as waiting, without a permit (`Semaphore.StepKeeps`, `ZeroSignalGrants`); whatever
  the initial count, a run leads there (`ZeroSignalReachable`).
- `ReadAckReceiver::Get` compares the id as an `int`: a send whose id has 32 low zero bits would end its loop early
  (`ReadAwaitedIff`).

Where comments in the queue's header and its code differ, the code is followed: a new block doubles the largest one up
to the maximal size, and one block is used up to twice the maximal size.

## Model

| member | source | states |
|---|---|---|
| `SpscQueue.KeptByStep` | external/readerwriterqueue.h:285-643 | every atomic step of producer and consumer, in any order, with growth and failing allocations, keeps the invariant: ring of blocks, stream of elements, shadows behind the real indices, what each thread may conclude from what it read |
| `SpscQueue.ProducerUndisturbed` | external/readerwriterqueue.h:571-643 | whatever the consumer does meanwhile, what the producer has read stays valid for its next access |
| `SpscQueue.ConsumerUndisturbed` | external/readerwriterqueue.h:319-373 | the same for the consumer, including the double check before it leaves a block |
| `SpscQueue.SpliceRing` | external/readerwriterqueue.h:621-622 | linking a new block behind the tail block keeps the next pointers one ring, with the block in its place |
| `SpscQueue.RotateRing` | external/readerwriterqueue.h:354-356 | moving the front block on keeps the ring and moves the left block behind the others |
| `SpscQueue.PublishKeeps` | external/readerwriterqueue.h:591-601 | storing the tail block makes exactly the element already in the next block visible |
| `SpscQueue.PopKeeps` | external/readerwriterqueue.h:327-334 | storing the front takes exactly the oldest element |
| `SpscRuns.StartKeeps` | external/readerwriterqueue.h:105-161 | the constructor's ring, of one block or of the computed number of maximal blocks, satisfies the invariant |
| `SpscRuns.EnoughBlocks` | external/readerwriterqueue.h:117-122 | with the block-count formula all blocks but one hold the requested number of elements |
| `SpscRuns.NotTooManyBlocks` | external/readerwriterqueue.h:117-122 | and with one block less they would not |
| `SpscRuns.RunKeepsInvariant` | external/readerwriterqueue.h:285-643 | the invariant holds in every reachable state |
| `SpscRuns.RunIsFifo` | external/readerwriterqueue.h:285-376 | for every interleaving the values that dequeues have returned are a prefix of the elements that enqueues were called with and accepted |
| `SpscRuns.ConsumerReturns` | external/readerwriterqueue.h:285-478 | a returning try_dequeue or peek yields the element after those dequeued; only try_dequeue takes it; one that fails has seen the queue empty |
| `SpscRuns.ProducerReturns` | external/readerwriterqueue.h:535-643 | a returning enqueue has added its element and nothing else, or was not allowed to allocate and has seen the requested number queued |
| `SpscRuns.DequeueFailsOnlyIfEmpty` | external/readerwriterqueue.h:280-284 | a dequeue returns false only if the queue was empty at some moment since it was called |
| `SpscRuns.EnqueueFailsOnlyIfFull` | external/readerwriterqueue.h:102-104 | try_enqueue returns false only if at least the constructor's size was queued at some moment since the call, also after growth; enqueue fails only for lack of memory |
| `SpscRuns.AssertionsNeverFail` | external/readerwriterqueue.h:349-351 | the assertions on entering a next block, and on a new block, hold in every reachable state |
| `SpscRuns.ShapeHolds` | external/readerwriterqueue.h:81-96 | following the next pointers: one ring of different blocks, full strictly between front and tail, a tail block other than the front block not empty, the others empty |
| `SpscRuns.BlockedWhenFull` | external/readerwriterqueue.h:572-577 | when the tail block is full and its next block is the front block, the requested number is queued |
| `SpscRuns.IncIsMask` | external/readerwriterqueue.h:330 | for power-of-two sizes the masked increment is the model's |
| `SpscRuns.CountIsMask` | external/readerwriterqueue.h:502 | the masked unsigned difference, which may wrap around, is the number of elements in the block |
| `SpscRuns.SizesArePowers` | external/readerwriterqueue.h:604-611 | every block ever made has a power-of-two size |
| `SpscProgress.DequeueReturnsInTime` | external/readerwriterqueue.h:285-376 | whatever the producer does meanwhile, a try_dequeue, pop or peek returns at the latest with its thirteenth atomic step |
| `SpscProgress.EnqueueReturnsInTime` | external/readerwriterqueue.h:535-643 | whatever the consumer does meanwhile, an enqueue returns at the latest with its eleventh, whether or not memory is refused |
| `SpscProgress.DequeueResult` | external/readerwriterqueue.h:285-376 | if anything was queued at the call, a dequeue returns true with the oldest element; if nothing was and nothing is enqueued meanwhile, false; it takes an element exactly if it returns true |
| `SpscProgress.EnqueueResult` | external/readerwriterqueue.h:535-643 | an enqueue that may allocate returns true unless memory is refused; true means that just the element it was called with is added, false that nothing is |
| `SpscProgress.GrowsOnlyIfFull` | external/readerwriterqueue.h:572-611 | a block is added only in a call that may allocate and during which the requested number of elements was queued |
| `SpscZeroRequest.AssertionsNeedARequest` | external/readerwriterqueue.h:116 | the source's assertions hold in all runs exactly if at least one element is requested |
| `PowersOfTwo.CeilByBits` | external/readerwriterqueue.h:654-666 | the bit smearing computes the smallest power of two from x on, and 0 where it wraps around |
| `PowersOfTwo.CeilIsPow2` | external/readerwriterqueue.h:654-666 | the rounded value is a power of two |
| `ReaderWriterQueue.BetweenCalls` | external/readerwriterqueue.h:285-643 | after any interleaving, a moment between calls is a state of the object that the methods below work from |
| `ReaderWriterQueue.ReaderWriterQueue.constructor` | external/readerwriterqueue.h:105-161 | the loop builds the ring the model starts with, the queue is empty, and its capacity is at least what was asked for: with one block one less than the smallest power of two above that, with more at least one and less than two blocks beyond it |
| `ReaderWriterQueue.ReaderWriterQueue.TryDequeue` | external/readerwriterqueue.h:285-376 | it fails exactly on an empty queue, and otherwise takes the first element |
| `ReaderWriterQueue.ReaderWriterQueue.Peek` | external/readerwriterqueue.h:384-421 | it fails exactly on an empty queue, and otherwise shows the first element and changes nothing |
| `ReaderWriterQueue.ReaderWriterQueue.InnerEnqueue` | external/readerwriterqueue.h:535-643 | the element is appended exactly if there is room, or a new block may be and can be had; room and capacity change accordingly |
| `ReaderWriterQueue.ReaderWriterQueue.EnqueueUntilRefused` | external/readerwriterqueue.h:508-516 | from any empty state exactly max_capacity() consecutive try_enqueue calls succeed |
| `ReaderWriterQueue.ReaderWriterQueue.SizeApprox` | external/readerwriterqueue.h:493-506 | with no call in progress the loop counts exactly the queued elements |
| `ReaderWriterQueue.ReaderWriterQueue.MaxCapacity` | external/readerwriterqueue.h:517-527 | the loop sums what the blocks can hold |
| `ReaderWriterQueue.ElementsAll` | external/readerwriterqueue.h:493-506 | the elements of all blocks together are those enqueued and not dequeued |
| `ReaderWriterQueue.EmptyIsFree` | external/readerwriterqueue.h:508-516 | in an empty queue the tail block is the front block and all slots are free |
| `ReaderWriterQueue.InNewEffect` | external/readerwriterqueue.h:602-631 | growing appends the element and adds exactly the new block's capacity |
| `Semaphore.StepKeeps` | external/atomicops.h:585-663 | a step breaks the invariant exactly if it signals zero permits to a counted waiter |
| `Semaphore.PermitsConserved` | external/atomicops.h:585-663 | with timeouts racing signals, permits granted, left and being taken add up, the count is never below -1, and there is at most one token, none while no one waits |
| `Semaphore.SleeperMissesNothing` | external/atomicops.h:603-606 | a sleeper has a token, or one is owed to it, exactly while a permit is left |
| `Semaphore.FailsOnlyWithoutPermits` | external/atomicops.h:616-621 | a wait returns false only at a moment when all permits are granted |
| `Semaphore.TryWaitLoads` | external/atomicops.h:634-642 | whatever is signalled meanwhile, a tryWait returns with its first access, and false, exactly if that sees no permit |
| `Semaphore.TryWaitTakes` | external/atomicops.h:634-642 | and otherwise returns true with its second, having taken one |
| `Semaphore.SpinTakes` | external/atomicops.h:592-598 | a wait that sees a permit while it spins returns true with its next access |
| `Semaphore.OnlyTimeSleeps` | external/atomicops.h:601-610 | a tryWait and a wait with a timeout of zero never sleep |
| `Semaphore.WaitComesToRest` | external/atomicops.h:585-611 | a wait takes at most 1027 steps before it has returned, sleeps, or has to put the count back |
| `Semaphore.RepairEnds` | external/atomicops.h:612-627 | the repair loop waits for nothing but the signaller's post: while that is owed it turns in place and the post stays possible, and after it the loop returns within three accesses, with the right answer |
| `Semaphore.TimeoutReturns` | external/atomicops.h:609-626 | in every run a sleep that ends by its timeout is over for good: the wait returns within three accesses, false if it was not signalled, or within three of the post that is owed |
| `Semaphore.ZeroSignalGrants` | external/atomicops.h:654-663 | signal(0) lets a sleeper through for whom there is no permit |
| `Semaphore.ZeroSignalReachable` | external/atomicops.h:654-663 | for every initial count a run with a signal(0) grants one permit more than there are |
| `BlockingQueue.StepKeeps` | external/readerwriterqueue.h:784-903 | every step of the composed queue keeps: elements cover permits, and a granted consumer has an element coming |
| `BlockingQueue.GrantedDequeueSucceeds` | external/readerwriterqueue.h:861-882 | the assertion that try_dequeue succeeds after a granted permit never fails, since the queued elements cover the permits left |
| `BlockingQueue.DequeuesInOrder` | external/readerwriterqueue.h:848-903 | the value the j-th returning dequeue hands out, of whichever kind, is the j-th element enqueued |
| `BlockingQueue.OnlySleepBlocks` | external/readerwriterqueue.h:875-903 | neither thread can be stuck in a call, except a consumer asleep in a wait that has time to sleep, while no element is queued or the producer is about to wake it; a try_dequeue never sleeps |
| `BlockingProgress.TryReturnsInTime` | external/readerwriterqueue.h:860-870 | whatever the producer does, a try_dequeue or peek returns at the latest with its fifteenth step |
| `BlockingProgress.EnqueueReturnsInTime` | external/readerwriterqueue.h:784-841 | whatever the consumer does, an enqueue or try_enqueue returns, having signalled, at the latest with its thirteenth step |
| `BlockingProgress.TryFailsIffNone` | external/readerwriterqueue.h:860-870 | a try_dequeue returns false exactly if, when it first looks, nothing is queued but what the producer has yet to signal |
| `BlockingProgress.GivesUpOnlyWithoutElements` | external/readerwriterqueue.h:861-903 | a dequeue returns without an element only if it is not the wait_dequeue without limit, and at a moment when nothing is queued but what is yet to be signalled |
| `BlockingProgress.WakeUpGoesOn` | external/readerwriterqueue.h:876-903 | a sleep that ends without a token leaves the consumer with a step to take; unless it was signalled, a wait with a timeout then returns and wait_dequeue begins again |
| `SharedWrite.KeptByStep` | tests/write_atomic/write_atomic.cpp:272-443 | every step of any number of senders, the receiver and the application keeps the invariant |
| `SharedWrite.RunKeepsInvariant` | tests/write_atomic/write_atomic.cpp:272-443 | and so the invariant holds in every reachable state |
| `SharedWrite.WritesSpareLiveMessages` | tests/write_atomic/write_atomic.cpp:406-440 | no byte landed by any sender falls into another message that is being written, waits or is held |
| `SharedWrite.HeldRegionsIntact` | tests/write_atomic/write_atomic.cpp:300-306 | a held region shows the bytes its sender wrote |
| `SharedWrite.ReceiveDelivers` | tests/write_atomic/write_atomic.cpp:272-308 | a receive hands over exactly one complete message, not received before, with its bytes |
| `SharedWrite.ReservationsOnlyAdvance` | tests/write_atomic/write_atomic.cpp:382-443 | a reservation never changes its span or bytes and only moves forward; it becomes held exactly by the receive of its completion, and freed exactly by its own free, so nothing is delivered twice |
| `SharedProgress.PendingExactly` | tests/write_atomic/write_atomic.cpp:272-274 | in every reachable state the completions that wait are exactly those of the messages that have arrived and were not received |
| `SharedProgress.ReceivedInTurn` | tests/write_atomic/write_atomic.cpp:272-274 | a message with c completions before its own is handed over by the (c + 1)-st receive from then on, whatever the senders do; until then a receive is enabled |
| `SharedProgress.ReservationsAre` | tests/write_atomic/write_atomic.cpp:392-393 | the messages tracked are those the calls reserved, in the order of the calls, each with its sender |
| `SharedProgress.PostedArrives` | tests/write_atomic/write_atomic.cpp:434-443 | a posted message has arrived after as many steps of its sender as it has bytes left to land, and one more |
| `SharedProgress.RunLosesNone` | tests/write_atomic/write_atomic.cpp:272-443 | every message reserved and not arrived is the one its sender is busy with, and every one arrived has its completion waiting |
| `SharedProgress.DrainedIsReceived` | tests/write_atomic/write_atomic.cpp:272-308 | once all senders are idle and no completion waits, every message ever reserved has been handed over |
| `SharedWrite.GlobalOffsetExact` | tests/write_atomic/write_atomic.cpp:289-299 | the 32-bit offset and a head less than a ring behind determine the 64-bit offset |
| `SharedWrite.OffsetsRebuilt` | tests/write_atomic/write_atomic.cpp:289-299 | for every completion in every reachable state the original offset is rebuilt |
| `SharedWrite.WindowTiled` | tests/write_atomic/write_atomic.cpp:310-339 | map entries, held regions and unreceived reservations tile [head, tail) without overlap |
| `SharedWrite.HeadIsFreedPrefix` | tests/write_atomic/write_atomic.cpp:314-339 | after frees in any order the head is the end of the longest freed prefix, and never a key of the map |
| `SharedWrite.MergeChain` | tests/write_atomic/write_atomic.cpp:318-322 | the merge loop follows and removes exactly the entries up to the next region that is not freed |
| `SharedWrite.FreshHeadOpensGate` | tests/write_atomic/write_atomic.cpp:409-430 | with everything before it freed, one fresh head read lets a sender through exactly if message and lag are smaller than the ring |
| `SharedWrite.LagBounded` | tests/write_atomic/write_atomic.cpp:324-334 | the published head lags by the head itself while that is at most 10240 in device-memory mode, and otherwise not at all |
| `SharedWrite.WaitingSenderPasses` | tests/write_atomic/write_atomic.cpp:409-430 | such a sender passes exactly if it is not stuck; without device memory, or with 10240 bytes to spare, it always passes |
| `SharedWrite.StuckForGood` | tests/write_atomic/write_atomic.cpp:324-334 | a stuck sender stays stuck whatever anyone does |
| `SharedWrite.StuckReachable` | tests/write_atomic/write_atomic.cpp:324-334 | for every ring size from 2 on a run leads to a stuck sender |
| `WriteAtomic.WriteAtomicInstance.Receive` | tests/write_atomic/write_atomic.cpp:289-306 | whatever offset was reserved, at or less than a ring ahead of the head, the region gets that offset, from its 32 bits alone |
| `WriteAtomic.WriteAtomicInstance.Free` | tests/write_atomic/write_atomic.cpp:310-339 | the merge loop and the head update do to the object what the protocol's step does |
| `WriteAtomic.WriteAtomicConnection.SendAsync` | tests/write_atomic/write_atomic.cpp:382-443 | the message goes to the reserved offset once the first sufficient head was read, and not before; too large ones are refused |
| `RingBuffer.AcceptsIffRoom` | src/ring_buffer/ring_buffer.cpp:199-217 | the offset comparisons accept a message exactly if it leaves a byte free between unbounded positions, and the new tail stays in step |
| `RingBuffer.HandedOutIsFree` | src/ring_buffer/ring_buffer.cpp:199-217 | no byte handed out shares a cell with one between head and tail |
| `RingBuffer.WholeLengthIsLost` | src/ring_buffer/ring_buffer.cpp:189-192 | a message of the whole length is accepted exactly when head and tail are equal, and after a head update all of it is handed out again |
| `RingBuffer.ReadKeeps` | src/ring_buffer/ring_buffer.cpp:133-138 | read pointer and list stay in step with unbounded positions |
| `RingBuffer.FreeKeeps` | src/ring_buffer/ring_buffer.cpp:148-160 | frees in any order keep the head at the start of the oldest region in use, or at what is read next |
| `RingBuffer.MagicRemoteBuffer.Write` | src/ring_buffer/ring_buffer.cpp:225-234 | whatever positions the offsets stand for, the message is accepted exactly if it leaves a byte free, and the tail then stands for the position after it |
| `RingBuffer.MagicRemoteBuffer.GetNextTail` | src/ring_buffer/ring_buffer.cpp:218-224 | the offset of the position after the message, which a Write would leave as the tail |
| `RingBuffer.MagicRingBuffer.Read` | src/ring_buffer/ring_buffer.cpp:133-138 | the offset of the next position, kept in step with it |
| `RingBuffer.MagicRingBuffer.Free` | src/ring_buffer/ring_buffer.cpp:148-160 | removes exactly the region at that position and returns the offset of the true head |
| `BufferedWrite.StepKeeps` | tests/write/write.cpp:361-539 | every step of sender, network and receiver, with the head arbitrarily stale, keeps the invariant |
| `BufferedWrite.RunDelivers` | tests/write/write.cpp:361-377 | however messages are batched, those received are a prefix of those sent, with payload and length, from the prefix in the ring or from the completion |
| `BufferedWrite.PolledExactly` | tests/write/write.cpp:364-365 | the polled tail differs from the read offset, or a completion is there, exactly while something announced is unread |
| `BufferedProgress.DrainedIsAnnounced` | tests/write/write.cpp:418-539 | in either mode, when all is posted and delivered, every byte has landed and every message is announced: a receive is enabled exactly while fewer are received than sent |
| `BufferedProgress.RestReceived` | tests/write/write.cpp:361-377 | from there on each receive takes the next message, whatever is freed meanwhile, and as many as messages are left give exactly the rest of what was sent |
| `BufferedProgress.NetworkDrains` | tests/write/write.cpp:418-470 | what is on its way is delivered after exactly as many steps as it has bytes and operations |
| `BufferedProgress.PostedIsDelivered` | tests/write/write.cpp:418-470 | so that many deliveries after a post bring everything prepared to the receiver |
| `BufferedProgress.InUseExactly` | tests/write/write.cpp:361-392 | a receive adds exactly the region of the next message to those in use, a free takes out exactly its own |
| `BufferedProgress.HeadIsOldest` | tests/write/write.cpp:379-392 | in every reachable state the head is the oldest region in use, or what is read next if none is |
| `BufferedWrite.HeldIntact` | tests/write/write.cpp:367-371 | a held region keeps its message, whatever is sent meanwhile and freed in whatever order |
| `BufferedWrite.HandedOutApart` | src/ring_buffer/ring_buffer.cpp:199-217 | in every state satisfying the invariant, what the sender is handed shares no cell with anything unread or held |
| `BufferedWrite.BatchStaysShort` | tests/write/write.cpp:489-496 | a batch, posted as a whole, can only ever grow to less than the buffer |
| `BufferedWrite.FlushedHeadIsRecent` | tests/write/write.cpp:379-392 | with send acknowledgements the last flushed head trails the head by at most half the buffer, in every reachable state |
| `BufferedWrite.FreeRestoresBound` | tests/write/write.cpp:379-392 | in any run, with either acknowledger, a free leaves that bound exactly if the lag it met is below a length, or its remainder above half |
| `BufferedProgress.FlushesExactly` | tests/write/write.cpp:379-392 | after a free the head is flushed exactly if it is, modulo the length, more than half the buffer ahead of the last one flushed |
| `FlushLag.LagGrows` | tests/write/acknowledge.cpp:121-127 | with read acknowledgements a run leads to a larger lag |
| `BufferedWrite.AllFreedAccepts` | tests/write/write.cpp:199-218 | once all is freed and the heads are taken, a message passes exactly if it and the lag are less than the buffer; one shorter than half always passes |
| `BufferedWrite.FreshHeadAccepts` | tests/write/acknowledge.cpp:160-177 | with read acknowledgements a head read then lets through any message shorter than the buffer |
| `WriteOffset.BatchIsSingles` | tests/write/write.cpp:479-539 | a batch writes the same messages to the same places as single sends, and its one tail is their last |
| `WriteOffset.WriteOffsetSender.GetWriteAddr` | tests/write/write.cpp:199-218 | the loop takes heads until the first that makes room, and no more |
| `WriteOffset.WriteOffsetSender.SendAsync` | tests/write/write.cpp:418-470 | posts the message at the tail, and the tail after it |
| `WriteOffset.WriteOffsetSender.SendBatch` | tests/write/write.cpp:479-539 | posts each message where its predecessors end, and one tail at the end |
| `WriteOffset.WriteOffsetReceiver.Receive` | tests/write/write.cpp:361-377 | whatever message lies at the read offset with its prefix, the region is exactly its payload, and the next read is behind it |
| `WriteOffset.WriteOffsetReceiver.Free` | tests/write/write.cpp:379-392 | flushes exactly if the offsets show a lag of more than half the buffer, so that afterwards it is at most half exactly if it was below a length, or its remainder above half |
| `Completions.ReadAwaitedIff` | tests/write/acknowledge.cpp:167-174 | Get waits for its own read exactly if no pending id has 32 low zero bits |
| `Completions.Endpoint.Get` | tests/write/acknowledge.cpp:160-177 | which completions the loop swallows |
| `Completions.WriteSender.SendAsync` | tests/write/write.cpp:418-470 | however many completions are swallowed, the newest send's completion is still to come while its id is ahead of the acknowledged one |
| `Completions.WriteSender.Wait` | tests/write/write.cpp:541-553 | terminates, and returns only after a completion of that send or a later one |
| `Completions.WriteSender.WaitImm` | tests/write/write.cpp:712-722 | the same for the variant that takes over every id it polls |
| `ReverseRing.DownIsOffset` | src/ring_buffer/reverse_buffer.cpp:43-50 | the conditional subtraction, which yields the length instead of 0, stands for the next position |
| `ReverseRing.AcceptsIffRoom` | src/ring_buffer/reverse_buffer.cpp:118-136 | the descending comparisons accept a message exactly if it leaves a byte free |
| `ReverseRing.ReadInUse` | src/ring_buffer/reverse_buffer.cpp:43-50 | each read adds its region, at its offset, after those in use |
| `ReverseRing.FreeOldestSafeIff` | src/ring_buffer/reverse_buffer.cpp:60-71 | freeing the oldest region leaves a safe head exactly if it was the only one |
| `ReverseRing.FreeYoungerKeeps` | src/ring_buffer/reverse_buffer.cpp:60-71 | freeing any other region leaves the head, and exactly the other regions in use |
| `ReverseRing.SecondRegionLost` | src/ring_buffer/reverse_buffer.cpp:60-71 | otherwise the sender is handed bytes of a region in use as soon as the stream reaches them again |
| `ReverseRing.SecondRegionLostReachable` | src/ring_buffer/reverse_buffer.cpp:60-71 | in a ring of any length, of any two messages sent and read the older is freed, and the sender is then handed enough to reach the other |
| `ReverseRing.ReverseRemoteBuffer.Write` | src/ring_buffer/reverse_buffer.cpp:137-147 | whatever positions the offsets stand for, the message is accepted exactly if it leaves a byte free, and the tail then stands for the position after it |
| `ReverseRing.ReverseRingBuffer.Free` | src/ring_buffer/reverse_buffer.cpp:60-71 | freeing the only region in use makes the head what is read next |
| `ReverseWrite.StepKeeps` | tests/write/reverse.cpp:33-135 | every step keeps the invariant, when each region is freed before the next receive |
| `ReverseWrite.RunDelivers` | tests/write/reverse.cpp:33-56 | the messages received are a prefix of those sent, intact |
| `ReverseWrite.NoPhantomAndInside` | tests/write/reverse.cpp:37-43 | the polled byte is not zero exactly if a message has landed and not been received, and every write stays inside the doubled mapping |
| `ReverseWrite.HeldIntact` | tests/write/reverse.cpp:49-55 | the region in use keeps its message |
| `ReverseProgress.NetworkDrains` | tests/write/reverse.cpp:103-135 | what is on its way has landed after exactly as many steps as it has bytes |
| `ReverseProgress.DrainedIsLanded` | tests/write/reverse.cpp:33-43 | then all messages have landed, and with none in use a receive is enabled exactly while fewer are received than sent |
| `ReverseProgress.RestReceived` | tests/write/reverse.cpp:33-56 | as many receives as messages are left, each after the free of the one before, give exactly the rest of what was sent |
| `ReverseProgress.InUseExactly` | tests/write/reverse.cpp:33-71 | a receive brings one region into use, and its free makes the head what is read next |
| `ReverseWrite.ExceedsIff` | tests/write/reverse.cpp:61-62 | the descending flush policy decides exactly whether the head moved by more than half |
| `ReverseFlush.StepKeeps` | tests/write/reverse.cpp:58-71 | with the flush that follows a free as the only announcement, every step keeps the bound on the lag, and what the sender knows are flushed heads |
| `ReverseFlush.FlushedHeadIsRecent` | tests/write/reverse.cpp:58-71 | in every reachable state the last flushed head trails the head by at most half the buffer |
| `ReverseFlush.FlushesExactly` | tests/write/reverse.cpp:58-71 | after a free the head is announced exactly if it has moved by more than half the buffer since the last time |
| `ReverseFlush.AllFreedAccepts` | tests/write/reverse.cpp:103-135 | once all is freed and the heads are taken, a message passes exactly if it and the lag are less than the buffer; one shorter than half always passes |
| `ReverseFlush.FreshHeadAccepts` | tests/write/reverse.cpp:103-135 | a head that the sender reads itself once all is freed lets any message through |
| `DirectWrite.StepKeeps` | tests/direct_write/direct_write.cpp:110-190 | every step of sender, receiver and network in both directions keeps the invariant |
| `DirectWrite.RunDelivers` | tests/direct_write/direct_write.cpp:146-163 | while not all buffers are held, the j-th receive returns the j-th message, whole, with frees in any order |
| `DirectWrite.HeldUntouched` | tests/direct_write/direct_write.cpp:164-168 | no step but its own free touches a held buffer |
| `DirectWrite.NoRefreshLost` | tests/direct_write/direct_write.cpp:110-122 | a waiting sender finds its slot valid, with the right address, exactly if the buffer for its message has arrived |
| `DirectProgress.SendReturnsInTime` | tests/direct_write/direct_write.cpp:110-132 | a sender whose slot has arrived returns at the latest with its fourth step from then on |
| `DirectProgress.NetworkDrains` | tests/direct_write/direct_write.cpp:110-190 | two steps of the network for each message sent bring all of them into their buffers, and two for each buffer freed all of these to the sender |
| `DirectProgress.HeldExactly` | tests/direct_write/direct_write.cpp:146-190 | buffers are received in the order in which they were freed, and exactly those received and not freed since are held |
| `DirectProgress.RestReceived` | tests/direct_write/direct_write.cpp:146-163 | with all that was sent landed, a receive is enabled exactly while some message is not received and some buffer not held; so as many receives as messages are left give exactly these |
| `DirectWrite.InvalidateTarget` | tests/direct_write/direct_write.cpp:121-122 | invalidating a slot after reading it cannot undo a later refresh |
| `DirectWrite.AllHeldIsStale` | tests/direct_write/direct_write.cpp:146-154 | with all buffers held the receiver polls a held buffer with an old message |
| `DirectWrite.FreshIff` | tests/direct_write/direct_write.cpp:146-154 | it returns a buffer that is not held exactly while not all are held |
| `StaleReceive.StaleReachable` | tests/direct_write/direct_write.cpp:146-163 | for every number of buffers a run leads to where all are held and the receiver would hand out one of them again |
| `DirectWait.StepKeeps` | tests/direct_write/direct_write.cpp:133-190 | with both threads at the queue of completions: the newest send's completion is still to come, or Wait took it, or Free did |
| `DirectWait.StuckIff` | tests/direct_write/direct_write.cpp:133-143 | a waiting sender has no completion to hope for exactly if Free has taken that of the newest send |
| `DirectWait.StuckForGood` | tests/direct_write/direct_write.cpp:133-143 | it then waits for good, whatever anyone does |
| `DirectWait.OnlyFreeStarves` | tests/direct_write/direct_write.cpp:171-177 | nothing but a Free that takes a completion, before or during the wait, does that |
| `DirectWait.WaitGoesOn` | tests/direct_write/direct_write.cpp:133-143 | otherwise Wait returns or polls as soon as a completion is there, with fewer left to come |
| `DirectWait.WaitReturnsAcked` | tests/direct_write/direct_write.cpp:133-143 | Wait returns only once it has polled a completion of the send it waits for, or of a later one |
| `DirectWait.FreeEnds` | tests/direct_write/direct_write.cpp:164-190 | a free takes what has completed, one after the other, posts its buffer behind what is left, and is done |
| `DirectWait.PolledOnce` | tests/direct_write/direct_write.cpp:133-177 | the completions there are exactly those completed and not polled, by whichever thread |
| `DirectWait.NoFreeNoStarvation` | tests/direct_write/direct_write.cpp:103-109 | if nothing is freed between a send and the wait for it, the wait comes to an end |
| `DirectWait.StuckReachable` | tests/direct_write/direct_write.cpp:164-180 | a run leads to a sender that waits for good |
| `SlotObjects.Sender.SendAsync` | tests/direct_write/direct_write.cpp:110-132 | the call does the protocol's four steps on the array of slots |
| `SlotObjects.Receiver.Receive` | tests/direct_write/direct_write.cpp:146-163 | returns a buffer with the next message, not held before |
| `SlotObjects.Receiver.Free` | tests/direct_write/direct_write.cpp:164-190 | the call does the protocol's step on the arrays |
| `ReceiveQueue.ReceiveQueue.PostMR` | src/receive_queue.cpp:45-61 | fills the chain from its end and posts it when it has 64 requests |
| `ReceiveQueue.ReceiveQueue.constructor` | src/receive_queue.cpp:60-87 | every buffer is posted once at first |
| `ReceiveQueue.ChainAt` | src/receive_queue.cpp:45-50 | each request of a chain has its id and the address of that buffer |
| `ReceivePool.StepKeeps` | src/shared_receive_queue.cpp:37-83 | every atomic step of every stub, of the serving thread and of the network keeps the invariant |
| `ReceivePool.IdsConserved` | src/shared_receive_queue.cpp:37-83 | each id is always in exactly one place, and with at most 100000 buffers no stub ever reports an overrun |
| `ReceivePool.ChainsAreWhole` | src/shared_receive_queue.cpp:37-52 | each posted chain carries 64 different ids with the addresses of their buffers |
| `ReceiveProgress.ServingReturns` | src/shared_receive_queue.cpp:60-74 | whatever stubs and network do, of 14 times m steps of the serving thread m return from a try_dequeue |
| `ReceiveProgress.EveryQueueServed` | src/shared_receive_queue.cpp:60-74 | while no receiver is added, of as many returned calls in a row as there are queues each queue has one |
| `ReceiveProgress.WaitingIdsCollected` | src/shared_receive_queue.cpp:60-74 | once as many calls have returned from a queue as ids waited in it, and one more if one was already on, all these ids are collected or posted |
| `ReceiveProgress.ServedInTime` | src/shared_receive_queue.cpp:37-74 | so whatever waits in a queue is collected or posted after 14 steps of the serving thread for each queue, once for each id that waits in this one and once more; and fewer than 64 collected ids are not posted |
| `ReceiveProgress.PostReturnsInTime` | src/shared_receive_queue.cpp:77-83 | a stub's PostMR returns at the latest with its eleventh step |
| `ReceiveProgress.PostEnqueues` | src/shared_receive_queue.cpp:77-83 | and when it does, its id is the last in the stub's queue |

## Left out

- Connection setup, memory registration, the mapping of the double buffer, device errors and error returns of the verbs: foreign calls.
- Weak memory ordering and fences: the queue and the semaphore are modelled with sequentially consistent accesses.
- Move construction, move assignment and destruction of the queue, and `pop`, which is `try_dequeue` without the value.
- `ReaderWriterQueue.ReaderWriterQueue.TryDequeue`: blocks are values in a sequence and pointers are indices into it, so aliasing of blocks is not modelled; concurrent use is the subject of `SpscRuns`.
- `ReaderWriterQueue.ReaderWriterQueue.SizeApprox`: nothing is stated about its result while calls are in progress.
- `ReaderWriterQueue.ReaderWriterQueue.constructor`: sizes from 2^63 on, where the rounding wraps around to 0, are excluded.
- `SpscRuns.RunIsFifo`: a request of at least one element is assumed here, as in the theorems beside it; about a queue for zero elements, whose first assertion already fails, only the assertions are stated (`AssertionsNeedARequest`).
- Waking up several waiters, and signalling more than one permit at a time through the queue, which the blocking queue never does.
- The semaphore and the protocols' spinning calls as objects: what matters about them is the interleaving, so they are state machines only.
- `BlockingProgress.GivesUpOnlyWithoutElements`: `wait_dequeue_timed` with a negative timeout, which waits without limit but does not repeat a wait that the kernel cut short, is not an action of the model.
- Fairness: that a thread or the network goes on taking steps is not modelled; the theorems count the steps taken.
- The drain loop of the send acknowledger, which reads the first completion again: the channel delivers flushed heads in order.
- `BufferedWrite.RunDelivers`: the sender's allocator and the completions of its writes are not part of it; waiting for completions is in `Completions`.
- `Completions.WriteSender.Wait`: ids stay below 2^32, beyond which `ReadAwaitedIff` shows what can go wrong.
- `ReverseWrite.RunDelivers`: only for an application that frees each region before it receives the next; `FreeOldestSafeIff` shows why.
- `DirectWrite.RunDelivers`: the bytes of a message before its length land at once, since nobody looks at them until the length is there.
- `SlotObjects.Receiver.Free`: the drain of the send completions is not part of this method; it is a step of `DirectWait`.
- `ReceivePool.IdsConserved`: adding a receiver while the serving thread walks the list is atomic here.
- The unfinished basic ring, the buffered-read connection, the checksum variant, plain send and receive, and the benchmark drivers.
