# A verified model of the matrix transposer

The repository is a shared-memory service. Clients put matrices into shared memory, enqueue buffer indices on a
single-producer single-consumer queue and sleep on a futex; a server keeps a bank of clients, visits their queues in
turn, transposes each requested matrix with several threads and wakes the client. This project models those pieces and
their composition in Dafny and proves what holds in every reachable state.

`dafny verify dfyconfig.toml` checks everything.

## How the model is built

Concurrent code appears twice.

* As a **step machine**: a state, a `Move` for each atomic load, store, swap, system call or copied cell, and
  `Run(s, moves)` for an arbitrary schedule. Main results speak of `Run(Init(..), moves)` for all `moves`, and all
  numbers of clients, slots, threads and any capacity.
* As the **object of the source**: classes and arrays updated in place, with the source's loops. Between any two shared
  accesses of a method all other threads make any number of steps, or none (chosen with `:|`). The clause
  `Leads(old(model), model)` of its contract says that the whole execution is one run of the step machine, so the results
  about runs hold of the object; the other clauses say what the call did to it. The field `model` is read only to let
  the other threads move.

| file | source it models |
|---|---|
| `Masks.dfy` | power-of-two arithmetic, the queue constructors, `CalculateBufferSize` |
| `BoundedRing.dfy` | the ring both queues keep, and its histories |
| `SeqLockQueue.dfy`, `SeqLockQueueClass.dfy` | `SpscQueueSeqLock` as machine and as object |
| `RingBufferQueue.dfy`, `RingBufferQueueClass.dfy` | `SpscQueueRingBuffer`, likewise |
| `QueueAgreement.dfy` | both queues against one bounded FIFO |
| `Futex.dfy`, `FutexClass.dfy` | `FutexSignaller`, for any number of waiters and wakers |
| `BitSet.dfy`, `ClientBank.dfy`, `ServerWorkspace.dfy` | the server's bank, handler and dispatcher |
| `Transpose.dfy`, `TiledTranspose.dfy`, `TiledWork.dfy`, `TiledTransposeMethod.dfy` | the two transposes and the comparison |
| `MatrixShapes.dfy`, `BufferNames.dfy` | 32-bit sizes and shared object names |
| `FinalComparison.dfy` | the client's last loop |
| `Session.dfy` | one client program against the service of its slot |
| `TransposeSystem.dfy` | all clients, the handler, the dispatcher and its workers together |
| `RoundRobin.dfy` | bounded bypass of the dispatcher |
| `Progress.dfy` | every wait comes to an end |
| `RequestHistory.dfy` | the requests of the client's two loops |
| `Membership.dfy` | who is in the bank between messages |
| `Completion.dfy` | every client can be brought to its end |
| `Wrappers.dfy` | `Option` |

## What came out

* **With sequentially consistent accesses the sequence counter is not needed.** A cell that Dequeue has read is the
  oldest item even when a write overlapped the read (`SeqLockQueue.ReadIsRightAnyway`): the indices already keep the two
  sides apart. The counter only makes Dequeue give up beside a write (`SeqLockQueue.DequeueGivesUpExactlyBesideAWrite`).
  In the composed system this never costs a client more than the visits `RoundRobin.BoundedBypass` counts.
* **The tiling clamps nothing.** Lines 26-27 of the tiled transpose declare new variables named `rowCount` and `colCount`
  where a minimum is intended. All accesses are inside the matrices if and only if the tile divides both dimensions. For
  the server's tile of 64 this means m, n >= 6; with the client's own default of m = n = 4 the workers do leave the
  matrices (`MatrixShapes.ServerCallFits`, `MatrixShapes.ServerStaysInside`).
* **MatricesAreEqual looks at too few cells from 2^32 cells on**; it is exact exactly below
  (`Transpose.ComparisonIsExactBelowWrap`).
* **No wait is hopeless**: an expecting client is a bounded number of effective server steps away from its answer
  (`Progress.AnswerTakesBoundedWork`), and one such step can always be made (`Progress.SomeServerStep`).
* **CalculateBufferSize wraps from capacity 2^62 on**; it is right exactly up to 2^61 (`Masks.MappingHoldsTheRing`).
* **The server's thread-count test lets zero through**, although its message says that a power of two is required
  (`MatrixShapes.ThreadCountTest`). With zero no worker starts, and the client is woken with its result untouched
  (`TiledTransposeObject.TransposeTiledMultiThreaded`).
* **A client whose setup fails at the server waits for its response for ever** (`Completion.FailedSubscribeIsForever`);
  every other client can always be brought to its end (`Completion.EveryClientCanFinish`).
* **Without a repetition the client's final check complains about every non-zero source matrix**; after at least one it
  never complains (`TransposeSystem.FinalCheck`).
* **RemoveClient's search by id alone is right because slots are handed out first-fit**: no lower slot, stale or left by a
  failed AddClient, carries the id of a live one (`ClientBank.RemovalFindsTheLiveSlot`). Its second wait gives the fact
  that makes reuse of a slot safe: between messages the dispatcher holds no withdrawn bit (`ClientBank.FlagHandshake`,
  `ClientBank.SlotOwnership`).

## Model

| member | source | states |
|---|---|---|
| Masks.GuardAcceptsPowersOfTwo | lib/spsc-queue/SpscQueueSeqLock.cpp:32-40 | the constructor's two tests accept exactly the powers of two from 2 on |
| Masks.MaskKeepsRemainder | lib/spsc-queue/SpscQueueSeqLock.cpp:63 | masking with a power of two less one is the remainder by it, for every word |
| Masks.NextIndex | lib/spsc-queue/SpscQueueSeqLock.cpp:96 | advancing an index by the mask tracks an unbounded counter modulo the capacity |
| Masks.MappingHoldsTheRing | lib/spsc-queue/SpscQueueSeqLock.cpp:121-130 | with 64-bit wrap-around, every cell lies inside the mapping if and only if the capacity is at most 2^61 |
| Masks.MappingIsRoundedUp | lib/spsc-queue/SpscQueueSeqLock.cpp:121-130 | below the wrap the mapping is whole cache lines, more than the bytes needed and at most one line more |
| BoundedRing.IndexTests | lib/spsc-queue/SpscQueueRingBuffer.cpp:65-81 | both index tests are exact: next head meets tail if and only if capacity - 1 items wait, tail meets head if and only if none does |
| BoundedRing.WriteKeeps | lib/spsc-queue/SpscQueueSeqLock.cpp:71 | with room left, the store at the head is inside the buffer and overwrites no waiting item |
| BoundedRing.PublishKeeps | lib/spsc-queue/SpscQueueSeqLock.cpp:72 | moving the head past a written cell enqueues exactly that item |
| BoundedRing.TakeKeeps | lib/spsc-queue/SpscQueueSeqLock.cpp:95-102 | the cell at the tail holds the oldest waiting item, and moving the tail past it dequeues exactly that |
| BoundedRing.SliceIsTheRest | lib/spsc-queue/SpscQueueSeqLock.cpp:60-107 | the dequeued items and the physical cells from tail up to head, going round the end, are the enqueued items, and at most capacity - 1 cells are in use |
| SeqLockQueue.InitInv | lib/spsc-queue/SpscQueueSeqLock.cpp:43-53 | a zero-filled mapping with both indices stored as zero is a valid empty queue |
| SeqLockQueue.ProducerStepKeepsInv | lib/spsc-queue/SpscQueueSeqLock.cpp:60-77 | every single load, store and fetch-add of Enqueue keeps the ring, counter and snapshot invariants |
| SeqLockQueue.ConsumerStepKeepsInv | lib/spsc-queue/SpscQueueSeqLock.cpp:79-107 | so does every single access of Dequeue |
| SeqLockQueue.EveryRunIsFifo | lib/spsc-queue/SpscQueueSeqLock.cpp:60-107 | under every schedule dequeued items followed by the cyclic slice from tail to head are the enqueued items, the slice has at most capacity - 1 items, and a returned item is the latest dequeued one |
| SeqLockQueue.StepsRefineTheFifo | lib/spsc-queue/SpscQueueSeqLock.cpp:72-102 | linearization: the head store appends, the tail store removes and returns the oldest, every other step leaves the abstract queue alone |
| SeqLockQueue.EnqueueRefusesExactlyWhenFull | lib/spsc-queue/SpscQueueSeqLock.cpp:65-67 | Enqueue refuses if and only if capacity - 1 items wait at its tail load, despite its older head snapshot |
| SeqLockQueue.IndicesStayInside | lib/spsc-queue/SpscQueueSeqLock.cpp:71-95 | in every run both indices and every accessed cell are below the capacity |
| SeqLockQueue.CounterMeaning | lib/spsc-queue/SpscQueueSeqLock.cpp:69-74 | in every run seq is twice the completed enqueues, plus one exactly inside the write section |
| SeqLockQueue.CounterDetectsWrites | lib/spsc-queue/SpscQueueSeqLock.cpp:89-100 | between two equal even counter values no producer store happened; any write section in between raises the counter |
| SeqLockQueue.DequeueGivesUpExactlyBesideAWrite | lib/spsc-queue/SpscQueueSeqLock.cpp:89-106 | on a non-empty snapshot Dequeue gives up at its first counter load if and only if a write section is open, and at its second if and only if one was open in between; otherwise it accepts |
| SeqLockQueue.ReadIsRightAnyway | lib/spsc-queue/SpscQueueSeqLock.cpp:95 | the cell read is the oldest waiting item in every run, overlapped or not |
| SeqLockQueue.EnqueueAlone | lib/spsc-queue/SpscQueueSeqLock.cpp:60-77 | a call nobody overlaps appends and returns true, or finds capacity - 1 items, changes nothing and returns false |
| SeqLockQueue.DequeueAlone | lib/spsc-queue/SpscQueueSeqLock.cpp:79-107 | a call nobody overlaps returns and removes the oldest item, or reports an empty queue |
| SeqLockQueue.PromisingDequeueReturnsOldest | lib/spsc-queue/SpscQueueSeqLock.cpp:79-107 | a Dequeue under way that has seen an item returns the oldest one when it is finished with no producer step in between |
| SeqLockQueue.PromiseIsKept | lib/spsc-queue/SpscQueueSeqLock.cpp:79-107 | a Dequeue under way that has seen an item cannot fail, whatever producer steps fall in between, as long as none of them opens a write section: until the oldest item is dequeued the call stays on its way to it, and nothing else is dequeued first |
| SeqLockQueueObject.SpscQueueSeqLock.Open | lib/spsc-queue/SpscQueueSeqLock.cpp:21-54 | in the Producer role, which capacities are refused with which exception, and that the others yield a fresh empty queue |
| SeqLockQueueObject.SpscQueueSeqLock.Enqueue | lib/spsc-queue/SpscQueueSeqLock.cpp:60-77 | on real fields and under any interference: the call is a run of the machine, it enqueues exactly its item if it returns true and nothing otherwise, and it returns false only if the queue was full at some moment of the call |
| SeqLockQueueObject.CounterDiffers | lib/spsc-queue/SpscQueueSeqLock.cpp:89-100 | if the counter has changed since a moment outside write sections, some moment in between was inside one |
| SeqLockQueueObject.SpscQueueSeqLock.Dequeue | lib/spsc-queue/SpscQueueSeqLock.cpp:79-107 | likewise: it dequeues exactly the item it returns, and fails only if at some moment of the call the queue was empty or an Enqueue was inside its write section |
| RingBufferQueue.ProducerStepKeepsInv | lib/spsc-queue/SpscQueueRingBuffer.cpp:60-72 | every access of Enqueue keeps the ring invariant and the room its stale tail snapshot showed |
| RingBufferQueue.ConsumerStepKeepsInv | lib/spsc-queue/SpscQueueRingBuffer.cpp:74-86 | every access of Dequeue keeps it, and the item its stale head snapshot showed |
| RingBufferQueue.EveryRunIsFifo | lib/spsc-queue/SpscQueueRingBuffer.cpp:60-86 | under every schedule the dequeued items and the cyclic slice make up the enqueued items, at most capacity - 1 are in the slice, and a returned item is the latest dequeued one |
| RingBufferQueue.IndicesStayInside | lib/spsc-queue/SpscQueueRingBuffer.cpp:69-83 | in every run both indices and every accessed cell are below the capacity |
| RingBufferQueue.StepsRefineTheFifo | lib/spsc-queue/SpscQueueRingBuffer.cpp:60-86 | linearization at the two index stores; a refusal happens exactly on a full, or empty, queue at the load of the other index |
| RingBufferQueueObject.SpscQueueRingBuffer.Enqueue | lib/spsc-queue/SpscQueueRingBuffer.cpp:60-72 | on real fields and under any interference: a run of the machine, the item enqueued exactly on true, false only if the queue was full at some moment of the call |
| RingBufferQueueObject.SpscQueueRingBuffer.Dequeue | lib/spsc-queue/SpscQueueRingBuffer.cpp:74-86 | likewise for the item it returns; it fails only if the queue was empty at some moment of the call |
| QueueAgreement.RingIsFifo | lib/spsc-queue/SpscQueueRingBuffer.cpp:60-86 | any sequence of calls that do not overlap returns what a FIFO of capacity - 1 places returns |
| QueueAgreement.LockIsFifo | lib/spsc-queue/SpscQueueSeqLock.cpp:60-107 | the same for the sequence-counter queue |
| QueueAgreement.QueuesAgree | lib/spsc-queue/SpscQueueSeqLock.cpp:60-107 | so the two queues return identical results and hold identical contents |
| Futex.StepKeepsInv | lib/futex/FutexSignaller.cpp:59-96 | every swap, sleep, wake and spurious wakeup of any waiter or waker keeps the invariant |
| Futex.NoLostWakeup | lib/futex/FutexSignaller.cpp:59-96 | in every run, a sleeper beside a set word has a waker between its swap and its FUTEX_WAKE |
| Futex.SignalsAreConserved | lib/futex/FutexSignaller.cpp:64-90 | in every run the word is 0 or 1 and equals effective wakes less completed waits; the two strictly alternate, so each wait has a wake of its own and repeated wakes collapse |
| Futex.SetWordIsTaken | lib/futex/FutexSignaller.cpp:62-76 | beside a set word with no wakeup under way a waiter is awake and returns within two steps of its own |
| Futex.WakeLeavesNobodyAsleep | lib/futex/FutexSignaller.cpp:87-90 | after the FUTEX_WAKE of a Wake nobody sleeps and the word is as it was; a Wake on a set word changes nothing at all |
| Futex.ClearWordPutsToSleep | lib/futex/FutexSignaller.cpp:65-71 | beside a clear word a waiter inside Wait is asleep after at most two steps of its own and then makes no more |
| Futex.SleepEnds | lib/futex/FutexSignaller.cpp:71-90 | a sleeper wakes if and only if the kernel wakes it for no reason or some waker makes its FUTEX_WAKE |
| FutexObject.FutexSignaller.Wake | lib/futex/FutexSignaller.cpp:84-96 | under any interference a run of the machine; the word was set at some moment of the call, and the call leaves exactly one signal of its own if its swap succeeds and none otherwise |
| FutexObject.FutexSignaller.Wait | lib/futex/FutexSignaller.cpp:59-77 | under any interference a run of the machine; the loop is left exactly when this call has taken one signal; otherwise it has taken none, and its swap found the word clear in every round, or found it clear and the call is asleep |
| BitSet.SetBitReads | transposer_demo/transpose_server/transpose_server.cpp:38-49 | getBit after setBit: the bit asked for has the new value, every other bit its old one |
| BitSet.SetBitIsSetUpdate | transposer_demo/transpose_server/transpose_server.cpp:38-49 | on the set of positions, setBit adds or removes exactly one element |
| ClientBank.FindSubscribedIsFirst | transposer_demo/transpose_server/transpose_server.cpp:51-66 | ClientExists reports a subscribed slot with the id and no earlier one is such a slot; it reports none only if there is none |
| ClientBank.FirstFreeIsFirst | transposer_demo/transpose_server/transpose_server.cpp:72-79 | AddClient's search yields the lowest clear bit, and none only if all are set |
| ClientBank.FindByIdIsFirst | transposer_demo/transpose_server/transpose_server.cpp:130-139 | the search by id yields the first slot with the id, subscribed or not |
| ClientBank.FindByIdDefaults | transposer_demo/transpose_server/transpose_server.cpp:130-139 | without such a slot it yields slot 0 |
| ClientBank.RemovalFindsTheLiveSlot | transposer_demo/transpose_server/transpose_server.cpp:130-139 | RemoveClient's search, which ignores `subscribed`, yields the very slot ClientExists reports |
| ClientBank.HandlerStepKeepsFirstFit | transposer_demo/transpose_server/transpose_server.cpp:68-147 | no step of the handler puts an id below a live slot with the same id |
| ClientBank.StepKeepsInv | transposer_demo/transpose_server/transpose_server.cpp:68-258 | every step of handler and dispatcher keeps handshake, ownership, subscription and first-fit invariants |
| ClientBank.SlotOwnership | transposer_demo/transpose_server/transpose_server.cpp:81-106 | in every run, while AddClient resets or fills a slot the dispatcher neither holds its bit nor serves it |
| ClientBank.FlagHandshake | transposer_demo/transpose_server/transpose_server.cpp:119-146 | in every run the set is written only with the flag down and read only with it up; the copy is exact with the flag down and no write unannounced, never more than one bit off, and between messages holds no withdrawn bit |
| ClientBank.OneLiveSlotPerId | transposer_demo/transpose_server/transpose_server.cpp:51-147 | between messages the subscribed slots are the valid ones, ids of subscribed slots are distinct, and an unsubscribe picks the right one |
| ClientBank.DispatcherGetsCloser | transposer_demo/transpose_server/transpose_server.cpp:226-257 | with the flag up, every dispatcher step lowers it or shortens the way there |
| ServerWorkspaceObject.ServerWorkspace.WaitForFlag | transposer_demo/transpose_server/transpose_server.cpp:120 | the spinning loop ends, with the flag down, provided the dispatcher gets to make at least one step in each round |
| ServerWorkspaceObject.ServerWorkspace.ClientExists | transposer_demo/transpose_server/transpose_server.cpp:51-66 | the loop finds a subscribed slot with the id if there is one, and no slot before it is one |
| ServerWorkspaceObject.ServerWorkspace.FindFree | transposer_demo/transpose_server/transpose_server.cpp:72-79 | the loop over the word's bits finds the lowest clear one |
| ServerWorkspaceObject.ServerWorkspace.FindToRemove | transposer_demo/transpose_server/transpose_server.cpp:130-139 | the loop finds the first slot with the id, subscribed or not, and slot 0 if there is none |
| ServerWorkspaceObject.ServerWorkspace.AddClient | transposer_demo/transpose_server/transpose_server.cpp:68-126 | on the real array and word, with any number of dispatcher steps (or none) between two accesses: it ends, fills exactly the first free slot, sets exactly its bit, and neither subscribes nor sets a bit when the setup throws |
| ServerWorkspaceObject.ServerWorkspace.RemoveClient | transposer_demo/transpose_server/transpose_server.cpp:128-147 | with any number of dispatcher steps (or none) between two accesses: it ends, clears exactly the slot and bit of the live client, and the dispatcher no longer holds that bit |
| ServerWorkspaceObject.ServerWorkspace.PickUp | transposer_demo/transpose_server/transpose_server.cpp:228-232 | under any handler interference the copy is the set as it stood when the flag was seen up, or the old copy |
| ServerWorkspaceObject.ServerWorkspace.Round | transposer_demo/transpose_server/transpose_server.cpp:226-257 | one round serves exactly the slots of the copy, each once, in ascending order |
| ServerWorkspaceObject.AscendingIsExact | transposer_demo/transpose_server/transpose_server.cpp:234-239 | that order lists every held slot and no other, strictly ascending |
| Transpose.TransposeIsUnique | lib/mat-transpose/TransposeNaive.cpp:3-12 | a matrix satisfies the cell-by-cell definition of a transpose if and only if it is the transpose function's value |
| Transpose.TransposeNaive | lib/mat-transpose/TransposeNaive.cpp:3-12 | the double loop with 32-bit indices leaves exactly the transpose, up to 2^32 cells |
| Transpose.TransposeTwice | lib/mat-transpose/TransposeNaive.cpp:5-11 | transposing with swapped dimensions restores the matrix |
| Transpose.TransposeRearranges | lib/mat-transpose/TransposeNaive.cpp:5-11 | the transpose has the same multiset of elements |
| Transpose.MatricesAreEqual | lib/mat-transpose/MatricesAreEqual.cpp:3-14 | the loop decides agreement of the cells below the 32-bit product |
| Transpose.ComparisonIsExactBelowWrap | lib/mat-transpose/MatricesAreEqual.cpp:6 | that decides equality for all matrices of a shape if and only if the shape has fewer than 2^32 cells |
| Transpose.MatchingIsTransposing | transposer_demo/transpose_client/transpose_client.cpp:132-134 | the comparison with the naive transpose succeeds if and only if every cell of the result is where the cell-by-cell definition of a transpose wants it |
| TiledTranspose.ExactBounds | lib/mat-transpose/TransposeTiledMultiThreaded.cpp:13-43 | all accesses lie inside the matrices if and only if the tile divides both dimensions |
| TiledTranspose.PowersOfTwoFit | lib/mat-transpose/TransposeTiledMultiThreaded.cpp:19-28 | powers of two no smaller than the tile always do |
| TiledTranspose.VectorLayout | lib/mat-transpose/TransposeTiledMultiThreaded.cpp:13-30 | the block vector in full: the number of tiles in empty blocks, then the tiles block column by block column with unclamped corners |
| TiledTranspose.OneWriterPerCell | lib/mat-transpose/TransposeTiledMultiThreaded.cpp:36-46 | every cell lies in exactly one block of the vector, zero-filled blocks included, so in one stride, and distinct cells have distinct images |
| TiledTranspose.SettleSkipsNothing | lib/mat-transpose/TransposeTiledMultiThreaded.cpp:36-43 | a worker's loops pass over no cell of the blocks on its stride |
| TiledTranspose.CopyIsRight | lib/mat-transpose/TransposeTiledMultiThreaded.cpp:43 | the 32-bit indices of every copy are exact and inside, and it copies the cell to its image |
| TiledTranspose.StepInv | lib/mat-transpose/TransposeTiledMultiThreaded.cpp:32-48 | whichever worker copies next, every cell is copied or still ahead of its one worker |
| TiledTranspose.FinishedMeansTransposed | lib/mat-transpose/TransposeTiledMultiThreaded.cpp:50-53 | once the invariant holds and all workers are finished the destination is the transpose |
| TiledTranspose.CopyKeepsTranspose | lib/mat-transpose/TransposeTiledMultiThreaded.cpp:43 | a copy into a finished transpose changes nothing, so repeated requests never spoil a result |
| TiledWork.WorkIsTheMatrix | lib/mat-transpose/TransposeTiledMultiThreaded.cpp:36-46 | all workers together have exactly as many copies to make as the matrix has cells, for any number of workers |
| TiledWork.EveryScheduleTransposes | lib/mat-transpose/TransposeTiledMultiThreaded.cpp:32-53 | under every schedule the copies never exceed the number of cells, all workers are finished if and only if that many were made, so each cell once, and then the destination is the transpose |
| TiledWork.WorkersNeverMeet | lib/mat-transpose/TransposeTiledMultiThreaded.cpp:36-46 | at no moment of any schedule do two workers stand at cells with the same image |
| TiledTransposeObject.BuildBlocks | lib/mat-transpose/TransposeTiledMultiThreaded.cpp:13-30 | the pushing loops, in 32-bit arithmetic, build the block vector: zero-filled blocks, then the tiles column by column |
| TiledTransposeObject.TransposeTiledMultiThreaded | lib/mat-transpose/TransposeTiledMultiThreaded.cpp:11-54 | on arrays, for every choice the scheduler makes, it ends and leaves what TransposeNaive leaves; with no worker thread the destination stays as it was |
| MatrixShapes.ElementCountIsExact | lib/matrix-buf/SharedMatrixBuffer.cpp:24 | the 32-bit element count is right if and only if m + n <= 31; beyond that it is zero bytes |
| MatrixShapes.DimensionValue | lib/matrix-buf/SharedMatrixBuffer.cpp:13-14 | a dimension kept in 32 bits is the power of two below exponent 32 and zero from there on |
| MatrixShapes.MappingHoldsTheMatrix | lib/matrix-buf/SharedMatrixBuffer.cpp:24 | every 8-byte element lies inside the mapping if and only if m + n <= 31, and then the last element ends where the mapping ends |
| MatrixShapes.ServerCallFits | transposer_demo/transpose_server/transpose_server.cpp:245-251 | the dispatcher's call meets what the tiled transpose needs if and only if m, n >= 6, m + n <= 31 and a worker exists |
| MatrixShapes.ServerStaysInside | transposer_demo/transpose_server/transpose_server.cpp:245-251 | all accesses of the dispatcher's call lie inside the matrices if and only if m, n >= 6 |
| MatrixShapes.ThreadCountTest | transposer_demo/transpose_server/transpose_server.cpp:269-273 | the thread-count test accepts exactly the powers of two and zero |
| BufferNames.NameReadsBack | lib/matrix-buf/SharedMatrixBuffer.cpp:85-91 | a decoder recovers owner, index and suffix from every name |
| BufferNames.OwnerReadsBack | lib/spsc-queue/SpscQueueSeqLock.cpp:114-119 | a decoder recovers owner and suffix from every queue name and every futex name |
| BufferNames.NamesLookLikeThis | lib/matrix-buf/SharedMatrixBuffer.cpp:85-91 | the exact text of a name of each kind, on an example |
| BufferNames.NamesNeverAlias | lib/matrix-buf/SharedMatrixBuffer.cpp:85-91 | equal matrix names mean equal owner, index and suffix; equal queue or futex names mean equal owner and suffix; and the three kinds never share a name |
| FinalComparison.FinalCheck | transposer_demo/transpose_client/transpose_client.cpp:129-139 | on arrays: an error is reported if and only if some result fails the cell-by-cell definition of the transpose of its source, and neither is changed |
| Session.StepKeepsInv | transposer_demo/transpose_client/transpose_client.cpp:105-139 | every step of client, kernel, service and workers keeps token, item and matrix invariants |
| Session.NothingIsWasted | transposer_demo/transpose_client/transpose_client.cpp:110-111 | the ignored result of Enqueue is always true, the swap in Wake always succeeds, and a transposition is always of the client's current buffer |
| Session.WaitReturnsWithTheAnswer | transposer_demo/transpose_client/transpose_client.cpp:111 | when Wait returns, the current buffer's result is the transpose of its source, and queue, server and futex word are empty |
| Session.Verdict | transposer_demo/transpose_client/transpose_client.cpp:129-139 | the final verdict is an error if and only if there were no repetitions and some source is not zero |
| Session.WaitingClientIsNotStuck | transposer_demo/transpose_client/transpose_client.cpp:110-111 | a waiting client that is not being served has its request in the queue or its signal up and is awake |
| Session.SleepEnds | lib/futex/FutexSignaller.cpp:71-90 | a client's sleep ends by a spurious wakeup or the service's FUTEX_WAKE and in no other way |
| TransposeSystem.StepKeepsInv | transposer_demo/transpose_server/transpose_server.cpp:222-258 | every step of the whole system keeps bank, session and link invariants |
| TransposeSystem.TokenConservation | transposer_demo/transpose_server/transpose_server.cpp:242-255 | in every run, for every client: items queued, plus one while its request is at the server, plus the futex word, is one exactly while it is owed an answer; and a request is at the server only while its slot is served |
| TransposeSystem.AnsweredMeansTransposed | transposer_demo/transpose_client/transpose_client.cpp:105-114 | end to end: in every run and interleaving, once a buffer's Wait has returned its result is the transpose of what the client put there, then and in every later state |
| TransposeSystem.FinalCheck | transposer_demo/transpose_client/transpose_client.cpp:129-139 | in every run the client's verdict is an error if and only if there were no repetitions and some source is not zero |
| TransposeSystem.NoVisitToAClaimedSlot | transposer_demo/transpose_server/transpose_server.cpp:81-106 | in the whole system no visit goes through a slot that is being reset or filled, and a session is visited exactly while its slot is served |
| TransposeSystem.NoStuckClient | transposer_demo/transpose_client/transpose_client.cpp:110-111 | in every run a waiting client is awake beside its signal, or its request is queued in a valid slot the dispatcher holds or is about to be shown, or is being served |
| RoundRobin.OwnServiceStep | transposer_demo/transpose_server/transpose_server.cpp:242-243 | the Dequeue of a visit that begins while the request waits cannot fail spuriously |
| RoundRobin.StepPays | transposer_demo/transpose_server/transpose_server.cpp:226-257 | every step that dequeues another client's request lowers the potential by at least one, and no step raises it |
| RoundRobin.BoundedBypass | transposer_demo/transpose_server/transpose_server.cpp:226-257 | from any reachable state, at most slots - 1 requests of others are dequeued before the client's own if its bit is held, at most 2 (slots - 1) if it awaits pickup |
| RoundRobin.BypassIsWhatOthersGot | transposer_demo/transpose_server/transpose_server.cpp:242-243 | the bypass count of a run is exactly the number of requests taken from the other clients' queues during it |
| Progress.VisitGoesOn | transposer_demo/transpose_server/transpose_server.cpp:242-255 | every dispatcher step inside a visit that changes anything shortens it |
| Progress.StepShortensTheWay | transposer_demo/transpose_server/transpose_server.cpp:226-257 | while a client expects its answer no move of anybody lengthens the way to it, and every effective step of the dispatcher or a worker shortens it |
| Progress.SomeServerStep | transposer_demo/transpose_server/transpose_server.cpp:226-257 | while a client expects its answer the dispatcher or some worker has an effective step to make |
| Progress.AnswerTakesBoundedWork | transposer_demo/transpose_server/transpose_server.cpp:226-257 | from every reachable state and under every schedule, the dispatcher and the workers make at most (2 slots + 5) (cells of the largest matrix + 11) effective steps before the expected answer is there |
| Progress.AnswerStays | lib/futex/FutexSignaller.cpp:59-96 | an answer that is there stays, whatever anybody does, until the client's own step takes it |
| Progress.AnswerIsTaken | lib/futex/FutexSignaller.cpp:62-76 | the client takes an answer that is there within two steps of its own |
| Progress.EveryWaitCanReturn | transposer_demo/transpose_client/transpose_client.cpp:105-114 | in every reachable state in which a client waits, some schedule of the dispatcher, the workers and that client alone returns it from Wait, and its result is then the transpose of its source |
| RequestHistory.RequestsFollowTheLoops | transposer_demo/transpose_client/transpose_client.cpp:105-114 | in every run the requests of a client are buffers 0, .., k - 1 over and over; at each point of the two loops exactly the ones the loop variables say have been made, and on leaving reps * k, all taken by the server in that order |
| Membership.BankIsTheMembers | transposer_demo/transpose_server/transpose_server.cpp:149-220 | in every run, between messages, a client is subscribed in the bank if and only if it has had its response and its leave message has not been handled; nobody subscribed still awaits a response, and whoever has left has no slot |
| Completion.HandlerRests | transposer_demo/transpose_server/transpose_server.cpp:119-146 | from every reachable state the handler can finish its message, its waiting loops included, and a response that was to come has come |
| Completion.EveryClientCanFinish | transposer_demo/transpose_client/transpose_client.cpp:91-139 | from every reachable state, a client whose subscription has not failed, and for whom a slot is free if it has none yet, is finished by some schedule of itself and the server: all requests made and taken, all results the transposes cell by cell, no error found, unsubscribed |
| Completion.EveryClientCanFinishFromTheStart | transposer_demo/transpose_client/transpose_client.cpp:64-144 | from the start, with at least one slot, this holds of every client |
| Completion.FailedSubscribeIsForever | transposer_demo/transpose_server/transpose_server.cpp:173-177 | a client whose setup threw at the server is never answered: in every later state of every run it still awaits its response |

## Left out

- Weak memory: every machine interleaves its steps sequentially consistently. `head` and `tail` of `SpscQueueSeqLock` are plain fields in the source, and so is the server's `running`; that such accesses behave so is an assumption.
- The 64-bit wrap-around of `seq`: the counter is unbounded. No 2^64 increments can fall between the two loads of one Dequeue.
- Errors of the futex system calls: FUTEX_WAIT is taken to compare and sleep atomically and may wake spuriously, as futex(2) says.
- FutexObject.FutexSignaller.Wait: follows the first `rounds` rounds of the source's endless loop, for any number of rounds; runs of any length are in `Futex`.
- ServerWorkspaceObject.ServerWorkspace.Round: is one pass of the dispatcher's endless loop, with the service of a slot as one step; the steps inside a service are in `Session` and `TransposeSystem`. Shutdown through `running` is not modelled.
- ServerWorkspaceObject.ServerWorkspace.AddClient: requires a free slot, because `indexToAdd` is never set without one (server lines 70-79); in the machines such a subscribe is not a move.
- TransposeSystem.FinalCheck: takes (like `Session.Verdict`) the final comparison as one step, since by then nothing writes the matrices differently; its loops are `FinalComparison.FinalCheck`.
- Setup facts the code relies on and a client must see to: m, n >= 6 and m + n <= 31, at least one worker thread, fewer than 2^31 matrices (the loop variable is a signed 32-bit integer), separate source and destination buffers, shift counts within the width of the shifted word. They are requires clauses, not results, except where the table states the exact condition.
- Client ids are the client's index and each client subscribes once. Reuse of a process id by the system is left out of `TransposeSystem`; `ClientBank` has arbitrary repeated subscribes and unsubscribes.
- The copy of one cell by a worker is one step: two workers never touch the same cell, and sources are not written.
- Unix-socket messages, epoll, `shm_open` and `mmap`: subscribe and unsubscribe are moves, shared memory is shared state that the owner has zero-filled.
- Other functions declared in `mat-transpose.h` (in place, recursive, setup and teardown variants): their bodies are not in the modelled files.
- The item a failing Dequeue of `SpscQueueSeqLock` may already have written to its out-parameter: results are `None` or an item, and no caller uses the item of a failed call.
- Random fill, timers, statistics, tables, argument parsing and logging hold no hard property. Source matrices are arbitrary.
- Fairness is not part of the machine: `Progress` shows that an expecting client is bounded effective server steps away from its answer and that such a step can always be made; that a scheduler lets the server's threads and the client make their steps is an assumption, and so the results do not bound time.
- ServerWorkspaceObject.ServerWorkspace.WaitForFlag: ends because in each round of the spinning loop the dispatcher is given at least one step; a dispatcher that never ran would leave the handler spinning.
- SeqLockQueueObject.SpscQueueSeqLock.Open: is the Producer role, the owner of the mapping. A Consumer runs the same two tests and then maps the same memory without storing to it; in the model it is the same object.
