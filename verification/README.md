# Verified models of the memory pool, the logger and the thread pool

This project models the three concurrent parts of the repository in Dafny and proves what they
are for. Run `dafny verify dfyconfig.toml` to check it.

**The allocator** (`memory_pool`). Thread caches sit over a central cache of spans, which sits over a
page cache that splits and merges page runs.

* `SizeClasses` has the rounding, the class index and the span sizes; `Bits` the mask arithmetic under it.
* `FreeLists`, `SpanLists` and `FixedPool` are the intrusive lists and the object pool, as classes that
  update a heap of next pointers.
* `ThreadCache`, `CentralCache` and `CentralReturn` are the loops of the two upper tiers on that heap.
* `PageModel` says what one call of the page cache does, as functions on a value; the class in `PageCache`
  updates its fields with the source's loops and is proved to compute those functions. `PageInvariant`,
  `PageCreate` and `PageRecover` prove that the functions keep the page-cache invariant and what they do to the
  set of free page runs (`PageIntervals`): best fit, cutting from the front, and merging as far as possible, which
  has only one possible result. `PageRuns` draws the conclusion for all runs of calls. `PageMarks` says what happens to a direct span without its mark.
* `Allocator` is the whole allocator as a transition system: any number of threads inside `tnc_malloc` and
  `tnc_free`, interleaved wherever a lock is taken or dropped. Bin locks are held across steps; the page-cache
  lock is taken and dropped within one step, since no other lock is waited for under it. `AllocatorBlocks`,
  `AllocatorSafety`, `AllocatorSteps`, `AllocatorFree`, `AllocatorReturn` and `AllocatorPages` prove its invariant;
  `AllocatorTheorems` and `AllocatorProgress` say what follows for every reachable state, `AllocatorHome` when
  exactly a span goes back to the page cache. The auxiliary state of the proof (who owns each page, span and block)
  does not occur in the statements of these three modules' theorems.
* `AllocatorCalls` says for every step of a call what it achieves: which tier serves a request, how many blocks
  move, where a freed block goes. `AllocatorBounds` has slow start over whole runs and the length of a call.
* `AllocatorMemory` puts the lists of the transition system into one memory: with each step go the link cells it
  writes and the headers it sets, and users may write anything into live allocations in between.
* `RadixTree` is the three-level map that is meant to replace the page-to-span hash map.

**The logger.** `LogBuffer` is one buffer, byte by byte. `LogProtocol` is the triple-buffer protocol as a
transition system over single accesses to shared state: producers, log thread, barrier, event counter,
destruction. `LogSafety` proves its invariant for spaced runs, in which no exchange of buffers starts before the log
thread has taken over the one before, whatever the barrier does. `LogBarrier` proves that a barrier of two
parties or more spaces every run. `LogTheorems` has the results, `LogParties` what the number of parties decides,
`LogBlanks` which configurations can produce blank lines. `LogCalls` says what the decisions of a call depend on
and that an exchange of buffers ends after a bounded number of steps. `LogBytes` runs the protocol on the buffers' bytes.
`LogRoles` ties the pointer exchanges, as methods that update fields, to the steps of the protocol.

**The thread pool.** `RingQueue` has every interleaving of the single loads and stores of the ring queue, and
the queue as a class. `WorkerPool` is the fixed mode as a transition system, with mutex, condition
variables, spurious wakeups, timeouts and the destructor; `WorkerPoolSafety` and `WorkerPoolTheorems` prove
its properties; `WorkerPoolCalls` says what submitting and working achieve and that the workers drain the queue;
`TaskQueue` ties the sections under the mutex, as methods that update fields, to its steps.

The operating system is an oracle that returns page runs that are not held and do not start at page 0. A task
and a log message are opaque. Memory accesses interleave sequentially.

## Where the code departs from its intent

At these lines a property fails for the code as written. Each is kept as written at the level of its own
function, with the exact condition under which it is right and, where that is short, an input for which it
is not. The allocator's transition system follows the intent, since the end-to-end results need all five
allocator lines.

| source | as written | what is proved |
|---|---|---|
| memory_pool/src/central_cache.cpp:79 | stores the next block as the span's head | `CentralReturn.ReturnAsWritten`: the accounting survives exactly if each span has none of its blocks in the run or gets all of them back; `CentralReturn.ReturnLoses` is a run that loses a block; `CentralReturn.ReturnIntended` is the corrected loop |
| memory_pool/src/central_cache.cpp:155 | goes on while a block starts inside the span | `CentralCache.CarvingAsWritten`: the last block fits exactly if the class divides the span; `CentralCache.CarvingExample` is 528 bytes on 63 pages; `CentralCache.CarvingIntended` is the guard `start + align_size <= end` |
| memory_pool/include/alloc.h:49 | takes a span of more than 64 pages for a direct one | `SizeClasses.RoutingByPages`: wrong exactly for requests above 128 KB and up to 256 KB |
| memory_pool/include/alloc.h:31 | does not mark a direct span as in use | `PageMarks.DirectSurvivesExactly`: a later recovery of another span can delete a live direct span of n pages exactly if n is below 128, that is for requests above 256 KB and up to 508 KB; `PageMarks.UnmarkedIsSwallowed`: which recoveries delete it, exactly; `PageMarks.DirectSpanIsSwallowed` is a run that does, for every such n; `PageMarks.LongSpanSurvives` holds in any state at all |
| memory_pool/src/page_cache.cpp:118-124 | leaves the map entries of a run that goes back to the OS | `PageRecover.SourceRecoverIsGood`: right exactly for spans of at most 128 pages; `PageRuns.StaleEntryStays` is a run of 129 pages |
| memory_pool/include/common.h:235 | strides by a root slot, not by a leaf | `RadixTree.StrideAsWritten`: covers the range exactly if it lies in one leaf, or in two of which the second begins a root slot |
| logger/include/log_thread.h:70 | barrier of one party | `LogParties.RolesNeedTwo`: the three roles stay apart exactly with two parties or more; `LogParties.FileNeedsTwo`: every message reaches the file exactly with two parties or more (or buffers of no rows); `LogParties.ExactlyTwo`: safe and never stuck exactly with two; `LogParties.MessageIsLost` is a run of one producer that loses a message; `LogTheorems.EverythingFlushed` and the other safety results hold with one party too in runs where no exchange starts before the log thread has taken over the one before |
| logger/src/logger.cpp:37 | asks whether the buffer is empty, not whether a row is left | nothing is lost or doubled either way; `LogBlanks.BlanksExactly`: over all configurations, the file can get a blank line exactly if there are two parties, the question is as written and a buffer has two rows or more, or there is at most one party and a buffer has a row; `LogBlanks.EarlySwapShows` is the run of two producers for two parties and any such buffer; `LogTheorems.NoBlankLines`: with the intended question none in any spaced run |
| logger/src/log_buffer.cpp:35, :57 | cuts the length to eight bits; writes the newline of a 255-byte message into the next row, or behind the array | `LogBuffer.FlushRoundTrip`: exact condition on the messages for the right output without leaving the array; `LogBuffer.FlushStaysInside`: exact condition for staying inside; `LogBuffer.ShortIsSafe`: 254 bytes are always fine |
| thread_pool/include/ring_buffer.h:12 | lets size 0 pass | `RingQueue.AcceptedSizes`, `RingQueue.SizeZeroHasNoSlot` |
| thread_pool/src/thread_pool.cpp:9-19 | lets an initial size of 0 pass | `WorkerPoolTheorems.NoWorkersNoWork`: the destructor leaves an accepted task undone; with one worker or more it never does |

Two smaller observations: `m_cond_not_full_` is waited on but never notified, so a client that finds the queue
full goes on only by timeout (thread_pool/include/thread_pool.h:45); and the test in `m_get_task` is on the
old count, which is never 0, so it always notifies everybody (`WorkerPoolTheorems.GettingNotifies`).

## Model

| member | source | states |
|---|---|---|
| `Bits.PowerOfTwoTest` | thread_pool/include/ring_buffer.h:12 | for x of at least 1, `x & (x - 1)` is 0 exactly for powers of two |
| `SizeClasses.RoundUpToIsCeiling` | memory_pool/include/common.h:75-77 | the mask form is the next multiple of a power of two, unless the 64-bit sum wraps; it covers the request exactly if it does not |
| `SizeClasses.RoundUpIsClassOfIndex` | memory_pool/include/common.h:80-127 | rounding gives the class that belongs to the index of the request |
| `SizeClasses.RoundUpIsLeastClass` | memory_pool/include/common.h:80-127 | rounding gives the least of the 208 classes that holds the request, with the same index, and is idempotent |
| `SizeClasses.ClassSizeIncreasing` | memory_pool/include/common.h:103-127 | classes grow strictly with their index |
| `SizeClasses.IndexOfClassSize` | memory_pool/include/common.h:103-127 | the index of each class is its number, so the index is a bijection from classes onto 0 to 207 |
| `SizeClasses.IndexMonotone` | memory_pool/include/common.h:103-127 | a larger request never has a smaller index |
| `SizeClasses.WasteBelowOneEighth` | memory_pool/include/common.h:80-93 | above 128 bytes rounding wastes less than one eighth of the request |
| `SizeClasses.LargeRequestPages` | memory_pool/include/common.h:92 | above 256 KB rounding gives whole pages, at least 65 of them, exactly if the 64-bit sum does not wrap |
| `SizeClasses.BlockThresholdRange` | memory_pool/include/common.h:130-142 | the threshold lies in 2 to 512, with its value in each range of classes |
| `SizeClasses.PageThresholdFits` | memory_pool/src/central_cache.cpp:11-23 | a span for a class has 1 to 128 pages and holds at least one block |
| `SizeClasses.PageThresholdExact` | memory_pool/src/central_cache.cpp:11-23 | a span has exactly the whole pages that fit into the bytes of as many blocks as may move at once |
| `SizeClasses.SpanIsWiderThan64Pages` | memory_pool/src/central_cache.cpp:14 | the span of a class has more than 64 pages exactly for classes above 128 KB |
| `SizeClasses.RoutingByPages` | memory_pool/include/alloc.h:49 | telling direct allocations by their page count is right exactly outside (128 KB, 256 KB] |
| `SizeClasses.SmallAndPageClassesTile` | memory_pool/src/central_cache.cpp:11-23 | classes up to 512 bytes and multiples of 4096 fill their spans without remainder |
| `SizeClasses.TilesExactly` | memory_pool/src/central_cache.cpp:11-23 | a class fills its span without remainder exactly if what is left of it without its first twelve factors of two divides the page count |
| `SizeClasses.TilingExamples` | memory_pool/src/central_cache.cpp:11-23 | 576 bytes fill 63 pages; 528 bytes leave 384 |
| `FreeLists.ChainIsSegment` | memory_pool/include/freelist.h:7-9 | a list that ends in null has no cycle: its blocks are distinct |
| `FreeLists.Freelist.PushFront` | memory_pool/src/freelist.cpp:27-34 | prepends the block; one cell of the memory changes |
| `FreeLists.Freelist.PushRange` | memory_pool/src/freelist.cpp:36-42 | prepends a linked segment; one cell changes |
| `FreeLists.Freelist.PopRange` | memory_pool/src/freelist.cpp:47-61 | splits the first n blocks off as a chain of their own; one cell changes; the size is right |
| `FreeLists.Freelist.PopFront` | memory_pool/src/freelist.cpp:63-71 | removes the first block; no cell changes |
| `FreeLists.PushAfterPop` | memory_pool/src/freelist.cpp:36-61 | pushing back what was popped restores every cell and the list |
| `FreeLists.PopAfterPush` | memory_pool/src/freelist.cpp:36-61 | popping what was pushed gives the same run and the old list |
| `ThreadCache.ListOf` | memory_pool/include/common.h:103-127 | the list for a request is that of the least class that fits |
| `ThreadCache.ThreadCache.AllocateHit` | memory_pool/src/thread_cache.cpp:15-18 | takes the first block of the right list; slow-start bounds and all other lists are kept |
| `ThreadCache.ThreadCache.BlocksToRequest` | memory_pool/src/thread_cache.cpp:45-50 | asks for the apply count or the threshold, whichever is less; the apply count grows by one if it was what was asked for, and stays otherwise |
| `ThreadCache.ThreadCache.AcceptRun` | memory_pool/src/thread_cache.cpp:58-70 | the first block of the run is returned, the rest becomes the list, below its apply count |
| `ThreadCache.ThreadCache.Deallocate` | memory_pool/src/thread_cache.cpp:29-40 | a list that reaches its apply count is released as a whole; otherwise it keeps the block in front |
| `CentralCache.Carve` | memory_pool/src/central_cache.cpp:146-163 | the loop chains up the blocks that start below its limit, in address order, and writes no other cell |
| `CentralCache.CarvingAsWritten` | memory_pool/src/central_cache.cpp:155 | with the span's end as limit, one block too many is made exactly if the class does not divide the span |
| `CentralCache.CarvingIntended` | memory_pool/src/central_cache.cpp:155 | with the intended limit the chain is all blocks that fit |
| `CentralCache.CarvingExample` | memory_pool/src/central_cache.cpp:155 | 528-byte blocks on 63 pages: 489 are made, 488 fit |
| `CentralCache.TakeRun` | memory_pool/src/central_cache.cpp:43-59 | cuts off k blocks or all there are, at least one; the rest stays a chain; one cell changes |
| `CentralReturn.CentralBin.GiveBack` | memory_pool/src/central_cache.cpp:77-94 | one turn of the return loop; the span leaves the bin when its last block is back |
| `CentralReturn.CentralBin.Return` | memory_pool/src/central_cache.cpp:73-106 | the loop over the run computes the specified state of chains and counts, and reports the spans that left |
| `CentralReturn.ReturnIntended` | memory_pool/src/central_cache.cpp:73-106 | as intended, every block comes home to its own span, chain length plus use count stays the block total, and a span leaves exactly when all its blocks are home |
| `CentralReturn.ReturnAsWritten` | memory_pool/src/central_cache.cpp:79 | as written, some chains still satisfy the accounting exactly if no span gets only part of its outstanding blocks back |
| `CentralReturn.ReturnLoses` | memory_pool/src/central_cache.cpp:79 | a concrete bin and run for which the accounting breaks |
| `SpanLists.SpanList.constructor` | memory_pool/include/span.h:27-35 | an empty ring of the sentinel alone |
| `SpanLists.SpanList.Insert` | memory_pool/include/span.h:79-88 | links a span in front of the given one, or at the end for the sentinel; no other node's links change |
| `SpanLists.SpanList.Erase` | memory_pool/include/span.h:90-99 | unlinks the span and keeps the order of the others; no other node's links change |
| `SpanLists.SpanList.PopFront` | memory_pool/include/span.h:101-106 | removes the first span; no other node's links change |
| `SpanLists.SpanList.PushFront` | memory_pool/include/span.h:108-113 | puts the span first; no other node's links change |
| `SpanLists.SpanList.InsertAtBegin` | memory_pool/src/central_cache.cpp:169 | inserting at `begin()` puts the span first, also into an empty list; no other node's links change |
| `SpanLists.OtherListStands` | memory_pool/include/span.h:79-113 | a list of other spans in the same memory is untouched by such changes, so many lists live side by side |
| `FixedPool.FixedMemPool.New` | memory_pool/include/fixed_mem_pool.h:12-46 | a new object overlaps no live one; the object deleted last is reused first; with none free the next object is cut off the chunk, and a new chunk is taken only if its rest is too short; every object lies in a chunk, and there are no more chunks than the objects need |
| `FixedPool.FixedMemPool.Delete` | memory_pool/include/fixed_mem_pool.h:49-57 | the object goes to the front of the chain of free objects; one link is written, into the object |
| `FixedPool.FixedMemPool.Use` | memory_pool/include/fixed_mem_pool.h:12-57 | what the owner writes into a live object, the constructor included, leaves the chain of free objects as it is |
| `PageModel.FirstFit` | memory_pool/src/page_cache.cpp:45-46 | the first non-empty bucket from a given one on |
| `PageCreate.CreateServes` | memory_pool/src/page_cache.cpp:11-101 | from any good state: n pages are cut off the front of a least free run that is large enough, the first in its bucket, or of a new run exactly if none is; the rest stays free, other free runs and spans handed out are untouched, invariant kept |
| `PageCreate.FirstFitIsBest` | memory_pool/src/page_cache.cpp:33-48 | the first non-empty bucket that can serve n pages links the least free runs that are large enough, and there is one exactly if some free run is |
| `PageCreate.DeletedIsNext` | memory_pool/src/page_cache.cpp:51 | span objects are reused, the one deleted last first; a new one is made only if none is left |
| `PageIntervals.JoinedOnce` | memory_pool/src/page_cache.cpp:127-176 | there is only one way for a run to take in its free neighbours up to 128 pages, on the left first: the merged run and the free runs left over are determined |
| `PageRecover.NeighbourLookup` | memory_pool/src/page_cache.cpp:129-133 | despite stale entries the map leads from the page next to a span to its true owner, which ends there |
| `PageRecover.MergeLeftKeeps` | memory_pool/src/page_cache.cpp:128-151 | the left loop keeps the invariant, the page set, spans in use, the limit of 128 pages and the right end of the span, and takes in exactly the free runs that lie in the new one |
| `PageRecover.MergeRightKeeps` | memory_pool/src/page_cache.cpp:153-168 | the same for the right loop |
| `PageRecover.LeftNeverReopens` | memory_pool/src/page_cache.cpp:128-168 | growing to the right never enables another merge on the left |
| `PageRecover.StoppedIsBlocked` | memory_pool/src/page_cache.cpp:131-141 | where the loops stop each neighbour is absent, in use or too big to combine |
| `PageRecover.RecoverSmallKeeps` | memory_pool/src/page_cache.cpp:128-176 | a recovered span is free and has taken in its free neighbours as far as 128 pages allow, on the left first; all other free runs, the page set and spans in use are kept; invariant kept |
| `PageRecover.RecoverCleanKeeps` | memory_pool/src/page_cache.cpp:115-179 | with the map entries of a returned run removed, every recovery keeps the invariant for exactly the pages still held; spans of at most 128 pages are merged as in the row above, larger ones change no free run |
| `PageRecover.SourceRecoverIsGood` | memory_pool/src/page_cache.cpp:118-124 | as written the invariant is kept exactly for spans of at most 128 pages |
| `PageCache.PageCache.CreateSpan` | memory_pool/src/page_cache.cpp:11-101 | the imperative code computes the specified call and serves from the best free run, as `CreateServes` says |
| `PageCache.PageCache.Serve` | memory_pool/src/page_cache.cpp:31-100 | search loop and recursion compute the specified call; at most one recursion, measured by whether all buckets from n - 1 on are empty |
| `PageCache.PageCache.ServeExact` | memory_pool/src/page_cache.cpp:33-42 | pops the bucket's first span and tags all its pages |
| `PageCache.PageCache.ServeSplit` | memory_pool/src/page_cache.cpp:46-82 | splits the first span of a larger bucket, relinks and tags both parts |
| `PageCache.PageCache.MergeLeftLoop` | memory_pool/src/page_cache.cpp:128-151 | the loop terminates, each lookup is safe, and it computes the specified merge |
| `PageCache.PageCache.MergeRightLoop` | memory_pool/src/page_cache.cpp:153-168 | the same on the right |
| `PageCache.PageCache.Recover` | memory_pool/src/page_cache.cpp:115-179 | the imperative code computes the specified recovery, as written: merged as far as possible up to 128 pages, deleted and nothing else changed above |
| `PageCache.PageCache.FindSpan` | memory_pool/src/page_cache.cpp:104-112 | an address in a handed-out span of at most 128 pages, or the first page of a larger one, finds that span |
| `PageRuns.GoodIsSound` | memory_pool/src/page_cache.cpp:37-39 | the invariant in plain terms: spans partition the held pages, each free span is linked once in bucket n - 1 and nothing else is, the map is right about handed-out spans and all span ends |
| `PageRuns.RunsAreSound` | memory_pool/src/page_cache.cpp:11-179 | this holds after every sequence of calls, for exactly the pages obtained and not returned |
| `PageRuns.EveryCallMeans` | memory_pool/src/page_cache.cpp:11-179 | in every run each request cuts its pages off a least free run that is large enough, or off a new one if there is none, and each span given back joins its free neighbours as far as 128 pages allow, or goes back to the OS above; all other spans and free runs stay |
| `PageRuns.FreeRunsApart` | memory_pool/src/page_cache.cpp:127-176 | free runs and spans in use do not overlap, so the result of giving one back is determined |
| `PageMarks.LongSpanSurvives` | memory_pool/src/page_cache.cpp:140-141 | in any state, marked or not, no recovery deletes or changes another span of at least 128 pages |
| `PageMarks.DirectSurvivesExactly` | memory_pool/include/alloc.h:31 | over all runs: a live span of n pages that has lost its mark can be deleted by a recovery of another one exactly if n is below 128 |
| `PageMarks.LeftWithoutMark` | memory_pool/src/page_cache.cpp:128-151 | with the mark of q missing the left loop does the same as with it, unless it stops at q and the two fit; then it deletes q |
| `PageMarks.RightWithoutMark` | memory_pool/src/page_cache.cpp:153-168 | the same for the right loop |
| `PageMarks.UnmarkedIsSwallowed` | memory_pool/src/page_cache.cpp:128-179 | a recovery of p deletes the unmarked q exactly if q lies, left or right, next to what the merge loops make of p and the two fit into 128 pages; otherwise the missing mark makes no difference at all |
| `PageMarks.FirstCall` | memory_pool/src/page_cache.cpp:87-100 | for every n below 128, the first call for n pages refills, splits and leaves a known state |
| `PageMarks.FirstState` | memory_pool/src/page_cache.cpp:87-100 | that state is one from which the next call can start |
| `PageMarks.DirectSpanIsSwallowed` | memory_pool/include/alloc.h:31 | for every n below 128: n pages are handed out directly, one page is handed out after them and given back, and the live direct span is deleted |
| `PageMarks.MarkedIsSafe` | memory_pool/src/page_cache.cpp:137-138 | a marked span survives every recovery of another span unchanged |
| `PageRuns.StaleEntryStays` | memory_pool/src/page_cache.cpp:118-124 | a concrete map entry that outlives its span |
| `AllocatorBlocks.AllBlocksExact` | memory_pool/src/central_cache.cpp:146-163 | the carved chain has exactly the blocks that fit, each once |
| `AllocatorBlocks.BlockInside` | memory_pool/src/central_cache.cpp:146-163 | a block lies inside its span and starts on one of its pages |
| `AllocatorBlocks.BlocksDisjoint` | memory_pool/src/central_cache.cpp:146-163 | different blocks of a span do not overlap |
| `AllocatorFree.LookupPc` | memory_pool/include/alloc.h:44-56 | a free finds the block's own span and takes the branch of its kind |
| `AllocatorSteps.MallocHitKeeps` | memory_pool/src/thread_cache.cpp:15-18 | this step keeps the allocator's invariant |
| `AllocatorSteps.MallocMissKeeps` | memory_pool/src/thread_cache.cpp:45-50 | this step keeps the invariant, slow-start bound included |
| `AllocatorSteps.ScanKeeps` | memory_pool/src/central_cache.cpp:120-128 | locking the bin and searching it keeps the invariant |
| `AllocatorSteps.TakeRunKeeps` | memory_pool/src/central_cache.cpp:43-59 | handing out a run keeps the invariant |
| `AllocatorPages.FetchSpanKeeps` | memory_pool/src/central_cache.cpp:132-143 | fetching and marking a span keeps the invariant |
| `AllocatorSteps.CarveKeeps` | memory_pool/src/central_cache.cpp:146-163 | carving with no lock held keeps the invariant |
| `AllocatorSteps.InsertKeeps` | memory_pool/src/central_cache.cpp:167-169 | putting the carved span into its bin keeps the invariant: its blocks were nowhere before |
| `AllocatorSteps.DeliverKeeps` | memory_pool/src/thread_cache.cpp:58-70 | delivering a run keeps the invariant |
| `AllocatorPages.MallocBigKeeps` | memory_pool/include/alloc.h:30-34 | a direct allocation, marked, keeps the invariant |
| `AllocatorFree.FreeKeeps` | memory_pool/include/alloc.h:40-44 | passing an allocation to `tnc_free` keeps the invariant |
| `AllocatorFree.LookupKeeps` | memory_pool/include/alloc.h:44-49 | looking up the span of a freed address keeps the invariant |
| `AllocatorFree.PushLocalKeeps` | memory_pool/src/thread_cache.cpp:34-39 | pushing and possibly releasing keeps the invariant |
| `AllocatorPages.ReleaseBigKeeps` | memory_pool/include/alloc.h:50-54 | giving a direct span back keeps the invariant |
| `AllocatorSteps.LockBinKeeps` | memory_pool/src/central_cache.cpp:70-102 | taking the bin lock, first or again after a span was given back, keeps the invariant |
| `AllocatorSteps.DoneKeeps` | memory_pool/src/central_cache.cpp:110 | leaving the return loop with an empty run keeps the invariant |
| `AllocatorReturn.ReturnOneKeeps` | memory_pool/src/central_cache.cpp:75-93 | returning one block, and unlinking its span at use count 0, keeps the invariant |
| `AllocatorPages.ReleaseSpanKeeps` | memory_pool/src/central_cache.cpp:97-99 | giving an idle span back, with the bin unlocked, keeps the invariant |
| `Allocator.Usable` | memory_pool/src/central_cache.cpp:120-125 | the first span of the bin that has a block left, if any |
| `AllocatorTheorems.RunSafe` | memory_pool/include/alloc.h:15-58 | the invariant holds at the end of every run, for every interleaving of any number of threads |
| `AllocatorTheorems.LiveAllocationsApart` | memory_pool/include/alloc.h:15-58 | in every reachable state two live allocations do not overlap in the bytes requested |
| `AllocatorTheorems.LiveAllocationsMapped` | memory_pool/include/alloc.h:15-58 | every byte of a live allocation is on a page held from the OS |
| `AllocatorTheorems.FreeBlocksApart` | memory_pool/include/freelist.h:7-9 | no live allocation overlaps a free block on any list, so what a user writes changes no next pointer |
| `AllocatorTheorems.EveryBlockOnce` | memory_pool/src/central_cache.cpp:28-111 | every block of every carved span is in exactly one place: on its own span's chain, one free list of its class, one thread's hands, with the user, or being freed |
| `AllocatorTheorems.ListsDuplicateFree` | memory_pool/src/freelist.cpp:27-71 | no list of blocks has a block twice |
| `AllocatorTheorems.SpanAccounting` | memory_pool/src/central_cache.cpp:52-82 | chain length plus use count is the block count; the chain is duplicate-free and inside the span |
| `AllocatorHome.UnusedMeansHome` | memory_pool/src/central_cache.cpp:81-82 | in every reachable state the use count of a span in a bin is 0 exactly if all its blocks are on its chain |
| `AllocatorHome.IdleSpanIsTaken` | memory_pool/src/central_cache.cpp:81-102 | in every reachable state a span in a bin with no block out is the one the holder of the bin's lock is about to take blocks of; so none stays in a bin whose lock is free |
| `AllocatorHome.LeavesExactlyWhenHome` | memory_pool/src/central_cache.cpp:81-94 | for every step of every thread: a span leaves its bin exactly if the step returns one of its blocks and all others are at home; the returning thread then gives it back |
| `AllocatorHome.GivenBackIsHome` | memory_pool/src/central_cache.cpp:95-99 | between leaving the bin and reaching the page cache, with the bin unlocked, no block of the span is anywhere |
| `AllocatorTheorems.CachesBounded` | memory_pool/src/thread_cache.cpp:29-50 | each free list is shorter than its apply count and at most as long as the threshold |
| `AllocatorTheorems.PagesStayGood` | memory_pool/src/page_cache.cpp:11-179 | the page-cache invariant holds in every reachable state, for exactly the mapped pages |
| `AllocatorTheorems.InUseUndisturbed` | memory_pool/src/page_cache.cpp:137-159 | no step of any thread changes a span in use, unless its owner gives it back |
| `AllocatorTheorems.CarvingIsPrivate` | memory_pool/src/central_cache.cpp:135-163 | a span being carved has use count 0, is in no bin, and no other thread's step changes it |
| `AllocatorCalls.HitServes` | memory_pool/src/thread_cache.cpp:9-18 | a request is served with the first block of the thread's list of the least class that fits; nothing else changes |
| `AllocatorCalls.MissAsks` | memory_pool/src/thread_cache.cpp:42-50 | the central cache is asked only if that list is empty, for the apply count or the threshold, whichever is less, and the apply count grows until it has passed the threshold |
| `AllocatorCalls.ScanDecides` | memory_pool/src/central_cache.cpp:118-128 | the page cache is asked exactly if no span of the bin has a block left; otherwise the first span that has one is taken from |
| `AllocatorCalls.TakeRunTakes` | memory_pool/src/central_cache.cpp:43-59 | the run is the first blocks of the chain, as many as asked for or all there are, and is added to the use count |
| `AllocatorCalls.FetchGets` | memory_pool/src/central_cache.cpp:132-143 | the new span has the pages for its class, cut off a least free run that is large enough |
| `AllocatorCalls.CarveMakes` | memory_pool/src/central_cache.cpp:146-163 | it is cut into all blocks that fit, in address order |
| `AllocatorCalls.InsertShows` | memory_pool/src/central_cache.cpp:167-170 | it comes first in its bin with all blocks at home |
| `AllocatorCalls.DeliverServes` | memory_pool/src/thread_cache.cpp:58-70 | the first block of the run answers the request, the others make up the thread's list |
| `AllocatorCalls.BigServes` | memory_pool/include/alloc.h:29-34 | a request above 256 KB gets a span of the least number of pages that hold it, cut off a least free run that is large enough |
| `AllocatorCalls.LookupFinds` | memory_pool/include/alloc.h:44-56 | a freed address leads to the span in use it lies in, and the big branch is taken exactly for spans in no bin |
| `AllocatorCalls.PushDecides` | memory_pool/src/thread_cache.cpp:29-40 | a small block goes in front of the thread's list of its class; the list goes back as a whole exactly if it reaches its apply count |
| `AllocatorCalls.ReturnPuts` | memory_pool/src/central_cache.cpp:73-106 | each turn puts the first block of the run in front of its own span's chain; the last block of a span takes the span out of its bin, which keeps its order, and unlocks the bin |
| `AllocatorCalls.ReleaseJoins` | memory_pool/src/central_cache.cpp:97-99 | the span given back joins the free runs next to it as far as 128 pages allow |
| `AllocatorCalls.BigJoins` | memory_pool/include/alloc.h:49-53 | so does a direct span, and more than 128 pages go back to the OS |
| `AllocatorBounds.SlowStart` | memory_pool/src/thread_cache.cpp:45-50 | over every run: the apply count of a list is one more than the number of times its thread has found it empty, up to the threshold |
| `AllocatorBounds.WholeCall` | memory_pool/include/alloc.h:15-58 | whatever the other threads do, a call takes at most 6 more steps of its own thread after its first for an allocation, and 1543 for a release |
| `AllocatorMemory.StepLinked` | memory_pool/src/freelist.cpp:27-71 | every step of every thread, with the link cells and headers it writes, leaves all lists of all tiers and all chains just carved as chains of the one memory |
| `AllocatorMemory.OthersLinked` | memory_pool/include/freelist.h:7-9 | so does anything users write into live allocations, and whatever contents new pages come with |
| `AllocatorMemory.ListsAreChains` | memory_pool/src/central_cache.cpp:43-106 | at the end of every run on a memory, users' writes in between, following the links from the header of any list gives exactly the blocks that the transition system has on it |
| `AllocatorMemory.EveryRunHasMemory` | memory_pool/src/thread_cache.cpp:29-81 | every run of the transition system is a run on a memory, whatever that contains at first |
| `AllocatorProgress.RequestsAccepted` | memory_pool/include/alloc.h:15-58 | an idle thread can start any allocation whose rounding fits a word and free any live allocation |
| `AllocatorProgress.InsideMoves` | memory_pool/include/alloc.h:15-58 | a thread inside a call that waits for no bin lock has a next step: lookups succeed, runs are not empty, counts are positive |
| `AllocatorProgress.NoDeadlock` | memory_pool/src/central_cache.cpp:28-171 | if a thread is inside a call, it or the owner of the lock it waits for can move |
| `LogBuffer.LogBuffer.GetIndex` | logger/src/log_buffer.cpp:21-27 | the counter always moves on; the claim succeeds exactly if a row was left |
| `LogBuffer.LogBuffer.AddLog` | logger/src/log_buffer.cpp:35-40 | the row holds the length modulo 256 and that many bytes; no other byte changes |
| `LogBuffer.LogBuffer.Flush` | logger/src/log_buffer.cpp:53-63 | while no newline leaves the array, the loop writes the specified pieces, spilled newlines included, and resets the buffer |
| `LogBuffer.FlushRoundTrip` | logger/src/log_buffer.cpp:35-63 | flush stays inside the array and writes the messages with a newline each, in slot order, exactly if no message exceeds 255 bytes, one of 255 is the last flushed or followed by one of 10, and the last row of a full flush has none of 255 |
| `LogBuffer.ShortIsSafe` | logger/src/log_buffer.cpp:57 | messages of at most 254 bytes satisfy the condition and no newline leaves the buffer |
| `LogBuffer.FlushStaysInside` | logger/src/log_buffer.cpp:57 | for any messages: flush stays inside the array exactly if it does not read the length 255 in the last row, where a newline that spilled from the row before counts as the length 10 |
| `LogBuffer.LastRowNewline` | logger/src/log_buffer.cpp:57 | a newline leaves the array exactly from the last row with length 255; it changes no length but that of the next row, and that exactly for length 255 |
| `LogSafety.ProducerKeeps` | logger/src/logger.cpp:22-49 | every step of a producer keeps the protocol's invariant, unless it starts an exchange before the log thread has taken over the one before |
| `LogSafety.LoggerKeeps` | logger/src/log_thread.cpp:133-174 | every step of the log thread keeps it, for any barrier |
| `LogSafety.OwnerKeeps` | logger/src/log_thread.cpp:36-45 | every step of the destructor keeps it |
| `LogBarrier.HandIsPolite` | logger/src/log_thread.cpp:88-93 | where the rendezvous is in order, no exchange starts before the log thread has taken over the one before |
| `LogBarrier.StepHand` | logger/src/log_thread.cpp:82-93 | with two parties or more every step keeps the rendezvous in order: one event and one arrival of each side per request |
| `LogTheorems.SpacedSafe` | logger/src/logger.cpp:22-49 | the invariant holds at the end of every spaced run, for any number of parties and producers |
| `LogTheorems.BarrierSpaces` | logger/src/log_thread.cpp:91-93 | with a barrier of two parties or more every run is spaced |
| `LogTheorems.EverythingFlushed` | logger/src/log_thread.cpp:140-172 | in every spaced run, when the log thread is done, the file has every logged message exactly once, each producer's in program order |
| `LogTheorems.FileIsPrefix` | logger/src/log_thread.cpp:160-172 | at any time the messages in the file are the first of the claimed rows, in the order of generation and slot |
| `LogTheorems.RolesArePermutation` | logger/src/log_thread.cpp:98-100 | outside an exchange the three pointers are a permutation of the three buffers |
| `LogTheorems.SwapGetsEmpty` | logger/src/logger.cpp:40 | the buffer that becomes primary is reset and empty |
| `LogTheorems.FlushNeverRaces` | logger/src/log_buffer.cpp:53-72 | an unfinished write is always in the primary buffer and never in the one being flushed or reset |
| `LogTheorems.ClaimsAreDistinct` | logger/src/log_buffer.cpp:21-27 | rows claimed at the same time are different and in range |
| `LogTheorems.BlankLines` | logger/src/logger.cpp:37 | with two parties or more there are blank lines in the end exactly if a buffer with rows left was swapped out |
| `LogTheorems.NoBlankLines` | logger/src/logger.cpp:37 | with the intended re-check, or at most one row, a spaced run never puts a blank line into the file |
| `LogBlanks.BlanksExactly` | logger/src/logger.cpp:37 | over all configurations: some run puts a blank line into the file, and some run that ends does, exactly if there are two parties, the re-check is as written and a buffer has two rows or more, or there is at most one party and a buffer has a row |
| `LogBlanks.EarlySwapShows` | logger/src/logger.cpp:22-49 | for two parties and any capacity of two or more: a run of two producers that both find the buffer full; the first exchanges it and logs one row, the second exchanges it again, and the finished file has a blank line |
| `LogBlanks.LostRowShows` | logger/src/log_buffer.cpp:69-72 | with at most one party, for any capacity of one or more: a run in which a reset empties a claimed row, and the finished file has a blank line |
| `LogBytes.EveryRunHasBytes` | logger/src/log_buffer.cpp:35-63 | with buffers of 1024 rows and messages of at most 254 bytes every run of the protocol is one on the bytes: every flush stays inside its array, for any number of parties |
| `LogBytes.RunMirrors` | logger/src/log_buffer.cpp:35-72 | in every run on bytes each buffer's array holds its rows, and the empty message where no row is stored, and the bytes written so far are the lines of the file |
| `LogBytes.FinishedFile` | logger/src/log_thread.cpp:140-172 | with two parties or more, when the log thread is done, the bytes written are the lines with a newline each, and every message is among them once and in order; with the intended re-check, or one row, they are the messages with a newline each and nothing else |
| `LogTheorems.NoDeadlock` | logger/src/logger.cpp:22-49 | while a call of `log` goes on, a producer inside a call or the log thread can move |
| `LogCalls.ClaimDecides` | logger/src/log_buffer.cpp:21-27 | a row is claimed exactly if fewer than all were claimed since the last exchange, and it is the next one |
| `LogCalls.CheckDecides` | logger/src/logger.cpp:37 | the buffers are exchanged exactly if the primary one is full, or, with the question as written, if a row of it was claimed |
| `LogCalls.ReturnMeansClaimed` | logger/src/logger.cpp:22-30 | when a call returns, every message its producer has started to log has a row |
| `LogCalls.TwoWriters` | logger/src/logger.cpp:25-28 | two producers can be writing their rows at the same time |
| `LogCalls.ExchangeEnds` | logger/src/logger.cpp:40-45 | while an exchange goes on, its producer and the log thread take at most as many steps as a buffer has rows, and 15 more |
| `LogCalls.ExchangeMoves` | logger/src/logger.cpp:40-45 | until it is over one of the two can move |
| `LogTheorems.ShutdownMoves` | logger/src/log_thread.cpp:36-45 | after the destructor's signal the log thread can move until it is done, and then the join succeeds |
| `LogTheorems.ShutdownEnds` | logger/src/log_thread.cpp:36-45 | after the signal only a bounded number of steps is left, whoever takes them; with the row above, the destructor returns |
| `LogParties.RolesNeedTwo` | logger/include/log_thread.h:70 | in all reachable states outside an exchange the three pointers are a permutation of the buffers exactly if the barrier has two parties or more |
| `LogParties.FileNeedsTwo` | logger/include/log_thread.h:70 | whenever the log thread is done the file has every message exactly once and in order, exactly if there are two parties or more, or no rows, so that no call ends |
| `LogParties.ExactlyTwo` | logger/include/log_thread.h:70 | the roles are safe and no call gets stuck exactly with two parties |
| `LogParties.Collision` | logger/include/log_thread.h:70 | a run of one producer with at most one party, for any capacity, after which primary and write buffer are the same |
| `LogParties.MessageIsLost` | logger/src/log_buffer.cpp:69-72 | that run continued: a message is stored between the two halves of the reset, the log thread finishes, and the file does not have it |
| `LogParties.BothWait` | logger/src/log_thread.cpp:88-93 | with three parties or more the producer and the log thread can come to wait for each other forever |
| `LogRoles.LogThread.PrimarySwap` | logger/src/log_thread.cpp:98-100 | exchanges the pointers and is the two steps of the protocol |
| `LogRoles.LogThread.Notify` | logger/src/log_thread.cpp:82-86 | adds one to the event counter and is the protocol's step |
| `LogRoles.LogThread.TakeOver` | logger/src/log_thread.cpp:151-160 | leaves if stopped, else clears the event and exchanges secondary and write, step by step as in the protocol |
| `RingQueue.AcceptedSizes` | thread_pool/include/ring_buffer.h:11-15 | the constructor accepts exactly powers of two and 0 |
| `RingQueue.SizeZeroHasNoSlot` | thread_pool/include/ring_buffer.h:11-15 | for size 0 the mask is all ones |
| `RingQueue.MaskIsModulo` | thread_pool/include/ring_buffer.h:24 | the masked increment counts modulo the size, or modulo 2^32 for larger sizes |
| `RingQueue.FullIsFull` | thread_pool/include/ring_buffer.h:26-28 | the load that makes `push` fail sees a queue with all but one slot in use, and conversely |
| `RingQueue.EmptyIsEmpty` | thread_pool/include/ring_buffer.h:39-41 | the load that makes `pop` return nothing sees an empty queue, and conversely |
| `RingQueue.BoundedFifo` | thread_pool/include/ring_buffer.h:22-46 | for every interleaving of single loads and stores the popped tasks are a prefix of the pushed ones and at most size - 1 wait |
| `RingQueue.NoSlotIsLost` | thread_pool/include/ring_buffer.h:30-43 | a slot that is read holds the task whose turn it is; a slot that is written holds none that waits |
| `RingQueue.PushDelivers` | thread_pool/include/ring_buffer.h:22-33 | `push` fails exactly if it finds all slots but one in use; otherwise its last step, and no other, appends its task |
| `RingQueue.PopDelivers` | thread_pool/include/ring_buffer.h:36-46 | `pop` returns nothing exactly if it finds the queue empty; otherwise its last step takes the oldest task, which is the one it returns |
| `RingQueue.ProducerMoves` | thread_pool/include/ring_buffer.h:22-33 | inside `push` the next step is always possible, whatever the consumer does |
| `RingQueue.ConsumerMoves` | thread_pool/include/ring_buffer.h:36-46 | the same for `pop` |
| `RingQueue.CallsAreShort` | thread_pool/include/ring_buffer.h:22-46 | each call is over after at most four more steps of its own |
| `RingQueue.OneSlotHoldsNothing` | thread_pool/include/ring_buffer.h:22-33 | with size 1 no push ever succeeds |
| `RingQueue.LockFreeRingQueue.Push` | thread_pool/include/ring_buffer.h:22-33 | appends unless all but one slot are in use |
| `RingQueue.LockFreeRingQueue.Pop` | thread_pool/include/ring_buffer.h:36-46 | removes and returns the oldest task, or nothing |
| `RingQueue.LockFreeRingQueue.IsEmpty` | thread_pool/include/ring_buffer.h:49-51 | true exactly for the empty queue |
| `RingQueue.LockFreeRingQueue.IsFull` | thread_pool/include/ring_buffer.h:54-56 | true exactly with size - 1 tasks |
| `WorkerPoolSafety.WorkerKeeps` | thread_pool/src/thread_pool.cpp:93-119 | every step of a worker keeps the pool's invariant |
| `WorkerPoolSafety.ClientKeeps` | thread_pool/include/thread_pool.h:42-60 | every step of a client keeps it |
| `WorkerPoolSafety.OwnerKeeps` | thread_pool/src/thread_pool.cpp:21-29 | every step of the destructor keeps it |
| `WorkerPoolTheorems.QueueIsBoundedFifo` | thread_pool/include/thread_pool.h:45-57 | for any number of workers: tasks leave in the order of acceptance; the queue never exceeds its limit; the counter is its length |
| `WorkerPoolTheorems.TasksRunOnce` | thread_pool/src/thread_pool.cpp:114-117 | a task that was taken is finished or with exactly one worker |
| `WorkerPoolTheorems.GettingNotifies` | thread_pool/src/thread_pool.cpp:189-197 | `m_get_task` always finds a task and always notifies |
| `WorkerPoolTheorems.NoLostWakeup` | thread_pool/src/thread_pool.cpp:101-112 | whenever the mutex is free and a task waits, some live worker is not asleep |
| `WorkerPoolTheorems.NoDeadlock` | thread_pool/src/thread_pool.cpp:93-119 | while a task waits or a client is inside `submit_task`, somebody can move without a spurious wakeup or a new call |
| `WorkerPoolTheorems.ShutdownMoves` | thread_pool/src/thread_pool.cpp:21-29 | once the pool is stopped, a worker or the destructor can move until it returns |
| `WorkerPoolTheorems.ShutdownEnds` | thread_pool/src/thread_pool.cpp:21-29 | once the pool is stopped only a bounded number of steps is left, whoever takes them, apart from spurious wakeups of the destructor; with the row above, it returns |
| `WorkerPoolTheorems.DestructorWaits` | thread_pool/src/thread_pool.cpp:28 | when the destructor returns, exactly the accepted tasks have finished and all workers have left |
| `WorkerPoolTheorems.NoWorkersNoWork` | thread_pool/src/thread_pool.cpp:9-29 | with initial size 0 the destructor can return with an accepted task undone |
| `WorkerPoolTheorems.WorkerMoves` | thread_pool/src/thread_pool.cpp:93-119 | a worker that is not asleep can go on if the mutex is free or its own |
| `WorkerPoolTheorems.ClientMoves` | thread_pool/include/thread_pool.h:42-60 | so can a client inside a call, whether or not its wait has run out |
| `WorkerPoolCalls.SubmitDecides` | thread_pool/include/thread_pool.h:45-53 | a client goes on to push exactly if there is a place, whether or not its wait has run out; without one it is rejected exactly if it has |
| `WorkerPoolCalls.PushAppends` | thread_pool/include/thread_pool.h:56-57 | a push appends the task that is accepted next and keeps the limit |
| `WorkerPoolCalls.NotifyWakesOne` | thread_pool/include/thread_pool.h:60 | then exactly one sleeping worker is woken, if there is one |
| `WorkerPoolCalls.WorkerDecides` | thread_pool/src/thread_pool.cpp:101-112 | a worker takes a task exactly if one waits; otherwise it sleeps exactly if the pool runs, and leaves if not |
| `WorkerPoolCalls.GettingTakes` | thread_pool/src/thread_pool.cpp:189-197 | only getting a task changes the queue at its head; it gives the oldest task, and nobody is asleep afterwards |
| `WorkerPoolCalls.RunningFinishes` | thread_pool/src/thread_pool.cpp:117 | a task is finished by the step in which its worker has run it, and by no other |
| `WorkerPoolCalls.WorkersRest` | thread_pool/src/thread_pool.cpp:93-119 | while only workers move, they take a bounded number of steps |
| `WorkerPoolCalls.RestMeansDone` | thread_pool/src/thread_pool.cpp:93-119 | and when none can move any more, with no client inside a call, every accepted task has finished |
| `TaskQueue.TaskQueue.Submit` | thread_pool/include/thread_pool.h:45-57 | enqueues exactly if a place is free, as two steps of the pool |
| `TaskQueue.TaskQueue.GetTask` | thread_pool/src/thread_pool.cpp:189-197 | dequeues the oldest task and notifies, as one step of the pool |
| `TaskQueue.TaskQueue.Leave` | thread_pool/src/thread_pool.cpp:103-108 | the worker erases itself; the last one wakes the destructor |
| `TaskQueue.TaskQueue.SetLimit` | thread_pool/src/thread_pool.cpp:83-87 | the limit changes exactly if the pool is not running |
| `RadixTree.SplitIsBijection` | memory_pool/include/common.h:184-186 | the three indices are the digits of the key |
| `RadixTree.DigitsAreSplit` | memory_pool/include/common.h:184-186 | every triple of digits is the split of one key |
| `RadixTree.PageMap3.Get` | memory_pool/include/common.h:183-192 | returns the value of the map that the tree stands for |
| `RadixTree.PageMap3.Set` | memory_pool/include/common.h:194-210 | changes the value of that key and no other |
| `RadixTree.PageMap3.Ensure` | memory_pool/include/common.h:213-238 | for any start and n, wrap-around included: terminates, changes no value, reports whether the range is inside the tree, and makes exactly the leaves it stops at inside the tree, also when it fails |
| `RadixTree.StrideAsWritten` | memory_pool/include/common.h:235 | as written the stops cover the range exactly if it lies in one leaf, or in two of which the second begins a root slot; as intended always |

## Left out

- `Allocator.Step`: follows the intent at the five allocator lines listed above, as the end-to-end results are false of the code as written.
- `LogTheorems.EverythingFlushed`: for spaced runs, which with the source's one party are not all runs; `LogParties` has the exact results over the number of parties.
- `LogTheorems.NoDeadlock`: for the two parties that are meant at logger/src/log_thread.cpp:88-93; false for more (`LogParties.BothWait`).
- `LogBuffer.LogBuffer.Flush`: what a newline behind the array destroys is not modelled, the write is undefined; `LogBuffer.FlushStaysInside` says exactly when it happens.
- `PageRuns.RunsAreSound`: with direct spans marked and the map entries of a returned run removed, both as meant; the code as written is covered by `PageMarks` and `PageRecover.SourceRecoverIsGood`.
- `PageRecover.RecoverCleanKeeps`: removes the map entries of a returned run, as meant; `PageRecover.SourceRecoverIsGood` is about the code as written.
- `AllocatorTheorems.RunSafe`: like all results about the allocator's runs, for the intent at the five lines.
- `WorkerPoolTheorems.DestructorWaits`: for one worker or more and no submission after destruction began; with 0 workers it is false.
- `AllocatorProgress.NoDeadlock`: says that some thread can always move, not that a given call ends under an unfair scheduler.
- `AllocatorMemory.StepLinked`: follows the intent at the five lines; what a step writes is given as a function, which agrees with the cells that the contracts of the methods in `FreeLists`, `ThreadCache`, `CentralCache` and `CentralReturn` name, but is not derived from their bodies. The link that ends a run is cleared with the cut, where the source clears it just after the unlock (memory_pool/src/central_cache.cpp:59), when the block is in the thread's own hands.
- The three protocols are transition systems on values, since their properties are about interleavings; the pieces of them that run under one lock are also given as methods that update fields (`FreeLists`, `ThreadCache`, `CentralCache`, `CentralReturn`, `PageCache`, `LogRoles`, `TaskQueue`, `RingQueue`), each proved by itself and not composed into one program.
- Requests of size 0, and sizes whose rounding wraps a 64-bit word, are not started by the allocator's threads; freeing from a thread without a thread cache is not modelled either.
- `SpanLists` and `FixedPool` are proved by themselves; the page cache and the allocator use sequences of spans and the pool's order of reuse.
- System calls, `epoll`, `eventfd` as kernel objects, file streams: replaced by an oracle for fresh pages, an event counter and an append-only file.
- Weak memory orders: accesses interleave sequentially.
- Counters are unbounded: `get_idx` narrows the 64-bit counter to `int`, which would matter only after two thousand million failed claims on one buffer.
- Cached mode of the thread pool, its thread counts and idle timing.
- Futures, packaged tasks and the templates of `submit_task`: a task is a number.
- Log formatting, levels and macros, and the logging calls inside the allocator.
- The `timer` module, the standard-allocator adapters and the thread wrapper classes.
- The preallocation in the radix tree's constructor, which calls `Ensure` on the whole key range.
