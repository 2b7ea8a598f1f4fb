# RT-Thread kernel algorithms and Kconfig engine, verified

This project models the stateful algorithms of the RT-Thread 4.0.1 kernel and of its Kconfig tool in Dafny and
proves properties of them. `dafny verify dfyconfig.toml` checks everything.

Each component comes in two layers. A pure layer gives the state as a value, each operation as a function on it, the
invariant, and the theorems over single operations and whole runs. Over it stands a class with the fields of the
source, whose methods change links, flags, counters, bitmaps and caches in place as the source does; their contracts
tie the new state to the function of the old one, so the theorems hold of what the methods do. What each operation
achieves is said in the terms of its caller as well, without these functions: when it succeeds, fails or waits, which
block, thread or message it gets, and what stays as it was.

| component | pure layer | class |
|---|---|---|
| linked lists of the kernel | `Chains` | `Ring` |
| memheap allocator (memheap.c) | `MemLayout`, `MemHeapModel`, `MemHeapProofs`, `MemHeapRuns` | `MemHeap` |
| small heap (mem.c) | `SmallLayout`, `SmallModel`, `SmallProofs`, `SmallRuns`, `SmallOutcomes` | `SmallHeap` |
| page allocator and slab (slab.c) | `PageModel`, `SlabSizes`, `SlabModel`, `SlabProofs`, `SlabAlignment`, `SlabOutcomes` | `PageList`, `Slab` |
| message queue (ipc.c) | `QueueModel`, `QueueOutcomes` | `MessageQueue` |
| mailbox (ipc.c) | `MailboxModel`, `MailboxOutcomes` | `Mailbox` |
| event (ipc.c) | `EventModel`, `EventBits`, `EventOutcomes` | `Event` |
| mutex (ipc.c) | `MutexModel`, `MutexOutcomes` | `Mutex` |
| timer skip list (timer.c) | `TimerOrder`, `TimerModel`, `TimerRuns`, `TimerStamps`, `TimerOutcomes` | `Timer` |
| scheduler (scheduler.c, thread.c, clock.c, kservice.c) | `FirstBit`, `ReadyMap`, `SchedModel`, `SchedRuns`, `SchedOutcomes`, `RoundRobin` | `Scheduler` |
| Kconfig expressions | `KconfigExpr`, `KconfigGrammar` | `KconfigParser` |
| Kconfig dependency loops | `KconfigLoops`, `KconfigDeps` | `KconfigLoops` |
| Kconfig values and caches | `KconfigItems`, `KconfigEvaluation`, `KconfigCoherence`, `KconfigMeaning`, `KconfigTexts` | `KconfigCache` |

`Basics` and `Bytes` hold what several of them use.

Pointers and offsets are numbers; each link or header field is one map from them. The IPC objects are state machines:
every interrupt-disabled section, and every byte of an unlocked copy, is one step of one thread, and theorems quantify
over all interleavings of such steps with timeouts and resets. The constants are those of a 32-bit build with
`RT_ALIGN_SIZE` 4, 4096-byte pages and a 24-byte memheap item.

## What does not hold as one might expect

Each of these has a lemma with an input that shows it and one that says exactly when the code does what one expects.

- memheap: a request that equals all of `available_size` is refused although it may fit (`AllocRefusal`; in a fresh
  heap, `AvailableIsRefused`).
- small heap: the search bound is strict, so the last block is refused when it fits exactly (`BoundIsLastExactFit`; the
  whole of a fresh heap, `WholeHeapIsRefused`). Shrinking in place can leave `lfree` above the lowest unused block
  (`ShrinkKeepsLowestIff`; the run in `ShrinkLosesLowest`). On a heap without room for a minimal block the unsigned bound
  wraps and the search never ends (`SearchNeverEnds`; the heap in `TinyHeapLoops`; `Searchable` is the exact condition
  under which it ends, and runs make no other requests). A resize to a size that is neither the same nor leaves a minimal
  block moves the block even when it gets smaller, and fails exactly if allocating does (`ReallocOutcome`; the heap in
  `SmallerSizeFails`).
- slab: the comments promise size alignment for all power-of-two requests. It is sure up to the page size; beyond, the
  pointer is aligned if and only if the number of the page that serves the request is a multiple of the request in pages
  (`PowerOfTwoAlignment`; for page requests, the start of the first run in the free list with so many pages), and the
  first request of a fresh heap may already miss it (`MisalignedRun`).
- mutex: a hand-over can leave a waiter behind that is more urgent than the new owner, if and only if the first waiter
  was not a most urgent one (`HandOverIff`; over runs `NeverInvertedIff`). Priority order excludes that (`NoInversion`),
  FIFO order does not (`FifoInverts`).
- timer: the wrapped comparison is right if and only if the distance of the deadlines lies in a window, some whole turns
  of the tick apart (`ComparesRightlyIff`, `WindowIsNeeded`), which the timer lemmas therefore ask for.
- Kconfig: the documentation says that a value outside of the assignable ones does not take effect. That and its converse
  hold if and only if the value is n or the symbol is not pinned to y: visible for m, selected to m and implied to y
  (`AssignableIff`; the graph in `PinnedReadsY`).
- Kconfig: printing and parsing gives back the same expression if and only if it is nested to the right
  (`RoundTripIsIdentityIff`, `LeftChainComesBackChanged`).
- Kconfig: the loop check looks at what symbols mention, but the type of a tristate symbol looks at MODULES. After a
  clean check all values can be computed if and only if no fields read each other in a circle (`AllFiniteIffNoCircle`),
  which is so if and only if MODULES settles on its own (`AllFiniteIff`, whose `Settle` is a terminating evaluation that
  can be run beforehand). `LoopCheckMissesModules` is a graph in which one user value makes a tristate symbol and MODULES
  read each other; without it the same graph evaluates (`ModulesGraphCanEnd`). It cannot happen when MODULES depends on
  nothing tristate (`ClearIsFinite`).

## Model

| member | source | states |
|---|---|---|
| `Ring.InsertChains` | rt-thread/include/rtservice.h:58-80 | The four link writes of an insertion, in order, turn one ring into the ring with the node behind its neighbour |
| `Ring.RemoveChains` | rt-thread/include/rtservice.h:86-92 | The two link writes of a removal close the ring over the gap |
| `Ring.Links.InsertAfter` | rt-thread/include/rtservice.h:58-65 | The new node lands directly behind l, and the links of nodes outside the ring stay |
| `Ring.Links.InsertBefore` | rt-thread/include/rtservice.h:73-80 | The new node lands directly in front of l, at the end if l is the head; other rings stay |
| `Ring.Links.Remove` | rt-thread/include/rtservice.h:86-92 | The node becomes a ring of its own, the others stay one ring without it |
| `Ring.Links.IsEmpty` | rt-thread/include/rtservice.h:98-101 | True exactly when the head is alone in its ring |
| `Ring.Links.Len` | rt-thread/include/rtservice.h:107-118 | Counts every node but the head |
| `WaitList.Suspend` | rt-thread/src/ipc.c:79-122 | Scanning the list puts the thread at the end (FIFO) or at the place of its priority |
| `WaitList.EnlistedInOrder` | rt-thread/src/ipc.c:92-117 | A priority-ordered list stays ordered, and the newcomer goes behind all that are as urgent |
| `WaitList.EnlistedLinesUp` | rt-thread/src/ipc.c:79-122 | A newcomer stands last in arrival order, and in front of the first less urgent thread by priority, whatever the list was |
| `WaitList.WaitsAddUp` | rt-thread/src/ipc.c:1524-1530 | The waiting time that is left after several waits is what is left after their sum; it never falls below zero, and endless waits stay endless |
| `MemHeap.MemHeap.constructor` | rt-thread/src/memheap.c:50-121 | The item links, free list, flags and counters describe one free item and the used tailer |
| `MemHeap.MemHeap.Alloc` | rt-thread/src/memheap.c:138-281 | Search, split, unlink and accounting on the links give exactly the new layout and pointer of the allocation step, and all links stay consistent |
| `MemHeap.MemHeap.Free` | rt-thread/src/memheap.c:495-595 | Unmarking, both merges and relisting on the links give exactly the layout of the release step |
| `MemHeap.MemHeap.Realloc` | rt-thread/src/memheap.c:284-492 | Growing into a free neighbour, splitting off a rest, and moving give exactly the layout of the resize step; the payload starts with the bytes of the old one, as many as both hold, and no other live payload changes a byte |
| `MemHeapProofs.AllocKeepsInv` | rt-thread/src/memheap.c:138-281 | Items go on tiling the pool, free ones are listed once each, no two neighbours are free, available_size is the free payload and max_used_size bounds the use |
| `MemHeapProofs.AllocLive` | rt-thread/src/memheap.c:155-276 | A granted block is new, at least as big as asked, at most a header and a minimal block bigger, and no other block changes; a refusal changes nothing |
| `MemHeapProofs.AllocRefusal` | rt-thread/src/memheap.c:155-172 | A request is refused if and only if it equals all of available_size or no free item holds it |
| `MemHeapRuns.AllocTakesFirst` | rt-thread/src/memheap.c:167-176 | A granted request gets the first item of the free list that has room for it |
| `MemHeapRuns.LastFreedFirst` | rt-thread/src/memheap.c:580-591 | What was released last between used items is handed out first |
| `MemHeapRuns.AvailableIsRefused` | rt-thread/src/memheap.c:153-155 | In every fresh heap the request for all available bytes is refused, although the one free item holds it |
| `MemHeapRuns.LiveAligned` | rt-thread/src/memheap.c:138-281 | After every run every live payload lies at a multiple of RT_ALIGN_SIZE from the start of the pool |
| `MemHeapProofs.FreeKeepsInv` | rt-thread/src/memheap.c:495-595 | A release keeps the joint invariant and removes exactly that block from the live ones |
| `MemHeapProofs.ReallocKeeps` | rt-thread/src/memheap.c:284-492 | Resizing keeps the invariant, replaces the old block by one that is big enough and wastes at most a header and a smallest payload, and changes nothing when it fails |
| `MemHeapRuns.ReallocSize` | rt-thread/src/memheap.c:316-488 | A smaller size never fails or moves the payload, which then has exactly that size unless the rest makes no item; a bigger one wastes less than a smallest item |
| `MemHeapRuns.ReallocRefusal` | rt-thread/src/memheap.c:322-415 | A bigger size is refused if and only if the item behind is used or too small and a new allocation is refused |
| `MemHeapProofs.RunKeepsInv` | rt-thread/src/memheap.c:50-595 | Every sequence of allocations, releases and resizes keeps the joint invariant |
| `MemHeapProofs.MaxUsedIsPeak` | rt-thread/src/memheap.c:234-242 | Over every run max_used_size is the greatest value that pool_size - available_size had after an allocation |
| `MemHeapProofs.FreeAllRestores` | rt-thread/src/memheap.c:535-591 | Releasing all live blocks in any order gives back the single initial free block |
| `MemHeapProofs.EmptyIsInitial` | rt-thread/src/memheap.c:50-121 | With nothing live the heap is in its initial state, but for the high-water mark |
| `MemHeapProofs.InitialInv` | rt-thread/src/memheap.c:50-121 | The initial heap satisfies the invariant and has no live block |
| `MemLayout.LiveDisjoint` | rt-thread/src/memheap.c:178-215 | Live payloads lie inside the pool and apart from each other, with a header between |
| `SmallHeap.SmallHeap.constructor` | rt-thread/src/mem.c:204-257 | For every region that the source accepts: the aligned size, one unused block and the end stub |
| `SmallHeap.SmallHeap.Malloc` | rt-thread/src/mem.c:272-410 | The first-fit loop, the split and the lfree loop on the headers give exactly the allocation step, whenever the search ends |
| `SmallHeap.SmallHeap.PlugHoles` | rt-thread/src/mem.c:156-194 | Both merges of hole plugging, with their lfree updates, on headers whose end stub has no maintained prev link |
| `SmallHeap.SmallHeap.Free` | rt-thread/src/mem.c:546-609 | Marking, lfree, accounting and hole plugging add up to the release step |
| `SmallHeap.SmallHeap.Realloc` | rt-thread/src/mem.c:421-510 | The resize step; the new block starts with the bytes of the old one, as many as both hold, and no other live block changes a byte |
| `SmallModel.MallocFailsIff` | rt-thread/src/mem.c:305-313 | Failure if and only if no unused block at or above lfree holds the request below offset mem_size_aligned - size; with lfree lowest, no unused block at all |
| `SmallModel.BoundIsLastExactFit` | rt-thread/src/mem.c:305-307 | The offset bound of the search turns down a block that is big enough exactly when it is the last block and fits exactly |
| `SmallModel.WholeHeapIsRefused` | rt-thread/src/mem.c:305-307 | In every fresh heap the request for all its bytes is refused, although the one block holds it |
| `SmallModel.SearchNeverEnds` | rt-thread/src/mem.c:289-309 | With less room than a minimal block the wrapped bound is never reached and no block fits, so a request that reaches the search loops forever |
| `SmallModel.TinyHeapLoops` | rt-thread/src/mem.c:289-309 | On a heap of eight bytes a request for four keeps the search going at the one block and at the end stub |
| `SmallProofs.MallocKeeps` | rt-thread/src/mem.c:272-410 | Allocation keeps tiling, coalescing, accounting and lfree, keeps lfree lowest, and adds exactly one block that is big enough |
| `SmallOutcomes.MallocOutcome` | rt-thread/src/mem.c:305-385 | A granted request gets the first fitting block from lfree on, cut to the request unless the rest is no block |
| `SmallProofs.FreeKeeps` | rt-thread/src/mem.c:546-609 | A release keeps all of that and removes exactly that block |
| `SmallProofs.FreeKeepsLowest` | rt-thread/src/mem.c:596-600 | A release keeps lfree the lowest unused block |
| `SmallProofs.ReallocKeeps` | rt-thread/src/mem.c:421-510 | Resizing keeps the invariant, replaces exactly the one block, and changes nothing when it fails |
| `SmallOutcomes.ReallocOutcome` | rt-thread/src/mem.c:461-516 | The same size changes nothing, a size that leaves a block cuts the rest off, and every other size moves the block and fails if and only if allocating fails |
| `SmallOutcomes.ReallocBounds` | rt-thread/src/mem.c:430-442 | A size beyond the heap is refused at once, and size 0 releases the block |
| `SmallOutcomes.SmallerSizeFails` | rt-thread/src/mem.c:471-512 | In a heap of 24 bytes, cutting down a block is refused |
| `SmallOutcomes.PeakFollows` | rt-thread/src/mem.c:355-367 | max_mem follows used_mem after each allocation and is left alone otherwise |
| `SmallProofs.ShrinkKeepsLowestIff` | rt-thread/src/mem.c:471-498 | Shrinking in place keeps lfree lowest if and only if lfree lies below the block or the block behind it is unused |
| `SmallRuns.ShrinkLosesLowest` | rt-thread/src/mem.c:471-498 | A run of two allocations and a shrink from a fresh heap after which an unused block lies below lfree |
| `SmallRuns.LiveAligned` | rt-thread/src/mem.c:390-392 | After every run every live block begins at a multiple of RT_ALIGN_SIZE |
| `SmallProofs.EveryRunKeepsInv` | rt-thread/src/mem.c:272-609 | Every run of requests whose search ends keeps the invariant; without resizing it keeps lfree the lowest unused block |
| `SmallProofs.EmptyIsInitial` | rt-thread/src/mem.c:225-256 | With nothing in use the heap is back to its one initial block and used_mem is 0 |
| `SmallLayout.ExtentsApart` | rt-thread/src/mem.c:305-387 | Used blocks do not overlap |
| `PageModel.CanonicalIsUnique` | rt-thread/src/slab.c:236-322 | The list of free runs is a canonical form: the same free pages have only one list |
| `PageModel.AllocTakes` | rt-thread/src/slab.c:236-270 | Allocation takes a run out of the free pages and keeps the list canonical; a failure changes nothing |
| `PageModel.AllocFailsIff` | rt-thread/src/slab.c:243-266 | Allocation fails if and only if no n consecutive pages are free |
| `PageModel.FreeAdds` | rt-thread/src/slab.c:272-322 | Freeing adds exactly the given pages and keeps the list canonical, in all coalescing cases |
| `PageModel.AllocFreeRestores` | rt-thread/src/slab.c:236-322 | Allocating and freeing the same run restores the identical list |
| `PageModel.FreeCommutes` | rt-thread/src/slab.c:272-322 | The order of two releases does not matter |
| `PageList.PageList.Alloc` | rt-thread/src/slab.c:236-270 | The pointer walk with the front split or the unlink is the allocation on runs |
| `PageList.PageList.Free` | rt-thread/src/slab.c:272-322 | The pointer walk with its joins is the release on runs |
| `SlabSizes.SmallestClass` | rt-thread/src/slab.c:401-459 | zoneindex finds the smallest chunk size that holds the request, and its index |
| `SlabSizes.ClassOfChunk` | rt-thread/src/slab.c:401-459 | Each chunk size belongs to its own class |
| `SlabSizes.ZoneSizeFor` | rt-thread/src/slab.c:374-378 | The zone size loop doubles until the bound, and gives a legal zone size |
| `SlabSizes.ZoneSizeMeaning` | rt-thread/src/slab.c:374-378 | The zone size is the first legal one that reaches the bound, or the biggest |
| `SlabSizes.TwoChunks` | rt-thread/src/slab.c:374-383 | Every class that the sizing admits puts at least two chunks into a zone, all inside it |
| `SlabAlignment.PowerOfTwoAlignment` | rt-thread/src/slab.c:478-667 | In every reachable state a power-of-two request up to the page size gets a pointer that is a multiple of it; a bigger one does if and only if the number of the page that serves it is a multiple of its pages; at or above the zone limit that page starts the first run of the free list, before the call, with so many pages |
| `SlabAlignment.MisalignedRun` | rt-thread/src/slab.c:630-641 | The first request of a fresh heap, for 8192 bytes, gets a pointer that is no multiple of 8192 |
| `SlabAlignment.LiveAligned` | rt-thread/src/slab.c:630-641 | Every live block begins at a multiple of eight, and a block of pages at a page |
| `SlabProofs.MallocKeeps` | rt-thread/src/slab.c:478-667 | Allocation keeps pages, zones, lists, chunk states and used_mem right, and hands out one new block that is big enough |
| `SlabOutcomes.MallocSize` | rt-thread/src/slab.c:497-556 | A small request gets a chunk of the smallest class that holds it, a big one just as many pages as it needs |
| `SlabOutcomes.ListedZoneServes` | rt-thread/src/slab.c:539-577 | While a zone of the class has a free chunk, the first such zone serves: a fresh chunk first, or else the one released last |
| `SlabOutcomes.NewZoneServes` | rt-thread/src/slab.c:591-660 | Otherwise a zone is opened, a kept one if there is any, or else one of new pages |
| `SlabOutcomes.ZoneIsFilled` | rt-thread/src/slab.c:630-645 | A new zone has as many chunks as fit behind its header |
| `SlabOutcomes.PagesServe` | rt-thread/src/slab.c:497-524 | A big request takes its pages from the page allocator and touches no zone |
| `SlabOutcomes.PeakFollows` | rt-thread/src/slab.c:509-514 | The peak counter follows the bytes in use after each allocation and is left alone by releases |
| `SlabProofs.FreeKeeps` | rt-thread/src/slab.c:771-904 | A release keeps all of it, including the limit on kept zones, and removes exactly that block |
| `SlabOutcomes.ChunkReturns` | rt-thread/src/slab.c:829-901 | A released chunk is the next of its zone; the zone stays listed unless it is whole and its class has another free chunk: then it is kept, or its pages go back when two are kept already |
| `SlabOutcomes.PagesReturn` | rt-thread/src/slab.c:795-815 | A released block of pages goes back to the page allocator as a whole |
| `SlabProofs.EveryRunKeepsInv` | rt-thread/src/slab.c:478-904 | Every run of allocations and releases keeps the invariant |
| `SlabProofs.ChunkStates` | rt-thread/src/slab.c:539-576 | In each zone z_nfree counts fresh and freed chunks, and every chunk is exactly one of live, freed and fresh |
| `SlabProofs.LiveApart` | rt-thread/src/slab.c:478-667 | Live blocks never overlap, so no chunk is handed out twice |
| `SlabProofs.MallocFailsIff` | rt-thread/src/slab.c:497-606 | A big request fails if and only if no run of pages is long enough; a small one if and only if its class has no free chunk, no zone is kept and no run holds a zone |
| `SlabProofs.InitialInv` | rt-thread/src/slab.c:344-395 | The freshly initialized slab satisfies the invariant |
| `SlabOutcomes.InitialPages` | rt-thread/src/slab.c:327-342 | All pages of a fresh heap are free but those of the page table |
| `SlabModel.SpotUsage` | rt-thread/src/slab.c:832-839 | The page table leads from every chunk to its own zone, and the chunk lies inside it |
| `Slab.Slab.constructor` | rt-thread/src/slab.c:344-395 | Sizing, page table allocation and empty lists give the initial slab |
| `Slab.Slab.Malloc` | rt-thread/src/slab.c:478-667 | The branches on large blocks, listed zones, kept zones and new zones give exactly the allocation step |
| `Slab.Slab.Free` | rt-thread/src/slab.c:771-904 | Page table lookup, chunk return, zone retirement and zone release give exactly the release step |
| `MessageQueue.MessageQueue.constructor` | rt-thread/src/ipc.c:1780-1827 | The loop over the pool builds the free chain of all cells |
| `MessageQueue.MessageQueue.TakeCell` | rt-thread/src/ipc.c:1974-1996 | First section of a send: refuses a message longer than msg_size, takes the head of the free chain, or fails with EFULL |
| `MessageQueue.MessageQueue.CopyIn` | rt-thread/src/ipc.c:2000-2002 | One byte of the unlocked copy into the cell |
| `MessageQueue.MessageQueue.LinkCell` | rt-thread/src/ipc.c:2004-2036 | Second section: links the cell at the tail, or at the head if urgent, counts it and resumes a receiver |
| `MessageQueue.MessageQueue.Recv` | rt-thread/src/ipc.c:2138-2250 | First pass of a receive: unlinks the head, fails, or suspends the caller |
| `MessageQueue.MessageQueue.Run` | rt-thread/src/ipc.c:2213-2250 | A resumed receiver fails with its error or tries again with the time that is left |
| `MessageQueue.MessageQueue.CopyOut` | rt-thread/src/ipc.c:2252-2253 | One byte of the unlocked copy out of the cell |
| `MessageQueue.MessageQueue.ReturnCell` | rt-thread/src/ipc.c:2255-2266 | The cell goes back to the free chain and the bytes are delivered |
| `MessageQueue.MessageQueue.Reset` | rt-thread/src/ipc.c:2285-2322 | Resumes all receivers with an error and moves all queued cells to the free chain |
| `QueueModel.NextKeepsInv` | rt-thread/src/ipc.c:1963-2322 | Every single step of any thread keeps cell partition, data and wake-up accounting |
| `QueueModel.EveryRunKeepsInv` | rt-thread/src/ipc.c:1963-2322 | So does every interleaving of such steps |
| `QueueModel.ReachableStates` | rt-thread/src/ipc.c:1980-2250 | Under any interleaving each cell is in exactly one place, entry is the queue length, waiting receivers are not outnumbered by messages beyond the resumed ones, and with nobody mid-resume receivers wait only on an empty queue |
| `QueueOutcomes.SendOutcome` | rt-thread/src/ipc.c:1974-1996 | In every reachable state a send fails with ERROR if and only if the message is longer than msg_size, with EFULL if and only if it is not and every cell is queued or in a hand, and otherwise holds a cell that nobody else had |
| `QueueOutcomes.LinkOutcome` | rt-thread/src/ipc.c:2004-2036 | A send ends with its message last, or first if urgent, and the first waiting receiver resumed without an error |
| `QueueOutcomes.RecvOutcome` | rt-thread/src/ipc.c:2158-2247 | A receive, at first or after a wake-up, holds the first message whenever one is queued; without one it fails if no time is left, and waits otherwise |
| `QueueOutcomes.DeliveredLength` | rt-thread/src/ipc.c:2252-2262 | A completed receive hands over as many bytes as both the buffer and a message have |
| `QueueOutcomes.FailureIsReported` | rt-thread/src/ipc.c:2215-2220 | A receive whose timer expires, or whose queue is reset, returns that error |
| `QueueOutcomes.ResetOutcome` | rt-thread/src/ipc.c:2279-2322 | A reset empties the queue and frees exactly the queued cells |
| `QueueOutcomes.NobodyIsStuck` | rt-thread/src/ipc.c:1963-2270 | A thread inside a call waits in the list or can take its next step |
| `QueueModel.HeldAlone` | rt-thread/src/ipc.c:1994-2006 | A cell in a hand is on no chain and in no other hand, so the unlocked copies cannot race |
| `QueueModel.DeliveredIntact` | rt-thread/src/ipc.c:2252-2266 | A delivered message is, byte for byte, what was linked into the cell, up to the receiver's limit |
| `QueueModel.UnlinkedIsDelivered` | rt-thread/src/ipc.c:2232-2266 | Whatever all others do between a thread's unlinking and its return, the call returns the bytes of the message that this thread unlinked |
| `QueueModel.StepIsDequeOp` | rt-thread/src/ipc.c:2004-2123 | Each step is one deque operation on the linked messages: a normal link pushes at the back, an urgent one at the front, a receive pops the front |
| `QueueModel.LinkOrderIsDeliveryOrder` | rt-thread/src/ipc.c:2004-2036 | Without urgent sends and resets, messages are unlinked in the order they were linked, none lost or doubled |
| `Mailbox.Mailbox.Send` | rt-thread/src/ipc.c:1441-1560 | A send stores the mail and resumes a receiver, fails, or suspends the caller |
| `Mailbox.Mailbox.Recv` | rt-thread/src/ipc.c:1589-1713 | A receive fetches a mail and resumes a sender, fails, or suspends the caller |
| `Mailbox.Mailbox.Run` | rt-thread/src/ipc.c:1462-1560 | A resumed sender or receiver fails with its error or tries again with the time that is left |
| `Mailbox.Mailbox.Expire` | rt-thread/src/thread.c:749-771 | A timeout takes the thread off its wait list with ETIMEOUT |
| `Mailbox.Mailbox.Reset` | rt-thread/src/ipc.c:1731-1753 | Resumes everybody with an error and empties the ring |
| `MailboxModel.EveryRunKeepsInv` | rt-thread/src/ipc.c:1441-1713 | Every interleaving keeps the ring, the thread states and the wake-up accounting |
| `MailboxModel.WaitersAreJustified` | rt-thread/src/ipc.c:1441-1713 | No lost wake-ups: waiting receivers are outnumbered by no more mails than resumed receivers, waiting senders likewise by free slots, and with nobody mid-resume receivers wait only on empty, senders only on full |
| `MailboxOutcomes.SendOutcome` | rt-thread/src/ipc.c:1470-1556 | A send, at first or after a wake-up, is accepted if and only if a slot is free, and resumes the first receiver; otherwise it fails if no time is left, and waits if some is |
| `MailboxOutcomes.RecvOutcome` | rt-thread/src/ipc.c:1617-1710 | A receive gets the oldest mail whenever one is stored, and resumes the first sender; otherwise it fails if no time is left, and waits if some is |
| `MailboxOutcomes.FailureIsReported` | rt-thread/src/ipc.c:1513-1521 | A call whose timer expires, or whose mailbox is reset, returns that error |
| `MailboxOutcomes.ResetOutcome` | rt-thread/src/ipc.c:1725-1755 | A reset forgets the stored mails and lets nobody wait |
| `MailboxOutcomes.NobodyIsStuck` | rt-thread/src/ipc.c:1441-1713 | A thread inside a call waits in a list or can run |
| `MailboxModel.FirstInFirstOut` | rt-thread/src/ipc.c:1534-1540 | Received mail is a prefix of accepted mail across ring wrap, and the difference is what the mailbox holds |
| `Event.Event.Scan` | rt-thread/src/ipc.c:1054-1099 | The scan of the suspended threads on 32-bit words is the scan on sets of flags |
| `Event.Event.Send` | rt-thread/src/ipc.c:1028-1110 | A send adds the flags and wakes in list order whoever is satisfied, clearing flags on the way |
| `Event.Event.Recv` | rt-thread/src/ipc.c:1126-1236 | A receive returns at once if satisfied, fails, or suspends the caller |
| `EventModel.ScanSettles` | rt-thread/src/ipc.c:1054-1099 | After the scan no remaining waiter is satisfied by the remaining flags, although CLEAR waiters consumed some mid-scan, and each woken thread was satisfied by the flags at its turn and recorded accordingly |
| `EventModel.WithoutClearExactlyTheSatisfied` | rt-thread/src/ipc.c:1054-1099 | Without CLEAR waiters exactly the satisfied ones are woken and no flag is lost |
| `EventModel.EveryRunKeepsInv` | rt-thread/src/ipc.c:1028-1276 | Quiescence holds after every send, receive, timeout and reset of every run |
| `EventModel.ReportIsHonest` | rt-thread/src/ipc.c:1216-1231 | What a woken thread reports is what it asked for and saw: all of it under AND, something under OR |
| `EventOutcomes.RecvOutcome` | rt-thread/src/ipc.c:1161-1214 | A receive whose flags are up returns at once with the wanted flags that are up, and with CLEAR none of the wanted ones stays up; otherwise it fails or waits and no flag changes |
| `EventOutcomes.ReportAtOnce` | rt-thread/src/ipc.c:1161-1183 | It reports all wanted flags for AND and at least one for OR |
| `EventOutcomes.ClearedOnce` | rt-thread/src/ipc.c:1180-1182 | After a receive with CLEAR the same receive times out |
| `EventOutcomes.TurnByTurn` | rt-thread/src/ipc.c:1063-1098 | A scan wakes each waiter if and only if its condition is met by the flags that the woken ones in front of it did not clear, and gives it what it then finds |
| `EventOutcomes.SendOutcome` | rt-thread/src/ipc.c:1028-1110 | A send adds its flags and takes away exactly those that a woken waiter with CLEAR was given; the others wait on in their order |
| `EventOutcomes.EndOfWait` | rt-thread/src/ipc.c:1216-1231 | A woken waiter returns the flags it was given, one whose wait is over or whose event is reset that error |
| `EventOutcomes.ResetOutcome` | rt-thread/src/ipc.c:1248-1276 | A reset takes all flags down and lets nobody wait |
| `EventBits.SameBits` | rt-thread/src/ipc.c:1060-1075 | Words and sets of flags correspond one to one |
| `Mutex.Mutex.Take` | rt-thread/src/ipc.c:653-778 | Nested take, first take, failure, or priority boost and suspension |
| `Mutex.Mutex.Release` | rt-thread/src/ipc.c:789-880 | Error for others than the owner, nested release, hand-over to the first waiter, or release to nobody |
| `MutexModel.EveryRunKeepsInv` | rt-thread/src/ipc.c:653-880 | In every run value is 1 iff nobody owns iff hold is 0, and then nobody waits; hold is the owner's net takes; the owner runs at the most urgent of its own priority and those who suspended on it |
| `MutexModel.NoInversion` | rt-thread/src/ipc.c:716-725 | Priority-ordered: after every run the owner is at least as urgent as every waiter, and everybody else runs at the own priority |
| `MutexModel.FinalReleaseRestores` | rt-thread/src/ipc.c:824-866 | The final release restores the priority at acquisition and hands over to the first waiter, or to nobody if nobody waits |
| `MutexModel.SuccessMeansOwnership` | rt-thread/src/ipc.c:748-776 | A suspended take reports success exactly if the thread owns the mutex |
| `MutexOutcomes.TakeOutcome` | rt-thread/src/ipc.c:676-776 | Taking a free mutex succeeds and taking an own one nests; of another thread it fails without waiting time, and otherwise waits and lends the owner its priority if that is more urgent |
| `MutexOutcomes.ReleaseOutcome` | rt-thread/src/ipc.c:789-880 | Only the owner releases; the last release hands over to the first waiter, or frees the mutex |
| `MutexOutcomes.EndOfWait` | rt-thread/src/ipc.c:748-776 | A wait ends with the mutex in hand after a hand-over, and with a timeout after an expiry |
| `MutexModel.HandOverIff` | rt-thread/src/ipc.c:824-866 | In either order of the list, after the final release no waiter outranks the new owner if and only if the first waiter was a most urgent one |
| `MutexModel.OthersKeepOrder` | rt-thread/src/ipc.c:653-880 | No other step lets a waiter outrank the owner |
| `MutexModel.NeverInvertedIff` | rt-thread/src/ipc.c:653-880 | A run from the start is free of priority inversion if and only if every hand-over in it found a most urgent waiter in front |
| `MutexModel.FifoInverts` | rt-thread/src/ipc.c:824-866 | With the FIFO flag a run of three takes and a release from the start ends with a more urgent waiter behind the owner |
| `TimerOrder.ComparesTrueDeadlines` | rt-thread/src/timer.c:354-366 | Inside the window the wrap-around comparison orders the true deadlines |
| `TimerOrder.ComparesRightlyIff` | rt-thread/src/timer.c:354-366 | For all deadlines the comparison is right if and only if their distance lies in the window, some whole turns of the tick apart |
| `TimerOrder.WindowIsNeeded` | rt-thread/src/timer.c:354-366 | Just outside the window it gives the wrong order, on both sides |
| `TimerOrder.ExpiresWhenDue` | rt-thread/src/timer.c:512-516 | The expiry test tells due from not due, across tick wrap-around |
| `TimerOrder.StableSubsequence` | rt-thread/src/timer.c:335-391 | Inserting into two rows, one a subsequence of the other, keeps it one |
| `TimerModel.InsertKeepsRows` | rt-thread/src/timer.c:335-391 | For any number of rows: rows stay sorted, sparser rows stay subsequences of denser ones, and the bottom row gets the timer behind all equal deadlines |
| `TimerModel.StartKeepsInv` | rt-thread/src/timer.c:296-391 | Restarting a timer, queued or not, keeps the skip list and is a stable insertion into the queue without it |
| `TimerModel.NothingDueIsLeft` | rt-thread/src/timer.c:494-553 | After a check no due timer is queued; the loop ends because ever fewer timers are due |
| `TimerModel.CheckIsExact` | rt-thread/src/timer.c:494-553 | A check fires exactly the due timers in queue order, and requeues the periodic ones at now + init_tick |
| `TimerRuns.EveryRunKeepsInv` | rt-thread/src/timer.c:296-553 | Every run of starts, stops and ticks keeps the skip list and the deadline window |
| `TimerRuns.TickFiresOnTime` | rt-thread/src/timer.c:494-553 | Each tick adds to the firings of a timer this tick, once, if and only if it is queued and due |
| `TimerRuns.NeverEarly` | rt-thread/src/timer.c:494-553 | While nobody touches it, a timer stays queued before its deadline and its list of firings stays the same |
| `TimerRuns.FiresOnTime` | rt-thread/src/timer.c:494-553 | Over the whole run up to its deadline its list of firings grows by exactly that one tick; a deadline that is not ahead means the next tick |
| `TimerStamps.FiringOrder` | rt-thread/src/timer.c:296-553 | Over every run the queue is ordered by deadline with ties in start order, restarts of periodic timers included, and everything that fired did so tick by tick in that order |
| `TimerRuns.StartedTimerWaits` | rt-thread/src/timer.c:324-324 | A started timer waits for now + init_tick |
| `TimerOutcomes.FiresPeriodically` | rt-thread/src/timer.c:494-553 | A periodic timer that is left alone fires over any run exactly at its deadlines, one period apart |
| `TimerOutcomes.StoppedStaysQuiet` | rt-thread/src/timer.c:422-450 | A timer that is not queued does not fire in any run that does not start it |
| `TimerOutcomes.StopIsQuiet` | rt-thread/src/timer.c:422-450 | Stopping takes the timer off the queue |
| `TimerOutcomes.RowsOfStart` | rt-thread/src/timer.c:367-391 | A start enters the row j above the bottom if and only if the insert counter is a multiple of 4 to the power of j, so the heights are spread evenly |
| `Timer.TimerList.Search` | rt-thread/src/timer.c:335-369 | The row walks stop in front of the first later deadline in every row |
| `Timer.TimerList.Insert` | rt-thread/src/timer.c:371-391 | The counter decides the height, and the timer goes into the bottom row and that many above |
| `Timer.TimerList.Start` | rt-thread/src/timer.c:296-412 | Removal, deadline, search and insertion are the start step |
| `Timer.TimerList.Stop` | rt-thread/src/timer.c:422-447 | The timer leaves all rows; an error if it was not active |
| `Timer.TimerList.NextTimeout` | rt-thread/src/timer.c:108-119 | The earliest deadline in the queue, or RT_TICK_MAX |
| `Timer.TimerList.Check` | rt-thread/src/timer.c:494-553 | The expiry loop is the check step |
| `FirstBit.FfsIsLowest` | rt-thread/src/kservice.c:1286-1330 | Over all 32-bit words the byte table gives the lowest set bit, counted from 1, and 0 for the empty word |
| `ReadyMap.MarkAdds` | rt-thread/src/scheduler.c:711-717 | Inserting marks exactly one more priority, flat or in two levels |
| `ReadyMap.UnmarkDrops` | rt-thread/src/scheduler.c:800-812 | Clearing unmarks exactly one priority, and its group bit only with the last of its byte |
| `ReadyMap.GroupEmpty` | rt-thread/src/scheduler.c:423-424 | The group word is zero exactly when nothing is marked |
| `ReadyMap.HighestIsLeast` | rt-thread/src/scheduler.c:162-184 | Reading the bitmap finds the most urgent marked priority, flat or in two levels |
| `SchedModel.ScheduleIsUrgent` | rt-thread/src/scheduler.c:411-523 | After an unlocked rt_schedule, when anything can run, a thread is running, is in no ready list, and no ready thread is more urgent |
| `SchedModel.ScheduleKeepsRunnable` | rt-thread/src/scheduler.c:411-523 | Scheduling neither loses nor invents a runnable thread and leaves the states of the others |
| `SchedModel.SwitchParts` | rt-thread/src/scheduler.c:446-463 | The switch takes the head of the most urgent list and puts a running thread behind its peers |
| `SchedOutcomes.ScheduleOutcome` | rt-thread/src/scheduler.c:411-463 | Nothing changes while locked, with nobody ready, or under a running thread more urgent than all; otherwise the head of the most urgent list runs and the running thread goes to the end of its own list |
| `SchedOutcomes.StartOutcome` | rt-thread/src/scheduler.c:246-270 | The first switch goes to the head of the most urgent list |
| `SchedRuns.EveryRunKeepsInv` | rt-thread/src/scheduler.c:411-940 | Every run of start-ups, suspensions, resumptions, timeouts, priority changes, exits, yields, critical sections and ticks keeps each ready thread in exactly the list of its priority, once |
| `SchedOutcomes.ResumeOutcome` | rt-thread/src/thread.c:706-740 | A resumed thread is ready and last in the list of its priority, the current one running; a thread that is not suspended is left alone |
| `SchedOutcomes.SuspendOutcome` | rt-thread/src/thread.c:657-696 | A ready or running thread is suspended and leaves its list; any other is left alone |
| `SchedOutcomes.PriorityOutcome` | rt-thread/src/thread.c:572-613 | The priority changes, and a ready thread moves to the end of the list of the new one |
| `SchedOutcomes.StartupOutcome` | rt-thread/src/thread.c:288-320 | A started thread is ready at the end of the list of its first priority, then the scheduler is called |
| `SchedOutcomes.TimeoutOutcome` | rt-thread/src/thread.c:749-771 | A thread whose wait is over is ready at the end of its list, then the scheduler is called |
| `SchedOutcomes.ExitOutcome` | rt-thread/src/thread.c:80-115 | The exiting thread is closed and in no list, then the scheduler is called |
| `SchedOutcomes.DetachOutcome` | rt-thread/src/thread.c:331-368 | The detached thread is closed and leaves its list |
| `SchedOutcomes.TickOutcome` | rt-thread/src/clock.c:72-98 | A tick counts the slice down; at its end it is renewed and the scheduler called |
| `SchedOutcomes.LockOutcome` | rt-thread/src/scheduler.c:855-940 | Critical sections nest, and leaving the outermost one calls the scheduler |
| `SchedRuns.LockedRunStays` | rt-thread/src/scheduler.c:855-940 | While the scheduler is locked, whatever happens, the current thread stays |
| `SchedRuns.NestingBalances` | rt-thread/src/scheduler.c:855-940 | n nested critical sections change nothing but one scheduling when the outermost is left |
| `RoundRobin.StartsExactly` | rt-thread/src/clock.c:72-98 | The j-th ready thread of the top priority starts after exactly the remaining ticks of the running thread and of those in front of it, and not a tick sooner |
| `RoundRobin.TickRotates` | rt-thread/src/clock.c:85-93 | The tick that ends a slice hands over to the head of the list and sends the thread to its end with a new slice |
| `RoundRobin.AloneKeepsRunning` | rt-thread/src/clock.c:72-98 | With nobody else ready at its priority or above, the thread runs on over any number of ticks |
| `Scheduler.Scheduler.constructor` | rt-thread/src/scheduler.c:191-239 | Empty lists, an empty bitmap and threads that are only initialized |
| `Scheduler.Scheduler.InsertThread` | rt-thread/src/scheduler.c:688-722 | Links the thread at the end of its list and sets its bits; the current thread becomes running instead |
| `Scheduler.Scheduler.RemoveThread` | rt-thread/src/scheduler.c:785-815 | Unlinks the thread and clears its bits exactly if its list became empty |
| `Scheduler.Scheduler.GetHighest` | rt-thread/src/scheduler.c:162-184 | The head of the most urgent list, read off the bitmap |
| `Scheduler.Scheduler.Schedule` | rt-thread/src/scheduler.c:411-523 | On links and bitmap, exactly the scheduling step; lists and bitmap stay in agreement |
| `Scheduler.Scheduler.Start` | rt-thread/src/scheduler.c:246-270 | The most urgent thread becomes the current one |
| `Scheduler.Scheduler.Startup` | rt-thread/src/thread.c:288-320 | Initial priority and its masks, then resume and schedule |
| `Scheduler.Scheduler.Suspend` | rt-thread/src/thread.c:657-696 | Only ready and running threads are suspended |
| `Scheduler.Scheduler.Resume` | rt-thread/src/thread.c:706-740 | Only suspended threads are resumed |
| `Scheduler.Scheduler.Timeout` | rt-thread/src/thread.c:749-771 | The thread becomes ready and the scheduler runs |
| `Scheduler.Scheduler.ChangePriority` | rt-thread/src/thread.c:572-613 | A ready thread changes its list, and the masks follow the priority |
| `Scheduler.Scheduler.Exit` | rt-thread/src/thread.c:80-115 | The thread is closed and the scheduler runs |
| `Scheduler.Scheduler.Detach` | rt-thread/src/thread.c:331-368 | The thread leaves its list and is closed |
| `Scheduler.Scheduler.ExitCritical` | rt-thread/src/scheduler.c:915-940 | Schedules when the last critical section is left |
| `Scheduler.Scheduler.TickIncrease` | rt-thread/src/clock.c:72-98 | Counts down the slice and yields at its end |
| `KconfigExpr.RoundTrip` | rt-thread/tools/kconfiglib.py:2737-2821 | Parsing a printed expression consumes exactly its tokens, whatever stands before and (short of an operator) behind, and gives it nested to the right, with m rewritten to m && MODULES where the parser is asked to |
| `KconfigExpr.RewrittenValue` | rt-thread/tools/kconfiglib.py:2798-2804 | The rewriting makes exactly this difference: outside relations m counts as no more than MODULES |
| `KconfigExpr.ReparsedValue` | rt-thread/tools/kconfiglib.py:2737-2821 | An expression that was parsed with m rewritten keeps its value when it is printed and parsed so again |
| `KconfigExpr.RenestKeepsValue` | rt-thread/tools/kconfiglib.py:4986-5041 | The expression nested to the right has the same tristate value for all symbol values, short cuts included |
| `KconfigExpr.RenestPrints` | rt-thread/tools/kconfiglib.py:5059-5100 | It prints identically |
| `KconfigExpr.RoundTripIsIdentityIff` | rt-thread/tools/kconfiglib.py:2737-2821 | Printing and parsing gives the very same expression if and only if it is nested to the right; a second round changes nothing |
| `KconfigExpr.LeftChainComesBackChanged` | rt-thread/tools/kconfiglib.py:2779-2787 | (a && b) && c comes back as a && (b && c) |
| `KconfigExpr.ShortCuts` | rt-thread/tools/kconfiglib.py:5000-5010 | Stopping early does not change the value: and is the minimum, or the maximum |
| `KconfigParser.Parser.ParseExprHere` | rt-thread/tools/kconfiglib.py:2737-2777 | The method over the token cursor does what the grammar says, m rewrite included |
| `KconfigParser.Parser.ParseAndHere` | rt-thread/tools/kconfiglib.py:2779-2787 | Likewise for and-expressions |
| `KconfigParser.Parser.ParseFactorHere` | rt-thread/tools/kconfiglib.py:2789-2821 | Likewise for symbols, relations, negations and parentheses, with errors where the original raises them |
| `KconfigParser.Reparse` | rt-thread/tools/kconfiglib.py:5059-5100 | A printed expression is read back to the last token as its right-nested form, m rewritten if asked for; without that it prints the same, and is the same if and only if it was nested to the right |
| `KconfigGrammar.ParsesIff` | rt-thread/tools/kconfiglib.py:2746-2753 | The parser accepts a text if and only if the documented grammar derives it, and gives the derived expression |
| `KconfigGrammar.Unambiguous` | rt-thread/tools/kconfiglib.py:2746-2753 | No text has two meanings |
| `KconfigGrammar.RewritingParsesIff` | rt-thread/tools/kconfiglib.py:2798-2804 | With the rewriting it accepts the same texts and rewrites what the grammar derives |
| `KconfigLoops.LoopFinder.Check` | rt-thread/tools/kconfiglib.py:5486-5558 | The three-colour search: clear with all dependents finished first, a partial loop back to an open symbol, or a raised loop that is a cycle without repetition |
| `KconfigLoops.CheckDependencies` | rt-thread/tools/kconfiglib.py:868-873 | The check raises an error if and only if the dependency relation has a cycle, reports a genuine one in edge order, and a clean pass ranks every symbol above what it depends on |
| `KconfigLoops.RankedHasNoCycle` | rt-thread/tools/kconfiglib.py:5486-5558 | A rank excludes every cycle |
| `KconfigDeps.BuildDep` | rt-thread/tools/kconfiglib.py:2827-2872 | The dependents of a symbol are exactly the defined symbols whose properties mention it, constants apart |
| `KconfigDeps.AllFiniteIff` | rt-thread/tools/kconfiglib.py:3432-3441 | After a clean loop check, for any user values, all values can be computed if and only if MODULES settles before the type of a tristate symbol asks for it; whether it does is decided by a terminating evaluation |
| `KconfigDeps.AllFiniteIffNoCircle` | rt-thread/tools/kconfiglib.py:3585-3662 | After a clean loop check all values can be computed if and only if no fields read each other in a circle |
| `KconfigDeps.ClearIsFinite` | rt-thread/tools/kconfiglib.py:3432-3441 | If nothing that MODULES depends on is tristate, all values can be computed, whatever the user values |
| `KconfigDeps.LoopCheckMissesModules` | rt-thread/tools/kconfiglib.py:5486-5558 | A graph with its dependency sets that passes the loop check; with T set to m, MODULES and T read each other, and neither can be computed |
| `KconfigDeps.ModulesGraphCanEnd` | rt-thread/tools/kconfiglib.py:3585-3662 | Without user values everything in the same graph can be computed |
| `KconfigDeps.Load` | rt-thread/tools/kconfiglib.py:868-873 | Dependencies, loop check, and an engine with coherent caches and the order of a clean check, or a loop of symbols that mention each other in turn |
| `KconfigItems.ExprAgrees` | rt-thread/tools/kconfiglib.py:4986-5044 | The value of an expression only depends on what its evaluation reads, short cuts and failed number parses included |
| `KconfigItems.ComputeAgrees` | rt-thread/tools/kconfiglib.py:3444-3662 | Each cached field only depends on what its computation reads |
| `KconfigItems.NeedsAgree` | rt-thread/tools/kconfiglib.py:4089-4125 | The same with what is only evaluated for the warning about selects |
| `KconfigMeaning.ValuesAreTristate` | rt-thread/tools/kconfiglib.py:3651-3656 | Values and visibilities of all symbols are n, m or y, and those of boolean symbols never m |
| `KconfigMeaning.ExprMeaning` | rt-thread/tools/kconfiglib.py:4986-5041 | and is the minimum, or the maximum, not the difference from y; a relation compares numbers as numbers and texts in lexicographic order |
| `KconfigMeaning.TextOrder` | rt-thread/tools/kconfiglib.py:5292-5295 | Texts compare lexicographically |
| `KconfigMeaning.FiniteEnds` | rt-thread/tools/kconfiglib.py:3585-3662 | Every field that can be read has one of the values that these theorems are about |
| `KconfigMeaning.VisibilityMeaning` | rt-thread/tools/kconfiglib.py:5215-5242 | Visibility is the greatest prompt condition, with m counted as y for what is not tristate now |
| `KconfigMeaning.TristateMeaning` | rt-thread/tools/kconfiglib.py:3600-3656 | A tristate value is the user value bounded by visibility, or else the first true default bounded by its condition and raised by implies; selects bound it from below, and m becomes y where it must |
| `KconfigMeaning.NeverBelowSelects` | rt-thread/tools/kconfiglib.py:176-180 | The value is never below what selects the symbol |
| `KconfigMeaning.NeverAboveVisibility` | rt-thread/tools/kconfiglib.py:163-168 | Without select and imply, a user value takes effect only up to the visibility |
| `KconfigMeaning.AssignableIff` | rt-thread/tools/kconfiglib.py:3717-3722 | The user value of a visible symbol takes effect as it is if and only if it is assignable, and this equivalence holds if and only if the value is n or the symbol is not pinned to y |
| `KconfigMeaning.AssignableShape` | rt-thread/tools/kconfiglib.py:3948-3993 | The assignable values ascend, and there are none if and only if the symbol is invisible |
| `KconfigMeaning.PinnedReadsY` | rt-thread/tools/kconfiglib.py:3981-3993 | A symbol visible for m, selected to m and implied to y offers m and reads y |
| `KconfigTexts.PlainTextMeaning` | rt-thread/tools/kconfiglib.py:3444-3476 | Boolean and tristate symbols read n, m or y, undefined ones their name |
| `KconfigTexts.StringMeaning` | rt-thread/tools/kconfiglib.py:3559-3570 | A string is the user value while visible, or else the first true default |
| `KconfigTexts.NumberMeaning` | rt-thread/tools/kconfiglib.py:3473-3556 | A number is the user value if it fits the active range, or else the first true default, replaced by the nearer bound outside the range |
| `KconfigTexts.NumbersStayInRange` | rt-thread/tools/kconfiglib.py:3535-3546 | The value of a number lies in its active range, whatever is set |
| `KconfigTexts.SetTristate` | rt-thread/tools/kconfiglib.py:3760-3786 | Setting a boolean or tristate symbol stores n, m or y however it is spelled, and refuses m for a boolean and everything else |
| `KconfigTexts.SetText` | rt-thread/tools/kconfiglib.py:3760-3786 | Setting another symbol stores a text that is valid for its type, and refuses everything else |
| `KconfigTexts.UnsetRestores` | rt-thread/tools/kconfiglib.py:3798-3805 | Unsetting undoes setting |
| `KconfigTexts.SetThenRead` | rt-thread/tools/kconfiglib.py:3713-3722 | After setting a visible symbol the value set is read if and only if it is assignable, but for symbols pinned to y |
| `KconfigEvaluation.OneSolution` | rt-thread/tools/kconfiglib.py:3585-3662 | Which fields can be computed, and with which values, is settled by the equations between them |
| `KconfigEvaluation.RecomputationEvaluates` | rt-thread/tools/kconfiglib.py:3585-3662 | Recomputation gives each field that can be computed what its computation gives, and a field can be computed if and only if all it reads can |
| `KconfigEvaluation.EndsWithLess` | rt-thread/tools/kconfiglib.py:4089-4125 | Evaluating more for a warning makes fewer fields computable, and changes no value |
| `KconfigCoherence.ReadsForeseen` | rt-thread/tools/kconfiglib.py:2827-2872 | Whatever a computation reads is an earlier field of the symbol, a mentioned symbol, or MODULES; and reading another symbol's field means that the own visibility was read too |
| `KconfigCoherence.SurvivorsAreRight` | rt-thread/tools/kconfiglib.py:4001-4030 | Stopping at symbols without cached visibility is safe: after a change of a user value every field that survives invalidation has the cached value under the new user values too |
| `KconfigCoherence.PromptlessIgnoresUser` | rt-thread/tools/kconfiglib.py:4032-4052 | Without a prompt the user value has no effect, so nothing needs to be invalidated |
| `KconfigCoherence.CachedIsRecomputed` | rt-thread/tools/kconfiglib.py:3585-3662 | Every cached field equals recomputation from the user values, which ends |
| `KconfigCache.Kconfig.TriValue` | rt-thread/tools/kconfiglib.py:3585-3662 | Cached or computed, the tristate value of a symbol for which that ends is right, warnings evaluated on the way, and the caches stay coherent |
| `KconfigCache.Kconfig.StrValue` | rt-thread/tools/kconfiglib.py:3444-3582 | Likewise for the text value of all types, ranges and clamping included |
| `KconfigCache.Kconfig.Visibility` | rt-thread/tools/kconfiglib.py:5215-5242 | Likewise for the visibility |
| `KconfigCache.Kconfig.Assignable` | rt-thread/tools/kconfiglib.py:3948-3993 | Likewise for the assignable values |
| `KconfigCache.Kconfig.Eval` | rt-thread/tools/kconfiglib.py:4986-5041 | Evaluation over caches gives the value, and caches all it read |
| `KconfigCache.Kconfig.RecInvalidate` | rt-thread/tools/kconfiglib.py:4001-4030 | The recursive invalidation ends, because ever fewer symbols have a cached visibility, and leaves no dependent of an invalidated symbol with one |
| `KconfigCache.Kconfig.SetValue` | rt-thread/tools/kconfiglib.py:3713-3796 | Valid values are stored, others refused, and the caches stay coherent |
| `KconfigCache.Kconfig.UnsetValue` | rt-thread/tools/kconfiglib.py:3798-3805 | The user value goes and the caches stay coherent |
| `KconfigCache.Kconfig.Perform` | rt-thread/tools/kconfiglib.py:3585-3805 | Any mix of changes and reads that end gives what an engine without caches gives |

## Left out

- Word sizes: sizes, counters and addresses are unbounded; only the 32-bit tick, the event word and the ready bitmaps wrap or are bit vectors.
- Heap semaphores: each heap operation is one step; the semaphore that makes it so is not modelled.
- Magic numbers, debug fields, hooks, thread names, asserts about object types and console output.
- SMP variants, signals and the EINTR retry of a mutex take.
- Semaphores, memory pools, devices, the object registry, the idle thread, soft timers and thread clean-up.
- Wait lists are sequences of threads in the IPC classes; `Ring.Links` and `WaitList.Suspend` show the pointer form and the scan.
- Slab zone lists and freed-chunk chains are sequences; the page list below them is a pointer structure.
- Slab `rt_realloc`, `rt_calloc`, and `rt_calloc` of the other heaps: they compose the operations that are here.
- MemHeap.MemHeap.constructor: asks for room for the two items that rt_memheap_init writes, which the source does not check.
- SmallHeap.SmallHeap.Malloc: asks that the search ends (`Searchable`); so do a resize and the runs of `SmallProofs.EveryRunKeepsInv`.
- SmallHeap.SmallHeap.Realloc: headers and payload bytes are kept apart in the model; that header writes hit no live payload is what the tiling says. Likewise for `MemHeap.MemHeap.Realloc`.
- SmallHeap.SmallHeap.PlugHoles: the headers say nothing of the prev link of the end stub, which a split does not maintain.
- Mutex priorities: one mutex whose users hold no other, and no priority change from outside while it is held.
- Timer callbacks do not touch timers; a periodic init_tick is at least 1.
- Scheduler.Scheduler.Resume: the node of a suspended thread is alone, since the wait lists it may be on belong to the IPC objects.
- RoundRobin.StartsExactly: asks for no arrivals, blocking or scheduler lock while the ticks pass, as the bound itself does.
- Kconfig choices, menus, macros, file reading, tokenizing, the text of warnings and .config output.
- KconfigCache.Kconfig.Perform: asks that the values read can be computed from the user values, for which `AllFiniteIff` and `ClearIsFinite` give conditions; the source runs into a recursion error otherwise.
- Number syntax in Kconfig: `int()`, `str()` and `hex()` are parameters of the graph.
