# A verified model of the bodos kernel core

bodos is a small i386 kernel in C, C++ and assembly. This project models the parts of it that carry
state and have to stay consistent over time, and proves what they keep:

- **Kernel heap** (`ByteMemory`, `Chunks`, `HeapBlock`, `HeapRuns`, `HeapClient`). `memory::Block` works on a
  byte array with 16-byte headers stored in it. The byte-level methods are proved against a list of chunks;
  whole runs of allocate, free and the stores of callers are proved on both levels.
- **Priority queue, process table, scheduler** (`MaxHeap`, `PriorityQueue`, `Scheduler`, `SchedulerProofs`,
  `SchedulerEffects`, `ProcTable`, `KernelRuns`). The array heap and the table classes are proved equal to a
  state machine of values; what each of its calls does is stated entry by entry; it keeps its invariant on every
  guarded run from boot, and so the table in memory does.
- **Page allocator and higher-half map** (`PageSearch`, `Paging`, `PageRuns`, `PageMap`).
- **Context switch** (`ContextSwitch`, `ContextRuns`, `ThreadRuns`, `KernelMachine`). Registers, EFLAGS and word
  memory; any interleaving of creations, switches and exits among any number of threads; and the scheduler on
  top of it, which always continues the thread of the process it picked.
- **Terminal, hash map, hash function, formatted printing** (`Terminal`, `LinkedQueue`, `UnorderedMap`,
  `IntegerHash`, `CString`, `Kprintf`, `FormatTemplate`).

`MachineWords` holds the bytes and words they share.

Code that changes things in place is a class or a method with loops here; the functions and lemmas beside it
say what its result means.

## Where the code does not do what one would expect

Each of these is proved in both directions: when the code does what it should, and that it does not otherwise.

- `allocate` without a split writes the end of the block into the last header's `next`
  (src/kernel/kernel/mem/allocator.cpp:94). The list survives exactly when the last chunk is taken only by
  splitting it, or the block ends at 2^32, where the address wraps to NULL (`HeapBlock.Block.Allocate`,
  `HeapBlock.BrokenTail`; `HeapRuns.WholePageIsUnsafe` is a concrete case).
- `ready` lists a process without changing its status (src/kernel/kernel/proc/proc.cpp:69-78). Such a
  *pending* process must not be readied again or killed (`SchedulerProofs.ReadyKeepsIff`,
  `SchedulerProofs.KillKeepsIff`); suspending it does not take it off the list
  (`SchedulerProofs.SuspendDelistsIff`; `SchedulerProofs.PendingBreaksFromBoot` is a concrete run from boot).
- `alloc_pages` skips a full table without ending a crossing in progress
  (src/kernel/arch/i386/paging.c:174). If the first run it sees bridges a full table, it ends in the
  "Should not happen" loop (`Paging.PageDirectory.AllocPages`, `Paging.AllocOutcome`; `PageRuns.HangReached` is
  a concrete run from the initial state).
- `calc_pt_offset` casts to 16 bits before it divides (src/kernel/arch/i386/paging.c:270), so `free_pages`
  releases the right pages exactly when the first slot is below 16 (`Paging.FreeUndoesAllocIff`,
  `PageRuns.GiveKeepsIff`; `PageRuns.WrongReleaseReached` is a concrete run from the initial state).
- `ctxswitch` executes `add esp, 4` after `popf` (src/kernel/arch/i386/proc/ctxswitch.s:43-44), which
  overwrites the six status flags that were just restored. All other flags and all registers come back
  (`ContextSwitch.ControlFlagsRestored`, `ContextSwitch.StatusFlagsRestoredIff`; `ContextSwitch.CarryIsLost` is a
  family of concrete cases).
- `itoa` writes the empty text for 0 (src/libc/string.c:35-59), and `%f` prints whatever the container held
  before (src/kernel/kernel/kprintf.c:178-180). The printing results say so.

## Model

| member | source | states |
|---|---|---|
| `ByteMemory.StoreHeader` | src/kernel/kernel/mem/allocator.cpp:139-142 | a header reads back as written and no byte outside its 16 bytes changes |
| `ByteMemory.HeaderInBytes` | src/kernel/include/kernel/mem/allocator.h:28-35 | which of the 16 bytes hold size, prev, next and taken |
| `Chunks.FirstFit` | src/kernel/kernel/mem/allocator.cpp:51-63 | the first free chunk that is large enough: it fits and none before it does |
| `Chunks.AllocAtWellFormed` | src/kernel/kernel/mem/allocator.cpp:69-95 | both branches leave a tiling without gaps and without two free neighbours |
| `Chunks.AllocateWellFormed` | src/kernel/kernel/mem/allocator.cpp:31-102 | the same for the whole of `allocate` |
| `Chunks.AllocAtLive` | src/kernel/kernel/mem/allocator.cpp:69-95 | taking a chunk adds exactly that chunk, of the size handed out, to the live ones |
| `Chunks.SplitInNumbers` | src/kernel/kernel/mem/allocator.cpp:69-95 | a chunk is split exactly with more than 24 bytes to spare; what is cut off is free, starts right behind and has more than 8 bytes |
| `Chunks.AllocSafeInNumbers` | src/kernel/kernel/mem/allocator.cpp:78-94 | the guard of the runs in numbers: the last chunk is taken only with more than 24 bytes to spare or when it ends at 2^32 |
| `Chunks.AllocateLive` | src/kernel/kernel/mem/allocator.cpp:31-102 | NULL exactly when no chunk fits; otherwise one new live chunk, 16 bytes below the pointer, of at least the requested size and at most 24 bytes more, at an address nobody holds |
| `Chunks.MergeTiled` | src/kernel/kernel/mem/allocator.cpp:126-135 | merging two neighbours leaves a tiling of the same block |
| `Chunks.MergeNoAdjacentFree` | src/kernel/kernel/mem/allocator.cpp:126-135 | merging the only two free neighbours leaves none |
| `Chunks.FreeAtWellFormed` | src/kernel/kernel/mem/allocator.cpp:103-124 | release with coalescing to both sides keeps the tiling and leaves no two free neighbours |
| `Chunks.FreeAtLive` | src/kernel/kernel/mem/allocator.cpp:103-124 | a release ends the life of exactly the released chunk |
| `Chunks.PayloadsDisjoint` | src/kernel/kernel/mem/allocator.cpp:78-135 | payloads lie inside the block, overlap no other payload and no header |
| `Chunks.SizesAddUp` | src/kernel/kernel/mem/allocator.cpp:24-135 | headers and payloads add up to the block size |
| `Chunks.MergeSplit` | src/kernel/kernel/mem/allocator.cpp:78-135 | merging the two halves of a split gives the original list |
| `Chunks.AllocAtThenFreeAt` | src/kernel/kernel/mem/allocator.cpp:31-135 | freeing what was just allocated restores the list, split or not |
| `Chunks.NothingLiveIsInitial` | src/kernel/kernel/mem/allocator.cpp:24-30 | a well-formed block with nothing live is the single chunk that `init` writes |
| `Chunks.LiveDetermines` | src/kernel/kernel/mem/allocator.cpp:24-135 | there is exactly one well-formed list for each set of live chunks, so what allocation and release may do to the free ones leaves no choice |
| `HeapBlock.SplitHolds` | src/kernel/kernel/mem/allocator.cpp:78-91 | the three header writes of a split leave memory that encodes the split list, all links in both directions |
| `HeapBlock.SplitSpares` | src/kernel/kernel/mem/allocator.cpp:78-91 | they write no byte of a live payload and none outside the block |
| `HeapBlock.TakeHolds` | src/kernel/kernel/mem/allocator.cpp:92-95 | rewriting one header with another `taken` leaves memory that encodes that list |
| `HeapBlock.MergeHolds` | src/kernel/kernel/mem/allocator.cpp:126-135 | the header writes of a merge leave memory that encodes the merged list |
| `HeapBlock.MergeSpares` | src/kernel/kernel/mem/allocator.cpp:126-135 | they write no payload byte at all |
| `HeapBlock.BrokenTail` | src/kernel/kernel/mem/allocator.cpp:94 | a last header whose `next` is not NULL: no tiled and linked list describes the memory any more |
| `HeapBlock.Block.constructor` | src/kernel/kernel/mem/allocator.cpp:24-30 | one free chunk over the whole block; only the header bytes are written |
| `HeapBlock.Block.Jump` | src/kernel/kernel/mem/allocator.cpp:6-15 | `steps` chunks further on; past the last chunk the block's end modulo 2^32 |
| `HeapBlock.Block.Allocate` | src/kernel/kernel/mem/allocator.cpp:31-102 | first fit on the bytes gives the list and pointer of the abstract allocation, spares live payloads, and leaves a valid block exactly under the last-chunk condition |
| `HeapBlock.Block.AllocateSplit` | src/kernel/kernel/mem/allocator.cpp:78-91 | the split branch keeps the block valid and live payloads untouched |
| `HeapBlock.Block.AllocateWhole` | src/kernel/kernel/mem/allocator.cpp:92-95 | the other branch keeps it valid except for a last chunk not ending at 2^32, where it destroys the list |
| `HeapBlock.Block.Merge` | src/kernel/kernel/mem/allocator.cpp:126-135 | memory encodes the merged list; every payload is untouched |
| `HeapBlock.Block.IsFree` | src/kernel/kernel/mem/allocator.cpp:137 | true exactly for an existing free chunk, false for NULL |
| `HeapBlock.Block.Free` | src/kernel/kernel/mem/allocator.cpp:103-124 | gives the list of the abstract release, keeps the block valid and every payload that stays live |
| `HeapRuns.StepKeeps` | src/kernel/kernel/mem/allocator.cpp:31-124 | one request keeps the block well formed and the live pointers equal to what the callers hold; NULL exactly when no free chunk is large enough, otherwise one new pointer |
| `HeapRuns.RunKeepsBlock` | src/kernel/kernel/mem/allocator.cpp:24-135 | every allowed run keeps tiling, total size and separation, and the live pointers are exactly those handed out and not freed |
| `HeapRuns.FreeAllInAnyOrder` | src/kernel/kernel/mem/allocator.cpp:103-135 | freeing all live pointers in any order is allowed and gives the single initial chunk |
| `HeapRuns.AllocateThenFreeRestores` | src/kernel/kernel/mem/allocator.cpp:31-135 | `free(allocate(n))` gives the very same list |
| `HeapRuns.WholePageIsUnsafe` | src/kernel/kernel/mem/allocator.cpp:94 | a concrete well-formed block and request outside the last-chunk condition |
| `HeapClient.ServeOne` | src/kernel/kernel/mem/allocator.cpp:31-124 | one request on the bytes, a caller's store included, is the abstract step, returns the pointer of the abstract allocation, keeps the block valid and every byte callers count on |
| `HeapClient.Serve` | src/kernel/kernel/mem/allocator.cpp:24-135 | any allowed run of allocations, releases and callers' stores ends in the abstract run's list and returns its pointers; every byte a caller had or stored is there until it is overwritten or freed; no byte outside the block changes |
| `HeapClient.DataKept` | src/kernel/kernel/mem/allocator.cpp:24-135 | what callers count on survives every run that neither overwrites nor frees it |
| `HeapClient.StoredIsKept` | src/kernel/kernel/mem/allocator.cpp:24-135 | so does what a caller stores |
| `HeapClient.StoreHolds` | src/kernel/kernel/mem/allocator.cpp:98-99 | a store behind a pointer that was handed out touches no header: memory encodes the same list |
| `HeapClient.StoreByte` | src/kernel/kernel/mem/allocator.cpp:98-99 | so the block stays valid, and callers find that byte and all others they count on |
| `MaxHeap.LargerChild` | src/kernel/include/kernel/containers/queue.h:197-239 | a child of the position that no other child exceeds |
| `MaxHeap.SwimRestores` | src/kernel/include/kernel/containers/queue.h:172-184 | swimming up the one misplaced element restores heap order |
| `MaxHeap.SwimBag` | src/kernel/include/kernel/containers/queue.h:172-184 | swimming permutes |
| `MaxHeap.SinkRestores` | src/kernel/include/kernel/containers/queue.h:212-247 | sinking the one misplaced element restores heap order |
| `MaxHeap.SinkBag` | src/kernel/include/kernel/containers/queue.h:212-247 | sinking permutes |
| `MaxHeap.InsertHeap` | src/kernel/include/kernel/containers/queue.h:69-82 | insertion keeps heap order |
| `MaxHeap.Insert` | src/kernel/include/kernel/containers/queue.h:69-82 | insertion adds exactly the new pair to the multiset |
| `MaxHeap.DequeueHeap` | src/kernel/include/kernel/containers/queue.h:108-116 | dequeuing keeps heap order |
| `MaxHeap.Dequeue` | src/kernel/include/kernel/containers/queue.h:108-116 | dequeuing removes exactly the top pair |
| `MaxHeap.TopIsMaximal` | src/kernel/include/kernel/containers/queue.h:126-129 | the top has the greatest key of the heap |
| `MaxHeap.EraseHeap` | src/kernel/include/kernel/containers/queue.h:87-107 | erasing a value gives a heap without it, and every other pair keeps its multiplicity |
| `MaxHeap.DrainSorts` | src/kernel/include/kernel/containers/queue.h:108-116 | dequeuing until empty gives a permutation in non-increasing key order |
| `MaxHeap.StepRefinesBag` | src/kernel/include/kernel/containers/queue.h:69-116 | each operation is the operation of a multiset of pairs |
| `MaxHeap.RunRefinesBag` | src/kernel/include/kernel/containers/queue.h:69-116 | so is every step of every run, and every state is a heap |
| `PriorityQueue.PriorityQueue.constructor` | src/kernel/include/kernel/containers/queue.h:47-54 | an empty valid queue |
| `PriorityQueue.PriorityQueue.Insert` | src/kernel/include/kernel/containers/queue.h:69-82 | array and counters after insertion, the array doubled when it was full, hold the heap of `MaxHeap.Insert` |
| `PriorityQueue.PriorityQueue.IncreaseMem` | src/kernel/include/kernel/containers/queue.h:154-165 | growth keeps the contents |
| `PriorityQueue.PriorityQueue.Swim` | src/kernel/include/kernel/containers/queue.h:172-184 | the in-place recursion computes the swim of the sequence and terminates |
| `PriorityQueue.PriorityQueue.Sink` | src/kernel/include/kernel/containers/queue.h:212-247 | the in-place recursion computes the sink of the sequence and terminates |
| `PriorityQueue.PriorityQueue.Dequeue` | src/kernel/include/kernel/containers/queue.h:108-116 | returns the top and leaves the heap of `MaxHeap.Dequeue` |
| `PriorityQueue.PriorityQueue.Refilled` | src/kernel/include/kernel/containers/queue.h:87-99 | the loop builds the heap of the pairs that stay |
| `PriorityQueue.PriorityQueue.Erase` | src/kernel/include/kernel/containers/queue.h:87-107 | the queue becomes that heap and the result is the number of pairs removed |
| `Scheduler.FirstUntaken` | src/kernel/kernel/proc/proc.cpp:140-145 | the lowest slot that is not taken, or the table size |
| `SchedulerProofs.ListedOnce` | src/kernel/include/kernel/proc/proc.h:85-130 | the ready heap holds each pid at most once |
| `SchedulerProofs.ListedIffRunnableOrPending` | src/kernel/include/kernel/proc/proc.h:85-130 | the listed pids are exactly the runnable and the pending ones |
| `SchedulerProofs.ReadyKeepsIff` | src/kernel/kernel/proc/proc.cpp:69-78 | `ready` keeps the invariant exactly when the process is neither current nor pending |
| `SchedulerProofs.SuspendKeeps` | src/kernel/kernel/proc/proc.cpp:80-91 | `suspend` keeps the invariant for every pid |
| `SchedulerProofs.SuspendDelistsIff` | src/kernel/kernel/proc/proc.cpp:80-91 | a suspended process is off the ready list exactly when it was not pending |
| `SchedulerProofs.ReschedKeeps` | src/kernel/kernel/sched/sched.cpp:30-66 | `resched` keeps heap, counter, keys, statuses and `currpid` in agreement |
| `SchedulerProofs.ReschedPicksHighest` | src/kernel/kernel/sched/sched.cpp:38-61 | whoever runs has maximal priority among all listed; the running process stays exactly when it is strictly above them all, so a tie always switches |
| `SchedulerProofs.KillPendingBreaks` | src/kernel/kernel/proc/proc.cpp:93-123 | killing a pending process always breaks the invariant |
| `SchedulerProofs.KillKeepsIff` | src/kernel/kernel/proc/proc.cpp:93-123 | `kill` keeps the invariant exactly when the victim is not pending |
| `SchedulerProofs.PendingBreaks` | src/kernel/kernel/proc/proc.cpp:69-123 | from every state with a free slot, creating a suspended process and readying it is guarded and leaves it pending; then a second `ready` and a `kill` break the invariant and a `suspend` leaves it listed |
| `SchedulerProofs.PendingBreaksFromBoot` | src/kernel/kernel/proc/proc.cpp:69-123 | the same for the concrete run right after boot, with pid 2 and priority 5 |
| `SchedulerProofs.InsertKeepsIff` | src/kernel/kernel/proc/proc.cpp:138-164 | creation keeps the invariant exactly when the process starts runnable or suspended, or the table is full |
| `SchedulerProofs.BootState` | src/kernel/kernel/proc/proc.cpp:12-29 | after boot the null process is pid 0 and listed, the boot thread is pid 1 and current |
| `SchedulerProofs.BootKeeps` | src/kernel/kernel/proc/proc.cpp:12-29 | boot establishes the invariant |
| `SchedulerProofs.StepKeeps` | src/kernel/kernel/proc/proc.cpp:69-164 | every guarded call keeps the invariant |
| `SchedulerProofs.RunKeeps` | src/kernel/kernel/sched/sched.cpp:30-66 | so does every guarded run of create, ready, suspend, kill and timer ticks |
| `SchedulerProofs.ReschedNeverFaults` | src/kernel/kernel/sched/sched.cpp:41-52 | while the null process is runnable or current, `resched` never takes from an empty list, and the null process stays so |
| `SchedulerProofs.RunNeverFaults` | src/kernel/kernel/sched/sched.cpp:41-52 | a guarded run that spares pid 0 never takes from an empty list nor releases a NULL stack |
| `SchedulerProofs.EveryRunFromBoot` | src/kernel/kernel/proc/proc.cpp:12-29 | both results for every such run from boot |
| `SchedulerEffects.InsertEffect` | src/kernel/kernel/proc/proc.cpp:138-164 | the lowest free slot gets the process with its priority, status and stack; no other entry changes; it is listed under that priority exactly if runnable; -1 exactly when all 1024 slots are taken |
| `SchedulerEffects.ReadyEffect` | src/kernel/kernel/proc/proc.cpp:69-78 | which code in which case; no entry changes; the process is listed once more under its priority |
| `SchedulerEffects.SuspendEffect` | src/kernel/kernel/proc/proc.cpp:80-91 | which code in which case; only the status of that entry changes; a runnable process leaves the list |
| `SchedulerEffects.ReschedEffect` | src/kernel/kernel/sched/sched.cpp:30-66 | nothing changes if the current process is strictly above all listed; otherwise a highest one leaves the list and runs, an interrupted one is listed, no other entry changes |
| `SchedulerEffects.KillEffect` | src/kernel/kernel/proc/proc.cpp:93-123 | which code in which case; the victim ends up dead, without a stack and off the list, and `resched` does the rest |
| `SchedulerEffects.CreateEffect` | src/kernel/arch/i386/proc/proc_x86.cpp:59-62 | creation stores the requested priority and status and reschedules exactly if asked to |
| `SchedulerEffects.ValidStatuses` | src/kernel/kernel/proc/proc.cpp:60-67 | valid means current, runnable or suspended |
| `SchedulerEffects.BootInNumbers` | src/kernel/kernel/proc/proc.cpp:12-29 | the 1024 entries, the list and `currpid` right after boot |
| `ProcTable.ReadyList.constructor` | src/kernel/include/kernel/proc/proc.h:127-129 | an empty heap and, by assumption, counter 0 |
| `ProcTable.ReadyList.Insert` | src/kernel/include/kernel/proc/proc.h:88-92 | heap and counter after insertion |
| `ProcTable.ReadyList.Erase` | src/kernel/include/kernel/proc/proc.h:94-103 | the pid's pairs go; the counter drops by one if there were any |
| `ProcTable.ReadyList.Pop` | src/kernel/include/kernel/proc/proc.h:105-110 | the top pid, and heap and counter without it |
| `ProcTable.ProcEntryTable.constructor` | src/kernel/kernel/proc/proc.cpp:131-135 | the blank table of the state machine |
| `ProcTable.ProcEntryTable.ScheduleNextTask` | src/kernel/include/kernel/proc/proc.h:148-151 | pops the top of the ready list into `currpid` |
| `ProcTable.ProcEntryTable.Insert` | src/kernel/kernel/proc/proc.cpp:138-164 | the table in arrays takes the same step and returns the same pid, -1 when full, as the state machine |
| `ProcTable.ProcEntryTable.Ready` | src/kernel/kernel/proc/proc.cpp:69-78 | same step and code as the state machine |
| `ProcTable.ProcEntryTable.Suspend` | src/kernel/kernel/proc/proc.cpp:80-91 | same step and code as the state machine |
| `ProcTable.ProcEntryTable.Dispatch` | src/kernel/kernel/sched/sched.cpp:49-61 | same step as the state machine: pop, put back, run |
| `ProcTable.ProcEntryTable.Resched` | src/kernel/kernel/sched/sched.cpp:30-66 | same step as the state machine |
| `ProcTable.ProcEntryTable.Kill` | src/kernel/kernel/proc/proc.cpp:93-123 | same step and code as the state machine |
| `ProcTable.Init` | src/kernel/kernel/proc/proc.cpp:12-29 | ends in the boot state of the state machine |
| `KernelRuns.ServeOne` | src/kernel/arch/i386/proc/proc_x86.cpp:59-62 | one guarded call on the table in memory, creation included, is the state machine's step with its pid or code, does not fault and keeps the invariant |
| `KernelRuns.Serve` | src/kernel/kernel/sched/sched.cpp:30-66 | so it is, call by call, for every guarded run that spares the null process |
| `KernelRuns.ServeFromBoot` | src/kernel/kernel/proc/proc.cpp:12-29 | so it is for every such run from `processes::init` |
| `KernelRuns.AnswerMeans` | src/kernel/kernel/proc/proc.cpp:69-164 | what each reply means: the lowest free slot or -1, and the three codes |
| `PageSearch.ContiguousPages` | src/kernel/arch/i386/paging.c:212-216 | without a skipped table inside, the computed start is the start of the run that was found |
| `PageSearch.BridgedHitsTaken` | src/kernel/arch/i386/paging.c:174-221 | with one inside, the pages from the computed start meet a taken page |
| `PageSearch.RealRunIsLive` | src/kernel/arch/i386/paging.c:166-226 | neighbouring free pages are also found as a run by a search that skips full tables |
| `PageSearch.FirstRunIsLowest` | src/kernel/arch/i386/paging.c:166-226 | a first run that bridges nothing is the lowest run of neighbouring free pages |
| `PageSearch.UnbridgedIsContiguous` | src/kernel/arch/i386/paging.c:166-226 | if before some free run no full table follows a free last page, the first run bridges nothing |
| `Paging.OffsetsOfVirtualAddr` | src/kernel/arch/i386/paging.c:262-271 | an address is 0x400000 times the table plus 0x1000 times the slot; the directory index comes back from it, the slot only modulo 16 |
| `Paging.MarkKeepsCounts` | src/kernel/arch/i386/paging.c:235-252 | marking a free page keeps every counter equal to its table's untaken pages |
| `Paging.FreeUndoesAllocIff` | src/kernel/arch/i386/paging.c:273-289 | `free_pages` undoes an allocation, pages and counters, exactly when its first slot is below 16 |
| `Paging.ScanPage` | src/kernel/arch/i386/paging.c:187-204 | one page of the scan extends or ends the run in hand and misses no run |
| `Paging.AllocOutcome` | src/kernel/arch/i386/paging.c:235-252 | the marking loop gets through exactly when the first run bridges no full table, and then that run is the lowest |
| `Paging.UnbridgedAllocSucceeds` | src/kernel/arch/i386/paging.c:158-260 | a free run with no bridge before it makes the allocation succeed |
| `Paging.BridgeHangs` | src/kernel/arch/i386/paging.c:174 | a concrete directory with plenty of free pages on which a request for two pages does not succeed |
| `Paging.PageDirectory.constructor` | src/kernel/arch/i386/paging.c:117-130 | all pages free, boot tables counted as full, all counters right |
| `Paging.PageDirectory.CollectRun` | src/kernel/arch/i386/paging.c:187-210 | the innermost loop advances the scan and keeps the remembered start right |
| `Paging.PageDirectory.SearchTable` | src/kernel/arch/i386/paging.c:174-221 | one table is scanned to its end or to success; a run at its end is carried over |
| `Paging.PageDirectory.Search` | src/kernel/arch/i386/paging.c:166-226 | the first pass ends with the first run over the tables that have free pages, across table ends |
| `Paging.PageDirectory.Mark` | src/kernel/arch/i386/paging.c:230-253 | marks exactly the pages and adjusts exactly their counters; stuck exactly when one was taken; leaves the directory only when its pages run out |
| `Paging.NoRunNoMarking` | src/kernel/arch/i386/paging.c:230-253 | with no run of free pages in sight no start in the dynamic tables lets the marking loop get through |
| `Paging.PageDirectory.AllocPages` | src/kernel/arch/i386/paging.c:158-260 | hands out the lowest free run, marks exactly it and keeps all counters right, exactly when the first run bridges nothing; otherwise it never returns |
| `Paging.PageDirectory.FreePages` | src/kernel/arch/i386/paging.c:273-289 | unmarks exactly `count` pages from the computed offsets, across table ends, and adjusts exactly their counters |
| `PageRuns.FreeKeepsCountsIff` | src/kernel/arch/i386/paging.c:278-288 | releasing pages keeps the counters right exactly when all of them were taken |
| `PageRuns.TakeKeepsCounts` | src/kernel/arch/i386/paging.c:235-252 | marking a free run keeps the counters right |
| `PageRuns.TakeKeeps` | src/kernel/arch/i386/paging.c:230-253 | a run handed out is new, overlaps no other, and the taken pages are again exactly those in hand |
| `PageRuns.GiveKeepsIff` | src/kernel/arch/i386/paging.c:262-289 | giving a run back keeps pages, counters and ownership in agreement exactly when its first slot is below 16 |
| `PageRuns.StepKeeps` | src/kernel/arch/i386/paging.c:158-289 | every permitted request keeps the agreement |
| `PageRuns.RunKeeps` | src/kernel/arch/i386/paging.c:158-289 | so does every permitted run, and when all is given back every page is free |
| `PageRuns.ServeOne` | src/kernel/arch/i386/paging.c:158-289 | one request to the allocator is the abstract step, and a `Get` returns the address of the very run recorded as held |
| `PageRuns.Serve` | src/kernel/arch/i386/paging.c:158-289 | so it is, request by request, for every permitted run |
| `PageRuns.FirstAddress` | src/kernel/arch/i386/paging.c:158-260 | the first pages handed out are at 0xC2000000 |
| `PageRuns.AddressInNumbers` | src/kernel/arch/i386/paging.c:100-105 | the address of a run is 4096 times its first page |
| `PageRuns.BridgeReached` | src/kernel/arch/i386/paging.c:158-289 | four permitted requests lead from the initial state to the directory of `Paging.BridgeHangs` |
| `PageRuns.HangReached` | src/kernel/arch/i386/paging.c:174 | so a state in which free pages abound and the next request hangs is reached in a permitted run |
| `PageRuns.WrongReleaseReached` | src/kernel/arch/i386/paging.c:262-289 | two permitted requests lead to a run in hand whose release breaks the agreement |
| `PageMap.HigherHalfIsLinear` | src/kernel/arch/i386/paging.c:124-139 | the two-level walk takes every address from 0xC2000000 up to itself minus 0xC0000000 with flags 3 |
| `PageMap.LowerHalfFaults` | src/kernel/arch/i386/paging.c:112-115 | no address below 0xC0000000 is mapped |
| `PageMap.InitHigherHalf` | src/kernel/arch/i386/paging.c:107-142 | afterwards the walk faults on every address below 0xC0000000, the boot entries are kept, and every address from 0xC2000000 up is mapped to itself minus 0xC0000000 with flags 3 |
| `PageMap.FillTable` | src/kernel/arch/i386/paging.c:133-137 | the running address is that of the entry and wraps only after the last one |
| `ContextSwitch.ControlFlagsRestored` | src/kernel/arch/i386/proc/ctxswitch.s:43-44 | TF, IF, DF, IOPL, NT, AC and ID come back as saved |
| `ContextSwitch.StatusFlagsRestoredIff` | src/kernel/arch/i386/proc/ctxswitch.s:43-44 | the status flags are those of the addition; they come back exactly when they were equal to these |
| `ContextSwitch.AddFourFlags` | src/kernel/arch/i386/proc/ctxswitch.s:44 | which of the six status flags the addition sets |
| `ContextSwitch.ResumedIsSame` | src/kernel/arch/i386/proc/ctxswitch.s:39-45 | a thread that continues has every register, stack pointer, return address and control flag it left with |
| `ContextSwitch.CarryIsLost` | src/kernel/arch/i386/proc/ctxswitch.s:43-44 | a carry that was set when the thread left is clear when it continues |
| `ContextSwitch.Cpu.PushA` | src/kernel/arch/i386/proc/ctxswitch.s:14 | eight words below the old stack pointer, in the order of the Intel SDM |
| `ContextSwitch.Cpu.Save` | src/kernel/arch/i386/proc/ctxswitch.s:11-17 | the caller's frame is in memory and its cell points to it |
| `ContextSwitch.Cpu.PopFlags` | src/kernel/arch/i386/proc/ctxswitch.s:43-44 | EFLAGS after `popf` and the addition |
| `ContextSwitch.Cpu.Restore` | src/kernel/arch/i386/proc/ctxswitch.s:39-45 | unwinding a frame puts every register of its context back, one by one, EFLAGS as above |
| `ContextSwitch.Cpu.CtxSwitch` | src/kernel/arch/i386/proc/ctxswitch.s:10-45 | the caller is saved and the processor holds every register of the target thread |
| `ContextRuns.PushArgs` | src/kernel/arch/i386/proc/stack.cpp:40-42 | the arguments are copied in order, nothing else changes |
| `ContextRuns.ForgedFrame` | src/kernel/arch/i386/proc/stack.cpp:46-58 | the eleven stores make a frame that a switch unwinds to `code` |
| `ContextRuns.CreateStack` | src/kernel/arch/i386/proc/stack.cpp:38-58 | for every number of arguments: a frame starting at `code` with the stack pointer at the exit routine's slot and the arguments above it in order |
| `ContextRuns.StartsWithInterrupts` | src/kernel/arch/i386/proc/stack.cpp:48 | a new thread starts with the interrupt flag set, whatever the flags before |
| `ContextRuns.ParkedAfterSave` | src/kernel/arch/i386/proc/ctxswitch.s:10-17 | a save leaves every other thread's cell, frame and stack intact and adds the caller's |
| `ContextRuns.SwitchKeepsSane` | src/kernel/arch/i386/proc/ctxswitch.s:10-45 | after every switch each thread not running has its context in its frame and its stack as it left it |
| `ContextRuns.CreateKeepsSane` | src/kernel/arch/i386/proc/stack.cpp:38-58 | the same after a thread with a forged frame, exit slot and arguments is added |
| `ThreadRuns.Spawn` | src/kernel/arch/i386/proc/stack.cpp:38-58 | `create_stack` and the store of its result add a new thread without disturbing any other: a legal creation step |
| `ThreadRuns.NewThreadStarts` | src/kernel/arch/i386/proc/stack.cpp:44-48 | continuing such a thread means: at `code`, interrupts on, the general registers 0, the stack pointer at the exit slot, EBP 8 below, the arguments above in order |
| `ThreadRuns.FirstSwitch` | src/kernel/arch/i386/proc/ctxswitch.s:35-45 | the first switch into it, after any run of the others, puts the machine in exactly that state |
| `ThreadRuns.StartThread` | src/kernel/arch/i386/proc/ctxswitch.s:10-45 | so does building the stack and switching straight into it, for every number of arguments |
| `ThreadRuns.RunParksDepartures` | src/kernel/arch/i386/proc/ctxswitch.s:10-45 | in any interleaving of creations, switches and exits each thread not running is parked with the context and stack it was created with or last left with |
| `ContextRuns.TakeTurn` | src/kernel/arch/i386/proc/ctxswitch.s:10-45 | one legal turn on the machine continues the thread it names: every register and every word of its stack |
| `ContextRuns.AloneIsSane` | src/kernel/arch/i386/proc/ctxswitch.s:10-45 | a single thread with distinct aligned cells is where runs start |
| `ThreadRuns.SwitchBack` | src/kernel/arch/i386/proc/ctxswitch.s:10-45 | switching back after any such run restores every register, stack pointer, return address and stack word |
| `ThreadRuns.StepKeepsSane` | src/kernel/arch/i386/proc/ctxswitch.s:10-45 | every creation, switch and exit keeps all parked threads intact |
| `ThreadRuns.RunKeepsSane` | src/kernel/arch/i386/proc/ctxswitch.s:10-45 | so does every run of them |
| `KernelMachine.TopCanRun` | src/kernel/kernel/sched/sched.cpp:49-64 | the process `resched` picks always has a thread that can be continued |
| `KernelMachine.ReschedTogether` | src/kernel/kernel/sched/sched.cpp:30-66 | `resched` with its switch keeps processes and threads together: the current process has the processor, exactly the other live ones have intact parked threads |
| `KernelMachine.OwnTogether` | src/kernel/kernel/proc/proc.cpp:69-164 | so does the rest of every guarded call, a thread joining with its process and ending with it |
| `KernelMachine.EventTogether` | src/kernel/kernel/sched/sched.cpp:30-66 | so does a whole call, which also does not fault |
| `KernelMachine.RunTogether` | src/kernel/kernel/sched/sched.cpp:30-66 | so does every run, in which every switch is therefore legal |
| `KernelMachine.BootTogether` | src/kernel/kernel/proc/proc.cpp:12-29 | boot starts with processes and threads together |
| `KernelMachine.CallSwitch` | src/kernel/kernel/sched/sched.cpp:64 | the call with the two cells as arguments continues the thread of the process on top of the ready list |
| `KernelMachine.Reschedule` | src/kernel/kernel/sched/sched.cpp:30-66 | `resched` on table and processor: either nothing on the machine changes, or it continues the thread of the new `currpid` as it was parked |
| `KernelMachine.RescheduleAfterRun` | src/kernel/kernel/sched/sched.cpp:30-66 | after any run that thread continues as it was created or last gave up the processor |
| `Terminal.CarriageRange` | src/kernel/arch/i386/tty.c:54-80 | the carriage is at most one row below the window, and then in column 0 |
| `Terminal.BlankAhead` | src/kernel/arch/i386/tty.c:48-51 | nothing is typed at or after the carriage |
| `Terminal.LineEnds` | src/kernel/arch/i386/tty.c:75-79 | a line typed from column 0 on leaves the carriage length / 80 rows down in column length % 80 |
| `Terminal.LineTyped` | src/kernel/arch/i386/tty.c:75-79 | its character k is k / 80 rows down in column k % 80, and nothing else on the page changes |
| `Terminal.PlainText` | src/kernel/arch/i386/tty.c:75-79 | the same for a whole text without newlines |
| `Terminal.NewlineTyped` | src/kernel/arch/i386/tty.c:64-73 | a newline moves to column 0 of the next row and types nothing |
| `Terminal.TopSnoc` | src/kernel/arch/i386/tty.c:54-74 | where the window is after one more character: eager on newline, lazy on wrap |
| `Terminal.Scrolled` | src/kernel/arch/i386/tty.c:37-52 | moving the rows up shows the window one row further down |
| `Terminal.PutShows` | src/kernel/arch/i386/tty.c:32-35 | the character appears at the carriage, at an index below 2000, and nothing else changes |
| `Terminal.Screen.constructor` | src/kernel/arch/i386/tty.c:15-26 | the blank page |
| `Terminal.Screen.RowRange` | src/kernel/arch/i386/tty.c:54-80 | row 25 occurs only with column 0 |
| `Terminal.Screen.Visible` | src/kernel/arch/i386/tty.c:32-35 | the low byte of cell row * 80 + column is the character in that place of the 25-row window |
| `Terminal.Screen.MoveRow` | src/kernel/arch/i386/tty.c:42-46 | one row is copied up, no other cell changes |
| `Terminal.Screen.Scroll` | src/kernel/arch/i386/tty.c:37-52 | all rows move up and the last one is blank |
| `Terminal.Screen.PutChar` | src/kernel/arch/i386/tty.c:54-80 | the screen shows the window of the text typed so far |
| `Terminal.Screen.Write` | src/kernel/arch/i386/tty.c:88-94 | so it does after any stream of characters |
| `LinkedQueue.Queue.constructor` | src/kernel/include/kernel/containers/queue.h:267 | the empty list |
| `LinkedQueue.Queue.Insert` | src/kernel/include/kernel/containers/queue.h:279-311 | appends the element |
| `LinkedQueue.Queue.Find` | src/kernel/include/kernel/containers/queue.h:408-416 | the first node that satisfies the predicate, or null when none does |
| `LinkedQueue.Queue.Unlink` | src/kernel/include/kernel/containers/queue.h:325-335 | removes exactly that node |
| `LinkedQueue.Queue.EraseItem` | src/kernel/include/kernel/containers/queue.h:315-345 | removes all and only the nodes with the value and returns how many |
| `LinkedQueue.WithoutCounts` | src/kernel/include/kernel/containers/queue.h:315-345 | every other value keeps its multiplicity |
| `LinkedQueue.WithoutInOrder` | src/kernel/include/kernel/containers/queue.h:315-345 | and the rest its order |
| `UnorderedMap.WithoutKeys` | src/kernel/include/kernel/containers/unordered_map.h:90-107 | in a bucket with distinct keys erasing a pair removes exactly one |
| `UnorderedMap.InsertRefines` | src/kernel/include/kernel/containers/unordered_map.h:51-66 | appending a new key's pair to its bucket refines the extended map |
| `UnorderedMap.EraseRefines` | src/kernel/include/kernel/containers/unordered_map.h:90-107 | erasing the pair from its bucket refines the map without the key and removes one node |
| `UnorderedMap.BucketDecides` | src/kernel/include/kernel/containers/unordered_map.h:110-114 | a key is in the map exactly when bucket hash(key) mod bucket count has a pair with it |
| `UnorderedMap.AllocateBuckets` | src/kernel/include/kernel/containers/unordered_map.h:116-122 | separate empty buckets |
| `UnorderedMap.UnorderedMap.constructor` | src/kernel/include/kernel/containers/unordered_map.h:34-40 | the empty map |
| `UnorderedMap.UnorderedMap.Lookup` | src/kernel/include/kernel/containers/unordered_map.h:71-85 | finds the key's pair in its bucket exactly when the key is in the map |
| `UnorderedMap.UnorderedMap.Insert` | src/kernel/include/kernel/containers/unordered_map.h:51-66 | adds a new key, never overwrites, and `item_count` is the domain size |
| `UnorderedMap.UnorderedMap.Find` | src/kernel/include/kernel/containers/unordered_map.h:71-85 | the value of the key, null exactly when it has none |
| `UnorderedMap.UnorderedMap.Erase` | src/kernel/include/kernel/containers/unordered_map.h:90-107 | removes exactly the key and says whether it was there; the path without a return value is dead |
| `IntegerHash.SpreadIsInvolution` | src/kernel/kernel/utils/hash.cpp:7-9 | exclusive or with the upper half undoes itself |
| `IntegerHash.XorBits` | src/kernel/kernel/utils/hash.cpp:7-9 | bit i of the exclusive or is the sum modulo 2 of the bits i |
| `IntegerHash.SpreadBits` | src/kernel/kernel/utils/hash.cpp:7-9 | bit i of `(x >> 16) ^ x` is bit i plus bit i + 16 of x |
| `IntegerHash.HashOfOne` | src/kernel/kernel/utils/hash.cpp:3-11 | the hash of 1 is 0x4ab1acdb |
| `IntegerHash.TimesCancels` | src/kernel/kernel/utils/hash.cpp:7-8 | multiplication modulo 2^32 is undone by the inverse factor |
| `IntegerHash.HashIsBijection` | src/kernel/kernel/utils/hash.cpp:3-11 | the pipeline with the inverse factor is the two-sided inverse of `integer_hash` |
| `CString.StrLen` | src/libc/string.c:5-10 | the length of the text before the first NUL |
| `CString.StrCpy` | src/libc/string.c:12-17 | the destination holds the text and its terminator, the bytes behind are kept |
| `CString.ParseDigits` | src/libc/string.c:35-59 | the text parses back to every value, has digits only and no leading zero, and is empty exactly for 0 |
| `CString.SpaceCodes` | src/libc/string.c:19-32 | white space is the codes 32, 9, 10 and 7 |
| `CString.TenDigits` | src/libc/string.c:35-59 | a 32-bit value has at most ten digits, so the text fits |
| `CString.Itoa` | src/libc/string.c:35-59 | the buffer holds that text |
| `Kprintf.NextDirective` | src/kernel/kernel/kprintf.c:15-20 | the first directive at or after a position, or the end |
| `Kprintf.SearchNextArg` | src/kernel/kernel/kprintf.c:42-91 | finds that directive and its kind |
| `Kprintf.FillContainer` | src/kernel/kernel/kprintf.c:159-185 | the container holds the argument's text, terminated inside its 128 bytes |
| `Kprintf.ArgTextMeans` | src/kernel/kernel/kprintf.c:159-185 | that text: for numbers the digits that parse back, empty for 0; a string itself; the character with code n % 256 |
| `Kprintf.FitsInNumbers` | src/kernel/kernel/kprintf.c:128-129 | strings of up to 127 characters fit the container |
| `Kprintf.LevelNames` | src/kernel/kernel/kprintf.c:103-123 | the five level prefixes |
| `Kprintf.PrintDirective` | src/kernel/kernel/kprintf.c:159-195 | one directive prints its argument and consumes it; `%f` repeats the old text and consumes none |
| `Kprintf.KprintfLevel` | src/kernel/kernel/kprintf.c:126-205 | terminates, emits the level and the rendering of the format, and returns the number of bytes emitted |
| `FormatTemplate.RenderPrints` | src/kernel/kernel/kprintf.c:154-201 | the rendering of a spelled-out template is the template with its directives replaced in order |
| `FormatTemplate.TemplatePrints` | src/kernel/kernel/kprintf.c:126-205 | the same for a whole format string |
| `FormatTemplate.EveryFormatReads` | src/kernel/kernel/kprintf.c:42-91 | every format without NUL is the spelling of a readable template that takes the same arguments |
| `FormatTemplate.EveryFormatPrints` | src/kernel/kernel/kprintf.c:126-205 | so every format prints as its template with the directives replaced in order |

## Assumptions

- `ReadyList::_count` is never initialised in the source (src/kernel/include/kernel/proc/proc.h:129); 0 is
  taken as its starting value.
- Memory allocation inside the containers and for new threads always succeeds.
- Sizes, addresses and page numbers are unbounded numbers with the 32-bit limits written out where they
  matter; queue and counter sizes (`int` in the source) do not overflow.
- EFLAGS behaviour of PUSHF, POPF and ADD follows the Intel SDM, volume 2, at privilege level 0.
- In `Kprintf`, a `%d` directly followed by a literal `u` reads as `%du`, a `%` before an unknown letter reads
  as `%d`, and a `%` before white space or at the end is copied, as in the source.

## Left out

Members whose contracts cover less than the source accepts:

- Paging.PageDirectory.AllocPages: requires a positive count and some run of free pages once full tables are
  skipped. Without one, `possible` still never becomes FALSE (src/kernel/arch/i386/paging.c:223), and the source
  makes further passes that start with the pages collected at the end of the directory (lines 166-169) and may
  count them twice. These passes are not modelled; `Paging.NoRunNoMarking` shows that whatever start in the
  dynamic tables they come up with, marking meets a taken page or walks past the last table.
- HeapBlock.Block.Free: requires a live pointer; freeing NULL or a dead pointer corrupts the source's list.
- ProcTable.ProcEntryTable.Resched: requires that the ready list is not empty when it is popped;
  `SchedulerProofs.RunNeverFaults` shows when that holds.
- ProcTable.ProcEntryTable.Kill: requires the same, and a victim with a stack, which excludes pid 1.
- Kprintf.KprintfLevel: requires string arguments shorter than 128 characters and arguments of the kinds the
  format names, because the source overruns its buffer or misreads its arguments otherwise; with no level
  prefix the first directive must not be `%f`, because the source prints an uninitialised buffer there.
- ContextRuns.CreateStack: takes the stack top as a parameter in place of `getstack`
  (src/kernel/arch/i386/proc/proc_x86.cpp:11-21), and requires an aligned stack with room for the frame that
  does not overlap the arguments.
- ThreadRuns.Spawn: requires the same of the stack, and that it overlaps no other thread's.
- ThreadRuns.StartThread: requires the same.
- ContextSwitch.Cpu.CtxSwitch: requires a stack that does not wrap around address 0. The run results also
  take the cells of saved stack pointers to be word-aligned.
- PriorityQueue.PriorityQueue.constructor: requires a positive size; with `start_size` 0 the first insertion
  would write outside the array.
- UnorderedMap.UnorderedMap.constructor: requires at least one bucket; the source divides by the bucket count.

Parts of the repository that are not modelled:

- `ProcEntryTable::erase` and `setPriority`, which have no callers.
- Fairness among equal priorities: the heap is not stable and the source lists round robin as future work.
- Interrupt masks and the two switch counters of `resched`.
- The code of `kthread_create` on the machine: a creation is the step that leaves a thread set up behind its
  process's cell, which `ThreadRuns.Spawn` proves of `create_stack`.
- `is_correct` and `print` of `priority_queue`; `queue::erase_idx`, `dequeue`, `top` and `find(value)`: easy
  members or debugging aids.
- The per-table layout of the `taken` arrays: here they are one array of 2^20 entries indexed by table and
  slot. The boot tables' own entries are not part of the memory that `PageMap` walks.
- The three padding bytes of a header: they keep their old value here, the source leaves them unspecified.
- The test for a negative size in `allocate` (src/kernel/kernel/mem/allocator.cpp:73-77): the size is unsigned.
  The test of the `taken` byte (lines 53-57) is modelled and proved never to fail on a valid block.
- Serial and frame-buffer targets of `write_gen`, terminal colours, the hardware cursor, `terminal_putc`,
  `memset`: they would only add easy members.
- The scratch copy of the allocator, destructors, GDT, IDT, interrupts, timer, keyboard, boot code and testers.
