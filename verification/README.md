# The kernel's core, proved

This project models the core of a small single-processor i386 kernel and proves what its layers promise each other:

* **list.c** – the doubly linked list with overlaid sentinels, on word-addressed memory (`Lists`).
* **mm.c** – the frame bitmap and its counter (`Bits`, `Frames`), its set-up from the boot memory map (`MemoryMap`),
  the two-level page tables seen through their recursive directory slot (`PageTables`, `Paging`), the access rights in
  their entries (`PageRights`), and the tables the kernel boots with (`PagingBoot`). Paging structures, access rights and translation caching follow sections 4.3, 4.6 and 4.10 of the Intel
  SDM volume 3A; memory map entries follow section 3.3 of the Multiboot Specification 0.6.96.
* **kmalloc.c** – the kernel heap: what the code computes (`HeapSpec`), when that is sound (`HeapSafety`, `HeapMerge`,
  `HeapRuns`), runs on which it is not (`HeapUnsound`), the always sound allocator that it otherwise is (`HeapReference`),
  and the same operations on memory, page tables and frames (`HeapPages`, `HeapMemory`, `KernelHeap`, `HeapMachine`).
* **task.c, timer.c, idt.c** – scheduling, signals, delays and interrupt nesting as steps on one state (`SchedSpec`),
  their invariants over all runs (`SchedSafety`, `SchedRuns`, `SchedOrder`, `SchedTicks`), what each task gets to see of them
  (`SchedEvents`), runs on which they break
  (`SchedUnsound`), the same operations on list nodes in memory (`TaskLists`, `TimerWalk`, `Scheduler`), and those as steps
  of the runs (`SchedMachine`).
* **queue.c** – the bounded message queue over all interleavings of its callers (`QueueSpec`), what its calls make of the
  scheduler (`QueueWalk`, `QueueWakes`), its code on top of the scheduler (`MessageQueue`), and that code as steps of the
  queue's runs (`QueueMachine`).
* **vsprintf.c** – the number formatter, the padding of `%s` and `%c`, and the decimal parser (`FormatSpec`, `Format`).

`dafny verify dfyconfig.toml` checks everything.

## How to read it

The code is modelled as written, including where it is wrong. Where a promised property fails, the project states exactly
when it holds and gives a concrete run or input on which it does not:

* Growing and trimming the heap take the last free chunk for the last chunk of the heap. `HeapRuns.RunSoundIff` says that
  a run is sound exactly while that is so whenever it matters, and `HeapReference.RunSoundIffReference` that it is then,
  and only then, a run of an allocator that checks for it; `HeapRuns.ServeLastFreeIff` names the only way to lose it (a
  32-byte last chunk handed out whole to a 16-byte request), `HeapRuns.RunSoundWhileLastFree` proves all other runs
  sound. `HeapUnsound.UnsoundRun` is a legal run of ten calls whose last one grows a free chunk over a live block, and
  `HeapUnsound.UnsoundTrimmingRun` one of eleven whose last one unmaps a page of live blocks.
* A task that is interrupted inside `wait` can be signalled while it is on the CPU, or switched away from before it is in
  a list. `SchedRuns.RunSafeIff` says that these are the only two ways in which a task can end up in two places or none;
  `SchedUnsound.TickInsideWait` is a run of six steps that ends with a task on the CPU and in the ready list, and
  `SchedUnsound.SwitchInsideWait` one of four steps that ends with a task in no list and off the CPU.
* A task's place tells its state, in the ready list if it is ready and in a wait list if it waits for a signal, in every
  run in which each wait uses one signal bit (`SchedOrder.PlaceTellsStateInRun`). A delivered signal keeps it so exactly
  if the task waited for no other bit (`SchedRuns.DeliveryTellsStateIff`, `SchedUnsound.OneBitArrives`).
* A `signal` that does not return at once changes what a queue call does: called from a task for one of at least its own
  priority, it switches away before the call is over. The call is cut there (outcome `Away`); its rest (`SendOn`,
  `RecvOn`) runs when its caller is dispatched again, with multitasking allowed, and its walk over the blocked senders
  goes on from wherever the woken sender is by then. A walk that is not cut wakes the first sender that waits and no
  other (`QueueWalk.OnlyFirstWoken`); `QueueWakes.ReceiveWakesTwo` is a run from boot with a receive that is cut and wakes
  two, and `QueueWakes.TwoWoken` plays it on the machine.
* `mm_map` links a new page table in before it clears it, so the processor may cache what the frame held before
  (`PageTables.MappedCoherentIff`, `PagingBoot.DirtyTableGoesStale`); the unmapping of page 0 at boot also removes a
  kernel page, because two directory slots share one table (`PagingBoot.UnmapZeroHitsKernelPage`).
* The frame counter agrees with the bitmap after boot exactly if every page that is locked was reported usable
  (`MemoryMap.CounterAgreesIff`, `MemoryMap.UnreportedPagesSpoilTheCounter`). The page loop of boot marks nothing but RAM
  exactly under the condition of `MemoryMap.MarksOnlyItsRamIff`, which the first 639 KiB of a PC do not meet
  (`MemoryMap.LowMemoryMarksTooMuch`), and all of it below 15 MiB exactly under that of `MemoryMap.MarksAllItsRamIff`, which
  4 GiB in one entry do not (`MemoryMap.FourGiBMarksNothing`).
* A request above `MAX_REQUEST` wraps around when doubled: if it is served at all, then with less than was asked for
  (`HeapSafety.CallServedIff`, `HeapSafety.TwoGiBOnFreshHeap`).
* `remove_tail` on an empty list writes through a null pointer (`Lists.RemoveTailWritesThroughNullIff`); the counter of
  free slots keeps `queue_recv` from ever doing that (`QueueSpec.StepKeeps`).

The theorems of `SchedRuns` on contexts, nesting, NEED_SCHEDULE and forbid, those of `SchedEvents` over runs, and
`SchedTicks.WaitReturnsItsSignal` speak of every run of the steps of `SchedSpec`, also past a step that has put a task in two places or none and with waits for
several bits. There the steps are no longer what the code does: taking a task out of no list leaves the lists alone,
where list.c writes through stale links, and a tick ends with the task that it releases, where the walk of timer.c may meet
a ready task that still waits for its delay. What ties the steps to the code (`Scheduler`) holds before such a step
and for one bit per wait.

Conventions. A `panic` is a result value (`None`, `Panic`, `false`), not a precondition. The panics on damaged magic
words inside the allocator are asserted never to happen. `cli`/`sti` mark steps that nothing interrupts. Unsigned 32-bit
arithmetic is written out. The translation caches are modelled by what the processor *may* hold: any current
translation may be cached at any moment, and only `invlpg` removes one. A chunk's memory is kept by virtual address;
that distinct heap pages lie on distinct frames is part of the invariant. Time, port I/O and the boot loader's tables are
parameters. A few predicates are wrapped in a trivially true marker (`Markers.Opened`), which only keeps their definitions
out of proofs that do not need them.

## Model

| member | source | states |
|---|---|---|
| Lists.InsertAt | list.c:12-33 | the four link stores put a fresh node at any position, with forward and backward links agreeing through both sentinels |
| Lists.RemoveAt | list.c:74-77 | two stores through the node's own links take it out of the middle of whatever list it is in |
| Lists.IterationVisits | list.c:85-127 | get_head, get_tail and get_next visit every element once, in order, and end with NULL |
| Lists.RemoveTailWritesThroughNullIff | list.c:59-72 | remove_tail dereferences a null prev exactly on an empty list |
| Lists.SlotKeepsOrder | list.c:129-165 | enqueue keeps a list in descending priority and puts a newcomer behind exactly the not lower ones |
| Lists.Memory.NewList | list.c:79-83 | the three words of an empty list |
| Lists.Memory.AddHead | list.c:12-18 | the list becomes the new node followed by the old list |
| Lists.Memory.AddTail | list.c:27-33 | the list becomes the old list followed by the new node |
| Lists.Memory.Remove | list.c:74-77 | exactly the given node leaves the list; two link words change |
| Lists.Memory.RemoveHead | list.c:42-57 | returns and unlinks the first node, or returns NULL and changes nothing |
| Lists.Memory.RemoveTail | list.c:59-72 | unlinks and returns the last node; on an empty list, and only there, the first store goes through a null pointer |
| Lists.Memory.InsertBefore | kmalloc.c:230-233 | the node is linked in front of the given one |
| Lists.Memory.Enqueue | list.c:129-165 | the walk inserts in front of the first node of lower priority |
| Frames.FrameAllocator.SetPageBit | mm.c:53-62 | the page leaves the free set whatever it was; the counter goes down regardless, wrapping |
| Frames.FrameAllocator.TstPageBit | mm.c:64-71 | true exactly for free pages |
| Frames.FrameAllocator.ClrPageBit | mm.c:73-82 | the page enters the free set; the counter goes up regardless |
| Frames.FrameAllocator.FirstWord | mm.c:106-107 | with a free page anywhere the word search stops in bounds, at the first non-zero word |
| Frames.FirstBit | mm.c:108-112 | the bit search of a non-zero word stops at its lowest set bit |
| Frames.FrameAllocator.PaAlloc | mm.c:99-118 | while the counter equals the number of set bits: panics exactly with nothing free, else returns the lowest free page and takes it, keeping the equality |
| Frames.FrameAllocator.PaFree | mm.c:120-123 | frees a page, idempotently, keeping the counter equal to the number of set bits |
| Frames.LowestFree | mm.c:106-114 | first non-zero word and lowest bit in it are the lowest free page |
| MemoryMap.MarkEntry | mm.c:207-215 | the page loop of one entry frees exactly the pages it marks below 15 MiB |
| MemoryMap.InitFrames | mm.c:196-229 | leaves free exactly the reported pages that are not locked, and the counter agrees exactly if all locked pages were reported |
| MemoryMap.LockKernel | mm.c:222-229 | locks the kernel's pages; the counter falls by their number even where they were not free |
| MemoryMap.MarksOnlyItsRamIff | mm.c:207-215 | when an entry's loop marks nothing outside the entry: no usable RAM, nothing below 15 MiB, or a page-aligned start below 4 GiB and an end on a page boundary or out of the loop's reach |
| MemoryMap.MarksAllItsRamIff | mm.c:207-215 | when an entry's loop leaves out no page of its own RAM below 15 MiB: there is none, the region ends below 4 GiB, or the low half of its end lies behind the last page |
| MemoryMap.FourGiBMarksNothing | mm.c:210 | the bound of an entry of 4 GiB from 1 MiB on wraps to its own start, and no page is marked |
| MemoryMap.LockedIsKernel | mm.c:224-229 | what is locked is page 0 and exactly the pages that hold a byte of the kernel image |
| MemoryMap.LowMemoryMarksTooMuch | mm.c:207-215 | the entry of a PC's low memory marks page 0x9F, which it does not wholly contain |
| MemoryMap.CounterAgreesIff | mm.c:53-62 | locking pages that were not free is what makes the counter disagree |
| MemoryMap.UnreportedPagesSpoilTheCounter | mm.c:222-229 | one reported page and a kernel of two: nothing is free and the counter is 2^32 - 2 |
| PageTables.EntryIs | mm.c:296 | an entry made by or-ing address, flags and present bit is present and leads to the address's frame |
| PageTables.WindowWalks | mm.c:157-158 | through the recursive slot, window d is mapped exactly if slot d is present, and to its page table |
| PageTables.PagePutWalk | mm.c:293-301 | rewriting an entry changes the translation of its page and of pages sharing the entry, and of no other |
| PageTables.PagePutCoherentIff | mm.c:296-301 | the flush makes its own page coherent and leaves the others as they were; a sharing page goes stale exactly if its translation changed |
| PageTables.InstalledWalk | mm.c:286-291 | a fresh zeroed table changes no translation but that of its own window |
| PageTables.InstalledCoherentIff | mm.c:286-291 | which pages of the slot may be cached wrongly because the frame was linked in before it was cleared |
| PageTables.MappedWalk | mm.c:272-304 | after mm_map the page has its new frame; every other page keeps its translation, except those sharing the entry and the new table's window |
| PageTables.MappedCoherentAtIff | mm.c:272-304 | page by page, when every cached translation is current after mm_map |
| PageTables.MappedCoherentIff | mm.c:272-304 | when all cached translations are current after mm_map: no sharing page changed, or the new table's frame held no present entry |
| PageRights.EntryFlags | mm.c:296 | the low twelve bits of an entry written for a page are exactly those of the flags asked for, plus the present bit |
| PageRights.MappedRights | mm.c:272-304 | after mm_map the page has the rights that its entry and its directory entry both give; other pages keep theirs, except those sharing the entry and the new table's window |
| PageRights.MappedAsAsked | mm.c:287-296 | a page is writable and user-accessible exactly as asked, as far as a directory entry already there goes; one made for it goes exactly as far |
| Paging.AddressSpace.GetPhysaddr | mm.c:234-251 | read through the windows, the result is the page walk's: frame plus offset, or NULL |
| Paging.AddressSpace.MmMap | mm.c:272-304 | NULL for a null address, panic exactly when a table is needed and no frame is free, else the mapping, with the flag bits asked for in the page's entry and in a new table's directory entry, and with at most one frame taken, for the table; get_physaddr then gives the address asked for |
| Paging.AddressSpace.MmUnmap | mm.c:306-320 | faults exactly if the directory entry is absent, else the page is unmapped and flushed, get_physaddr gives NULL and nobody has any right to it |
| Paging.MappedLeadsThere | mm.c:234-304 | after mm_map every byte of the page leads to the same byte of the frame |
| Paging.MapThenUnmap | mm.c:272-320 | mapping and unmapping a page leaves every other page as it was, but for those sharing its entry and a new table's window |
| Paging.AddressSpace.MakeTable | mm.c:286-291 | takes the lowest free frame for the table, links it with the flag bits asked for, and clears it through the window, entry by entry |
| Paging.AddressSpace.Release | kmalloc.c:266-268 | look-up, unmapping and freeing together return exactly the page's frame |
| PagingBoot.InitPaging | mm.c:131-158 | the loop and the three stores build the boot tables |
| PagingBoot.BootMap | mm.c:131-168 | what every virtual page translates to after boot, and that nothing stale can be cached |
| PagingBoot.BootEntryFlags | mm.c:146-158 | a boot entry has the present, write and user bits and no other flag |
| PagingBoot.BootRights | mm.c:146-158 | every page mapped at boot is writable and user-accessible, and every other page is not accessible |
| PagingBoot.UnmapZeroHitsKernelPage | mm.c:231 | unmapping page 0 also unmaps the first page of the kernel's range, and may leave that one cached |
| PagingBoot.DirtyTableGoesStale | mm.c:286-291 | a leftover present entry in a new table's frame makes a page go stale |
| HeapSafety.RoundedOk | kmalloc.c:102-103 | rounding is idempotent, adds less than 16, and twice the result fits in 32 bits |
| HeapSafety.ServedIffInRange | kmalloc.c:102-114 | for which requests no chunk of this heap is cut smaller than the request: those up to 0x7FFFFFF0 and those whose doubled size wraps to more than any chunk has |
| HeapSafety.CallServedIff | kmalloc.c:94-212 | a request that is served gets at least what it asked for exactly if it is at most 0x7FFFFFF0 |
| HeapSafety.TwoGiBOnFreshHeap | kmalloc.c:102-114 | a request for 2 GiB on a fresh heap is answered with 4080 bytes |
| HeapSafety.Carving | kmalloc.c:135-173 | block and remainder share the served chunk; it goes out whole exactly if a 16-byte request meets a 32-byte chunk |
| HeapSafety.TakeIs | kmalloc.c:126-176 | insertion and removal together replace the served chunk by its remainder in place |
| HeapSafety.TakeKeepsInv | kmalloc.c:107-182 | serving keeps free and live chunks a tiling of the heap, the block becoming live |
| HeapSafety.GrowSoundIff | kmalloc.c:189-208 | growth by a page is sound exactly if the last free chunk is the heap's last chunk or none is free |
| HeapSafety.GrownTail | kmalloc.c:183-211 | the retries add exactly as many pages as the last free chunk falls short of twice the request |
| HeapSafety.GrownFromNothing | kmalloc.c:183-211 | with nothing free, the pages added: the first yields 4080 bytes, the rest as above |
| HeapSafety.GrownSoundIff | kmalloc.c:183-211 | all growth for a request is sound exactly if it needs none, nothing is free, or the last free chunk is the last chunk |
| HeapSafety.MallocSoundIff | kmalloc.c:94-212 | _kmalloc keeps the heap invariant exactly under that condition |
| HeapSafety.BlockHandedOut | kmalloc.c:94-212 | the block is 16-aligned, at least as large as asked and at most 31 bytes larger, from the lowest chunk of twice the size, clear of all live blocks |
| HeapMerge.InsertKeeps | kmalloc.c:214-235 | insertion keeps the free list in strictly ascending order and adds exactly the chunk |
| HeapMerge.JoinKeeps | kmalloc.c:253-255 | joining two neighbours keeps order and bytes |
| HeapMerge.MergeKeeps | kmalloc.c:237-260 | from any position the recursion leaves no two neighbours unjoined behind it |
| HeapMerge.MergeKeepsBytes | kmalloc.c:237-260 | no byte becomes free or is lost in merging |
| HeapMerge.MergeKeepsInv | kmalloc.c:237-260 | merging keeps the heap invariant |
| HeapMerge.MergeIdempotent | kmalloc.c:237-260 | merging a merged list changes nothing |
| HeapMerge.CoalescedIsCanonical | kmalloc.c:237-260 | there is one coalesced list over given bytes, so the result does not depend on the order of merging |
| HeapRuns.TrimIs | kmalloc.c:262-269 | the loop takes whole pages off the last free chunk until it is no larger than a page |
| HeapRuns.TrimSoundIff | kmalloc.c:262-269 | trimming is sound exactly if there is nothing to trim or the last free chunk is the last chunk |
| HeapRuns.FreeSoundIff | kmalloc.c:64-81 | _kfree leaves a coalesced list with a tail of a page at most, and keeps the invariant exactly if its trimming was sound |
| HeapRuns.ServeKeepsCoalesced | kmalloc.c:94-212 | full coalescing survives every split and growth |
| HeapRuns.ServeLastFreeIff | kmalloc.c:135-173 | the last chunk stays free unless the first chunk that fits a 16-byte request is a last chunk of 32 bytes |
| HeapRuns.StepSoundIff | kmalloc.c:64-212 | for each call, exactly when it keeps the heap sound |
| HeapRuns.RunSoundIff | kmalloc.c:64-270 | over every run of calls: sound throughout exactly if no call grew or trimmed at a tail that was not the last chunk |
| HeapRuns.RunSoundWhileLastFree | kmalloc.c:64-270 | every run that hands out no 32-byte last chunk whole is sound and coalesced throughout |
| HeapRuns.LiveUntilFreed | kmalloc.c:64-212 | over every sound run: a block stays live at its place until it is freed itself, and every block handed out meanwhile is clear of it |
| HeapUnsound.UnsoundRun | kmalloc.c:193-197 | ten legal calls, the last of which grows a free chunk over a live block |
| HeapUnsound.UnsoundTrimmingRun | kmalloc.c:262-269 | eleven legal calls, the last of which trims a page away under live blocks |
| HeapReference.RefRunSound | kmalloc.c:183-269 | an allocator that grows and trims only at a last chunk that is free, and appends a chunk otherwise, is sound over every run |
| HeapReference.StepIsReferenceIff | kmalloc.c:64-212 | from a sound heap, a call of the code is a call of that allocator exactly if it keeps the heap sound |
| HeapReference.RunSoundIffReference | kmalloc.c:64-270 | a run of the code is sound throughout exactly if it is a run of that allocator |
| HeapPages.BackingIsSmall | mm.c:99-118 | distinct frames below 15 MiB: the heap never has more than 3840 pages |
| HeapPages.MapNext | kmalloc.c:189 | mapping the next heap page keeps every heap page on a used frame of its own, coherently |
| HeapPages.UnmapLast | kmalloc.c:266-268 | the same for giving the last page back |
| HeapPages.FramesForIs | mm.c:286-291 | frames taken by a number of pages: one for each, and one for each directory slot on the way that has no table |
| HeapPages.HeapPageRights | kmalloc.c:189 | every heap page is mapped to its frame, writable and user-accessible |
| HeapPages.OthersKeepRights | kmalloc.c:189 | mapping a heap page changes no other page's rights but those of its new table's window |
| HeapPages.PutKeepsRights | kmalloc.c:266-268 | nor does unmapping one, which leaves no right to it |
| HeapPages.PageSupply.MapPage | kmalloc.c:189 | one page more, backed by a frame of its own; free frames, heap pages and page tables together stay constant; fails exactly if the page and the table it may need take more frames than are free |
| HeapPages.PageSupply.UnmapPage | kmalloc.c:265-268 | one page less, its frame free again, the sum constant |
| KernelHeap.KernelHeap.constructor | kmalloc.c:38-42 | an empty heap in memory |
| KernelHeap.KernelHeap.FindPlace | kmalloc.c:214-223 | the walk stops at the place in address order |
| KernelHeap.KernelHeap.InsertChunk | kmalloc.c:214-235 | the chunk is linked at its place; only link words change |
| KernelHeap.KernelHeap.JoinNext | kmalloc.c:253-255 | the stores of a join compute the joined list, and change nothing outside free chunks |
| KernelHeap.KernelHeap.TrimTail | kmalloc.c:262-269 | the loop over tail, heap end, page tables and frames computes the trimmed heap |
| KernelHeap.KernelHeap.MergeHeap | kmalloc.c:237-270 | the recursion with its trimming at every level terminates and computes merge and trim once; the end-of-list NULL never passes for a neighbour |
| KernelHeap.KernelHeap.Kfree | kmalloc.c:64-81 | panics exactly on a damaged magic word, else the heap is what the specification says, page accounting constant, memory outside free chunks and the block untouched |
| KernelHeap.KernelHeap.FindFit | kmalloc.c:107-117 | the walk finds the first chunk of at least twice the request, meeting only intact headers |
| KernelHeap.KernelHeap.SplitChunk | kmalloc.c:142-151 | linking the remainder before resizing the chunk gives both chunks, headers in place |
| KernelHeap.KernelHeap.TakeChunk | kmalloc.c:123-181 | serving from a chunk computes the specified free list and leaves the block's header intact |
| KernelHeap.KernelHeap.GrowHeap | kmalloc.c:188-210 | mapping a page and resizing the tail, or making a first chunk, computes the grown heap |
| KernelHeap.KernelHeap.Kmalloc | kmalloc.c:94-212 | terminates; None exactly if the pages that it adds and the tables they need take more frames than are free, else the specified block and heap, page accounting constant, memory outside free chunks untouched |
| HeapMachine.LiveOutside | kmalloc.c:94-212 | the words of a live block belong to no free chunk |
| HeapMachine.Allocate | kmalloc.c:94-212 | as a step of a run, failing exactly for want of frames: the heap stays sound and every live block keeps every word of header and contents |
| HeapMachine.Release | kmalloc.c:64-81 | likewise for freeing: all other live blocks keep every word |
| HeapMachine.Store | kmalloc.c:94-212 | a block's holder may store to any word behind the header: the heap's state and all other blocks stay as they are |
| HeapMachine.BlockAccessible | kmalloc.c:189 | while the heap is sound, every byte of a live block lies on a page that is mapped, writable and user-accessible |
| SchedSafety.EnqueueLists | list.c:129-165 | a task enters exactly the one list |
| SchedSafety.RemoveLists | list.c:74-77 | a task leaves whatever list it is in, and no other task moves |
| SchedSafety.SignalIff | task.c:136-151 | a signal keeps every task in one place exactly if it is not delivered to the task on the CPU |
| SchedSafety.TickIff | timer.c:17-35 | a tick does so exactly if it does not release the task on the CPU |
| SchedSafety.ExitIff | task.c:63-117 | the end of a handler does so exactly if it does not switch while wait_lock is held |
| SchedSafety.SwitchUnderLockLoses | task.c:123-130 | a task switched away from between wait_lock++ and its queueing is in no list and off the CPU afterwards |
| SchedSafety.StepSafeIff | task.c:16-168 | for every step: exactly when it keeps every task in one place, the ready list for ready tasks and one wait list for blocked ones |
| SchedRuns.RunSafeIff | task.c:16-168 | over every run: one place per task throughout exactly if no step signalled the task on the CPU or switched under wait_lock |
| SchedRuns.RunSafeWhenWaitAtomic | task.c:119-134 | with wait uninterrupted and one signal bit per wait, every run is safe |
| SchedRuns.StepOneBit | task.c:124-142 | ready tasks wait for nothing and every blocked one for exactly one bit, if every wait uses one bit |
| SchedRuns.PlaceTellsState | task.c:119-151 | off the CPU, a task is in the ready list exactly if it is ready, and in a wait list exactly if sigs_waiting is nonzero |
| SchedRuns.DeliveryTellsStateIff | task.c:138-145 | a delivered signal leaves that true exactly if the task waited for no other bit |
| SchedRuns.StepContext | task.c:86-116 | a step changes a task's register context only if it is that task computing |
| SchedRuns.ContextKept | task.c:86-116 | over every run: a task is dispatched with the registers it was switched out with, or given at creation |
| SchedRuns.NestedYield | task.c:154-161 | a yield inside a handler is a nested system call that sets the flags and returns without a switch |
| SchedRuns.SwitchOnlyOutermost | task.c:63-77 | the running task changes only at the end of an outermost handler with forbid_counter 0, or out of the idle loop |
| SchedRuns.NeedClearedOnlyBySwitch | task.c:72 | NEED_SCHEDULE is cleared only where a switch follows |
| SchedRuns.NeedNeverLost | idt.c:144-149 | over every run: a raised NEED_SCHEDULE stays until an outermost handler ends with multitasking allowed |
| SchedRuns.ForbidHoldsTheCpu | task.c:16-23 | over every run: between a forbid() and its permit(), without a yield, the same task keeps the CPU |
| SchedRuns.ReenterIsDepth | idt.c:134-191 | over every run: k_reenter is the number of handlers entered and not ended, minus one |
| SchedUnsound.TickInsideWait | task.c:128-131 | six steps, with a tick between queueing and yield, after which a task is on the CPU and in the ready list |
| SchedUnsound.SwitchInsideWait | task.c:127-128 | four steps, with a yield in an interrupt between wait_lock++ and enqueue, after which a blocked task is in no list and off the CPU |
| SchedUnsound.OneBitArrives | task.c:138-145 | six steps after which a task that waited for two bits is in the ready list and still waits |
| SchedOrder.StepSorted | list.c:129-165 | every step keeps all task lists in descending priority |
| SchedOrder.HighestDispatched | task.c:94-116 | no ready task has a higher priority than the one that a switch puts on the CPU |
| SchedOrder.StepRank | task.c:73-113 | unless somebody of strictly higher priority becomes ready, a ready task keeps its place and moves up by one at each switch |
| SchedOrder.DispatchedInTurn | task.c:73-113 | over every run: a task at place n of the ready list is on the CPU within n + 1 switches, under that condition |
| SchedOrder.RunGood | task.c:16-168 | with one bit per wait, every run keeps one place per task and sorted lists for as long as no step signals the task on the CPU or switches under wait_lock, wherever interrupts strike |
| SchedOrder.PlaceTellsStateInRun | task.c:119-151 | over every such run: off the CPU, in the ready list exactly if ready, in a wait list exactly if waiting for a signal |
| SchedOrder.RunGoodWhenWaitAtomic | task.c:119-134 | which no step does as long as wait is uninterrupted |
| SchedTicks.DelaySleeps | task.c:163-168 | delay(n) puts the task to sleep with n ticks to go, or 2^32 for n = 0 |
| SchedTicks.TickReleasesOne | timer.c:22-32 | a tick makes at most one task ready: the first in tasks_wait whose delay runs out |
| SchedTicks.SkippedTickIff | timer.c:22-32 | a tick passes a sleeping task by exactly if wait_lock is held or a task further ahead is released |
| SchedTicks.StepSleep | timer.c:22-32 | a sleeper's count falls by one at each tick that reaches it and at nothing else |
| SchedTicks.NeverEarly | timer.c:17-35 | over every run: no task wakes before as many ticks as it asked for |
| SchedTicks.LateByTheSkipped | timer.c:17-35 | over every run: it is ready after exactly as many ticks as it asked for plus those that passed it by |
| SchedTicks.WaitReturnsItsSignal | task.c:119-134 | once a task that waited for a bit is ready again, the mask that wait returns has that bit |
| SchedEvents.StepNeed | task.c:72 | NEED_SCHEDULE is up after a step exactly if it was up or the step asked for a switch, and the step is no switch |
| SchedEvents.ExitDoes | idt.c:144-151 | a handler's end switches, with the flag down, exactly if it is the outermost, the flag is up and multitasking allowed; otherwise it only leaves its level |
| SchedEvents.NeverSwitchedUnasked | task.c:63-77 | over every run: between two switches there was a tick, a yield, or a signal to a task of no lower priority |
| SchedEvents.IdleIff | task.c:94-109 | a switch goes idle exactly if no task is ready |
| SchedEvents.RunFlagTells | task.c:86-114 | over every run: exactly the task on the CPU has TS_RUN |
| SchedEvents.StepTask | task.c:119-168 | what each step does to each task: readiness, waiting and received signals, delay and priority, whichever task and step |
| SchedEvents.MaskIsWhatWasDelivered | task.c:124-142 | over every run: the mask that wait returns is exactly the union of what was delivered since that wait |
| SchedEvents.WaitReturnsExactly | task.c:119-134 | over every run with one bit per wait and single-bit signals: a task that waited for b gets exactly b |
| SchedEvents.CreatedReady | task.c:35-48 | a new task is ready, in the ready list, with its priority and nothing pending, and no other task changes |
| SchedEvents.FirstRegsAre | task.c:37-41 | entry point, ring 3 selectors, interrupts enabled, zeroed general registers; the stack pointer is one past the stack exactly if that lies below 4 GiB |
| SchedEvents.FirstDispatch | task.c:37-41 | over every run: those are the registers with which a created task first gets the CPU |
| TaskLists.ListChanged | list.c:74-83 | list operations on one list of tasks leave every other list and all priorities in memory alone |
| TimerWalk.WholeWalk | timer.c:22-34 | the walk, continued in the ready list after a release, adds up to one tick |
| Scheduler.Scheduler.constructor | kernel_main.c:83-91 | the kernel task on the CPU, both lists empty |
| Scheduler.Scheduler.CreateTask | task.c:25-51 | the new task is ready, in its place, with its first register context (SchedEvents.FirstRegsAre says which) |
| Scheduler.Scheduler.WaitMark | task.c:119-127 | wait up to wait_lock++, doing nothing for an empty mask |
| Scheduler.Scheduler.WaitQueue | task.c:128-130 | the blocked task is queued by priority, wait_lock released |
| Scheduler.Scheduler.Signal | task.c:136-151 | a task waiting for one of the bits moves from wherever it is to the ready list; a yield follows unless its priority is lower |
| Scheduler.Scheduler.Schedule | task.c:63-77 | declines under forbid or re-entry, else clears the flag and queues a ready running task |
| Scheduler.Scheduler.SwitchTasks | task.c:81-117 | saves the context, and dispatches the head of the ready list or goes idle |
| Scheduler.Scheduler.HandlerEntry | idt.c:136 | one more level of nesting |
| Scheduler.Scheduler.HandlerEnd | idt.c:144-151 | the end of both handlers |
| Scheduler.Scheduler.Resume | task.c:94-117 | the way out of the idle loop |
| Scheduler.Scheduler.SetDelay | task.c:163-166 | the running task's delay |
| Scheduler.Scheduler.WalkOn | timer.c:25-31 | one round of the walk, wherever the visited task's node is by then |
| Scheduler.Scheduler.TimerCallback | timer.c:17-35 | the loop over intrusive links, moving nodes while it walks, computes one tick |
| SchedMachine.Perform | task.c:16-168 | every operation on the machine is a step of the specification, and keeps every task in one place with at most one bit awaited, under its guard |
| SchedMachine.AtBoot | kernel_main.c:83-91 | a new scheduler is at the beginning of a run |
| SchedMachine.Continue | task.c:16-168 | every guarded operation of the machine takes it one step further along its run |
| QueueSpec.StepKeeps | queue.c:34-133 | every step keeps free_slots plus stored messages equal to the capacity and the history in order; free_slots alone tells full and empty |
| QueueSpec.StepTotal | queue.c:34-133 | every call can be made in every state |
| QueueSpec.Fifo | queue.c:34-133 | over every interleaving, with blocked calls looking again: capacity never exceeded, and what was received is a prefix of what was sent |
| QueueSpec.SentIsWhatCallsPutIn | queue.c:34-92 | each successful send puts its message in exactly once |
| QueueSpec.WaitsSince | queue.c:67-89 | over every run: a waiting call is the one that its task blocked with, message and all, and has waited ever since |
| QueueSpec.WaitsUntilServed | queue.c:67-130 | a call waits until exactly its own next look that finds room or a message |
| QueueSpec.BytesArrive | queue.c:34-133 | over every run: the i-th receive fills its buffer with the bytes given to the i-th successful send, or leaves it alone if there were none |
| MessageQueue.MessageQueue.constructor | queue.c:8-25 | an empty queue owned by the running task |
| MessageQueue.MessageQueue.AddMessage | queue.c:41-59 | the message is put in front with its own copy of the data |
| MessageQueue.MessageQueue.TakeMessage | queue.c:100-106 | the oldest message is unlinked and copied out |
| MessageQueue.MessageQueue.QueueSend | queue.c:34-92 | sends exactly if there is room, telling the owner of the first message, and is cut exactly if that switches to the owner; else fails, without permit(), or waits with the senders |
| MessageQueue.MessageQueue.SendOn | queue.c:62-63 | what a send that was switched out still does |
| MessageQueue.MessageQueue.SendAgain | queue.c:67-90 | a woken sender looks again; its message is not announced |
| MessageQueue.MessageQueue.QueueRecv | queue.c:94-132 | receives exactly if there is a message, waking a sender if the queue was full, and is cut exactly if that switches to the sender; else fails or waits in tasks_wait |
| MessageQueue.MessageQueue.RecvOn | queue.c:107-114 | a receive that was switched out goes on behind the woken sender, in whatever list that is in |
| MessageQueue.MessageQueue.RecvAgain | queue.c:117-130 | a woken receiver looks again; it wakes no sender |
| MessageQueue.MessageQueue.WakeFrom | queue.c:107-111 | from any place of any list, the walk wakes the first task that waits for the queue, and is cut there exactly if the signal switches away |
| QueueWalk.OnlyFirstWoken | queue.c:107-111 | the walk leaves every other task where and as it is |
| QueueWalk.SendWakesOwner | queue.c:59-61 | a send makes its owner ready exactly if its message is the first and the owner waits for one, and changes no other task |
| QueueWalk.RecvWakesSender | queue.c:107-113 | a receive makes the first blocked sender ready exactly if the queue was full, and changes no other task |
| QueueWalk.BlockedCallWaits | task.c:119-131 | a blocked call's task is in its list alone, waiting for TB_QUEUE and nothing else, with nothing received and a switch asked for and allowed |
| QueueWalk.CallerSwitchedOut | task.c:146-147 | the switch that cuts a walk takes the caller off the CPU and leaves it ready |
| QueueWalk.OthersInLists | queue.c:110 | a caller dispatched again finds every other task in some list, the woken one included, so that its walk goes on in a list |
| QueueWalk.SendLeads | queue.c:34-64 | what a send that finds room does to the scheduler is a forbid(), at most one signal, and a permit() unless it is cut: guarded steps of a run |
| QueueWalk.RecvLeads | queue.c:94-114 | the same for a receive that finds a message |
| QueueWalk.WaitLeads | queue.c:67-69 | the wait of a blocked call is four guarded steps of a run |
| QueueWakes.ReceiveWakesTwo | queue.c:107-111 | a run from boot, every guard holding, with a receive whose walk, resumed behind a sender that has blocked again, signals a second sender |
| QueueWakes.SlotGoesRound | queue.c:34-133 | the calls on the queue in that run: the slot is full at the receive, and full again when the second signal comes |
| QueueWakes.TwoWoken | queue.c:94-114 | the receive and what follows it, call by call on the machine |
| QueueMachine.CallSend | queue.c:34-92 | queue_send is a step of the queue's runs |
| QueueMachine.RetrySend | queue.c:67-90 | so is a woken sender's second look, with the message that it was blocked with |
| QueueMachine.CallRecv | queue.c:94-132 | queue_recv is a step, and hands out the oldest message sent and not yet received |
| QueueMachine.RetryRecv | queue.c:117-130 | so is a woken receiver's second look |
| QueueMachine.EndSend | queue.c:62-63 | the rest of a send that was switched out leaves the queue as it is |
| QueueMachine.EndRecv | queue.c:107-114 | so does the rest of a receive |
| QueueMachine.Meanwhile | task.c:16-168 | and every guarded operation of the scheduler between the calls |
| FormatSpec.NumeralReadsBack | vsprintf.c:56-60 | the digits read back as the value in their base, without leading zeros |
| FormatSpec.AtMost32Digits | vsprintf.c:42-60 | no 32-bit value needs more than 32 of tmp's 36 places, in any base |
| FormatSpec.FieldWidth | vsprintf.c:52-85 | the field is as wide as asked, or as sign, prefix and the longer of digits and precision need |
| FormatSpec.FiguresLayout | vsprintf.c:56-61 | the figures are the numeral in upper or lower case, with leading zeros up to the precision and no further |
| FormatSpec.FieldLayout | vsprintf.c:43-84 | where everything stands: sign, prefix, figures, and padding that is zeros between prefix and figures, or spaces behind or in front |
| FormatSpec.FieldSaysTheNumber | vsprintf.c:47-84 | for every width, precision and flags: read back, without padding and prefix, the field gives the argument's sign and magnitude, the most negative value included |
| FormatSpec.PrintThenParse | vsprintf.c:13-20 | a plain decimal number is read back to its end, and as itself exactly below 2^31 |
| Format.Pad | vsprintf.c:63-65 | a padding loop writes as many characters as are left and leaves the count negative if there were any |
| Format.ToDigits | vsprintf.c:56-60 | the division loop leaves the numeral in tmp, last digit first |
| Format.Number | vsprintf.c:35-85 | writes exactly the field at str and nothing else; refuses exactly the bases outside 2 to 36 |
| Format.StringLayout | vsprintf.c:164-179 | a string field is the shown part of the string and spaces, on the side and of the number asked for |
| Format.PutString | vsprintf.c:164-179 | writes the whole string if the precision is negative or no less than its length, else its first `precision` characters, padded to the width on the right side |
| Format.PutChar | vsprintf.c:155-162 | the same for one character |
| Format.SkipAtoi | vsprintf.c:13-20 | stops at the first character that is no digit, with the value of the digits as an int |

## Left out

- Frames.FrameAllocator.SetPageBit: addresses from 15 MiB on are excluded; the source would index past the bitmap.
- Frames.FrameAllocator.TstPageBit: the same.
- Frames.FrameAllocator.ClrPageBit: the same.
- MemoryMap.LockKernel: a kernel that ends above 15 MiB is excluded, for the same reason.
- MemoryMap.InitFrames: the same.
- Frames.FrameAllocator.PaFree: addresses from 15 MiB on are excluded; the source would write past the bitmap, and no caller passes one.
- KernelHeap.KernelHeap.Kmalloc: requests of 0 bytes (for which the sizes underflow) and above 0x7FFFFFF0 are excluded; HeapSafety.CallServedIff says what happens to the latter.
- KernelHeap.KernelHeap.Kfree: only for pointers to a block clear of the free list; after any other pointer with an intact magic word nothing is promised by the source.
- KernelHeap.KernelHeap.GrowHeap: a fresh page's contents are taken as unknown, and memory is indexed by virtual address, so that a page freed and mapped again does not show its old contents.
- Paging.AddressSpace.MmUnmap: not for pages inside the recursive slot, as for MmMap.
- Paging.AddressSpace.MmMap: not for pages inside the recursive slot, where the store would edit a page table.
- Scheduler.Scheduler.CreateTask: the node and the stack come as parameters; that kmalloc provides them is HeapMachine.Allocate.
- Scheduler.Scheduler.SwitchTasks: the idle loop is split into going idle and Resume, with interrupts as steps in between.
- Scheduler.Scheduler.WaitQueue: the running task must not have been put in the ready list by a signal that interrupted its wait; enqueue would corrupt that list.
- Scheduler.Scheduler.Signal: a task that a signal concerns must be in some list; remove follows stale links otherwise (SchedUnsound.SwitchInsideWait).
- Scheduler.Scheduler.Schedule: a running task that is ready must not be in a list, as for HandlerEnd.
- Scheduler.Scheduler.HandlerEnd: a running task that is ready must not be in a list, since enqueue would corrupt it; SchedUnsound.TickInsideWait shows the run that violates this.
- Scheduler.Scheduler.TimerCallback: for one signal bit per wait, as all callers use; it does not count system_tick.
- MessageQueue.MessageQueue.QueueSend: message nodes come as parameters and lie apart from task nodes; kmalloc never returns NULL (it panics), so the NULL branches are not modelled; a handler that has interrupted the owner's own wait must not announce a message to it (SchedSafety.SignalIff).
- MessageQueue.MessageQueue.QueueRecv: that a blocked call is ever woken is not claimed, since the slow paths signal nobody; a handler that has interrupted the wait of the sender to be woken must not receive from a full queue (SchedSafety.SignalIff).
- QueueMachine.CallSend: as for QueueSend.
- QueueMachine.CallRecv: as for QueueRecv.
- Format.Number: widths and precisions are unbounded integers.
- Format.SkipAtoi: the digits' value is taken modulo 2^32; in C a longer number is undefined behaviour.
- Tasks interrupted in the middle of a list operation: steps are atomic between the points listed in SchedSpec, as the code's forbid() intends but does not enforce.
- The format parser of vsprintf around these loops, and full ISO C conformance (section 7.19.6.1 of C99), where the code differs.
- clone_actual_directory: it maps every copied table over the directory's own window, so that no meaning is left to prove.
- get_prev: it returns `next`; nobody calls it.
- destroy_task and destroy_queue: they assume list membership and the absence of waiters, which nothing establishes.
- Port I/O, descriptor tables, assembly stubs, boot code, console, keyboard, device registry and string helpers: hardware effects or easy members.
