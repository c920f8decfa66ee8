# ChCore: a model of the kernel's memory, scheduling, capability and file logic

ChCore is a microkernel for AArch64. This project models the parts of it whose
correctness is hardest to see from the code, and proves what they promise:

- the **buddy allocator** (`Blocks`, `BuddyState`, `BuddySteps`, `Buddy`, `BuddyRuns`): pages are
  absolute frame numbers, a block of order k is the set of frames that agree on all but the k lowest bits, and
  the pool may begin and end anywhere;
- **kmalloc and the slabs** on top of it (`Slab`, `Kmalloc`);
- the four-level **page table** with 4K, 2M and 1G entries (`PageTableState`, `PageTableSteps`, `PageTableNeeds`,
  `PageTable`), with the descriptor layout of VMSAv8-64, section D5.3 of ARM DDI 0487;
- **demand paging** over regions and memory objects (`DemandPaging`), and the same as code on top of that heap and those
  page tables, whose own pages come from that heap too (`FaultHandler`);
- the **scheduler, semaphores and IPC migration** as one step machine, every kernel entry being one step under the
  big kernel lock (`Scheduler`, `SchedulerPlaces`, `SchedulerSteps`, `SchedulerRuns`, `SchedulerWaiting`,
  `SemaphoreRuns`), runs from start-up that the results apply to (`SchedulerWitness`), the round-robin policy on plain
  lists and its proof (`SchedulerExact`), and the machine as code that updates the kernel's tables (`Kernel`);
- the user-level **bounded buffer** as an interleaving of single memory accesses (`BoundedBuffer`,
  `BoundedBufferSafety`, `BoundedBufferRuns`, `BoundedBufferProgress`), also under a fair scheduler
  (`BoundedBufferFairness`) and on the semaphores of that kernel (`BufferOnKernel`);
- **capabilities**: reference counts, rings of slots, revocation (`Capability`, `CapabilityRuns`), the two-level **slot
  bitmap** (`SlotTable`), and the operations as code on such slot tables (`CapGroups`);
- the **ticket lock** at the level of load-exclusive and store-exclusive (`TicketLock`);
- the intrusive **list ring** (`ListRing`), the **radix trees** of the kernel and of the file system library (`RadixTree`,
  `Radix`, `RadixWalk`, `RadixScan`), and the paged **files of tmpfs** on such a tree (`PagedFile`).

`Common` holds what they share. Code that updates tables in place is a class or a method with loops; what it does is
stated by a function on the state as a value, and lemmas about that function state what holds over all runs. Protocols
between CPUs or threads are transition systems, and a run is any sequence of their steps.

Where the code and its intent differ, the model follows the code:

- `tfs_file_write` sets the file size from the byte count, not from the end of the range. `PagedFile.SizeIsEnd` says
  exactly when the two agree, `PagedFile.AppendForgotten` gives an input where they do not.
- `tfs_mknod` gives a new file a size and no pages, and `tfs_file_read` copies from pages that do not exist.
  `PagedFile.NewFileRead` shows that for every new file; `PagedFile.AllReadsSafe` says that all reads are safe exactly if
  all pages below the size exist, and writes keep that (`PagedFile.Inode.Write`).
- `tfs_file_read` compares a 64-bit sum with the size. `PagedFile.LengthExact` says exactly when it cuts a read off where
  the file ends, `PagedFile.NotCutOff` gives a read for which it does not.
- `check_vmr_intersect` compares the last byte of the new region with `<=`, and skips empty regions.
  `DemandPaging.CollidesExact` says exactly for which pairs of regions it is right, `DemandPaging.OneByteMissed` gives a
  pair for which it is not; for regions of whole pages it is right (`DemandPaging.CollidesAligned`).
- `fill_page_table` maps the whole memory object, however short the region is. `DemandPaging.AddRegionExact` says exactly
  when mapping keeps the spaces coherent, `DemandPaging.SpillSeen` gives a mapping that does not, and
  `DemandPaging.WholeIsHarmless` says that regions as long as their object are harmless.
- `rr_sched` compares the state of an exiting thread with TS_EXIT instead of assigning it, so an exiting thread keeps its
  state; what holds is that from the call on it is never current or queued again (`SchedulerRuns.LeaveForever`).
- A huge mapping drops the table below an entry that it overwrites. `PageTable.PageTable.MapRangeHuge` says exactly when
  table pages get lost that way, `PageTable.PageTable.FreePageTable` that everything is given back if and only if none
  was, and `PageTable.LostTable` makes one get lost.
- The descent loop of the 4K mapper looks at the last step only. Where a 2M entry is in the way it stops the kernel; where
  a 1G entry is, it goes on in the memory that is mapped there. `PageTable.PageTable.LevelTwo` says exactly when it gets to
  the table of level 2, `PageTable.BlockTakenForTable` gives a page table where it gets to a page that is no table.
- The search of `buddy_get_pages` admits the index BUDDY_MAX_ORDER, one past the end of the free lists.
  `Buddy.SearchLeaves` says exactly when the search gets there, `Buddy.FullPoolLooksPast` gives a pool where it does.
  `Buddy.Pool.GetPages` stops the search at the last list.
- `radix_free` of the library says that it frees the nodes, and frees none; that of the kernel frees each once
  (`RadixWalk.Free`).
- `__radix_scan` computes the mask for the start in the width of int, and shifts it by up to 63 bits, which C leaves
  undefined; `RadixScan` takes the shift count modulo 32, as AArch64 does. `RadixScan.IndexExact` says exactly for which
  starts the scan begins at the right words, `RadixScan.ScanExact` that it is right from those, and
  `RadixScan.MeetsBefore` that from another it meets a key before its start.

What the model takes from its surroundings: a thread's affinity is NO_AFF or a CPU; a connection is called by one client
at a time (the client library holds `ipc_lock`, libchcore/src/ipc/ipc.c:92 and :154); `obj_put` is called only for
references that `obj_get` returned.

## Model

| member | source | states |
|---|---|---|
| Buddy.Pool.constructor | kernel/mm/buddy.c:38-75 | freeing every page of a pool in turn leaves a valid pool in which every frame is free |
| Buddy.Pool.GetBuddyChunk | kernel/mm/buddy.c:77-103 | flipping one bit of the chunk's address gives the head of the sibling block, or none if that lies outside the pool |
| Buddy.Pool.SplitPage | kernel/mm/buddy.c:105-136 | splitting down to an order keeps the same frames free and leaves the given head free at that order |
| Buddy.Pool.GetPages | kernel/mm/buddy.c:138-159 | fails if and only if the order is unsupported or no aligned run of that size is free; otherwise takes one aligned free run and changes no other frame |
| Buddy.Pool.MergePage | kernel/mm/buddy.c:161-187 | merges until the chunk has the top order or its sibling is not a free chunk of the same order, keeping the same frames free |
| Buddy.Pool.FindPartner | kernel/mm/buddy.c:170-178 | the sibling if it is a free chunk of the same order and the top order is not reached, else that the chunk cannot grow |
| Buddy.Pool.FreePages | kernel/mm/buddy.c:189-210 | frees exactly the chunk, keeps the pool valid and coalesced |
| Buddy.Pool.SetPages | kernel/mm/buddy.c:223-237 | writes order and flag of exactly the 2^order pages |
| Buddy.Pool.SplitInHalf | kernel/mm/buddy.c:113-133 | one round of the split: both halves are free chunks of the lower order |
| Buddy.Pool.MergeWith | kernel/mm/buddy.c:168-184 | one round of the merge: the lower of the two becomes a free chunk of the higher order |
| Buddy.Pool.Remove | kernel/mm/buddy.c:179-180 | takes a chunk off its list and off the count |
| Buddy.Pool.Add | kernel/mm/buddy.c:207-208 | puts a chunk at the front of its list and counts it |
| Buddy.Pool.FreeMemSize | kernel/mm/buddy.c:274-294 | the counters add up to the number of free frames times the page size |
| Buddy.SearchLeaves | kernel/mm/buddy.c:145-157 | the search looks past the last list if and only if the order is BUDDY_MAX_ORDER, or is supported and no aligned free run of the size exists |
| Buddy.FullPoolLooksPast | kernel/mm/buddy.c:145-157 | a pool in which all pages are used and a request that makes the search look past the lists |
| BuddyState.RunInChunk | kernel/mm/buddy.c:138-159 | in a coalesced pool every aligned free run lies inside one free chunk of at least its size |
| BuddyState.Canonical | kernel/mm/buddy.c:161-210 | a block is a free chunk if and only if it is a maximal aligned free run, so free chunks depend on the free frames alone |
| BuddyState.SameFramesSameLists | kernel/mm/buddy.c:161-210 | two valid states with the same free frames have the same free lists up to order |
| BuddySteps.SplitOnceLoose | kernel/mm/buddy.c:105-136 | one split keeps the invariant, but for the chunk being cut |
| BuddySteps.MergeOnceLoose | kernel/mm/buddy.c:161-187 | one merge keeps the invariant, but for the chunk being grown |
| BuddySteps.TakeValid | kernel/mm/buddy.c:138-159 | taking the cut chunk off its list leaves a valid pool |
| BuddySteps.EnlistValid | kernel/mm/buddy.c:189-210 | putting a chunk that cannot grow on its list leaves a valid pool |
| BuddySteps.MarkFreeLoose | kernel/mm/buddy.c:189-205 | marking a used chunk free leaves a pool that is valid but for that chunk, and frees exactly its frames |
| BuddyRuns.RunInvariant | kernel/mm/buddy.c:138-210 | in every run the used chunks are the ones handed out and not given back, and free frames plus held frames are the pool |
| BuddyRuns.StepChunks | kernel/mm/buddy.c:138-210 | which chunks are in use after a request, a refusal and a release |
| BuddyRuns.FreeByLedger | kernel/mm/buddy.c:138-210 | in every run a frame is free if and only if it is in the pool and in no chunk that is out |
| BuddyRuns.OutstandingDisjoint | kernel/mm/buddy.c:138-210 | in every run chunks that are out do not overlap |
| BuddyRuns.NewChunkDisjoint | kernel/mm/buddy.c:138-159 | a chunk that is handed out overlaps none that is out |
| BuddyRuns.LedgerDeterminesLists | kernel/mm/buddy.c:161-210 | runs that leave the same chunks out leave the same free lists up to order, in whatever order chunks were freed |
| BuddyRuns.RoundTrip | kernel/mm/buddy.c:138-210 | freeing the chunk just allocated restores the free lists up to order |
| BuddyRuns.Request | kernel/mm/buddy.c:138-159 | a call of buddy_get_pages is a step of such a run |
| BuddyRuns.Return | kernel/mm/buddy.c:189-210 | so is a call of buddy_free_pages for a chunk that is out |
| BuddyRuns.Drive | kernel/mm/buddy.c:138-210 | whatever a client of a new pool asks for and gives back, the calls make a run |
| Slab.BlocksDisjoint | kernel/mm/kmalloc.c:47-106 | no byte belongs to two blocks that are out, whichever allocator they came from |
| Slab.HeadersDisjoint | kernel/mm/slab.c:71-99 | no byte of a block belongs to a slab header |
| Slab.SlotsConserved | kernel/mm/slab.c:71-183 | free plus issued slots of a slab are 2M / object size - 1 |
| Slab.AddSlabGood | kernel/mm/slab.c:44-99 | a new slab on fresh pages keeps the heap right |
| Slab.PopGood | kernel/mm/slab.c:101-132 | taking the first free slot keeps the heap right, and the slot was not out |
| Slab.PushGood | kernel/mm/slab.c:170-183 | the page of a slot leads to its slab, and putting the slot back keeps the heap right |
| Slab.AddPagesGood | kernel/mm/kmalloc.c:89-106 | handing out whole pages keeps the heap right |
| Slab.DropPagesGood | kernel/mm/kmalloc.c:77-87 | the page of a block of pages has no slab pointer, and giving it back keeps the heap right |
| Slab.ClaimsRun | kernel/mm/buddy.c:138-159 | what the buddy allocator promises on a request, as the slabs need it |
| Slab.ReleasesRun | kernel/mm/buddy.c:189-210 | and on a release |
| Kmalloc.SizeToOrder | kernel/mm/slab.c:24-37 | the least order whose power of two is at least the size |
| Kmalloc.SizeToPageOrder | kernel/mm/kmalloc.c:26-45 | the least order of pages that holds the size |
| Kmalloc.OrderFor | kernel/mm/slab.c:24-37 | the least order from a lower bound on that is large enough |
| Kmalloc.KernelHeap.InitSlabCache | kernel/mm/slab.c:71-99 | adds one slab with all slots but the first free, or finds no 2M run |
| Kmalloc.KernelHeap.FillSlab | kernel/mm/slab.c:62-98 | sets the slab pointer of all 512 pages and chains the slots in order |
| Kmalloc.KernelHeap.AllocInSlab | kernel/mm/slab.c:101-168 | returns a slot of the object order that was not out; fails if and only if no slab of the order has a free slot and no run of 2M is free |
| Kmalloc.KernelHeap.InitSlab | kernel/mm/slab.c:146-155 | one slab for each order, all of whose slots are free, or no run of 2M is left |
| Kmalloc.KernelHeap.TakeSlot | kernel/mm/slab.c:117-131 | takes the first free slot of a slab, which was not out |
| Kmalloc.KernelHeap.Kmalloc | kernel/mm/kmalloc.c:47-61 | returns a block of at least the size that was not out, and keeps all others; fails if and only if there is nothing left for the size |
| Kmalloc.KernelHeap.AllocPages | kernel/mm/kmalloc.c:89-106 | returns pages if and only if an aligned free run exists, and makes exactly these frames unavailable |
| Kmalloc.NoRunOfOne | kernel/mm/buddy.c:138-159 | a single page can be had if and only if a frame is free |
| Kmalloc.ClaimedFrames | kernel/mm/buddy.c:138-159 | a request takes free frames only, and leaves all others as they are |
| Kmalloc.KernelHeap.Kfree | kernel/mm/kmalloc.c:77-87 | gives the block back to the allocator that issued it, and changes nothing at the other |
| Kmalloc.KernelHeap.FreeBlock | kernel/mm/kmalloc.c:82-85 | gives whole pages back to the buddy allocator |
| PageTable.PageTable.constructor | kernel/mm/vmregion.c:531-533 | an empty root table translates nothing |
| PageTable.PageTable.LookupPtp | kernel/arch/aarch64/mm/page_table.c:109-168 | without allocation: kind and frame of the next table |
| PageTable.PageTable.GetNextPtp | kernel/arch/aarch64/mm/page_table.c:109-168 | with allocation: the next table is there, with a page from the allocator exactly if the entry was invalid, and no translation changed; a block changes nothing and yields its own address |
| PageTable.PageTable.Descend | kernel/arch/aarch64/mm/page_table.c:291-300 | the descent with allocation reaches the table of an address, adds exactly the tables that were missing on the way, one page each, and changes no translation |
| PageTable.PageTable.DescendNext | kernel/arch/aarch64/mm/page_table.c:296-300 | one round of it |
| PageTable.PageTable.DescendOne | kernel/arch/aarch64/mm/page_table.c:109-168 | one level down: a page is taken exactly if the table is missing |
| PageTable.PageTable.LevelTwo | kernel/arch/aarch64/mm/page_table.c:291-300 | the descent of the 4K mapper gets to the table of level 2 if and only if no block is in the way; below a block it gets to a page of the memory that the address is translated to |
| PageTable.BlockTakenForTable | kernel/arch/aarch64/mm/page_table.c:277-312 | a page table in which that page is none of its tables |
| PageTable.PageTable.TablesFor | kernel/arch/aarch64/mm/page_table.c:109-168 | how many tables are missing on the way to a 4K entry |
| PageTable.PageTable.AddFrame | kernel/arch/aarch64/mm/page_table.c:145-156 | a further frame for tables keeps the table in order |
| PageTable.LacksBelow | kernel/arch/aarch64/mm/page_table.c:109-168 | the tables on a way are those down to one level |
| PageTable.PageTable.LookupTable | kernel/arch/aarch64/mm/page_table.c:325-335 | the descent without allocation reaches the table |
| PageTable.PageTable.MapEntry | kernel/arch/aarch64/mm/page_table.c:290-309 | one round of a mapping loop sets the translation of one entry, and takes a page for each table that was missing |
| PageTable.PageTable.WriteLeaf | kernel/arch/aarch64/mm/page_table.c:301-305 | its end, the store, sets exactly the entry |
| PageTable.PageTable.UnmapEntry | kernel/arch/aarch64/mm/page_table.c:324-340 | one round of an unmapping loop removes the translation of one entry |
| PageTable.PageTable.MapEntries | kernel/arch/aarch64/mm/page_table.c:345-397 | the mapping loops, for any entry size: the range is set, and a page was taken for each table that it lacked and for no other |
| PageTable.PageTable.UnmapEntries | kernel/arch/aarch64/mm/page_table.c:399-440 | the unmapping loops, for any entry size |
| PageTable.PageTable.QueryInPgtbl | kernel/arch/aarch64/mm/page_table.c:224-275 | the loop computes the translation of the tree walk |
| PageTable.PageTable.MapRange | kernel/arch/aarch64/mm/page_table.c:277-312 | translation becomes pa + offset exactly on the range and stays elsewhere; what is mapped can be read, written and executed, by user code and by the kernel, and is cached, exactly as the flags say; exactly the tables that were missing are added, from the pages next in turn; no table page is lost |
| PageTable.PageTable.UnmapRange | kernel/arch/aarch64/mm/page_table.c:314-343 | translation is removed exactly on the range |
| PageTable.PageTable.MapRangeHuge | kernel/arch/aarch64/mm/page_table.c:345-397 | the same translation with the same permissions, really with 1G, then 2M, then 4K entries, also over entries of the same size; as many pages are taken as tables were missing for them all; table pages are lost exactly if a block entry had a table below it |
| PageTable.PageTable.MapBlocks | kernel/arch/aarch64/mm/page_table.c:351-392 | the 1G and 2M loops in turn, with the pages and the clear way that the rest needs |
| PageTable.PageTable.MapPhases | kernel/arch/aarch64/mm/page_table.c:345-397 | all three loops in turn, each starting where the one before stopped, with no table below the blocks in the end |
| PageTable.PageTable.UnmapPhases | kernel/arch/aarch64/mm/page_table.c:399-440 | the same for unmapping |
| PageTable.PageTable.UnmapRangeHuge | kernel/arch/aarch64/mm/page_table.c:399-440 | translation is removed exactly on the range |
| PageTable.PageTable.MapUnmapHuge | kernel/arch/aarch64/mm/page_table.c:345-440 | mapping an empty range and unmapping it restores the translation of every address |
| PageTable.PageTable.MapUnmap | kernel/arch/aarch64/mm/page_table.c:277-343 | the same for 4K entries |
| PageTable.HugeRefines | kernel/arch/aarch64/mm/page_table.c:277-397 | two tables with equal translation, one mapping a range with huge entries and one with 4K entries, have equal translation at every address below 2^48, whatever was mapped there before |
| PageTable.MapGiant | kernel/arch/aarch64/mm/page_table.c:351-368 | one 1G entry needs one page at most; a table in its place gets lost |
| PageTable.LostTable | kernel/arch/aarch64/mm/page_table.c:345-397 | a run after which a table page that was drawn is not among those that free_page_table frees |
| PageTable.TablesLeft | kernel/arch/aarch64/mm/page_table.c:314-343 | unmapping leaves the tables on the way to the page |
| PageTable.ProgressClear | kernel/arch/aarch64/mm/page_table.c:277-312 | 4K mappings bring no block into the way of any address |
| PageTable.PageTable.FreeTables | kernel/arch/aarch64/mm/page_table.c:170-219 | frees the pages of a subtree once each |
| PageTable.PageTable.FreePageTable | kernel/arch/aarch64/mm/page_table.c:170-219 | frees the pages of the tree once each, and these are the root and all pages drawn if and only if none was lost |
| PageTable.PutLeafGives | kernel/arch/aarch64/mm/page_table.c:300-305 | the bit fields written for an entry give pa + offset for every address of the entry, and what the flags ask for |
| PageTableSteps.AttrsGrant | kernel/arch/aarch64/mm/page_table.c:45-88 | the attribute bits for all flags: user code may read, and may write and execute exactly if the flags say so, the kernel executes nothing there, and the memory type that the MAIR register gives for the index is device memory, uncached or cached as they say |
| PageTable.RemappedMaps | kernel/arch/aarch64/mm/page_table.c:277-312 | a range with those translations gives to every address of it what was asked for |
| PageTable.PageTable.EmptyClear | kernel/arch/aarch64/mm/page_table.c:131-157 | where nothing is mapped, no block is in the way of the mappers |
| PageTable.HugePhases | kernel/arch/aarch64/mm/page_table.c:345-397 | three phases of different entry size are one change of the whole range |
| PageTable.AfterHuges | kernel/arch/aarch64/mm/page_table.c:345-397 | what the first two loops leave for the third: pages, a clear way, and entries that stay blocks |
| PageTable.UntabledKept | kernel/arch/aarch64/mm/page_table.c:345-397 | no table comes below the entries of a range when a later one is mapped |
| PageTable.MissingKept | kernel/arch/aarch64/mm/page_table.c:345-397 | what a later range lacks is what it lacked, less what was added for an earlier one |
| PageTable.Undone | kernel/arch/aarch64/mm/page_table.c:277-440 | unmapping what was mapped where nothing was restores the translation |
| PageTable.RangeMapped | kernel/arch/aarch64/mm/page_table.c:277-312 | what a loop over 4K entries comes to for every address |
| PageTable.HugeQuery | kernel/arch/aarch64/mm/page_table.c:224-275 | what the translation of every address is after the three phases |
| PageTable.ProgressQuery | kernel/arch/aarch64/mm/page_table.c:224-275 | what the translation of every address is after one loop |
| PageTableNeeds.WaysAre | kernel/arch/aarch64/mm/page_table.c:109-168 | the tables that a range needs are those on the walks of its addresses |
| PageTableNeeds.MissingNext | kernel/arch/aarch64/mm/page_table.c:290-300 | after some entries were mapped, the next one lacks exactly what the range up to it lacks more |
| PageTableNeeds.EnoughForRound | kernel/arch/aarch64/mm/page_table.c:290-300 | pages for all that a range lacks are enough for each of its rounds |
| PageTableNeeds.AllThree | kernel/arch/aarch64/mm/page_table.c:345-397 | what the three loops of the huge mapper lack one after the other is what they lack together |
| PageTableNeeds.EntryLacks | kernel/arch/aarch64/mm/page_table.c:109-168 | an entry lacks as many tables as its level at most |
| PageTableState.SetLeafWalk | kernel/arch/aarch64/mm/page_table.c:224-275 | overwriting an entry changes the translation of exactly the addresses it covers |
| PageTableState.SetLeafTree | kernel/arch/aarch64/mm/page_table.c:300-305 | overwriting an entry keeps the tables an unshared tree, less what hung below the entry |
| PageTableState.WalkReaches | kernel/arch/aarch64/mm/page_table.c:224-275 | a walk goes on from every table on its way |
| PageTableState.AttachTree | kernel/arch/aarch64/mm/page_table.c:131-157 | hanging a zeroed page below an invalid entry keeps the tables an unshared tree |
| PageTableState.AttachWalk | kernel/arch/aarch64/mm/page_table.c:131-157 | and changes no translation |
| PageTableSteps.EntrySetOk | kernel/arch/aarch64/mm/page_table.c:277-343 | one round of a mapping or unmapping loop sets one entry and keeps every other address |
| PageTableSteps.TightAfter | kernel/arch/aarch64/mm/page_table.c:109-168 | a round loses a table page if and only if the entry that it overwrites had a table below it |
| PageTableSteps.UnmappedPathClear | kernel/arch/aarch64/mm/page_table.c:224-275 | an address that has no translation has no block on its path |
| DemandPaging.CollidesExact | kernel/mm/vmregion.c:41-68 | for which pairs of regions the comparison tells overlap |
| DemandPaging.OneByteMissed | kernel/mm/vmregion.c:41-68 | two regions that share a byte and pass |
| DemandPaging.CollidesAligned | kernel/mm/vmregion.c:41-68 | for regions of whole pages it is exact |
| DemandPaging.CheckIntersect | kernel/mm/vmregion.c:41-68 | the loop reports whether some region collides |
| DemandPaging.FindRegion | kernel/mm/vmregion.c:191-203 | the first region that has the address |
| DemandPaging.AddRegionExact | kernel/mm/vmregion.c:81-114 | mapping a region of any length keeps all spaces coherent if and only if its last byte is not the first of another and pages of the object beyond the region are as a region there says |
| DemandPaging.WholeIsHarmless | kernel/mm/vmregion.c:205-267 | a region as long as its object is of that kind |
| DemandPaging.SpillSeen | kernel/mm/vmregion.c:100-114 | a mapping of a shorter region that is not |
| DemandPaging.ResolveGood | kernel/mm/pgfault_handler.c:29-114 | resolving a fault keeps all spaces coherent and replaces no committed page |
| DemandPaging.FaultMaps | kernel/mm/pgfault_handler.c:51-114 | after a fault the page is mapped to the committed page of the object, or to the new one if there was none, and no other page changes |
| DemandPaging.NewRegionPlaced | kernel/mm/vmregion.c:205-240 | the new region is found for exactly the addresses asked for, with the object and permissions asked for, every other address is found where it was, and it collides with exactly the regions that the comparison refuses |
| DemandPaging.StepDoes | kernel/mm/vmregion.c:205-267 | every event does what it is for and nothing else: a new space, a new object with its pages, a region with its pages, a committed page, a page mapped by a fault |
| DemandPaging.RecordGood | kernel/object/memory.c:586-594 | committing a fresh page keeps all spaces coherent |
| DemandPaging.NewPmoGood | kernel/object/memory.c:534-583 | a new memory object on fresh frames keeps all spaces coherent |
| DemandPaging.StepGood | kernel/mm/pgfault_handler.c:29-114 | so does every operation |
| DemandPaging.RunGood | kernel/mm/pgfault_handler.c:29-114 | every run of harmless mappings, commits and faults keeps all spaces coherent |
| DemandPaging.StepFilled | kernel/mm/vmregion.c:100-114 | every operation keeps the pages of prepared objects mapped |
| DemandPaging.RunFilled | kernel/mm/vmregion.c:100-114 | so does every run |
| DemandPaging.FaultsResolve | kernel/mm/pgfault_handler.c:53-148 | in every reachable state the handler resolves a fault in a region if and only if the object has the page and does not forbid access; otherwise it stops the kernel |
| DemandPaging.MappedIsRecorded | kernel/mm/pgfault_handler.c:51-114 | regions are disjoint, and a mapped page is the one that the region's object records |
| DemandPaging.SharedOnlyByObject | kernel/object/memory.c:586-604 | two mapped pages have the same frame if and only if they are the same page of the same object |
| DemandPaging.NeverReplaced | kernel/object/memory.c:586-594 | a committed page stays for the rest of the run |
| FaultHandler.AddressSpaces.VmspaceMapRange | kernel/mm/vmregion.c:205-267 | stops exactly if a region collides with the range asked for; otherwise exactly the addresses asked for are found in the new region with the object and permissions asked for, the page table translates the pages of a prepared object with those permissions and every other address as before, and the spaces stay coherent exactly if the mapping is harmless; fails for want of pages exactly if the tables that are missing are more than the frames that are left |
| FaultHandler.AddressSpaces.HandleTransFault | kernel/mm/pgfault_handler.c:29-151 | takes the fault step with a page from the heap, which is proved to be fresh; then the page table translates the address to the page that the object records, with what the flags of the region grant, and every address outside that page as before. Says exactly when it reports a missing region, when it stops the kernel, and how many pages it needs: one for the object if it lacks it and one for each table that is missing |
| FaultHandler.AddressSpaces.FaultIn | kernel/mm/pgfault_handler.c:53-148 | the same for a region that was found |
| FaultHandler.AddressSpaces.ResolveIn | kernel/mm/pgfault_handler.c:56-112 | the same for a page that the object has |
| FaultHandler.AddressSpaces.ResolveAt | kernel/mm/pgfault_handler.c:56-112 | the case of a page of an object that commits its pages on demand |
| FaultHandler.AddressSpaces.PageFor | kernel/mm/pgfault_handler.c:68-82 | the committed page, or a fresh one from the heap |
| FaultHandler.AddressSpaces.CommitPage | kernel/object/memory.c:586-594 | a page from get_pages is fresh for all memory objects, and is recorded; fails if and only if no frame is free |
| FaultHandler.AddressSpaces.TakeFrame | kernel/mm/kmalloc.c:89-106 | a page from get_pages belongs to no memory object and to no page table, and one frame less is left; fails if and only if none is |
| FaultHandler.AddressSpaces.TakeTable | kernel/arch/aarch64/mm/page_table.c:145-156 | a page for a table belongs to that page table alone |
| FaultHandler.AddressSpaces.TakeTables | kernel/arch/aarch64/mm/page_table.c:145-156 | there are pages for the tables of an address if and only if as many frames are left as it lacks |
| FaultHandler.AddressSpaces.EnterPage | kernel/arch/aarch64/mm/page_table.c:277-312 | one page more is translated, or there are too few frames for its tables |
| FaultHandler.AddressSpaces.EnterRun | kernel/arch/aarch64/mm/page_table.c:277-312 | a run of pages is translated if and only if as many frames are left as tables are missing for all of it |
| FaultHandler.AddressSpaces.TablesHidden | kernel/arch/aarch64/mm/page_table.c:145-156 | no address of any space is translated to a page of any page table, unless it belongs to a device object |
| FaultHandler.AddressSpaces.TablesApart | kernel/arch/aarch64/mm/page_table.c:145-156 | no page belongs to the page tables of two spaces |
| FaultHandler.AddressSpaces.AddVmr | kernel/mm/vmregion.c:81-91 | stops exactly if the region collides with another; otherwise adds it and maps the pages of a prepared object |
| FaultHandler.AddressSpaces.FillPages | kernel/mm/vmregion.c:100-114 | the page table translates the pages of a prepared object as the space says |
| FaultHandler.AddressSpaces.NewPmo | kernel/object/memory.c:534-583 | the pages of a prepared object come from kmalloc and are proved to be fresh |
| FaultHandler.AddressSpaces.NewSpace | kernel/mm/vmregion.c:527-542 | a space with an empty page table, whose root comes from the heap; fails if and only if no frame is free |
| FaultHandler.AddressSpaces.constructor | kernel/mm/vmregion.c:531-533 | no spaces and no objects |
| FaultHandler.MapPage | kernel/arch/aarch64/mm/page_table.c:277-312 | a page table that translates some pages translates these and a new one |
| FaultHandler.NewBlock | kernel/mm/kmalloc.c:89-106 | a frame of a block that the heap has just handed out is in no other block that is out |
| FaultHandler.SeparateRecord | kernel/object/memory.c:586-594 | a page recorded for a memory object is no page of a table |
| FaultHandler.MapDecides | kernel/mm/vmregion.c:205-267 | mapping goes on exactly if no region is refused; then exactly the addresses asked for lead to the new region, and the spaces stay coherent exactly if the mapping is harmless |
| FaultHandler.FilledSo | kernel/mm/vmregion.c:100-114 | what the page table gives for every address once the pages of a prepared object are mapped |
| FaultHandler.PageKept | kernel/mm/pgfault_handler.c:51-114 | a fault changes the translation of no address outside its page |
| Kernel.Kernel.RrSchedEnqueue | kernel/sched/policy_rr.c:73-108 | appends to the queue of the thread's CPU, ignores idle threads, and rejects NULL, queued threads and bad affinities |
| Kernel.Kernel.RrSchedDequeue | kernel/sched/policy_rr.c:116-149 | unlinks a ready thread and counts down the current CPU's queue, and rejects others |
| Kernel.Kernel.RrSchedChooseThread | kernel/sched/policy_rr.c:158-175 | the first of the queue or the idle thread; the dequeue succeeds |
| Kernel.Kernel.RefillBudget | kernel/sched/policy_rr.c:181-187 | sets the budget of the thread's scheduling context |
| Kernel.Kernel.RrSchedCurrent | kernel/sched/policy_rr.c:207-228 | decides whether the current thread goes on; enqueueing it succeeds |
| Kernel.Kernel.RrSched | kernel/sched/policy_rr.c:204-234 | takes the scheduling step of the machine |
| Kernel.Kernel.SwitchToThread | kernel/sched/sched.c:85-107 | makes a thread current and running |
| Kernel.Kernel.HandleTimerIrq | kernel/sched/sched.c:165-173 | one tick, then scheduling; keeps the invariant |
| Kernel.Kernel.SysYield | kernel/sched/sched.c:177-185 | gives up the budget, then scheduling; keeps the invariant |
| Kernel.Kernel.SysThreadExit | kernel/object/thread.c:402-414 | takes the exit step; after it another thread is current on the CPU, and no CPU runs the caller or has it queued; keeps the invariant |
| Kernel.Kernel.StartThread | kernel/object/thread.c:269-291 | a new thread is enqueued, which succeeds; the root thread before anything runs |
| Kernel.Kernel.SysWaitSem | kernel/semaphore/semaphore.c:34-64 | takes a count, or reports EAGAIN, or blocks; keeps the invariant |
| Kernel.Kernel.WaitOn | kernel/semaphore/semaphore.c:45-60 | the blocking branch |
| Kernel.Kernel.SysSignalSem | kernel/semaphore/semaphore.c:73-90 | counts up, or makes the first waiting thread ready, which succeeds; keeps the invariant |
| Kernel.Kernel.SysIpcCall | kernel/ipc/connection.c:191-249 | the server thread takes over CPU and scheduling context; keeps the invariant |
| Kernel.Kernel.SysIpcReturn | kernel/ipc/connection.c:517-540 | the caller gets the CPU back with a full budget; keeps the invariant |
| SchedulerPlaces.EnqueueLocated | kernel/sched/policy_rr.c:73-108 | a thread without a place gets one on the queue of its CPU, and nothing else moves |
| SchedulerPlaces.DispatchLocated | kernel/sched/policy_rr.c:158-175 | the chosen thread moves from the queue, or from nowhere, to the CPU |
| SchedulerPlaces.SchedLocated | kernel/sched/policy_rr.c:204-234 | rr_sched leaves every thread in exactly one place |
| SchedulerSteps.CallLocated | kernel/ipc/connection.c:191-249 | an IPC call makes the caller wait on the connection and puts its server thread on the CPU with the caller's scheduling context, and moves no other thread |
| SchedulerSteps.ReturnLocated | kernel/ipc/connection.c:259-281 | an IPC return puts the caller back on the CPU with a full budget and the server thread nowhere, and moves no other thread |
| SchedulerSteps.WakeLocated | kernel/semaphore/semaphore.c:73-90 | a signal moves the first thread of the waiting list to the queue of its CPU, and no other thread |
| SchedulerSteps.BlockLocated | kernel/semaphore/semaphore.c:45-49 | a thread that blocks moves to the end of the waiting list |
| SchedulerSteps.AffinityLocated | kernel/object/thread.c:422-452 | a change of affinity, also of a queued thread, moves no thread |
| SchedulerSteps.StepLocated | kernel/sched/policy_rr.c:204-234 | every kernel entry leaves every thread in exactly one place |
| SchedulerRuns.StepBudgets | kernel/sched/policy_rr.c:181-234 | every kernel entry leaves all budgets in [1, DEFAULT_BUDGET] |
| SchedulerRuns.InitialInv | kernel/sched/policy_rr.c:236-284 | the state after initialization satisfies the invariant |
| SchedulerRuns.StepInv | kernel/sched/policy_rr.c:204-234 | every kernel entry keeps the invariant |
| SchedulerRuns.RunInv | kernel/sched/policy_rr.c:73-234 | every run keeps the invariant |
| SchedulerRuns.Locations | kernel/sched/policy_rr.c:73-234 | in every reachable state a thread is ready if and only if it is once on the queue of its CPU, queue lengths are right, and a current thread is running, on no queue and on no other CPU |
| SchedulerRuns.WaitingPlaces | kernel/ipc/connection.c:191-281 | in every reachable state a thread waits if and only if it is once on one semaphore list or the source of one call in flight, not both |
| SchedulerRuns.LeaveForever | kernel/object/thread.c:402-414 | a thread that calls sys_thread_exit runs on no CPU and is on no queue after it, whatever happens then |
| SchedulerRuns.LeaveNow | kernel/object/thread.c:402-414 | it gives up its CPU with the call |
| SchedulerRuns.BudgetRange | kernel/sched/policy_rr.c:181-234 | between kernel entries every budget is in [1, DEFAULT_BUDGET] |
| SchedulerExact.EntryExact | kernel/sched/policy_rr.c:73-234 | every kernel entry does to ready lists, current threads, budgets, semaphore counts and waiting lists exactly what the policy on plain lists says: a tick takes one unit, a yield all; a thread without budget or on the wrong CPU gets a full budget and is last in line on the CPU it is bound to, else on this one, and the first in line or the idle thread runs |
| SchedulerExact.SchedTurn | kernel/sched/policy_rr.c:204-234 | rr_sched for a thread that may go on: it stays exactly if it has budget left and may run here, and otherwise gives way as above |
| SchedulerExact.SchedGone | kernel/sched/policy_rr.c:204-234 | rr_sched for a thread that exits or waits: it is not put in line, and the first in line or the idle thread runs |
| SchedulerExact.SignalExact | kernel/semaphore/semaphore.c:73-90 | signal_sem counts up if nobody waits, and else puts the first waiting thread in line where it is bound to |
| SchedulerExact.ReturnExact | kernel/ipc/connection.c:517-540 | sys_ipc_return gives the CPU to the caller, with a full budget |
| SchedulerExact.YieldGives | kernel/sched/sched.c:177-185 | a yield while another thread is ready dispatches the first in line, which is not the caller |
| SchedulerExact.JoinsHome | kernel/sched/policy_rr.c:73-108 | whoever gets in line with a kernel entry does so on the CPU it is bound to, or on the CPU of the entry if it is bound to none |
| SchedulerExact.QueuedAtHome | kernel/sched/policy_rr.c:73-108 | in every run without a change of affinity a ready thread that is bound to a CPU is queued there |
| SchedulerExact.StepSettings | kernel/object/thread.c:422-452 | only sys_set_affinity changes an affinity, and only that of its thread; no entry changes the kind of a thread |
| SchedulerExact.TickStays | kernel/sched/sched.c:165-173 | a tick that leaves budget takes one unit of it and changes nothing else |
| SchedulerExact.KeepsCpu | kernel/sched/sched.c:165-173 | with budget b a thread keeps its CPU for b - 1 ticks, and the budget is then down by as many |
| SchedulerExact.TurnEnds | kernel/sched/policy_rr.c:204-234 | with the b-th tick its turn ends: it gets a full budget and is last in line, and the first in line runs |
| SemaphoreRuns.SemaphoreRun | kernel/semaphore/semaphore.c:34-90 | in every run threads leave a waiting list in the order in which they came, every signal lets exactly one wait through, and nobody waits while the count is positive |
| SemaphoreRuns.WokenInOrder | kernel/semaphore/semaphore.c:34-90 | from start-up the threads woken are the first of those that blocked, all of them if the count is positive, and waits that went through are signals less the count |
| SemaphoreRuns.StepSem | kernel/semaphore/semaphore.c:34-90 | what each kernel entry does to the count and the waiting list of a semaphore |
| SchedulerWaiting.StepNearer | kernel/sched/sched.c:165-185 | what each kernel entry on any CPU does to the waiting time of a queued thread |
| SchedulerWaiting.ServedInTime | kernel/sched/policy_rr.c:204-234 | a queued thread is dispatched once its waiting time has ticked down |
| SchedulerWaiting.RoundRobinBound | kernel/sched/policy_rr.c:204-234 | with k threads ahead and r IPC returns on the CPU a thread is dispatched within DEFAULT_BUDGET * (k + 1 + r) timer interrupts |
| SchedulerWitness.QueuedIsServable | kernel/sched/policy_rr.c:204-234 | in every reachable state a thread on the queue of a CPU that schedules is dispatched there if only timer interrupts come |
| SchedulerWitness.TimersLegal | kernel/sched/sched.c:165-173 | a CPU that has begun to schedule always runs something, so timer interrupts can always follow |
| SchedulerWitness.Opens | kernel/object/thread.c:269-291 | from every start-up state two user threads can be enqueued before anything runs, and the first is dispatched |
| SchedulerWitness.RootsQueue | kernel/sched/policy_rr.c:73-108 | the other one is then on a queue, and gets the CPU in the time bound |
| SchedulerWitness.RootBlocks | kernel/semaphore/semaphore.c:34-90 | the first can block on any semaphore, and the other wakes it |
| SchedulerWitness.RootCalls | kernel/ipc/connection.c:191-249 | it can call any server |
| SchedulerWitness.SampleInitial | kernel/sched/policy_rr.c:236-284 | a start-up state to which this applies |
| BoundedBufferSafety.NextTokens | userland/apps/lab4/prodcons_impl.c:25-63 | every step keeps the account of semaphore counts, slots, message numbers and the lock |
| BoundedBufferSafety.SignalTokens | kernel/semaphore/semaphore.c:73-90 | a signal hands its count to the first waiting thread without losing or doubling it |
| BoundedBufferSafety.Alone | libchcore/src/sync/spin.c:21-32 | a thread in the critical section is alone there |
| BoundedBufferRuns.InitInv | userland/apps/lab4/prodcons.c:56-88 | the state that main sets up satisfies the invariant |
| BoundedBufferRuns.SafeAccess | userland/apps/lab4/buf.c:26-41 | where the two indices are when a slot is written or read |
| BoundedBufferRuns.NextInv | userland/apps/lab4/buf.c:26-41 | every step keeps the whole invariant |
| BoundedBufferRuns.RunInv | userland/apps/lab4/prodcons_impl.c:25-63 | so does every interleaving |
| BoundedBufferRuns.BufferSafe | userland/apps/lab4/buf.c:26-41 | a producer writes a slot that holds no unread message, a consumer reads the oldest unread one |
| BoundedBufferRuns.Fifo | userland/apps/lab4/buf.c:26-41 | messages are read in the order written, and never more than the buffer holds are unread |
| BoundedBufferRuns.ConsumeOnce | userland/apps/lab4/prodcons.c:42-45 | the assertion of consume_msg holds and its index is in range |
| BoundedBufferRuns.MutualExclusion | libchcore/src/sync/spin.c:21-32 | at most one thread holds the spinlock |
| BoundedBufferRuns.NoDeadlock | kernel/semaphore/semaphore.c:34-90 | while a thread is not through, some thread can move, if the totals fit |
| BoundedBufferRuns.StuckTotals | kernel/semaphore/semaphore.c:34-90 | if all threads are blocked or through and one is blocked, the totals do not fit |
| BoundedBufferProgress.NextWork | userland/apps/lab4/prodcons_impl.c:25-63 | a move takes away work, and any other step leaves it |
| BoundedBufferProgress.CanFinish | userland/apps/lab4/prodcons_impl.c:25-63 | where the totals fit, the threads can all be brought to the end |
| BoundedBufferProgress.MovesBounded | userland/apps/lab4/prodcons_impl.c:25-63 | every interleaving makes a bounded number of moves other than spinning |
| BoundedBufferProgress.FinishIff | userland/apps/lab4/prodcons_impl.c:25-63 | every interleaving can be continued to the end if and only if consumers want at most what is produced, and at most a buffer full less |
| BoundedBufferProgress.FinalTotals | userland/apps/lab4/prodcons.c:84-86 | in the end all items are written and read |
| BoundedBufferProgress.AllConsumed | userland/apps/lab4/prodcons.c:42-53 | with equal totals every message number is consumed in the end |
| BoundedBufferFairness.FairEndsIff | userland/apps/lab4/prodcons_impl.c:25-63 | every endless run in which each thread that can move gets another turn comes to its end, and stays there, if and only if the totals fit the buffer |
| BoundedBufferFairness.NextMove | userland/apps/lab4/prodcons_impl.c:25-63 | in such a run some thread moves again as long as not all have left |
| BoundedBufferFairness.UntilTurn | libchcore/src/sync/spin.c:21-32 | up to the next turn of a thread that can move, some thread moves or that one finds the lock free |
| BoundedBufferFairness.FinalStays | userland/apps/lab4/prodcons_impl.c:25-63 | after the end nothing changes |
| BoundedBufferFairness.RoundRobinFair | userland/apps/lab4/prodcons_impl.c:25-63 | taking turns is such a run |
| BufferOnKernel.WaitRefines | kernel/semaphore/semaphore.c:34-64 | wait_sem of the kernel does to count and waiting list what the program relies on |
| BufferOnKernel.SignalRefines | kernel/semaphore/semaphore.c:73-90 | so does signal_sem |
| BufferOnKernel.JointRefines | kernel/semaphore/semaphore.c:34-90 | each kernel entry, system call of the program or step between is a step of the program or none, and keeps its semaphores those of the kernel |
| BufferOnKernel.RunRefines | kernel/semaphore/semaphore.c:34-90 | in every run of kernel and program together the program goes through one of its interleavings |
| BufferOnKernel.BlockedIff | kernel/semaphore/semaphore.c:34-90 | a thread is blocked in the program if and only if its kernel thread is on the waiting list, and then no CPU runs it |
| BoundedBuffer.SignalTimes | userland/apps/lab4/prodcons.c:68-70 | the semaphore starts with one count per slot |
| BoundedBuffer.SlotAhead | userland/apps/lab4/buf.c:30 | where the index is d messages later |
| CapabilityRuns.CapAllocGood | kernel/object/capability.c:80-116 | the first capability of an object goes to the least free id, with count 1; no other slot or object changes, and the invariant is kept |
| CapabilityRuns.CapFreeGood | kernel/object/capability.c:137-170 | removes one slot and one count, and frees the object with the last |
| CapabilityRuns.CapCopyGood | kernel/object/capability.c:177-216 | a copy goes to the least free id of the other group, directly behind the copied one in the ring, and adds one count; the copied capability, all other slots and all other objects stay |
| CapabilityRuns.CapMoveGood | kernel/object/capability.c:218-231 | a move gives the capability a new place, clears the old one, and leaves count and phase of the object and everything else |
| CapabilityRuns.GetGood | kernel/object/cap_group.c:188-223 | for every type asked for: a get takes one reference and changes nothing else if the object is of that type or no type is asked for, and otherwise changes nothing |
| CapabilityRuns.TypedGet | kernel/object/cap_group.c:188-223 | whatever was done since an object was made: a typed get of a capability for it takes a reference exactly if the type is the one it was made with, or none is asked for |
| CapabilityRuns.RunKinds | kernel/object/capability.c:41-62 | no run changes the type of an object |
| CapabilityRuns.PutGood | kernel/object/cap_group.c:231-243 | a reference put back takes one count, changes no slot, and frees the object exactly with the last count |
| CapabilityRuns.Revocation | kernel/object/capability.c:237-274 | removes every slot of the object from every group and no other, and frees the object exactly if no reference is held |
| CapabilityRuns.FreeEachGood | kernel/object/capability.c:259-266 | freeing the slots of a ring one by one empties it and touches no other object |
| CapabilityRuns.StepGood | kernel/object/capability.c:41-274 | every operation does to slots, counts and phases what it is for, changes nothing else, does nothing if the capability is missing, and keeps the invariant |
| CapabilityRuns.Installed | kernel/object/cap_group.c:111-186 | a new slot fills the least free id and leaves all others; the table grows by BASE_OBJECT_NUM ids exactly if none is free |
| CapabilityRuns.RunGood | kernel/object/capability.c:41-274 | every run keeps the invariant |
| CapabilityRuns.RefcountExact | kernel/object/capability.c:80-231 | in every reachable state the count is the number of slots, which is the length of the ring, plus the references held |
| CapabilityRuns.NoDangling | kernel/object/capability.c:119-170 | a slot or a reference leads to a live object |
| CapabilityRuns.Lifecycle | kernel/object/capability.c:119-170 | an object is freed exactly when its count gets to 0, and never comes back |
| CapGroups.CapGroups.AllocObject | kernel/object/capability.c:41-62 | a new object of the given type, without capabilities and with count 0 |
| Capability.LeastFree | kernel/object/cap_group.c:147-186 | the least id without a slot |
| CapGroups.CapGroups.InstallSlot | kernel/include/object/cap_group.h:92-98 | the bitmaps yield the least free id of the group, a slot is installed there, and bitmap and slots agree again |
| CapGroups.CapGroups.IsValidSlotId | kernel/object/cap_group.c:36-45 | true if and only if the id has a slot; an id that is marked never lacks one |
| CapGroups.CapGroups.ClearSlot | kernel/include/object/cap_group.h:76-82 | the slot is gone, and bitmap and slots agree again |
| CapGroups.CapGroups.constructor | kernel/object/cap_group.c:47-80 | groups with empty tables satisfy the invariant |
| CapGroups.CapGroups.CopySlot | kernel/object/capability.c:189-212 | the new slot in the other group and in the ring |
| Capability.InsertedBehind | kernel/object/capability.c:208 | the new slot comes directly behind the copied one in the ring, and all others keep their order |
| CapGroups.InstallAgrees | kernel/object/cap_group.c:147-186 | claiming the id that the bitmaps yield and installing a slot keeps bitmap and slots in agreement |
| CapGroups.ReleaseAgrees | kernel/include/object/cap_group.h:76-82 | so does releasing an id with its slot |
| CapGroups.CapGroups.Unreference | kernel/object/capability.c:119-132 | one count less, and the object is freed with the last |
| CapGroups.CapGroups.AllocCap | kernel/object/capability.c:80-116 | takes the step and returns the least free id |
| CapGroups.CapGroups.FreeCap | kernel/object/capability.c:137-170 | takes the step, or reports a missing capability; the ring of a freed object is empty |
| CapGroups.CapGroups.CopyCap | kernel/object/capability.c:177-216 | takes the step, or reports a missing capability |
| CapGroups.CapGroups.MoveCap | kernel/object/capability.c:218-231 | takes the step; the free after the copy does not fail |
| CapGroups.CapGroups.GetObject | kernel/object/cap_group.c:188-223 | the object if the slot and its type are right, with exactly one more reference; otherwise nothing changes |
| CapGroups.CapGroups.PutObject | kernel/object/cap_group.c:231-243 | takes the step |
| CapGroups.CapGroups.FreeAllCaps | kernel/object/capability.c:237-274 | takes the revocation step |
| CapGroups.CapGroups.FreeRing | kernel/object/capability.c:259-271 | the loop over the ring and the put that follows it |
| CapGroups.CapGroups.FreeCopies | kernel/object/capability.c:259-266 | the loop frees every slot of the ring while the ring changes under it; no free fails |
| CapGroups.SlotIdAgrees | kernel/object/cap_group.c:147-186 | the id that the bitmaps yield is the least id without a slot, by the agreement that all operations keep |
| SlotTable.FindNextZeroBit | kernel/include/common/bitops.h:58-94 | the first zero bit from a start, or the size |
| SlotTable.SetBit | kernel/include/common/bitops.h:29-34 | every other bit is as before and this one is set |
| SlotTable.ClearBit | kernel/include/common/bitops.h:45-50 | every other bit is as before and this one is clear |
| SlotTable.BitSet | kernel/include/common/bitops.h:29-50 | a write to one bit leaves every other |
| SlotTable.ClaimOk | kernel/object/cap_group.c:177-183 | marking an id marks no other, and keeps the summary right and all slots |
| SlotTable.ReleaseOk | kernel/include/object/cap_group.h:76-82 | clearing both bits frees that id and its slot and no other, and keeps the summary right |
| SlotTable.ExpandedOk | kernel/object/cap_group.c:115-144 | expanding keeps every slot and bit and adds free ids only |
| SlotTable.NoneFree | kernel/object/cap_group.c:147-186 | all ids are taken if and only if all summary bits are set |
| SlotTable.LeastFree | kernel/object/cap_group.c:155-172 | the two searches together find the least free id |
| SlotTable.SlotTable.constructor | kernel/object/cap_group.c:47-80 | an empty table, its size rounded up |
| SlotTable.SlotTable.Expand | kernel/object/cap_group.c:115-144 | the table with one more word, all else copied |
| SlotTable.SlotTable.FindFree | kernel/object/cap_group.c:155-172 | the least free id, or that there is none |
| SlotTable.SlotTable.AllocSlotId | kernel/object/cap_group.c:147-186 | the least free id, after at most one expansion, and that only if no id was free |
| SlotTable.SlotTable.FreeSlotId | kernel/include/object/cap_group.h:76-82 | the id is free again and has no slot |
| SlotTable.SlotTable.InstallSlot | kernel/include/object/cap_group.h:92-98 | stores the slot of an allocated id |
| TicketLock.NextInv | kernel/arch/aarch64/sync/ticket.c:33-98 | every memory access keeps the invariant, also when the counters wrap around |
| TicketLock.EnterInv | kernel/arch/aarch64/sync/ticket.c:33-57 | a CPU that sees its number has the ticket that is being served, and nobody holds the lock |
| TicketLock.DrawInv | kernel/arch/aarch64/sync/ticket.c:33-57 | a successful exclusive store draws the next ticket |
| TicketLock.TryInv | kernel/arch/aarch64/sync/ticket.c:59-86 | try_lock takes a ticket only if nobody has one |
| TicketLock.ReleaseInv | kernel/arch/aarch64/sync/ticket.c:88-98 | unlock serves the next ticket |
| TicketLock.RunInv | kernel/arch/aarch64/sync/ticket.c:33-98 | every interleaving keeps the invariant |
| TicketLock.MutualExclusion | kernel/arch/aarch64/sync/ticket.c:33-57 | at most one CPU holds the lock, for fewer than 2^32 CPUs |
| TicketLock.TicketOrder | kernel/arch/aarch64/sync/ticket.c:33-57 | the lock is granted in the order of the tickets |
| TicketLock.TryLockFree | kernel/arch/aarch64/sync/ticket.c:59-86 | when try_lock is about to store with its reservation intact, nobody holds the lock or waits for it |
| TicketLock.TryLockGets | kernel/arch/aarch64/sync/ticket.c:59-86 | in every reachable state in which nobody holds the lock or waits for it, try_lock takes it in three steps in a row of which none fails |
| TicketLock.TryLockRefuses | kernel/arch/aarch64/sync/ticket.c:59-86 | when try_lock loads the owner, with next unchanged since its load, it gives up if and only if somebody holds the lock or waits for it, and leaves the lock as it is |
| TicketLock.TryLockFailsInUse | kernel/arch/aarch64/sync/ticket.c:59-86 | in every interleaving try_lock fails only if another CPU held the lock or waited for it during the call |
| TicketLock.TryRun | kernel/arch/aarch64/sync/ticket.c:59-86 | as long as no other CPU has a ticket, a CPU in try_lock goes on until it holds the lock |
| TicketLock.LockGets | kernel/arch/aarch64/sync/ticket.c:33-57 | on a lock that nobody holds or waits for, lock takes it in three such steps |
| TicketLock.LockReturnsHeld | kernel/arch/aarch64/sync/ticket.c:33-57 | in every interleaving lock does not return without having got the lock |
| TicketLock.UnlockEnds | kernel/arch/aarch64/sync/ticket.c:88-98 | unlock ends in two steps with the next number in the owner word |
| TicketLock.IsLockedExact | kernel/arch/aarch64/sync/ticket.c:100-108 | is_locked tells whether somebody holds the lock or waits |
| TicketLock.NeverLost | kernel/arch/aarch64/sync/ticket.c:88-98 | while somebody has a ticket, the one whose turn it is holds the lock or gets it with its next look |
| ListRing.ListHead.constructor | kernel/include/common/list.h:23-27 | a ring of one |
| ListRing.ListAdd | kernel/include/common/list.h:29-35 | inserts behind any node of the ring |
| ListRing.ListAppend | kernel/include/common/list.h:37-41 | appends at the end |
| ListRing.ListDel | kernel/include/common/list.h:43-47 | removes a node |
| ListRing.ListEmpty | kernel/include/common/list.h:49-55 | whether only the head is left |
| ListRing.DeleteAll | kernel/include/common/list.h:72-79 | the safe traversal visits all nodes in order although each round removes one |
| ListRing.DeleteOne | kernel/include/common/list.h:72-79 | one round: the saved neighbour is still the right one after the deletion |
| RadixTree.DigitsKey | kernel/lib/radix.c:78-81 | a key is determined by its digits |
| RadixTree.LessIsSmaller | libchcore/include/chcore/fs/radix.h:219-259 | the order of the digits is the order of the keys |
| RadixTree.RoomFor64Bits | kernel/lib/radix.c:67 | both digit widths hold all 64-bit keys |
| RadixTree.AttachTree | kernel/lib/radix.c:83-94 | a new empty node changes no value |
| RadixTree.WriteTree | kernel/lib/radix.c:96-104 | a store changes the value of one key |
| Radix.Radix.Indices | kernel/lib/radix.c:77-81 | the loop computes the digits |
| Radix.Radix.constructor | kernel/lib/radix.c:29-36 | an empty tree has no values |
| Radix.Radix.NewNode | kernel/lib/radix.c:44-55 | a node that is not in use |
| Radix.Radix.NextNode | kernel/lib/radix.c:86-94 | the child of a node, new if it was missing, and no value changes |
| Radix.Radix.Descend | kernel/lib/radix.c:70-94 | the loop reaches the last node of the key and changes no value |
| Radix.Radix.Write | kernel/lib/radix.c:96-104 | the store changes the value of these digits and no other |
| Radix.Radix.FindLast | kernel/lib/radix.c:115-153 | the walk reaches the last node of the key if and only if there is one |
| Radix.Radix.Get | kernel/lib/radix.c:115-153 | the value of the key |
| Radix.Radix.Add | libchcore/include/chcore/fs/radix.h:75-114 | sets the value of the key and no other |
| Radix.Radix.AddNew | kernel/lib/radix.c:57-113 | the same where nothing is replaced |
| Radix.Radix.Delete | libchcore/include/chcore/fs/radix.h:146-178 | clears the value of the key and no other, adds no node, and passes it to the deleter if asked |
| RadixWalk.WalkMeetsAll | libchcore/include/chcore/fs/radix.h:180-259 | the recursive walk meets every live value once, in ascending order of the keys |
| RadixWalk.EntriesSound | libchcore/include/chcore/fs/radix.h:180-259 | the walk below a node meets live values below it only |
| RadixWalk.EntriesComplete | libchcore/include/chcore/fs/radix.h:180-259 | and all of them |
| RadixWalk.EntriesAscending | libchcore/include/chcore/fs/radix.h:180-259 | in ascending order of the digits |
| RadixWalk.FreeNode | kernel/lib/radix.c:160-182 | the deleter, if there is one, is called with what the walk meets; the kernel frees the node and every node below it once, the library none |
| RadixWalk.FreedNext | kernel/lib/radix.c:173-180 | the nodes below one word more, each once |
| RadixWalk.FreedLast | kernel/lib/radix.c:181 | then the node itself |
| RadixWalk.FreeWord | kernel/lib/radix.c:160-182 | one round of its loops |
| RadixWalk.Free | kernel/lib/radix.c:184-198 | the deleter gets every live value in ascending order of the keys, the kernel frees every node of the tree once and the library none; or an error without a root |
| RadixWalk.ScanMeetsFrom | libchcore/include/chcore/fs/radix.h:219-268 | a walk from the digits of a start on meets the live values of exactly the keys from there on, in ascending order |
| RadixWalk.FromSound | libchcore/include/chcore/fs/radix.h:219-259 | below a node it meets live values that are not below the start |
| RadixWalk.FromComplete | libchcore/include/chcore/fs/radix.h:219-259 | and all of them |
| RadixWalk.FromAscending | libchcore/include/chcore/fs/radix.h:219-259 | in ascending order |
| RadixScan.MaskBits | libchcore/include/chcore/fs/radix.h:230-231 | which bits the mask has at each level |
| RadixScan.IndexLost | libchcore/include/chcore/fs/radix.h:230-232 | the index of levels 1 to 3 is always 0 |
| RadixScan.IndexExact | libchcore/include/chcore/fs/radix.h:230-232 | the index is the digit of the start at every level if and only if bits 36 to 62 of the start are 0 |
| RadixScan.ScanExact | libchcore/include/chcore/fs/radix.h:219-268 | from such a start the scan reads no word outside a node and meets the live values of exactly the keys from there on, in ascending order |
| RadixScan.MeetsBefore | libchcore/include/chcore/fs/radix.h:219-268 | from 2^36 + 1 the scan meets key 2^36, if that is live |
| RadixScan.ScanNode | libchcore/include/chcore/fs/radix.h:219-259 | the callback sees what the walk from the coded words meets, up to the first error; says exactly when a word before a node is read |
| RadixScan.ScanWord | libchcore/include/chcore/fs/radix.h:219-259 | one round of its loops |
| RadixScan.ErrorsConcat | libchcore/include/chcore/fs/radix.h:239-241 | a walk in parts ends at the first error of its parts |
| RadixScan.Scan | libchcore/include/chcore/fs/radix.h:264-268 | the same from the root |
| PagedFile.Inode.Write | userland/servers/tmpfs/tmpfs.c:323-357 | changes exactly the bytes of the range, for every split across pages; the size as coded; adds exactly the pages of the range, and leaves no hole below the size if there was none |
| PagedFile.Inode.WriteBytes | userland/servers/tmpfs/tmpfs.c:335-350 | its loop |
| PagedFile.Inode.WritePage | userland/servers/tmpfs/tmpfs.c:336-348 | one page of it |
| PagedFile.Inode.FindOrAdd | userland/servers/tmpfs/tmpfs.c:340-346 | the page that the radix tree has, or a new zeroed one that is then in the tree |
| PagedFile.Inode.CopyTo | userland/servers/tmpfs/tmpfs.c:347 | a copy to the address of one page changes no other page |
| PagedFile.AddAddress | userland/servers/tmpfs/tmpfs.c:345 | radix_add as an update of the map from page numbers to addresses |
| PagedFile.StoredCopy | userland/servers/tmpfs/tmpfs.c:347 | writing the memory of one page is writing that page of the file |
| PagedFile.NoHole | userland/servers/tmpfs/tmpfs.c:335-353 | a write leaves a hole below the size if and only if there was one that it did not fill |
| PagedFile.Inode.Read | userland/servers/tmpfs/tmpfs.c:363-392 | the bytes of the range up to the size, if and only if all its pages exist and the sum of offset and count does not wrap round to at most the size |
| PagedFile.Inode.ReadPage | userland/servers/tmpfs/tmpfs.c:380-384 | the bytes of one page, found in the radix tree |
| PagedFile.LengthExact | userland/servers/tmpfs/tmpfs.c:376-377 | the read is cut off where the file ends if and only if the 64-bit sum does not wrap round to at most the size |
| PagedFile.NotCutOff | userland/servers/tmpfs/tmpfs.c:376-377 | a read that is not cut off |
| PagedFile.Inode.Mknod | userland/servers/tmpfs/tmpfs.c:143-169 | a new file has a size and no pages |
| PagedFile.Inode.constructor | userland/servers/tmpfs/tmpfs.c:80-100 | a file of size 0 without pages has no hole |
| PagedFile.AllReadsSafe | userland/servers/tmpfs/tmpfs.c:363-392 | no read whose sum does not wrap copies from a missing page if and only if all pages below the size exist |
| PagedFile.NewFileRead | userland/servers/tmpfs/tmpfs.c:143-169 | every first read of a new file copies from a missing page |
| PagedFile.Inode.WriteRead | userland/servers/tmpfs/tmpfs.c:323-392 | what was written is read back, as far as the size admits |
| PagedFile.WriteChunk | userland/servers/tmpfs/tmpfs.c:336-348 | copying into one page changes exactly those bytes of the flat file |
| PagedFile.ReadChunk | userland/servers/tmpfs/tmpfs.c:380-386 | copying out of one page gives those bytes of the flat file |
| PagedFile.Chunk | userland/servers/tmpfs/tmpfs.c:336-341 | a round handles at least one byte, stays in its page, and ends at a page boundary unless it is the last |
| PagedFile.CopyIn | userland/servers/tmpfs/tmpfs.c:347 | a copy into a page changes exactly its bytes |
| PagedFile.SizeIsEnd | userland/servers/tmpfs/tmpfs.c:351-353 | the size is the end of the file if and only if the write starts at 0 or stays inside |
| PagedFile.AppendForgotten | userland/servers/tmpfs/tmpfs.c:351-353 | an append that the size does not show |

## Left out

- Several physical memory pools: get_pages tries them in turn; the heap has one pool.
- Device, boot, exception entry, cache, TLB, UART, timer hardware and SD code: assembly and registers.
- IPI transactions: the AArch64 handler does nothing.
- unmap_vmrs, vmspace_unmap_range and brk growth: shrinking moves a region without its object offset, so the coherence of mapped pages does not survive it.
- cap_group teardown and the type-specific deinit functions: teardown frees slot tables without releasing the capabilities in them.
- Threads created with TYPE_SHADOW by sys_create_thread: they are put into TS_WAITING on no list; the server threads made for connections are modelled.
- sched_to_thread, rr_top and thread priorities: not used by the round-robin policy.
- Capability transfer and shared buffers of IPC: only the thread-state effects of a call are modelled.
- Out-of-memory paths: allocation of slots, nodes and regions succeeds; where NULL is the property (buddy, slab, kmalloc, page tables and pages of address spaces) it is modelled.
- Allocating the kernel's root cap group, ELF loading, shell, console and raw system call wrappers: plumbing.
- naive_fs, mount points, cpio, vnode counts and the id manager: easier than what is here.
- get_free_mem_size_from_slab: it sums the free lists that Slab.SlotsConserved counts.
- The words of the slot bitmaps are sequences of 64 bits; shifting and masking of one machine word is not modelled.
- Next-free links inside free slots and next-slab links are sequences in the heap; writes through them are not modelled.
- PageTable.PageTable.FreeTables: one recursive method stands for the three nested loops.
- PageTable.PageTable.MapRange: for page-aligned addresses, with no 1G or 2M entry in the way and a page for each table that is missing; for a 1G entry PageTable.PageTable.LevelTwo says where the code goes on.
- PageTable.PageTable.UnmapRange: the tables of the range must exist, since the code stops the kernel otherwise.
- PageTable.PageTable.MapRangeHuge: virtual and physical address aligned to the entry sizes used, with no larger entry in the way of one and a page for each table that is missing.
- PageTable.PageTable.UnmapRangeHuge: for the entry sizes that the huge mapper uses for the same range.
- RadixScan.Scan: it needs a root, since the code dereferences it; what is read before a node is not modelled, only that it is.
- Kernel.Kernel.RrSchedEnqueue: a negative affinity other than NO_AFF is treated as NO_AFF.
- BoundedBuffer.SignalTimes: the counters of the program are unbounded; int overflow is not modelled.
- FaultHandler.AddressSpaces.VmspaceMapRange: for pages within the virtual and physical address space.
- FaultHandler.AddressSpaces.HandleTransFault: the cache flush is left out; pages for missing tables are taken just before the mapping of a page, not within its descent.
- PagedFile.Inode.Write: for ranges that end below 2^64.
- SlotTable.SlotTable.Expand: slots and bitmaps are sequence fields; the copying from old into new arrays is concatenation.
