# BATOS kernel core: memory and execution

This project models the hard core of the BATOS x86-64 kernel and proves what its parts promise to each
other:

- **Frames** (`Pmm.dfy`): the bitmap allocator of physical frames.
- **Virtual memory** (`Slots.dfy`, `Paging.dfy`, `Ways.dfy`, `Trees.dfy`, `Cloning.dfy`, `Costs.dfy`, `Preparing.dfy`,
  `CloneCheck.dfy`, `Words.dfy`, `Vmm.dfy`, `VmmRuns.dfy`): four-level page tables with an ownership registry,
  transactional mapping, validation and destruction of whole hierarchies, recursive cloning with what it costs,
  and the preparation of the kernel's root.
- **Heap** (`Blocks.dfy`, `Heap.dfy`): the first-fit allocator over a linked list of blocks in a fixed arena.
- **Execution** (`Ring.dfy`, `Queues.dfy`, `Tasks.dfy`, `Owners.dfy`, `Runs.dfy`, `Theorems.dfy`, `Orders.dfy`,
  `Moves.dfy`, `Stacks.dfy`, `Backing.dfy`, `StackRuns.dfy`, `Kernel.dfy`, `KernelRuns.dfy`, `Scenarios.dfy`): tasks,
  scheduler, wait queues, processes, creation, destruction and deferred reclamation, with the tasks' stacks in the
  virtual memory above.

Code that works in place is a class whose methods keep its steps and branches (`Pmm`, `Vmm`, `Heap`, `Ring`,
`Kernel`), each proved against functions and predicates on values; what the kernel promises is then proved of
those values. `Vmm` owns a `Pmm`, and `Kernel` owns a `Vmm`.

How the main results are stated:

- *Page tables.* `v: Vm` is the memory of tables, the record of every registered table, the one slot that refers
  to each table, and the set of free frames. `Good(v, {})` says that the registered tables form disjoint trees, one
  per root, and holds from boot on (`VmmRuns.RunFrom`). `Walk(mem, root, 3, key)` is the translation of the key (bits
  47..12) of a virtual address. Every operation says which translations change, for every root and every key, and what
  becomes of every frame. The frame allocator takes back any frame in its range, also one that is a table or that it
  never handed out; such a frame goes astray (`stray`), and the invariant `Valid()` of `Vmm` says that none has.
- *Heap.* `bs: seq<Block>` is the block list; `Tiled(bs)` says that headers and payloads cover the 64 KiB arena
  exactly, that payloads are 16-aligned, and that no two free blocks touch.
- *Scheduler.* `s: State` is the scheduler's state and `Inv(s)` its ownership invariant. The history `saved` records
  the continuation with which each task last gave up the CPU; no code reads it. Every operation of the kernel is
  proved to be one of a few moves on states, every move keeps `Inv`, and so every state of every run satisfies it.
- *Stacks.* `Backed(...)` says that exactly the registered tasks' stacks are mapped, each page to a frame of its own.
  Every move on a state and the page tables beside it keeps this (`StackRuns`), every operation of `Kernel` keeps its
  whole invariant `Valid()`, and so it holds after any sequence of calls from boot, with page-table operations of
  the rest of the kernel in between (`KernelRuns.RunFromBoot`).

Conventions. A frame number stands for a page-aligned physical address. Pointers to tasks, processes and queues are
numbers with 0 for NULL. `Guard.Open` is always true; a predicate whose body stands under `Open(n)` means just its
body, which the verifier looks at only where `Open(n)` is mentioned. Error codes are those of the code; where a
branch is proved unreachable the model only returns from it. Small steps whose contract is just their branches
(`Transition`, `Add`, `WaitEnqueue`, `WaitRemove`, `ExitTask`, `Publish`, `ProcessTransition`, `ResolveTarget`,
`Dispatch` of `Kernel`) have no row below; what they add up to is stated of the operations that call them and in `Theorems`.

Five places where the code does less than one might expect are modelled as they are, with the exact condition:

- A failed attempt to create a task unmaps and frees whatever the identifier's stack slot maps. All translations are
  as before exactly when the identifier was not in use (`Backing.FailedCreate`), and `Kernel.CreateTask` says so of
  the whole operation. `Scenarios.UsedIdentifier` boots a machine and shows the failing input.
- The comparison of a clone with its source follows a large page of the copy where the source has a table
  (`CloneCheck.AcceptedButDifferent`), and it refuses some pairs that translate alike, since it also compares where
  tables are (`CloneCheck.AlikeButRefused`). An accepted pair translates alike exactly when there is no such large page
  (`CloneCheck.AcceptedExactly`); without one, accepted are exactly the pairs that translate alike and have tables of
  different frames in the same places (`CloneCheck.AcceptanceCondition`). Every clone the kernel makes is accepted
  (`CloneCheck.ClonesAccepted`, `VirtualMemory.Vmm.Prepare`).
- The comment at `kernel/sched/task.c:148-154` promises that a stack is either mapped as recorded or left completely
  untouched. The check also passes for a page inside a large page, which cannot be unmapped then: the pages before it are
  gone, and the operation fails. The promise is broken exactly when all frames agree, the first page is a 4 KiB mapping
  and a later one lies in a large page (`Stacks.UnmapStack`). `Stacks.TornStack` is such a stack, across a 2 MiB
  boundary; in the kernel's own states there is none.
- Initialising a wait queue again forgets the tasks in it. The ownership invariant survives exactly if there are none
  (`Kernels.Kernel.WaitInit`); `Scenarios.ForgottenWaiter` shows a task that is lost.
- The free-frame counter is larger than the number of free frames by the frames of the bitmap itself, after
  initialisation and ever after (`Frames.Pmm.Init`, `Frames.Pmm.Alloc`, `Frames.Pmm.FreeFrame`).

A comment in `kernel/execution/execution.c` calls a task that may be destroyed one that has never run; the code only
asks that it is ready and not suspended by the timer. `Kernel.DestroyTask` states what the code does, and
`Scenarios.DestroyedAfterRunning` destroys a task that has run.

## Model

| member | source | states |
|---|---|---|
| Frames.HighestAddress | kernel/mm/pmm/pmm.c:144-162 | The largest end of a region of the map, in bytes, or 0 for an empty map. |
| Frames.FindBitmapLocation | kernel/mm/pmm/pmm.c:100-131 | The first usable region with room, counted in bytes, for that many whole frames; the first frame that lies wholly in it and all that follow are usable; 0 only if no region has room or the first that has starts with frame 0. |
| Frames.FitsRoom | kernel/mm/pmm/pmm.c:100-131 | The frame numbers the code computes leave room for n frames exactly if n consecutive whole frames lie between the first and the last byte of the region. |
| Frames.WholeFrames | kernel/mm/pmm/pmm.c:205-234 | The run of frame numbers the code computes for a region is exactly the frames whose first and last byte both lie in it. |
| Frames.SetInByte | kernel/mm/pmm/pmm.c:51-55 | Setting one bit of a byte sets that bit and no other. |
| Frames.ClearInByte | kernel/mm/pmm/pmm.c:57-61 | Clearing one bit of a byte clears that bit and no other. |
| Frames.Pmm.ClearRange | kernel/mm/pmm/pmm.c:83-98 | Exactly the run becomes free, and the counter grows by the frames that were not free before. |
| Frames.Pmm.SetRange | kernel/mm/pmm/pmm.c:72-81 | Exactly the run becomes used while the counter stays. |
| Frames.Pmm.FreeUsable | kernel/mm/pmm/pmm.c:205-234 | Free are exactly the frames all of whose bytes lie in one usable region, and they are counted once even where regions overlap. |
| Frames.Pmm.Reserve | kernel/mm/pmm/pmm.c:240-261 | The bitmap's frames and frame 0 leave circulation, and the counter exceeds the free frames by the bitmap's size. |
| Frames.Pmm.Init | kernel/mm/pmm/pmm.c:133-262 | From the map alone: it becomes ready exactly if the map was answered and some usable region has room for a bitmap of the map's size, not in frame 0; then free are exactly the frames all of whose bytes lie in one usable region, other than frame 0 and the bitmap's own, and the invariant between bits, free set and counter holds. |
| Frames.Pmm.Alloc | kernel/mm/pmm/pmm.c:264-285 | Fails only when nothing is free; otherwise hands out the lowest free frame, which is never 0 or the bitmap's, and it is not free afterwards. |
| Frames.Pmm.FreeFrame | kernel/mm/pmm/pmm.c:287-324 | A managed frame becomes free, once; frame 0, the bitmap's frames and frames out of range change nothing. |
| Frames.Pmm.FreeAddress | kernel/mm/pmm/pmm.c:287-324 | The same for a byte address, which is ignored unless page-aligned. |
| Slots.Insert | kernel/mm/vmm/vmm.c:160-212 | A record table of fixed size takes a new key exactly while it has room, reusing released slots, and holds all other records unchanged. |
| Slots.Remove | kernel/mm/vmm/vmm.c:425-447 | Removes exactly one key's record. |
| Slots.Room | kernel/mm/vmm/vmm.c:160-212 | A record table is full exactly when it holds as many keys as slots. |
| Words.EntryInjective | kernel/mm/vmm/vmm.c:370-413 | A 64-bit word and the entry the model works with determine each other: no two words are the same entry. |
| Words.UnpackPack | kernel/mm/vmm/vmm.c:370-413 | Entry fields survive packing into a 64-bit word. |
| Words.PackUnpack | kernel/mm/vmm/vmm.c:370-413 | Every 64-bit word is the packing of its fields. |
| Words.TableEntryWord | kernel/mm/vmm/vmm.c:370-413 | The word stored for a new table is, read as an entry, the one the model stores: present, writable, user exactly if asked. |
| Words.LeafEntryWord | kernel/mm/vmm/vmm.c:1419-1605 | The word stored by a mapping is, for every physical address, the entry the model stores: the requested access, and the address modulo 2^52. |
| Words.AskedExactly | kernel/mm/vmm/vmm.c:1434-1437 | Of all 64-bit words of flags exactly those without any bit but writable and user are accepted. |
| Words.CloneEntryWord | kernel/mm/vmm/vmm.c:2186-2306 | The word stored for a cloned table is the entry of the source with only the frame replaced. |
| Words.CompareEntryWords | kernel/mm/vmm/vmm.c:2934-3059 | Words are equal without the accessed and dirty bits exactly if the model calls their entries the same. |
| Paging.AddGood | kernel/mm/vmm/vmm.c:225-275 | A new empty table, not yet linked, keeps the forest of tables. |
| Paging.LinkGood | kernel/mm/vmm/vmm.c:370-413 | Linking an unlinked table one level up keeps the forest, with that table now in it. |
| Paging.UndoLink | kernel/mm/vmm/vmm.c:455-484 | Unlinking and releasing a table that was just created restores tables, references, free frames and all contents in use. |
| Paging.WalksMeet | kernel/mm/vmm/vmm.c:1751-1892 | Two walks that reach the same table started at the same root and used the same indexes on the way. |
| Paging.LeafWalks | kernel/mm/vmm/vmm.c:1419-1605 | Writing one last-level slot changes the translation of exactly one key of exactly one root. |
| Paging.CreateWalks | kernel/mm/vmm/vmm.c:370-413 | Creating and linking an empty table changes no translation at all. |
| Paging.RestoredWalks | kernel/mm/vmm/vmm.c:455-484 | A state restored up to the contents of free frames translates every key of every root as before. |
| Ways.TableAdded | kernel/mm/vmm/vmm.c:370-413 | Creating one table makes it reachable for exactly the keys of that root that share the indexes above it, and no other table of any root appears or goes. |
| Trees.UniqueTree | kernel/mm/vmm/vmm.c:796-869 | In a forest no table is met twice below a root. |
| Trees.OwnedReached | kernel/mm/vmm/vmm.c:882-931 | Every table that a root owns is met below it. |
| Trees.WithoutGood | kernel/mm/vmm/vmm.c:882-931 | Taking one whole tree away leaves a forest. |
| Trees.Separation | kernel/mm/vmm/vmm.c:160-302 | In a forest registered tables have used frames, references go one level down inside one owner, each table below a root is referenced from exactly one slot and is met below exactly its owner. |
| VirtualMemory.KeyBits | kernel/mm/vmm/vmm.c:489-507 | Two addresses have the same table indexes exactly when they agree in bits 47..12. |
| VirtualMemory.PhysicalRuns | kernel/mm/vmm/vmm.c:1751-1892 | Inside an aligned page of 4 KiB, 2 MiB or 1 GiB, physical addresses run on from the frame, although the code joins frame and offset by a bitwise or. |
| VirtualMemory.Vmm.constructor | kernel/mm/vmm/vmm.c:160-302 | The whole invariant holds before anything is registered, with CR3 on tables of the boot loader that lie in any frames that are not free. |
| VirtualMemory.Vmm.Meaning | kernel/mm/vmm/vmm.c:160-302 | What the invariant means: separated trees in used frames, only frames free at the start are free, and at most one active address space, the one in CR3. |
| VirtualMemory.Vmm.CurrentReadable | kernel/mm/vmm/vmm.c:2442-2613 | Whatever CR3 refers to, none of its tables is a free frame or another root, so it can be copied. |
| VmmRuns.Boot | kernel/mm/pmm/pmm.c:133-262 | From the memory map alone both allocators come up with their invariants, wherever outside the usable regions the boot loader put its tables; which frames are usable then, and that the frame allocator is ready exactly if the map was answered and has room for the bitmap. |
| VmmRuns.LoaderInMap | kernel/mm/pmm/pmm.c:144-165 | Boot loader tables in memory that the map and so the frame allocator cover are among the cases. |
| VmmRuns.RunFrom | kernel/mm/vmm/vmm.c:1026-1735 | After any sequence of creating, mapping, unmapping, activating, destroying and preparing from boot, tables form disjoint, correctly owned trees in used frames, only usable frames are free, and at most one space is active. |
| VirtualMemory.Vmm.AllocateTable | kernel/mm/vmm/vmm.c:225-275 | Fails exactly when no frame or no record is left, restoring everything; otherwise a free frame becomes an empty registered table. |
| VirtualMemory.Vmm.ReleaseTable | kernel/mm/vmm/vmm.c:425-447 | Only a registered table is released; its record and its frame go together. |
| VirtualMemory.Vmm.GetOrCreate | kernel/mm/vmm/vmm.c:370-413 | Finds or creates the child without changing a translation; fails exactly at a large page or when nothing is left, restoring everything. |
| VirtualMemory.Vmm.RollbackTable | kernel/mm/vmm/vmm.c:455-484 | A child the slot still refers to is detached, and released with its record and frame exactly if it is registered; any other child changes nothing. |
| VirtualMemory.Vmm.MapPage | kernel/mm/vmm/vmm.c:1419-1605 | Succeeds exactly when the flags are 0, 2, 4 or 6, the addresses are aligned, the root is registered, the key is free, no large page is in the way and frames and records suffice for the tables that are missing; then exactly that key of that root changes, exactly the missing tables on its way exist in addition, and exactly as many frames and records are used; a failure restores tables, records and free frames. |
| VirtualMemory.Vmm.UnmapPage | kernel/mm/vmm/vmm.c:1620-1735 | Succeeds exactly for a 4 KiB mapping, removes exactly that key and returns its frame, and frees nothing. |
| VirtualMemory.Vmm.Translate | kernel/mm/vmm/vmm.c:1751-1892 | Agrees with the page walk for every address, large pages included. |
| VirtualMemory.Vmm.CreateSpace | kernel/mm/vmm/vmm.c:1039-1066 | A new root translates nothing and disturbs no other root; failure, exactly when frames, records or spaces run out, restores everything. |
| VirtualMemory.Vmm.Init | kernel/mm/vmm/vmm.c:1026-1032 | The kernel's root is a new registered root, or nothing has changed. |
| VirtualMemory.Vmm.Activate | kernel/mm/vmm/vmm.c:1290-1385 | Exactly registered spaces can be activated; afterwards at most one space is active, the one remembered, and the previous one is inactive. |
| VirtualMemory.Vmm.NewEpoch | kernel/mm/vmm/vmm.c:939-1021 | No record carries the new epoch, also after the 64-bit counter wraps. |
| VirtualMemory.Vmm.ValidateTree | kernel/mm/vmm/vmm.c:796-869 | Accepts exactly the hierarchies that are trees of live, correctly owned and levelled tables not met before, and changes nothing but epoch marks. |
| VirtualMemory.Vmm.DestroyTree | kernel/mm/vmm/vmm.c:882-931 | Releases exactly the tables of the tree, each once, and no mapped frame. |
| VirtualMemory.Vmm.CheckSpace | kernel/mm/vmm/vmm.c:939-1021 | A check under a fresh epoch accepts exactly the live trees without reserved entries. |
| VirtualMemory.Vmm.DestroyChecked | kernel/mm/vmm/vmm.c:939-1021 | For any hierarchy, malformed ones included: destroyed, with exactly its tables freed, exactly if it is a live tree without reserved entries of an inactive registered space; otherwise only epoch marks change. |
| VirtualMemory.Vmm.DestroySpace | kernel/mm/vmm/vmm.c:939-1021 | With the invariant it succeeds for exactly the registered spaces that are not active; then exactly the tables with that owner are gone and free and all other translations stand; otherwise nothing has changed. |
| Cloning.MirrorsWalk | kernel/mm/vmm/vmm.c:2186-2306 | A mirrored hierarchy translates every address like its source, large pages included. |
| Cloning.GrowthUndone | kernel/mm/vmm/vmm.c:2124-2174 | Discarding a partial copy gives back exactly what was taken since it began. |
| Costs.CopiesOfTree | kernel/mm/vmm/vmm.c:2186-2306 | A tree costs as many tables as it has. |
| Costs.CompleteWalks | kernel/mm/vmm/vmm.c:2186-2306 | No reference of a hierarchy is to frame 0 exactly if no address leads to frame 0; large pages are no obstacle. |
| Costs.OwnComplete | kernel/mm/vmm/vmm.c:2186-2306 | The tables the manager registered never refer to frame 0, so cloning them fails only for want of frames or records. |
| VirtualMemory.Vmm.CloneTable | kernel/mm/vmm/vmm.c:2186-2306 | Succeeds exactly if no reference of the source is to frame 0 and there are frames and records for the tables the source has, each counted as often as it is referred to; a clone consists of that many new tables only, mirrors its source for every address and leaves every other table alone; a failure at any depth restores tables, records and free frames. |
| VirtualMemory.Vmm.DiscardNew | kernel/mm/vmm/vmm.c:2124-2174 | Removes a partial copy and restores the state from before it. |
| CloneCheck.VerifyLevel | kernel/mm/vmm/vmm.c:2934-3059 | The level-by-level comparison decides exactly the relation the other rows speak of. |
| CloneCheck.ClonesAccepted | kernel/mm/vmm/vmm.c:2934-3059 | Every hierarchy that mirrors its source is accepted. |
| CloneCheck.AcceptedExactly | kernel/mm/vmm/vmm.c:2991-3056 | An accepted pair translates every address alike, ignoring accessed and dirty bits, exactly when no large page of the copy faces a table. |
| CloneCheck.AcceptanceCondition | kernel/mm/vmm/vmm.c:2934-3059 | Accepted without such a large page are exactly the pairs that translate alike and have distinct tables in the same places. |
| CloneCheck.AlikeButRefused | kernel/mm/vmm/vmm.c:2991-3056 | Two hierarchies that translate every address alike and are refused, since one has an empty table the other lacks. |
| CloneCheck.AcceptedButDifferent | kernel/mm/vmm/vmm.c:2991-3056 | Two hierarchies that are accepted although they translate an address differently. |
| VirtualMemory.Vmm.BuildRoots | kernel/mm/vmm/vmm.c:2442-2613 | For every slot that the kernel root lacks, a copy of the current hierarchy, or nothing at all; it succeeds exactly if no such slot faces a large entry and frames and records suffice for all the copies, counted before the first. |
| VirtualMemory.Vmm.TearDown | kernel/mm/vmm/vmm.c:2442-2613 | Takes all copies made so far back and restores the state from before. |
| Preparing.PublishEnd | kernel/mm/vmm/vmm.c:2442-2613 | Once all copies are linked, kernel slots present before translate as before, and absent ones as the current hierarchy does. |
| VirtualMemory.Vmm.Prepare | kernel/mm/vmm/vmm.c:2442-2613 | From the boot loader's tables or any active space. It succeeds exactly if neither root is NULL and either they are the same or the current hierarchy has no reference to frame 0, no absent slot of the kernel root faces a large entry, and frames and records suffice for the full clone and the copies under absent slots. Then the kernel root keeps every translation it had and gains those of the current hierarchy under its absent slots, beside a full clone that the clone comparison accepts, with every frame taken now a table; otherwise tables, records and free frames are as before. |
| Preparing.CloneAccepted | kernel/mm/vmm/vmm.c:2934-3059 | Writing the kernel root after cloning does not make the comparison refuse the clone. |
| Blocks.FirstFit | kernel/mm/heap/heap.c:116-175 | The first free block that is large enough, or none if there is none. |
| Blocks.TakeTiled | kernel/mm/heap/heap.c:121-172 | Allocation keeps the arena tiled with aligned payloads and no two adjacent free blocks. |
| Blocks.GiveTiled | kernel/mm/heap/heap.c:244-309 | Freeing and joining keeps the arena tiled with no two adjacent free blocks. |
| Blocks.TakeLive | kernel/mm/heap/heap.c:102-178 | Allocation adds one live allocation and keeps every other at its place and size. |
| Blocks.TakeCarves | kernel/mm/heap/heap.c:121-172 | Of a free block with 64 bytes or more to spare exactly the bytes asked for are handed out, followed by a free block of the rest less 32 bytes; else the whole block is, which is then less than 64 bytes too large; every other block stays as it is. |
| Blocks.GiveLive | kernel/mm/heap/heap.c:180-310 | Freeing removes exactly one live allocation. |
| Blocks.LiveDetermines | kernel/mm/heap/heap.c:82-310 | Where allocations are and how large they are determines the whole block list: two tilings with the same allocations are the same. |
| Blocks.LiveDisjoint | kernel/mm/heap/heap.c:102-178 | Live allocations are aligned, inside the arena and pairwise disjoint. |
| Blocks.TakeGive | kernel/mm/heap/heap.c:102-310 | Freeing right after allocating restores the exact block list. |
| Blocks.Conservation | kernel/mm/heap/heap.c:82-310 | Used bytes, free bytes and 32 bytes a block add up to the arena. |
| Blocks.RunTiled | kernel/mm/heap/heap.c:82-310 | After any sequence of calls the block list tiles the arena. |
| Blocks.FreeAllInitial | kernel/mm/heap/heap.c:180-310 | Freeing all live allocations in any order, with any other pointers in between, gives the single initial block. |
| Blocks.RunFreed | kernel/mm/heap/heap.c:82-310 | After any sequence of calls, freeing what is then allocated gives the initial heap. |
| KernelHeap.AlignUp | kernel/mm/heap/heap.c:65-73 | The next multiple of 16, or 0 exactly for 0 and when 64 bits do not suffice. |
| KernelHeap.SplitRep | kernel/mm/heap/heap.c:131-152 | Linking in one header after a block is a split of the list, with all links in both directions right. |
| KernelHeap.MergeRep | kernel/mm/heap/heap.c:260-279 | Unlinking one header is a merge of the list, with all links right. |
| KernelHeap.Heap.Init | kernel/mm/heap/heap.c:82-100 | One free block covers the arena. |
| KernelHeap.Heap.Search | kernel/mm/heap/heap.c:116-175 | Walking the links finds the first fitting block of the list. |
| KernelHeap.Heap.Kmalloc | kernel/mm/heap/heap.c:102-178 | Allocates exactly when the size is positive, can be rounded up and some free block fits; then the first fit is handed out, split where 64 bytes or more would be left over, with every other block as it was, and links and counters agree with the list; otherwise nothing changes. |
| KernelHeap.Heap.Kfree | kernel/mm/heap/heap.c:180-310 | Exactly the allocation whose payload the pointer is goes, and no other; any other pointer changes nothing; no check against the arena rejects an allocation. |
| KernelHeap.PayloadLive | kernel/mm/heap/heap.c:188-210 | The pointers that are freed are exactly the payloads of live allocations. |
| KernelHeap.Heap.Counted | kernel/mm/heap/heap.c:82-310 | After whatever calls, the two byte counters and 32 bytes a block make up the 64 KiB arena. |
| Rings.Ring.constructor | kernel/sched/runqueue.c:14-29 | An empty ring. |
| Rings.Ring.Contains | kernel/sched/runqueue.c:31-53 | Membership in the queue, for every head position. |
| Queues.RunqueueEnqueue | kernel/sched/runqueue.c:55-82 | On the ring buffer, exactly a ready task that is not queued joins the runqueue, last, while a slot is free. |
| Queues.WaitEnqueue | kernel/sched/wait_queue.c:56-94 | On the ring buffer, exactly a blocked task without an owner joins a wait queue, last, and has it as its owner then. |
| Queues.WaitAndLeave | kernel/sched/wait_queue.c:56-200 | Entering a wait queue and leaving it again restores the queue's order and the task, wherever the ring's head is. |
| Rings.Ring.Dequeue | kernel/sched/runqueue.c:95-114 | Takes the oldest member and keeps the others in order. |
| Rings.Ring.Remove | kernel/sched/runqueue.c:116-169 | Deletes exactly one member and keeps the order of all others, with unused slots NULL, also across the wrap. |
| Rings.Ring.RemoveOwned | kernel/sched/wait_queue.c:141-200 | The same for a wait queue, whose member loses its owner exactly if that is this queue. |
| Tasks.ToQueueInv | kernel/sched/scheduler.c:173-221 | Putting the running task at the end of the runqueue with its continuation recorded keeps the ownership invariant. |
| Tasks.ToWaitInv | kernel/sched/task.c:637-670 | Moving the running task to a wait queue keeps the ownership invariant. |
| Tasks.ToPendingInv | kernel/lifecycle/lifecycle.c:60-106 | Ending the running task and publishing it for reclamation keeps the ownership invariant. |
| Tasks.ToCpuInv | kernel/sched/scheduler.c:41-78 | Giving the CPU to the head of the runqueue keeps the ownership invariant. |
| Tasks.WakeInv | kernel/sched/task.c:700-812 | Moving a blocked task to the runqueue keeps the ownership invariant. |
| Tasks.StacksApart | kernel/sched/task.c:27-53 | Stacks of two registered tasks do not overlap. |
| Owners.AdmitInv | kernel/execution/execution.c:349-471 | Publishing a new task in registry, process and runqueue keeps the ownership invariant. |
| Owners.ForgetInv | kernel/execution/execution.c:122-164 | Taking a task from all its owners keeps the ownership invariant. |
| Owners.AddProcessInv | kernel/process/process.c:250-369 | A new process for an address space nobody has keeps the ownership invariant. |
| Owners.DropProcessInv | kernel/process/process.c:387-435 | Removing a process without tasks keeps the ownership invariant. |
| Owners.Detached | kernel/process/process.c:143-155 | Filling the gap with the last member removes exactly one member and leaves no duplicates. |
| Runs.StepInv | kernel/sched/scheduler.c:41-540 | Every step of the scheduler, of creation and of destruction keeps the ownership invariant. |
| Runs.RunInv | kernel/sched/scheduler.c:41-540 | The ownership invariant holds in every state of every run. |
| Theorems.OneOwner | kernel/sched/task.c:545-812 | Every registered task is in exactly one place, the one its state and back-pointer name, once; and nothing else is in any place. |
| Theorems.OneOwnerInEveryRun | kernel/sched/scheduler.c:41-540 | The same in every state of every run of creation, scheduling, blocking, waking, exit, destruction and reclamation from boot. |
| Theorems.LegalChanges | kernel/sched/task.c:221-270 | Every step leaves a task's state or changes it from ready to running, from running to ready, blocked or ended, or from blocked to ready; and only its own removal takes a task from the registry. |
| Theorems.EndIsFinal | kernel/sched/task.c:221-270 | In every run a task that has ended stays ended until it is removed. |
| Theorems.ResumedFromLatest | kernel/arch/x86_64/sched/dispatch.c:15-44 | In every run, a ready or blocked task would be resumed exactly where it last gave up the CPU: by yield, block or timer, or at its entry if it never ran. |
| Theorems.BoundedWaiting | kernel/sched/scheduler.c:95-540 | A task at index k of the runqueue is running within k + 1 handoffs, whatever other steps come between, unless it is destroyed. |
| Orders.EndedInOrder | kernel/lifecycle/lifecycle.c:60-226 | In every run, of two ended tasks that have not been removed the one that ended first stands before the other in the list from which tasks are reclaimed. |
| Orders.ReapedWithin | kernel/lifecycle/lifecycle.c:108-226 | In every run, the ended task at index k of the list is removed within k + 1 reclamations, whatever other steps come between. |
| Orders.WaitingInOrder | kernel/sched/wait_queue.c:56-94 | In every run, of two tasks that wait in a queue the one that blocked first stands first. |
| Theorems.NeverFull | kernel/sched/runqueue.c:65-72 | Runqueue, wait queues and reclamation list have room for every registered task that is not in them. |
| Theorems.RoomForNew | kernel/process/process.c:71-75 | An unused identifier means room in the runqueue and in every process. |
| Theorems.CreateThenRemove | kernel/execution/execution.c:122-471 | Destroying a task that was just created gives back the state of every owner. |
| Stacks.StackInWindow | kernel/sched/task.c:27-53 | Exactly the identifiers 1 to 256 have a stack address, inside the reserved window and above a guard page. |
| Stacks.MapStack | kernel/sched/task.c:55-138 | Succeeds exactly when none of the four addresses is mapped and there are frames and records for four pages and for the tables lacking on their ways, counted once where pages share them; then four new frames are mapped at exactly the slot's addresses, as present, writable, non-user pages; else the frames taken are back or are tables, the slot's addresses are unmapped, what they mapped is free, and which frames of the slot go astray is stated exactly. |
| Stacks.AffordsRoom | kernel/sched/task.c:55-138 | Sixteen free frames and twelve free records suffice for any stack. |
| Stacks.ClearedSame | kernel/sched/task.c:114-137 | The rollback leaves all translations alone exactly when the slot was empty. |
| Stacks.CheckStack | kernel/sched/task.c:152-178 | Accepts exactly a slot that translates to the recorded frames, by small or large pages. |
| Stacks.UnmapStack | kernel/sched/task.c:140-217 | Succeeds exactly for a stack of 4 KiB mappings to the recorded frames, and gives exactly those back; it fails with something changed exactly when all frames agree, the first page is small and a later one lies in a large page; the invariant survives exactly if no frame given back is a table or was never handed out. |
| Stacks.TornStack | kernel/sched/task.c:148-217 | A stack in a proper window, in well-formed tables, that the release leaves half unmapped. |
| Backing.LayoutExists | kernel/linker.ld:89-102 | Stack pages of different slots, and stack and guard pages, have different translation keys. |
| Backing.FailedCreate | kernel/sched/task.c:114-137 | A failed creation keeps all translations exactly when nobody had the identifier. |
| Backing.BackedAdmit | kernel/sched/task.c:372-507 | With a new task exactly one more stack is mapped, to frames no other task and no table has. |
| Backing.BackedForget | kernel/sched/task.c:900-954 | With a task gone its stack is unmapped and no other task's frame is freed. |
| StackRuns.SchedulingKeepsStacks | kernel/sched/scheduler.c:41-540 | No step but creation and destruction changes which stacks are mapped. |
| StackRuns.MoveBacked | kernel/sched/task.c:55-217 | Every step, failed creation and page-table operation away from stacks keeps, together with ownership, that exactly registered tasks' stacks are mapped. |
| StackRuns.StacksInEveryRun | kernel/sched/task.c:55-217 | In every state of every run from boot, stack pages are mapped exactly while a task has the identifier, to frames no other task and no table has, and guard pages are never mapped. |
| StackRuns.AwayFromStacks | kernel/linker.ld:89-102 | An address outside the window, also when only the translated bits are looked at, shares its key with no stack or guard page. |
| StackRuns.OneKeyElsewhere | kernel/mm/vmm/vmm.c:1419-1735 | Mapping or unmapping another key, or a key of another address space, leaves all stacks alone. |
| StackRuns.SpaceElsewhere | kernel/mm/vmm/vmm.c:939-1021 | Destroying another address space leaves all stacks alone. |
| StackRuns.PreparedElsewhere | kernel/mm/vmm/vmm.c:2442-2613 | Preparing the kernel root leaves all stacks alone once it has the entries above them. |
| Kernels.Kernel.constructor | kernel/sched/scheduler.c:23-34 | The whole invariant holds at the start, over an empty stack window. |
| Kernels.Kernel.Yield | kernel/sched/scheduler.c:95-252 | Fails only without a running or a ready task, changing nothing; otherwise the head of the runqueue runs, from where it last gave up the CPU, and the task that yielded is ready, last in the runqueue, with its own continuation; no other record changes; every later failure, a rejected dispatch included, is unreachable, and the whole invariant is kept. |
| Kernels.Kernel.Start | kernel/sched/scheduler.c:41-78 | The first ready task becomes the running one unless there is one already, and the whole invariant is kept. |
| Kernels.Kernel.PreemptCurrent | kernel/sched/scheduler.c:337-452 | The CPU goes to the candidate exactly if it is the head of the runqueue. |
| Kernels.Kernel.HandleTimer | kernel/arch/x86_64/sched/preempt.c:123-234 | The interrupted task's frame becomes its continuation; with another ready task that one runs, from where it last gave up the CPU, and the interrupted one is ready and last in the runqueue; without one, without preemption or without a running task the interrupted code continues; no other record changes, and the whole invariant is kept. |
| Kernels.Kernel.PrepareFirstRun | kernel/arch/x86_64/sched/preempt.c:40-106 | The first frame fits every stack and is aligned, so preparation never fails. |
| Kernels.Kernel.WaitInit | kernel/sched/wait_queue.c:7-27 | The queue is empty, and ownership survives exactly if it was empty or new. |
| Kernels.Kernel.Block | kernel/sched/task.c:545-698 | Which argument or state is refused, with nothing changed; otherwise the task is blocked, last in the queue, with its own continuation, and the head of the runqueue runs; no failure after the commit is reachable. |
| Kernels.Kernel.BlockCurrent | kernel/sched/scheduler.c:254-335 | A blocked current task hands the CPU to the head of the runqueue, or is refused with nothing changed. |
| Kernels.Kernel.WakeTask | kernel/sched/task.c:700-812 | Succeeds for exactly the blocked registered tasks, which are then ready, last in the runqueue and in no wait queue; why any other object is refused, with nothing changed. |
| Kernels.Kernel.Finish | kernel/sched/task.c:309-369 | When a task's entry returns, it is ended, not to be resumed and last in the list of tasks to reclaim, and the head of the runqueue runs; the CPU halts only if there is none. |
| Kernels.Kernel.Register | kernel/sched/task_registry.c:27-54 | A task is registered exactly if its identifier is in range and free; the count is the number of occupied slots and is never the obstacle. |
| Kernels.Kernel.Unregister | kernel/sched/task_registry.c:71-99 | Exactly a registered task is removed. |
| Kernels.Kernel.Attach | kernel/process/process.c:36-103 | Which membership is refused and why, with nothing changed; otherwise process and task point at each other. |
| Kernels.Kernel.Detach | kernel/process/process.c:105-164 | Exactly an agreed membership is released, on both sides. |
| Kernels.Kernel.FindBySpace | kernel/process/process_registry.c:145-170 | Returns a registered process that has the address space, or NULL exactly if there is none. |
| Kernels.Kernel.RegisterProcess | kernel/process/process_registry.c:27-73 | Which object is refused and why, with nothing changed; the count is the number of occupied slots and is never the obstacle. |
| Kernels.Kernel.UnregisterProcess | kernel/process/process_registry.c:75-110 | Exactly a registered process is removed, and the count never stands in the way. |
| Kernels.Kernel.ProcessCreate | kernel/process/process.c:250-369 | Succeeds exactly for an unregistered object, a free identifier and a live address space that no process has; then the object is a live process with that identifier and space and no tasks, and registered; a failure writes nothing but the object. |
| Kernels.Kernel.Terminate | kernel/process/process.c:371-385 | Exactly a live registered process ends. |
| Kernels.Kernel.DestroyProcess | kernel/process/process.c:387-435 | Exactly an ended process without tasks is removed. |
| Kernels.Kernel.TaskCreate | kernel/sched/task.c:372-507 | Succeeds exactly for an object, an identifier of 1 to 256 that no task has, an entry and the kernel's address space, when there is room for the stack; then the object is a ready, unpublished task with the identifier, entry, space and continuation asked for, on its own mapped stack at the identifier's address; what a failure leaves behind is stated in full. |
| Kernels.Kernel.ValidateReclaim | kernel/sched/task.c:814-898 | Accepts exactly tasks that are off the CPU, not to be resumed from a frame, ready or ended, in no wait queue and with their stack as recorded. |
| Kernels.Kernel.TaskDestroy | kernel/sched/task.c:900-954 | Exactly such a task that no process, runqueue or registry holds, on a stack of 4 KiB mappings, is destroyed and its stack released: the object is ended, not to be resumed and without stack, process and entry; what a large page leaves half released is stated in full; otherwise nothing changes; the invariant survives exactly if every frame given back was handed out and is no table. |
| Kernels.Kernel.PreflightDestroy | kernel/execution/execution.c:60-93 | Passes exactly for a registered ready task of the process that the timer has not suspended. |
| Kernels.Kernel.DestroyTask | kernel/execution/execution.c:122-164 | After the preflight nothing fails: the task is gone from registry, process and queues, all other tasks are as and where they were, the object is ended and without stack, the stack is unmapped and its frames are free; before it nothing changes. |
| Moves.ForgetDeparts | kernel/execution/execution.c:122-164 | Taking a task from its owners leaves it in none of them, its object ended and without stack, and every other task in exactly the places it was in. |
| Kernels.Kernel.DestroyKernelTask | kernel/execution/execution.c:166-199 | The same with the process, exactly when the task is its only one; the stack is unmapped and exactly its frames are free. |
| Kernels.Kernel.Announce | kernel/execution/execution.c:270-346 | With an unused identifier registry, process and scheduler all accept the task, so no rollback is entered. |
| Kernels.Kernel.CreateTask | kernel/execution/execution.c:349-471 | It succeeds exactly for an object, an entry, a registered process and its own address space, the kernel's, with an identifier that no task has and room for the stack; which refusal has which code. On success the task has the identifier, entry, space, process and continuation asked for, is ready, last in the runqueue and in its process, and on a stack of its own at the identifier's address; nothing else has changed. With an unused identifier a failure writes only the task object, every translation is as before and every frame back or a table. A used identifier makes it fail and cost that task its stack: the slot is unmapped, the frames are free and the invariant is lost. |
| Kernels.Kernel.CreateKernelTask | kernel/execution/execution.c:201-347 | The same for a process with its first task: it succeeds exactly if the process can be created, the identifier is unused and there is room for the stack, and then process and task are as asked for and published; otherwise both registries, memberships and queues are as before, for used identifiers too. |
| Kernels.Kernel.ReapOne | kernel/lifecycle/lifecycle.c:108-226 | Reclaims the head of the list of ended tasks whenever there is one, and the list goes on with the rest: the task is gone from registry, process and list, its object ended and without stack, its stack unmapped and its frames free; no refusal is reachable. |
| KernelRuns.ServePages | kernel/mm/vmm/vmm.c:939-2613 | Page-table requests from elsewhere in the kernel keep the whole invariant, as long as they touch no stack address and not the kernel root as such. |
| KernelRuns.RunFrom | kernel/execution/execution.c:122-471 | After any sequence of calls, page-table requests among them, until the CPU halts for want of a ready task, every registered task has exactly the owner its state names, and exactly the registered tasks' stacks are mapped, each page to a frame of its own. |
| KernelRuns.RunFromBoot | kernel/execution/execution.c:122-471 | The same from the memory map and the boot loader's tables alone; the kernel comes up exactly if the frame allocator has a frame to give. |
| Scenarios.UsedIdentifier | kernel/sched/task.c:114-137 | A boot, a first task, and a second creation with the same identifier: it fails, the first task's stack is unmapped and its frames free, and the invariant is lost. |
| Scenarios.DestroyedAfterRunning | kernel/execution/execution.c:60-164 | A boot, two tasks, one of which runs and yields: destroying it succeeds. |
| Scenarios.ForgottenWaiter | kernel/sched/wait_queue.c:7-27 | A boot, two tasks, one of which blocks: initialising its queue again leaves it blocked in no queue. |

## Left out

- Console, framebuffer, boot messages and the boot sequence: output and ordering only.
- ACPI, APIC, PIC, PIT, IDT, GDT and TSS set-up, and clock calibration: device access and descriptor packing.
- Assembly: a context switch saves the current continuation, a token given by the caller, and resumes a target; an interrupt pushes a frame on the interrupted stack.
- CR3, the interrupt flag and the halted CPU are variables; the TLB is not modelled. Returning to an interrupt frame sets the interrupt flag, since a maskable interrupt is only taken with it set.
- Software timers and `kernel/runtime/runtime.c`: thin and separable.
- The dynamic heap page (`heap_dynamic_page_acquire` and `heap_dynamic_page_release`): one mapping and one unmapping.
- `map_kernel_section`, `vmm_create_kernel_address_space` and the inspection functions of `vmm.c`: repeated mapping, and reading walks like `vmm_translate`.
- Effective permissions across levels, updates of accessed and dirty bits, and PAT bits: only the fields of each entry are tracked.
- `wait_queue_dequeue`: it leaves a blocked task without an owner, and the kernel does not call it.
- The checks of "not initialised" in registries and queues: the model starts after initialisation; a wait queue is initialised exactly when it is a key of `waits`.
- Creation and destruction of tasks do not mask interrupts in the code; each is one step here, as when preemption is off.
- `Kernel` holds its queues as the sequences that `Ring` is proved to implement, not as `Ring` objects, and its variables as one record.
- Memory of a task's stack is modelled only as far as interrupt frames lie in it: whatever runs may change its own stack and no other.
- VirtualMemory.Vmm.CloneTable: requires that the tables of the source lie in memory and not in free frames, which the code takes for granted.
- VirtualMemory.Vmm.constructor: requires that the boot loader's page tables lie outside the frames that are free, which the memory map promises and the code takes for granted.
- VirtualMemory.Vmm.Prepare: requires that the kernel root, if there is one, is still a registered root; the code reads it without a check.
- KernelRuns.RunFrom: leaves out calls that reuse an identifier or a registered task object, empty a queue in which tasks wait, map or unmap a stack address, destroy the kernel root, or prepare it before it has entries above the stacks; `CreateTask`, `WaitInit`, `MapPage`, `UnmapPage`, `DestroySpace` and `Prepare` state what those do.
