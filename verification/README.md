# bizcocho OS: a verified model

A Dafny model of the kernel of a small teaching operating system, of two of its user
programs, and of the tool that lays out its disk. The code it models is written in C and
changes everything in place; the model keeps that form where it matters (classes with the
same loops over the same lists and arrays) and ties each of these methods to a function of
values, about which the theorems are proved.

What is modelled, and what is proved about it:

* **Memory.** The buddy allocator (`Buddy*.dfy`) and the first-fit allocator (`Kr*.dfy`).
  After any history the free blocks depend on the live blocks alone: they are the maximal
  ones, so freeing everything restores the beginning; a request fails exactly when nothing
  fits; linked lists, headers and order bytes in the arrays always agree with that.
* **Processes.** The five-queue scheduler (`Kernel.dfy`, `KernelSteps.dfy`, `RoundRobin.dfy`)
  and its routines as they run (`Scheduler.dfy`, `Walks.dfy`), with the pointer writes that
  keep its queues and lists of children well linked (`Chains.dfy`, `Links.dfy`). Every step
  keeps queues, blocked lists, family tree, quanta and death list in agreement; the search for
  the next process ends at the nearest ready one (`Dispatch.dfy`); every ready process gets the
  CPU at a tick that can be told in advance, and keeps it for as many ticks as its priority
  says (`Quanta.dfy`).
* **Descriptors and pipes.** Reference counts (`OpenFiles.dfy`, `OpenCounts.dfy`, `LostCounts.dfy`), the ring
  buffer (`PipeRing.dfy`) and every interleaving of blocked and resumed reads and writes
  (`PipeRuns.dfy`).
* **The whole kernel as a transition system** (`Machine.dfy`, `MachineSteps.dfy`,
  `MachineRuns.dfy`, `Effects.dfy`, `Streams.dfy`, `Sleepers.dfy`, `WaitExit.dfy`,
  `AnyChild.dfy`, `Departures.dfy`): system calls are
  atomic up to the point where they block, because the handler runs with interrupts disabled;
  a blocked call has a resume point. init makes no system calls: it collects its children by
  calling the kernel's code directly, with interrupts enabled, so that other processes run in
  the middle of it (`Reaping.dfy`, `InitReaps.dfy`).
* **Semaphores** (`Semaphore.dfy`, `Mutex.dfy`) and two protocols on top of them: the dining
  philosophers on a table of any size (`Philosophers.dfy`) and the shared counter with
  separate loads and stores (`SharedCounter.dfy`).
* **Smaller parts.** The doubly linked list with its removing iterator (`LinkedList.dfy`), file
  placement on a BareMetal File System disk (`BmfsDirectory.dfy`, `BmfsCreate.dfy`) and the
  time-zone calendar (`Calendar.dfy`), judged by the closed form of the Gregorian calendar
  (`Gregorian.dfy`).

Run `dafny verify dfyconfig.toml` in this directory to check everything.

## Where the code does not do what it seems meant to do

The model follows the code. In each of these places a lemma gives the exact condition under
which the evident intent is met, and the lemma named behind it a run or an input for the
other case:

* A read of 0 characters, or a second writer, makes a pipe lose 1024 characters, because a
  woken writer does not test for room again (`PipeRuns.DeliveredInOrderIff`; `ZeroReadRun`,
  `TwoWriterRun`).
* A write of 1024 characters or more can leave reader and writer blocked on each other
  (`PipeRuns.NeverStuckIff`; `LongWriteRun`).
* Philosophers keep the ids of their forks in eight bits. Ids are never used again, so after
  some sessions forks are out of reach and neighbours eat together (`Philosophers.AlwaysSafeIff`;
  `NeighboursEatRun`).
* init collects a child with interrupts enabled. A process that becomes a child of init after
  the walk over init's children and before the store behind their end is in no list and is
  never collected (`InitReaps.ReapAgreesIff`; `LostChildRun`). A child of the collected process
  that ends before it has been handed over does not end (`Machine.FinishesIff`;
  `InitReaps.OrphanLivesRun`). A queue is broken if the neighbours of the node change while it
  is unlinked (`Chains.LateSkipIff`, `HalfPushIff`, `HalfSkipIff`; `StaleLinks`), and a free
  block is lost if its list changes while it is freed (`BuddyLists.LatePushIff`; `StaleHead`).
* `waitchild(0)` picks the first child when it is called, whichever child ends; if that one is
  alive it is freed all the same (`AnyChild.AnyChildCollectsIff`; `LivingChildCollected`).
* Restoring a descriptor counts a writing end down and wakes nobody, so a reader can sleep
  without anybody left to wake it, on a pipe that nobody has open
  (`PipeRuns.SleepersHaveWriterIff`; `DroppedWriterRun`; `OpenCounts.RevertLeavesIff`).
* A parent whose pid does not fit into eight bits is not recorded as the parent
  (`KernelSteps.StartKeepsFamilyIff`; `Departures.LateParentRun`).
* A killed process stays in the queue of the semaphore it waits for
  (`MachineSteps.KillSemsIff`; `Departures.KilledWaiterRun`).
* `dup2` over an open pipe end, restoring a descriptor that did not hold its own number,
  inheriting the table of a finished process and killing a finished process all put the
  reference counts of pipes out of step (`OpenCounts.Dup2KeepsIff`; `LostCounts.Dup2TwiceRun`;
  `OpenCounts.RevertKeepsIff`; `RevertHighRun`; `OpenCounts.Dup2Reverted`; `RevertClosedRun`;
  `OpenCounts.InheritKeepsIff`; `InheritStaleRun`; `OpenCounts.CloseAgainKeepsIff`;
  `KilledTwiceRun`).
* `mkpipe` compares names from the third character of its argument on, so it accepts a name
  twice and refuses others (`OpenFiles.MkpipeKeepsNamesIff`; `SameNameTwice`).
* A deleted record can make the file placement overlap files, and so can a directory without
  a terminator, which may even cut off all files (`BmfsCreate.CreateKeepsIff`; `OverlapRun`;
  `BmfsCreate.CreateUnterminatedIff`; `UnterminatedRun`).
* A file of 2^64 - 1 megabytes gets no room instead of being refused, because rounding its size
  up ends at 0 (`BmfsCreate.EnoughRoomIff`).
* Minutes that add up to more than 67 overflow eight bits, and zones beyond a day are not
  followed (`Calendar.GetCurrentDateTime`, whose condition is arithmetic on the arguments:
  minute 40 and half an hour more do not meet it).
* The shared counter is exact only under the semaphore (`SharedCounter.ExactIffGuarded`;
  `LostUpdate`).

Two places are left as they are without such a lemma. When a process without children is
removed, `inheritChildren` writes through NULL (`scheduler.c:281`); that write hits no node and
does nothing in the model. And a removal from a list whose element is current again leaves the
iteration on a freed node; the model says when, and nothing about such an iteration until it
starts over (`LinkedList.List.Remove`).

## Model

| member | source | states |
|---|---|---|
| BuddyBlocks.FreeIsMaximal | Kernel/c/mem/buddy.c:102-201 | free and live blocks that tile the arena with no two free buddies: a block is free exactly when it is a maximal aligned power-of-two block that touches no live one |
| BuddyBlocks.FreeDeterminedByLive | Kernel/c/mem/buddy.c:102-201 | two such tilings with the same live blocks have the same free blocks |
| BuddyBlocks.SplitHeld | Kernel/c/mem/buddy.c:102-125 | splitting a held block leaves a tiling: the lower half free, the upper half held |
| BuddyBlocks.MergeHeld | Kernel/c/mem/buddy.c:174-186 | giving back a block whose buddy is free, and holding their parent instead, leaves a tiling |
| BuddyBlocks.TakeFree | Kernel/c/mem/buddy.c:107-110 | handing out a free block leaves a tiling |
| BuddyBlocks.ReleaseHeld | Kernel/c/mem/buddy.c:180-184 | giving back a block whose buddy is not free leaves a tiling without free buddies |
| BuddyBlocks.FreeRegion | Kernel/c/mem/buddy.c:127-144 | an aligned block that no live block touches lies inside one free block |
| BuddyHeap.CeilLog2 | Kernel/c/mem/buddy.c:42-52 | the least exponent whose power of two reaches the request |
| BuddyHeap.Carve | Kernel/c/mem/buddy.c:102-125 | it hands out a block of the order asked for and keeps lists, tiling and order bytes sound, or changes nothing and every list from that order up is empty |
| BuddyHeap.CarveHalf | Kernel/c/mem/buddy.c:116-124 | one split step: the lower half goes on its list, the upper half gets its order byte and is held, and lists, tiling and order bytes stay sound |
| BuddyHeap.Restore | Kernel/c/mem/buddy.c:174-186 | giving a block back, with every merge that follows, keeps lists, tiling and order bytes sound |
| BuddyHeap.RestoreMerged | Kernel/c/mem/buddy.c:176-185 | the free block found inside the pair is the buddy, and the pair can be given back instead |
| BuddyHeap.RestoreAlone | Kernel/c/mem/buddy.c:180-184 | if no free block of the order lies inside the pair, the block becomes free as it is |
| BuddyRuns.Init | Kernel/c/mem/buddy.c:87-100 | one free block of the largest order, nothing live |
| BuddyRuns.RequestOrderFits | Kernel/c/mem/buddy.c:134-135 | the rounded order has room for the request and its order byte, is at least that of 32 bytes, and is the least such |
| BuddyRuns.MemAlloc | Kernel/c/mem/buddy.c:127-144 | a success adds exactly one live block of the rounded order whose first byte lies in front of the result; a failure changes nothing |
| BuddyRuns.MemFree | Kernel/c/mem/buddy.c:188-201 | exactly the block behind the address stops being live; addresses outside the arena change nothing |
| BuddyRuns.Store | Kernel/c/mem/buddy.c:196-196 | a program that writes behind the first byte of its own blocks changes no order byte and no list (whose nodes FreeNodeInside places) |
| BuddyBlocks.NoSmallerFree | Kernel/c/mem/buddy.c:10-11 | if no live block is smaller than some order, no free block is |
| BuddyRuns.FreeNodeInside | Kernel/c/mem/buddy.c:29-34 | a free block is at least 32 bytes long, so the list node at its beginning lies inside it, and no byte of the node belongs to a live block |
| BuddyRuns.HistoryExact | Kernel/c/mem/buddy.c:102-201 | after any run of memalloc, memfree and stores: the free blocks are exactly the maximal aligned ones touching no live block, each live block's first byte is its order, and memUsed plus the free sizes is memSize |
| BuddyRuns.HistoryIndependence | Kernel/c/mem/buddy.c:102-201 | two runs that end with the same live blocks end with the same free blocks and the same memUsed |
| BuddyRuns.FreeingAllRestoresInit | Kernel/c/mem/buddy.c:174-201 | freeing everything, in any order, brings back the very lists of the beginning |
| BuddyRuns.AllocFailsIff | Kernel/c/mem/buddy.c:127-144 | memalloc fails if and only if the request is 0 or no aligned block of the rounded size avoids all live blocks |
| BuddyRuns.CarveTakes | Kernel/c/mem/buddy.c:102-125 | which block is handed out: the top end of the last block of the first nonempty list, the lower halves left alone in theirs |
| BuddyRuns.FreeUndoesAlloc | Kernel/c/mem/buddy.c:127-201 | memfree right after memalloc gives back the same free blocks and memUsed |
| BuddyRuns.TilesFill | Kernel/c/mem/buddy.c:96-99 | the sizes of free and live blocks add up to the arena |
| BuddyLists.PushNode | Kernel/c/mem/buddy.c:75-84 | the four writes of addToList put a node in front of its list and keep every list doubly linked |
| BuddyLists.SkipNode | Kernel/c/mem/buddy.c:146-172 | rewriting head, next and prev of the neighbours takes a node out of its list and keeps every list doubly linked |
| BuddyLists.LatePushIff | Kernel/c/mem/buddy.c:75-84 | addToList with a head that was read earlier: whatever happened to the lists since, the node comes in front and every list stays linked if and only if that head is still the head |
| BuddyLists.StaleHead | Kernel/c/mem/buddy.c:75-84 | a late push that loses a block freed in between |
| BuddyAllocator.LogBase2 | Kernel/c/mem/buddy.c:42-52 | the power of two just above the request, or just below it |
| BuddyAllocator.CeilLog2Unique | Kernel/c/mem/buddy.c:42-52 | no other exponent has that property |
| BuddyAllocator.Allocator.constructor | Kernel/c/mem/buddy.c:87-100 | the object starts as the initial heap |
| BuddyAllocator.Allocator.AddToFreeList | Kernel/c/mem/buddy.c:75-84 | the block becomes the first of its list and its first byte its order |
| BuddyAllocator.Allocator.RemoveLast | Kernel/c/mem/buddy.c:54-73 | the last node of the list, found by walking, is taken off it |
| BuddyAllocator.Allocator.FindAndRemove | Kernel/c/mem/buddy.c:146-172 | the first node inside the pair, if there is one, is taken off the list |
| BuddyAllocator.Allocator.UpdatingLists | Kernel/c/mem/buddy.c:102-125 | the recursion over the linked lists does what Carve does to the abstract heap |
| BuddyAllocator.Allocator.RestoreToList | Kernel/c/mem/buddy.c:174-186 | the recursion over the linked lists does what Restore does |
| BuddyAllocator.Allocator.Memalloc | Kernel/c/mem/buddy.c:127-144 | the object changes as MemAlloc changes the abstract state, and returns its result |
| BuddyAllocator.Allocator.Memfree | Kernel/c/mem/buddy.c:188-201 | the object changes as MemFree changes the abstract state |
| KrHeap.RunsAreMaximal | Kernel/c/mem/krheap.c:28-129 | every run of the free list is a maximal run of units outside the live blocks |
| KrHeap.MaximalIsListed | Kernel/c/mem/krheap.c:28-129 | every such maximal run is on the free list |
| KrHeap.FreeListDetermined | Kernel/c/mem/krheap.c:28-129 | two free lists beside the same live blocks are the same sequence |
| KrHeap.CutInv | Kernel/c/mem/krheap.c:49-67 | taking the tail of a run, or a whole run, leaves free runs and live blocks that cover the heap, ordered and never adjacent |
| KrHeap.AllocInv | Kernel/c/mem/krheap.c:37-72 | memalloc keeps runs and live blocks ordered, covering the heap and never adjacent |
| KrHeap.FreeInv | Kernel/c/mem/krheap.c:74-129 | memfree, joining the block with the runs it touches, keeps runs and live blocks ordered, covering the heap and never adjacent |
| KrRuns.HistoryExact | Kernel/c/mem/krheap.c:28-129 | after any run: the free list holds exactly the maximal runs, in address order with a gap between neighbours, and free and live units add up to BLOCK_AMOUNT |
| KrRuns.HistoryIndependence | Kernel/c/mem/krheap.c:28-129 | two runs that end with the same live blocks end with the identical free list |
| KrRuns.AllocFailsIff | Kernel/c/mem/krheap.c:37-72 | memalloc fails if and only if the request is 0 or nowhere do as many units lie free in a row as the least number that holds header and request |
| KrRuns.UnitsAreLeast | Kernel/c/mem/krheap.c:45-45 | the units taken hold one header and the bytes asked for, and no fewer would |
| KrRuns.AllocTakesFirstFit | Kernel/c/mem/krheap.c:47-67 | the block is the end, of just that many units, of the lowest maximal run that is long enough |
| KrRuns.FreeUndoesAlloc | Kernel/c/mem/krheap.c:37-129 | memfree right after memalloc restores the identical state |
| KrRuns.MemFree | Kernel/c/mem/krheap.c:74-129 | exactly the block behind the address stops being live, the free list is again the list of all free runs, and no unit is lost; addresses outside the heap change nothing |
| KrAllocator.SplitLinked | Kernel/c/mem/krheap.c:61-66 | the two header writes of a split leave headers linked as the shortened list |
| KrAllocator.TakenLinked | Kernel/c/mem/krheap.c:51-60 | unlinking a run of the exact size leaves headers linked as the list without it |
| KrAllocator.JoinLinked | Kernel/c/mem/krheap.c:84-128 | the header writes of memfree leave headers linked as the list with the block joined in |
| KrAllocator.Allocator.constructor | Kernel/c/mem/krheap.c:28-35 | one free run over the whole heap |
| KrAllocator.Allocator.Memalloc | Kernel/c/mem/krheap.c:37-72 | the object changes as Alloc changes the abstract state, and returns its address |
| KrAllocator.Allocator.FindFit | Kernel/c/mem/krheap.c:47-49 | the walk stops at the first run that is long enough |
| KrAllocator.Allocator.TakeFrom | Kernel/c/mem/krheap.c:49-67 | the run found gives up its tail or goes altogether, in the arrays as in the abstract list, and the address of the block is returned |
| KrAllocator.Allocator.Memfree | Kernel/c/mem/krheap.c:74-129 | the object changes as MemFree changes the abstract state |
| KrAllocator.Allocator.InsertFirst | Kernel/c/mem/krheap.c:84-101 | a block in front of the list is joined with the first run where they touch |
| KrAllocator.Allocator.LinkFirst | Kernel/c/mem/krheap.c:84-100 | the writes for a block in front of the list make the headers those of the joined list |
| KrAllocator.Allocator.FindBefore | Kernel/c/mem/krheap.c:104-108 | the walk stops at the last run in front of the block |
| KrAllocator.Allocator.InsertAfter | Kernel/c/mem/krheap.c:102-128 | a block behind some run is joined with its neighbours where they touch |
| KrAllocator.Allocator.LinkBehind | Kernel/c/mem/krheap.c:109-127 | the writes for a block behind some run make the headers those of the joined list |
| LinkedList.List.constructor | Kernel/c/lib/ddlADT.c:23-32 | a new list is empty |
| LinkedList.List.Add | Kernel/c/lib/ddlADT.c:34-47 | the element comes first, prev and next stay mirror images, a running iteration stays where it is |
| LinkedList.List.ToBegin | Kernel/c/lib/ddlADT.c:49-52 | the iteration starts over, also where it had been lost; the list stays |
| LinkedList.List.HasNext | Kernel/c/lib/ddlADT.c:54-57 | whether an element is left |
| LinkedList.List.Next | Kernel/c/lib/ddlADT.c:59-69 | the element at the position of the iteration, which moves on |
| LinkedList.List.Remove | Kernel/c/lib/ddlADT.c:71-92 | exactly the element returned last goes and prev and next stay mirror images of the remaining sequence; the iteration still stands in the list if and only if that element was not the current one again |
| LinkedList.List.Unlink | Kernel/c/lib/ddlADT.c:75-87 | only the pointers of the two neighbours change |
| LinkedList.List.Find | Kernel/c/lib/ddlADT.c:106-116 | the first matching element, or none exactly if nothing matches |
| LinkedList.List.Pass | Kernel/c/main/scheduler.c:463-471 | one turn of a removing walk: the next element, gone exactly if it matches |
| LinkedList.List.RemoveMatching | Kernel/c/main/scheduler.c:460-472 | a walk that removes every match leaves exactly the others in order, and what it removed is exactly the matches in order |
| KernelSteps.UnblockInv | Kernel/c/main/scheduler.c:430-446 | waking a process keeps the whole-state invariant of the scheduler |
| KernelSteps.UnblockAllInv | Kernel/c/main/scheduler.c:460-472 | waking all that wait for a reason keeps the whole-state invariant of the scheduler |
| KernelSteps.UnblockAllWakes | Kernel/c/main/scheduler.c:460-472 | exactly the processes blocked with that source and id become ready |
| KernelSteps.BlockInv | Kernel/c/main/scheduler.c:415-428 | blocking a ready process keeps the whole-state invariant |
| KernelSteps.ReprioritiseInv | Kernel/c/main/scheduler.c:490-523 | moving a process to the queue of another priority keeps the whole-state invariant |
| KernelSteps.StartInv | Kernel/c/main/scheduler.c:80-170 | starting a process keeps the whole-state invariant, for parents below pid 256 and priorities below PRIORITY_COUNT (see Left out) |
| KernelSteps.StartKeepsFamilyIff | Kernel/c/main/scheduler.c:80-87 | parents and children still name each other if and only if the parent's pid is below 256, as its 8-bit parameter needs |
| KernelSteps.WaitForInv | Kernel/c/main/scheduler.c:391-399 | blocking in waitchild, for a named child or for any, keeps the whole-state invariant |
| KernelSteps.FinishInv | Kernel/c/main/scheduler.c:321-359 | killing (off the death list, awake, the waiting parent woken, finished) keeps the whole-state invariant |
| Machine.FinishEffect | Kernel/c/main/scheduler.c:343-356 | finishing changes no queue, no family tie and no other process, except that a parent waiting for this one is woken |
| KernelSteps.BuryInv | Kernel/c/main/scheduler.c:289-312 | removing a collected child keeps the whole-state invariant |
| KernelSteps.BuryFamily | Kernel/c/main/scheduler.c:272-287 | afterwards parents and children still name each other, and the orphans are init's children |
| Reaping.ReapInv | Kernel/c/main/scheduler.c:289-308 | the first half of a collection by init, up to the end of the walk over its children, keeps the whole-state invariant, with the orphans set apart |
| Reaping.AdoptKeepsIff | Kernel/c/main/scheduler.c:272-287 | the second half, the store behind that end, keeps the whole-state invariant if and only if no child has come behind it since |
| Reaping.AdoptLoses | Kernel/c/main/scheduler.c:280-280 | otherwise everybody who came behind it has init as parent and is in nobody's list of children |
| Reaping.ReapThenAdopt | Kernel/c/main/scheduler.c:371-412 | the two halves without anything in between are what waitchild does for any other process |
| RoundRobin.FlatProcs | Kernel/c/main/scheduler.c:42-59 | the walk over the five queues meets every process exactly once |
| RoundRobin.SearchEnds | Kernel/c/main/scheduler.c:42-59 | because init stays ready the search for the next process always ends |
| RoundRobin.TickInv | Kernel/c/main/scheduler.c:211-250 | a tick keeps the invariant, and changes nothing but quanta and the running process (what it makes of the quanta is TickQuanta) |
| RoundRobin.SpentInv | Kernel/c/main/scheduler.c:544-548 | giving up the quantum, as yield does, keeps the whole-state invariant |
| RoundRobin.RoundShift | Kernel/c/main/scheduler.c:42-59 | the round behind a later process is the same round, rotated |
| RoundRobin.TickCloser | Kernel/c/main/scheduler.c:211-250 | each tick brings every ready process one step closer to the CPU |
| RoundRobin.DispatchedAtRank | Kernel/c/main/scheduler.c:211-250 | under ticks alone a ready process is dispatched at the tick that its rank says, and not earlier |
| RoundRobin.DispatchedWithinRank | Kernel/c/main/scheduler.c:211-250 | with ticks and yields mixed in any way, a ready process is dispatched within as many turns as its rank |
| RoundRobin.RankBounded | Kernel/c/main/scheduler.c:211-250 | the rank is at most the sum, over the other ready processes, of PRIORITY_COUNT - priority + 1 |
| RoundRobin.BoundedWaiting | Kernel/c/main/scheduler.c:211-250 | bounded waiting: with a ready process on the CPU every other ready one is dispatched within that sum |
| Dispatch.NearestNext | Kernel/c/main/scheduler.c:42-59 | the process that gets the CPU is the nearest ready one: nobody who is ready stands between it and the one that leaves, in places of queues and not in terms of the search |
| Quanta.TickQuanta | Kernel/c/main/scheduler.c:225-248 | a tick takes exactly one unit from a ready process that has one, and it stays; any other leaves with what it has, or with 5 minus its priority if it has nothing; no other quantum changes |
| Quanta.TurnLength | Kernel/c/main/scheduler.c:211-250 | a ready process keeps the CPU for exactly as many timer ticks as it has units, and loses it with the next one |
| Quanta.YieldLeaves | Kernel/c/main/scheduler.c:544-548 | yield gives the CPU to another process, and the caller a whole quantum for its next turn |
| Quanta.TurnsQuanta | Kernel/c/main/scheduler.c:211-250 | however ticks and yields are mixed, a ready process that is off the CPU has 5 minus its priority units |
| Quanta.WholeTurns | Kernel/c/main/scheduler.c:211-250 | so each of its turns lasts exactly 5 minus its priority ticks, and ends with the one after that |
| Chains.ChainPush | Kernel/c/main/scheduler.c:137-143 | the writes that put a node in front leave a doubly linked list with that node in front |
| Chains.ChainSkip | Kernel/c/main/scheduler.c:291-308 | rewriting head, next and previous of the neighbours leaves the doubly linked list without that node |
| Chains.ChainJoin | Kernel/c/main/scheduler.c:275-281 | hanging one list behind another leaves the doubly linked list of both |
| Chains.ThreadedPush | Kernel/c/main/scheduler.c:514-520 | pushing onto one of several lists over the same link fields keeps all of them linked and apart |
| Chains.ThreadedSkip | Kernel/c/main/scheduler.c:497-509 | so does unlinking from one of them |
| Chains.ThreadedJoin | Kernel/c/main/scheduler.c:272-287 | so does emptying one of them into another |
| Chains.ThreadedAppend | Kernel/c/main/scheduler.c:145-162 | so does hanging a new node behind the last one of a list |
| Chains.ThreadedCut | Kernel/c/main/scheduler.c:280-280 | a store of NULL behind the end of a prefix cuts off what came behind it and keeps all lists linked |
| Chains.LateSkipIff | Kernel/c/main/scheduler.c:291-308 | unlinking with links that were read earlier: whatever happened to the lists since, all stay well linked without the node if and only if its neighbours are those that were read |
| Chains.HalfPushIff | Kernel/c/main/scheduler.c:293-307 | a node put in front of a queue between the two stores of unlinking another: no harm if and only if that other was not in front of the same queue with a node behind it |
| Chains.HalfSkipIff | Kernel/c/main/scheduler.c:293-307 | a node unlinked between those two stores: no harm if and only if it was no neighbour of the other, or nothing came behind the other |
| Chains.StaleLinks | Kernel/c/main/scheduler.c:291-308 | an unlinking with an outdated predecessor after which the queue is broken |
| Links.QueuePush | Kernel/c/main/scheduler.c:514-520 | a node pushed in front of a queue: the five queues stay well linked |
| Links.QueueSkip | Kernel/c/main/scheduler.c:497-509 | a node taken out of its queue: the five queues stay well linked, and it is in none |
| Links.SiblingNew | Kernel/c/main/scheduler.c:133-162 | a new child behind its last sibling: all lists of children stay well linked |
| Links.SiblingSkip | Kernel/c/main/scheduler.c:398-409 | a child taken out from between its siblings: all lists of children stay well linked, and it is in none |
| Links.SiblingBequeath | Kernel/c/main/scheduler.c:272-287 | the children of a removed process behind those of init: all lists of children stay well linked |
| Links.SiblingLate | Kernel/c/main/scheduler.c:280-286 | the late store: the lists of children are well linked with the orphans behind the children that the walk had met, and without those that came in between |
| Scheduler.Scheduler.constructor | Kernel/c/main/scheduler.c:198-209 | the object starts as the booted kernel, with init alone in its queue |
| Scheduler.Scheduler.FindByPid | Kernel/c/main/scheduler.c:61-78 | the walk over the next pointers of the five queues finds the process if and only if there is one |
| Scheduler.Scheduler.FindNextProcess | Kernel/c/main/scheduler.c:42-59 | the walk over next pointers, from queue to queue, ends at the first ready process strictly behind the running one |
| Scheduler.Scheduler.Schedule | Kernel/c/main/scheduler.c:211-250 | the object changes as Tick changes the abstract kernel, whose quanta TickQuanta and whose choice NearestNext pin |
| Scheduler.Scheduler.UnblockListed | Kernel/c/main/scheduler.c:430-446 | ready again, and off the list at its first occurrence |
| Scheduler.Scheduler.UnblockWithReason | Kernel/c/main/scheduler.c:449-458 | only a process blocked for that very reason is woken, and found says whether |
| Scheduler.Scheduler.UnblockAllBecause | Kernel/c/main/scheduler.c:460-472 | the removing walk does what UnblockAll does |
| Scheduler.Scheduler.BlockWithReason | Kernel/c/main/scheduler.c:415-428 | a ready process blocks, joins the list of its reason and another one runs; any other state changes nothing |
| Scheduler.Scheduler.ChangePriority | Kernel/c/main/scheduler.c:490-523 | the process moves to the front of its new queue with a full quantum, by the pointer writes of the C code, which keep the five queues well linked |
| Scheduler.Scheduler.Unlink | Kernel/c/main/scheduler.c:497-509 | the pointer writes take the node out of its queue and keep all queues well linked |
| Scheduler.Scheduler.PushNode | Kernel/c/main/scheduler.c:137-143 | the pointer writes put the node in front of the queue and keep all queues well linked |
| Scheduler.Scheduler.AppendChild | Kernel/c/main/scheduler.c:144-162 | the walk to the last sibling and the writes behind it add the child and keep all lists of children well linked |
| Scheduler.Scheduler.LastSibling | Kernel/c/main/scheduler.c:154-158 | the walk over nextSibling ends at the last child |
| Scheduler.Scheduler.CopyDescriptors | Kernel/c/main/scheduler.c:100-120 | the standard streams (those of StandardTableReads), or a copy whose pipe ends are counted |
| Scheduler.Scheduler.StartProcess | Kernel/c/main/scheduler.c:80-170 | kernel and descriptor tables change as Start and Inherit say (what that gives the new process is StartEffect, StartedAfresh and StartedCopying), and queues and lists of children stay well linked |
| Scheduler.Scheduler.ModifyOpenCount | Kernel/c/ipc/files.c:323-334 | the counts of the named pipe change by the units |
| Scheduler.Scheduler.CloseForKilling | Kernel/c/ipc/files.c:92-122 | the pipe loses one end, goes with its last one, and its readers are woken for exactly the end that WakesReadersIff tells |
| Scheduler.Scheduler.CloseFiles | Kernel/c/main/scheduler.c:325-331 | the closing loop closes every pipe end of the table and wakes the readers of the pipes in Wakes, exactly those that lose their last writing end (WakesIff) |
| Scheduler.Scheduler.LeaveDeaths | Kernel/c/main/scheduler.c:332-342 | the walk takes the process off the death list |
| Scheduler.Scheduler.FinishProcess | Kernel/c/main/scheduler.c:343-356 | it stops being blocked, a parent that waits for it is woken, and it is finished |
| Scheduler.Scheduler.KillProcess | Kernel/c/main/scheduler.c:321-359 | closing, leaving the death list and finishing together do what the kernel step does, links stay as they are, and the whole-state invariant is kept unless the process was finished or its parent is being collected |
| Scheduler.Scheduler.WaitForChild | Kernel/c/main/scheduler.c:371-412 | the system call: no such child, or the caller blocks for it (0: for any child), or the finished child is collected with its status; queues and lists of children stay well linked |
| Scheduler.Scheduler.SearchChild | Kernel/c/main/scheduler.c:373-388 | the walk over nextSibling finds the child named, or the first one for 0, or none |
| Scheduler.Scheduler.UnlinkChild | Kernel/c/main/scheduler.c:398-409 | the pointer writes take the child out from between its siblings and keep all lists of children well linked |
| Scheduler.Scheduler.LeaveQueue | Kernel/c/main/scheduler.c:291-308 | a node without a predecessor is the head of one of the five queues; unlinking it keeps them well linked |
| Scheduler.Scheduler.Collect | Kernel/c/main/scheduler.c:400-411 | status returned, child unlinked from its siblings and removed, and everything still well linked |
| Scheduler.Scheduler.RemoveFromList | Kernel/c/main/scheduler.c:289-312 | the node leaves its queue, its children pass to init behind init's own, it is gone, and everything is still well linked |
| Scheduler.Scheduler.InheritChildren | Kernel/c/main/scheduler.c:272-287 | the orphans follow behind the last child of init and name init as parent; exactly these links change |
| Scheduler.Scheduler.EndOfChildren | Kernel/c/main/scheduler.c:274-279 | the walk ends at the last child, or at none |
| Scheduler.Scheduler.HangOrphans | Kernel/c/main/scheduler.c:280-286 | the writes behind the end that a walk met, and the walk that gives the orphans their new parent |
| Scheduler.Scheduler.BeginReap | Kernel/c/main/scheduler.c:534-536 | the collection by init up to the end of its walk: the object changes as Reap says, and everything is well linked |
| Scheduler.Scheduler.EndReap | Kernel/c/main/scheduler.c:280-312 | the rest of it, whatever has run in between: the object changes as Adopt says, and everything that is in a list is well linked |
| Scheduler.Scheduler.KillAllInDeathList | Kernel/c/main/scheduler.c:632-642 | exactly those on the list are finished besides the ones that were, nobody stays on it, their files are closed in the order of the list, and invariant and links are kept; for lists without a process whose parent is being collected |
| Scheduler.Scheduler.Open | Kernel/c/ipc/files.c:75-89 | the newest pipe of that name is opened at the first free descriptor and its counts go up, or nothing changes and the call fails |
| Scheduler.Scheduler.Mkpipe | Kernel/c/ipc/files.c:51-73 | a new pipe comes first, or the call is refused because some pipe has the name that begins at the third character |
| Scheduler.Scheduler.OpenFile | Kernel/c/main/scheduler.c:561-576 | the first empty descriptor from number 4 on |
| Scheduler.Scheduler.Close | Kernel/c/ipc/files.c:124-164 | an open pipe end is closed, counted down, and wakes the readers if it was the last writing one, as CloseWakes says in numbers of open ends; anything else fails and changes nothing |
| Scheduler.Scheduler.Dup2 | Kernel/c/main/scheduler.c:593-614 | the old descriptor is saved, the new one copied and counted; numbers out of range fail |
| Scheduler.Scheduler.RevertFdReplacements | Kernel/c/main/scheduler.c:616-630 | the loop restores every replaced descriptor |
| OpenFiles.OpenTally | Kernel/c/ipc/files.c:84-86 | one more open end keeps counts equal to the numbers of ends |
| OpenFiles.ReleaseTally | Kernel/c/ipc/files.c:102-119 | closing an end keeps the counts exact, and no open end names a removed pipe |
| OpenFiles.DropTally | Kernel/c/main/scheduler.c:624-624 | counting an end down without removing its pipe keeps the counts exact |
| OpenFiles.OpenPipeInv | Kernel/c/ipc/files.c:75-89 | open keeps the counts of all pipes equal to the numbers of open ends over all tables |
| OpenFiles.CloseFdInv | Kernel/c/ipc/files.c:124-164 | close keeps the counts of all pipes equal to the numbers of open ends over all tables |
| OpenFiles.MakePipeInv | Kernel/c/ipc/files.c:51-73 | a new pipe starts with counts that equal its (zero) open ends, and no old one is disturbed |
| OpenFiles.MkpipeKeepsNamesIff | Kernel/c/ipc/files.c:53-56 | names of pipes stay distinct if and only if the call is refused or no pipe had the name |
| OpenFiles.SameNameTwice | Kernel/c/ipc/files.c:53-56 | a name is accepted twice, and then a longer name that ends like it is refused |
| OpenFiles.OpenNamedInv | Kernel/c/ipc/files.c:75-89 | opening by name keeps the counts of all pipes equal to the numbers of open ends |
| OpenCounts.Dup2KeepsIff | Kernel/c/main/scheduler.c:593-614 | dup2 keeps the counts exact if and only if the descriptor it overwrites is no open pipe end |
| OpenCounts.RevertKeepsIff | Kernel/c/main/scheduler.c:616-630 | restoring keeps them exact if and only if the number written back is a standard stream or the descriptor comes back closed |
| OpenCounts.RevertLeavesIff | Kernel/c/main/scheduler.c:616-630 | restoring a descriptor removes no pipe, and leaves one that nobody has open if and only if the descriptor was the last open end |
| OpenCounts.Dup2Reverted | Kernel/c/main/scheduler.c:593-630 | dup2 and then restoring gives back table and counts if and only if the descriptor held its own number |
| OpenCounts.RevertedInv | Kernel/c/main/scheduler.c:616-630 | restoring all replaced standard streams keeps the counts exact |
| OpenCounts.InheritKeepsIff | Kernel/c/main/scheduler.c:108-119 | inheriting a table keeps the counts exact if and only if every pipe named in it still exists |
| OpenCounts.CloseAllTally | Kernel/c/main/scheduler.c:325-331 | closing all files of a dying process takes exactly its ends off the counts |
| OpenCounts.WakesReadersIff | Kernel/c/ipc/files.c:102-112 | closing an end wakes readers if and only if the open writing ends of its pipe fall from some to none |
| OpenCounts.WakesIff | Kernel/c/main/scheduler.c:325-331 | the closing loop of a kill wakes the readers of a pipe if and only if the writing ends of the pipe that others have open are none and the victim had some |
| Streams.StandardTableReads | Kernel/c/main/scheduler.c:100-107 | reading, fdToFileId resolves 0 only, to file 0; writing, 1 and 2 only, to files 1 and 2; every descriptor from 3 on is closed |
| Streams.StartedAfresh | Kernel/c/main/scheduler.c:172-185 | a process that is started without a table to copy has just these streams |
| Streams.StartedCopying | Kernel/c/main/scheduler.c:550-559 | one that is started with a table resolves each descriptor in each mode as the owner of the table does |
| Streams.StepTables | Kernel/c/main/scheduler.c:550-630 | no step changes the table of a process other than the caller, and none that of init |
| Streams.InitStreams | Kernel/c/main/scheduler.c:198-209 | in every run from boot init keeps the standard streams |
| Streams.OpenEffect | Kernel/c/ipc/files.c:75-89 | open succeeds if and only if there is a pipe of the name, a mode of the two, and an empty descriptor from 4 on; then the lowest such one resolves to the newest pipe of the name and no other descriptor changes |
| Streams.Dup2Effect | Kernel/c/main/scheduler.c:593-614 | afterwards the one descriptor resolves as the other does, the old entry is the first to be restored, and one more end of the pipe named is counted |
| Streams.CloseEffect | Kernel/c/ipc/files.c:124-164 | close succeeds if and only if the descriptor is open on a pipe that exists; then it resolves to nothing, and no other descriptor changes |
| OpenCounts.CloseAgainKeepsIff | Kernel/c/main/scheduler.c:325-331 | killing a finished process keeps the counts exact if and only if its stale table names no existing pipe |
| LostCounts.Dup2TwiceRun | Kernel/c/main/scheduler.c:593-614 | a history in which a second dup2 over standard input loses count |
| LostCounts.RevertHighRun | Kernel/c/main/scheduler.c:616-630 | a history in which restoring descriptor 5 makes it name a pipe that does not exist |
| LostCounts.RevertClosedRun | Kernel/c/main/scheduler.c:593-630 | dup2 over a closed descriptor and restoring it do not give back the table |
| LostCounts.InheritStaleRun | Kernel/c/main/scheduler.c:108-119 | a history in which a process inherits the end of a pipe that is gone |
| LostCounts.KilledTwiceRun | Kernel/c/main/scheduler.c:325-331 | a history in which a second kill takes a pipe away that another process has open |
| Machine.KillKernel | Kernel/c/main/scheduler.c:321-359 | the effect of a kill on every process: one is finished, others at most woken from a pipe or from waiting for it |
| Machine.FinishesIff | Kernel/c/main/scheduler.c:347-356 | a kill finishes a process if and only if its parent is not being collected by init |
| Machine.WakeReadersInv | Kernel/c/ipc/files.c:106-112 | waking the readers of closed pipes keeps the invariant and changes nothing else |
| Sleepers.KillPidWakes | Kernel/c/main/scheduler.c:321-368 | of the processes asleep reading a pipe, killProcess makes exactly those ready whose pipe has fewer writing ends open over all living processes than one, having had one before; the others sleep on |
| Sleepers.ExitWakes | Kernel/c/main/scheduler.c:265-270 | so does exit |
| Sleepers.EscapeWakes | Kernel/c/main/scheduler.c:632-642 | so does the escape key, over all that it kills together |
| Sleepers.CloseWakes | Kernel/c/ipc/files.c:124-164 | so does close |
| Sleepers.SleeperHasWriter | Kernel/c/ipc/files.c:92-164 | in every run without restoring descriptors: a process that sleeps reading a pipe which had an open writing end when it fell asleep sleeps on only while one is open |
| MachineSteps.KillSemsIff | Kernel/c/main/scheduler.c:343-346 | the queues of the semaphores agree with the processes after a kill if and only if the victim waited for none |
| Departures.KilledWaiterRun | Kernel/c/main/scheduler.c:343-346 | a run from boot to a process that waits for a semaphore and whose kill leaves it in the queue |
| Departures.LateParentRun | Kernel/c/main/scheduler.c:80-87 | a run from boot to process 256, whose children are not recorded as its own |
| MachineSteps.Waited | Kernel/c/main/scheduler.c:371-412 | waitchild as a system call, up to where it returns or blocks, keeps processes, files and semaphores in agreement |
| MachineSteps.Toggled | Kernel/c/main/scheduler.c:475-488 | blocking or unblocking by pid keeps processes, files and semaphores in agreement |
| MachineSteps.SemWaited | Kernel/c/ipc/semaphore.c:66-95 | waitSem, with the blocking it may do, keeps processes, files and semaphores in agreement |
| MachineSteps.SemPosted | Kernel/c/ipc/semaphore.c:97-130 | postSem, with the process it may wake, keeps processes, files and semaphores in agreement |
| MachineSteps.Started | Kernel/c/main/scheduler.c:172-196 | starting a process with inherited descriptors keeps processes, files and semaphores in agreement |
| Effects.StartEffect | Kernel/c/main/scheduler.c:121-196 | the new process is ready, first of its queue, last child of its parent, with 5 minus its priority units, on the death list exactly if asked for; nobody else changes |
| Effects.SetPriorityEffect | Kernel/c/main/scheduler.c:490-523 | the process is first of the queue of its new priority with a whole quantum; a priority or pid that does not exist changes nothing |
| Effects.YieldEffect | Kernel/c/main/scheduler.c:544-548 | the caller has 5 minus its priority units afterwards and another process the CPU |
| Effects.BlockSelfEffect | Kernel/c/main/scheduler.c:415-428 | a read or write that blocks: the caller sleeps for that very source and id, comes first on the list of the source, and somebody ready has the CPU |
| Effects.BlockPidEffect | Kernel/c/main/scheduler.c:475-488 | blockProcess puts a ready process to sleep, releases one that it had put to sleep, and leaves everybody else, and init, alone |
| Effects.SemCreateEffect | Kernel/c/ipc/semaphore.c:39-64 | a new semaphore has the value that was asked for and no waiters; the others stay |
| Effects.SemWaitEffect | Kernel/c/ipc/semaphore.c:66-95 | waitSem takes one from a positive value, or puts the caller to sleep for that semaphore behind all others |
| Effects.SemPostEffect | Kernel/c/ipc/semaphore.c:97-130 | postSem makes exactly the process ready that waits longest, or adds one to the value |
| Effects.WaitPidEffect | Kernel/c/main/scheduler.c:389-397 | waitchild for a child that is alive puts the caller to sleep for it, or for any child, awaiting those that are alive |
| Effects.KillNobodyEffect | Kernel/c/main/scheduler.c:361-369 | killProcess of a pid that does not exist is a tick and nothing else; of init, nothing at all |
| MachineRuns.BootInv | Kernel/c/main/scheduler.c:198-209 | the state that the kernel boots into satisfies the whole invariant of processes, files and semaphores |
| Effects.BootEffect | Kernel/c/main/scheduler.c:198-224 | at the beginning init alone exists, in the last queue with priority 4 and one unit, with no pipe and no semaphore |
| MachineRuns.Do | Kernel/c/main/scheduler.c:211-642 | every step keeps the agreement of processes, files and semaphores; finished processes stay so until collected, and pids are not reused; a collection by init is two steps, and init makes no system call |
| MachineRuns.InvAgreement | Kernel/c/main/scheduler.c:211-642 | what the agreement says: everybody in one queue, that of the priority; on a blocked list exactly if blocked for it; nobody listed twice; a tree of parents and children; semaphore queues, death list and pipe counts exact; quanta in range; init ready |
| MachineRuns.RunAgreement | Kernel/c/main/scheduler.c:198-642 | after every run from boot all of that agreement holds, also while init collects a child |
| WaitExit.FinishedStays | Kernel/c/main/scheduler.c:321-412 | along every run a finished process stays finished with its status until it is collected |
| WaitExit.GoneStays | Kernel/c/main/scheduler.c:85-85 | along every run a removed pid does not come back |
| WaitExit.WaitingStep | Kernel/c/main/scheduler.c:371-412 | whatever step is taken, a parent inside waitchild is blocked exactly as long as none of the children that it awaits is finished |
| WaitExit.ResumeCollects | Kernel/c/main/scheduler.c:400-411 | the resumed call collects a finished child: gone from every queue, list and child list, its children init's, every other process still listed by its parent |
| WaitExit.WaitCollects | Kernel/c/main/scheduler.c:371-412 | a child that is finished when waitchild is called is collected at once: nobody else goes, it is in no queue, list or child list any more, its children are init's, and every process is still listed by its parent, unless init is collecting that parent |
| WaitExit.StatusDelivered | Kernel/c/main/scheduler.c:265-270 | whatever happens between a process's exit and the call that collects it, that call hands back the status of the exit |
| InitReaps.ReapAgreesIff | Kernel/c/main/scheduler.c:525-542 | whatever runs between the two halves of a collection by init: all of the agreement holds afterwards if and only if no process was started with init as parent in between, and no process with children was collected |
| InitReaps.InitCollects | Kernel/c/main/scheduler.c:525-542 | a finished child of init can be collected by init, is gone at once and for good, and at the end of an undisturbed collection its children are init's and nobody else has gone |
| InitReaps.LostChildRun | Kernel/c/main/scheduler.c:525-542 | a run from boot in which a process started during a collection ends up in nobody's list of children |
| InitReaps.OrphanLivesRun | Kernel/c/main/scheduler.c:347-349 | a run from boot to a process that cannot end, because init is collecting its parent |
| AnyChild.AnyChildCollectsIff | Kernel/c/main/scheduler.c:378-399 | waitchild(0): in every run without the escape key the child that the call picked is finished when it resumes, if and only if every other child was finished when the call was made, or nobody but init and the caller can act |
| AnyChild.OthersDone | Kernel/c/main/scheduler.c:378-399 | if every other child was finished, that holds in every run, escape key or not |
| AnyChild.EscapeEarlyIff | Kernel/c/main/scheduler.c:632-642 | the escape key during the call: it goes on too early if and only if another child that it awaits is on the death list, and neither the picked child nor the caller is |
| AnyChild.OtherChildFirst | Kernel/c/main/scheduler.c:378-399 | if another child is alive and somebody can act, there is a run in which that child ends first and the caller goes on while the picked child is alive |
| AnyChild.LivingChildCollected | Kernel/c/main/scheduler.c:371-412 | a run from boot in which waitchild(0) resumes to collect a child that is alive, after which the invariant does not hold |
| Semaphore.HistoryFair | Kernel/c/ipc/semaphore.c:66-130 | in every history: value is initial plus posts minus passes, a positive value has no waiters, and those let through are the first that blocked, in order |
| Semaphore.ServedInTurn | Kernel/c/ipc/semaphore.c:66-130 | a waiter with j others ahead is let through by post number j + 1, not earlier and not later |
| Semaphore.StepFair | Kernel/c/ipc/semaphore.c:66-130 | each wait and post keeps conservation, no waiter beside a positive value, and the order of waiters |
| Semaphore.SemBlock.constructor | Kernel/c/ipc/semaphore.c:39-64 | a new semaphore has the given value and no waiter |
| Semaphore.SemBlock.WaitSem | Kernel/c/ipc/semaphore.c:66-95 | the object changes as Wait says |
| Semaphore.SemBlock.PostSem | Kernel/c/ipc/semaphore.c:97-130 | the walk to the last node wakes the process that waits longest, or the value grows |
| Mutex.Acquired | Kernel/c/ipc/semaphore.c:66-95 | waiting on a semaphore of one: at most one process holds it, its queue is the set of waiters |
| Mutex.Released | Kernel/c/ipc/semaphore.c:97-130 | posting hands it to the first waiter or frees it |
| PipeRing.FullOrEmpty | Kernel/c/ipc/files.c:213-213 | the two index tests mean 1023 characters and none |
| PipeRing.PutAppends | Kernel/c/ipc/files.c:217-217 | storing appends if there is room; in a full ring it loses all 1024 characters |
| PipeRing.TakeRemoves | Kernel/c/ipc/files.c:298-298 | taking removes the first character |
| PipeRing.FillAppends | Kernel/c/ipc/files.c:210-218 | the loop of write appends what fits below 1024 characters and leaves the rest |
| PipeRing.DrainTakes | Kernel/c/ipc/files.c:281-299 | the loop of read takes the first n characters, or all there are |
| PipeRing.PipeFile.constructor | Kernel/c/ipc/files.c:60-65 | a new pipe has an empty ring |
| PipeRing.PipeFile.Write | Kernel/c/ipc/files.c:210-218 | the loop over the array, up to its end or the point where it blocks, also as it resumes |
| PipeRing.PipeFile.Read | Kernel/c/ipc/files.c:281-299 | the loop over the array up to n characters or an empty ring |
| PipeRuns.WriteEffect | Kernel/c/ipc/files.c:210-219 | what one write, or the rest of one, does to the queue of characters, the writers and the readers |
| PipeRuns.ReadEffect | Kernel/c/ipc/files.c:281-301 | what one read, or the rest of one, does: characters, end of file or blocking |
| PipeRuns.DeliveredInOrderIff | Kernel/c/ipc/files.c:195-302 | over every interleaving, what was read is the beginning of what was written, if and only if one process writes and no read asks for 0 characters |
| PipeRuns.EndOfFileMeans | Kernel/c/ipc/files.c:283-296 | end of file is met if and only if the ring runs out and no writer is open, and then everything written has been read |
| PipeRuns.BlockedMeans | Kernel/c/ipc/files.c:210-300 | with writes of at most 1023 characters: a reader that sleeps means an empty ring, a writer that sleeps exactly 1023 characters |
| PipeRuns.SleepersHaveWriterIff | Kernel/c/ipc/files.c:281-300 | all along a run whoever sleeps reading has an open writer, if and only if no restored descriptor takes the last writing end away while somebody sleeps |
| PipeRuns.LeftAsleep | Kernel/c/ipc/files.c:281-300 | otherwise the reader sleeps until somebody opens the pipe for writing again or it is killed |
| PipeRuns.DroppedWriterRun | Kernel/c/main/scheduler.c:616-630 | a run in which that happens: open, dup2, close, a read by somebody else, and the descriptor restored |
| PipeRuns.NeverStuckIff | Kernel/c/ipc/files.c:210-300 | reader and writer never block each other, if and only if no write is longer than 1023 characters |
| PipeRuns.ZeroReadRun | Kernel/c/ipc/files.c:281-300 | a run in which a read of 0 characters makes a later read return the wrong character |
| PipeRuns.TwoWriterRun | Kernel/c/ipc/files.c:213-217 | a run in which two writers make a later read return the wrong character, for reads of any length |
| PipeRuns.LongWriteRun | Kernel/c/ipc/files.c:210-219 | a run in which a write of 1024 characters gets stuck |
| Philosophers.RunsAreSafe | Userland/SampleCodeModule/c/phylo.c:24-102 | for any table of n >= 2 whose fork ids fit into eight bits and any schedule: seats are distinct and in range, neighbours never eat together, and there is always somebody who can take a step |
| Philosophers.AlwaysSafeIff | Userland/SampleCodeModule/c/phylo.c:32-38 | for 3 to 255 philosophers: every run is safe if and only if the id of the last fork fits into the eight bits of left and right |
| Philosophers.NeighboursEatRun | Userland/SampleCodeModule/c/phylo.c:32-71 | if it does not: a run in which two neighbours eat at the same time |
| Philosophers.ReachedIff | Userland/SampleCodeModule/c/phylo.c:37-38 | a philosopher reaches its own fork, or none at all if the id of the fork is 256 or more |
| Philosophers.SomebodyActs | Userland/SampleCodeModule/c/phylo.c:47-71 | in every such state somebody can act, a philosopher once the father is done |
| Philosophers.ChainEnds | Userland/SampleCodeModule/c/phylo.c:47-71 | from whoever waits for a fork the chain of holders leads to somebody who can act |
| Philosophers.RankClimbs | Userland/SampleCodeModule/c/phylo.c:40-67 | even-left-first and odd-right-first takes forks in increasing rank |
| Philosophers.NeighboursApart | Userland/SampleCodeModule/c/phylo.c:73-82 | neighbours do not eat at the same time |
| Philosophers.ActInv | Userland/SampleCodeModule/c/phylo.c:24-102 | with such ids every step keeps forks, seats and father consistent |
| Philosophers.StoreSeats | Userland/SampleCodeModule/c/phylo.c:29-29 | the separate load and store of the seat counter give out no seat twice |
| Philosophers.InitInv | Userland/SampleCodeModule/c/phylo.c:138-164 | the table as the father sets it up has free forks, no seats taken and nobody created |
| SharedCounter.ExactIffGuarded | Userland/SampleCodeModule/c/test_sync.c:15-58 | over all processes, iterations and interleavings of load and store, the counter ends with the exact 64-bit sum, if and only if the semaphore is used |
| SharedCounter.MatchedPairsEndAtZero | Userland/SampleCodeModule/c/test_sync.c:82-101 | matched pairs leave it at 0 |
| SharedCounter.ActInv | Userland/SampleCodeModule/c/test_sync.c:46-58 | each step keeps the counter equal to the sum so far and loaded values up to date |
| SharedCounter.LostUpdate | Userland/SampleCodeModule/c/test_sync.c:15-25 | a run without the semaphore that loses an update |
| BmfsDirectory.CmpOrders | Bootloader/BMFS/bmfs.c:597-608 | the comparison puts files in the order of their starting blocks and deleted records last |
| BmfsDirectory.SortSorts | Bootloader/BMFS/bmfs.c:661-661 | an insertion sort by that comparison permutes the records into that order |
| BmfsDirectory.ScanFinds | Bootloader/BMFS/bmfs.c:663-685 | for any sort into that order, the gap scan returns the lowest start that fits if any does; otherwise nothing, or the end of a deleted record |
| BmfsCreate.CreatePlacesLowest | Bootloader/BMFS/bmfs.c:610-719 | if the least number of 2 MiB blocks that holds the file fits somewhere, the file is created at the lowest such start with just that many, all files stay apart inside the data blocks, and the record says so |
| BmfsCreate.CreateKeepsIff | Bootloader/BMFS/bmfs.c:610-719 | with a terminator, n being the least number of blocks that holds the file: files stay apart if and only if there is a gap of n or no deleted record leaves room for n behind its end; and then the file is refused if and only if nothing fits |
| BmfsCreate.CreateUnterminatedIff | Bootloader/BMFS/bmfs.c:635-685 | without a terminator the records are not seen: exactly when files survive that |
| BmfsCreate.RoomIsLeast | Bootloader/BMFS/bmfs.c:615-620 | the number of blocks asked for is the least that holds the size, for every 64-bit size but the largest |
| BmfsCreate.EnoughRoomIff | Bootloader/BMFS/bmfs.c:615-620 | it holds the size if and only if that is not the largest number of 64 bits, for which nothing is reserved |
| BmfsCreate.CreatedRoom | Bootloader/BMFS/bmfs.c:693-700 | whatever the directory looks like, the record written for a new file has twice its blocks at least the size and less than the size plus 2 |
| BmfsCreate.NoRecordIff | Bootloader/BMFS/bmfs.c:635-657 | a new name is refused for want of a record if and only if all 64 belong to files |
| BmfsCreate.OverlapRun | Bootloader/BMFS/bmfs.c:663-685 | a directory with a deleted record on which a new file is placed inside an old one |
| BmfsCreate.UnterminatedRun | Bootloader/BMFS/bmfs.c:635-685 | a directory without a terminator on which a new file is placed on an old one |
| BmfsCreate.CreatesKeepApart | Bootloader/BMFS/bmfs.c:610-719 | any sequence of creations on a formatted disk keeps all files apart and loses none |
| BmfsCreate.FormattedClean | Bootloader/BMFS/bmfs.c:260-270 | a formatted disk is such a beginning: no files, none deleted |
| BmfsCreate.AddedFiles | Bootloader/BMFS/bmfs.c:693-706 | the new record is in the directory and no file is lost |
| BmfsCreate.Disk.constructor | Bootloader/BMFS/bmfs.c:260-270 | a formatted disk has an empty directory and no files |
| BmfsCreate.Disk.FindFile | Bootloader/BMFS/bmfs.c:205-231 | found if and only if a file of that name is in front of the terminator |
| BmfsCreate.Disk.CountRecords | Bootloader/BMFS/bmfs.c:635-657 | the number of records in front of the terminator, 0 if there is none, and the first free record |
| BmfsCreate.Disk.FindGap | Bootloader/BMFS/bmfs.c:663-685 | the loop over the gaps returns what Scan defines |
| BmfsCreate.Disk.CreateFile | Bootloader/BMFS/bmfs.c:610-719 | lookup, counting, sorting, scan and the writes together change the directory as Create says, with its result, for any 64-bit size; what it reserves is pinned by CreatedRoom and EnoughRoomIff |
| Calendar.GetCurrentDateTime | Kernel/c/main/time.c:33-96 | for every clock and every zone of two signed bytes: the result is the valid Gregorian date and time that lies the zone offset after the clock, if and only if the minutes add up to -60 to 67, the shift leads no further than to the day before or after, and not before year 0 |
| Calendar.PreviousDay | Kernel/c/main/time.c:50-66 | the date whose Gregorian day number is one less, across months, years and leap days; before year 0 comes the last year of sixteen bits |
| Calendar.NextDay | Kernel/c/main/time.c:67-83 | the date whose Gregorian day number is one more, across months, years and leap days |
| Gregorian.MonthLength | Kernel/c/main/time.c:8-9 | by the closed form of the calendar the months have the lengths of the table, with the leap rule |
| Gregorian.FourHundredYears | Kernel/c/main/time.c:8-9 | the calendar repeats itself after 400 years of 146097 days |
| Gregorian.DayNumberUnique | Kernel/c/main/time.c:33-96 | no two valid dates have the same number |
| Gregorian.EveryDay | Kernel/c/main/time.c:33-96 | every number from 1 on is that of a valid date |
| Gregorian.LeapDays | Kernel/c/main/time.c:106-117 | 1900, 2100 and 2023 have no 29 February, 2000 and 2024 have |
| Calendar.TableIsRight | Kernel/c/main/time.c:8-9 | the program's table and leap rule give every month of every year the length that it has in the calendar |
| Calendar.YearsCounted | Kernel/c/main/time.c:106-117 | years counted one by one by the program's leap rule add up to the closed form |
| Calendar.EveOfMay | Kernel/c/main/time.c:50-66 | for half past midnight on 1 May 2024 and three hours to the west, the only date and time that is right is 21:30 on 30 April |
| Calendar.MinutesBack | Kernel/c/main/time.c:86-87 | the last line for minutes normalises sums from -60 to 67 and is wrong for all others, because 60 more wrap in eight bits or the remainder is negative |
| Calendar.HoursBack | Kernel/c/main/time.c:84-85 | the last lines for hours normalise -24 to 47 |
| Calendar.ClockVerdict | Kernel/c/main/time.c:33-87 | hour, minute and day together are right if and only if the sums are in range |
| Calendar.MinutesUnique | Kernel/c/main/time.c:33-96 | no other valid date and time has the same number of minutes |

## Left out

- Links inside free memory: both allocators keep their list nodes and headers in the free memory itself. The model keeps them in arrays beside it, indexed by block, and of the arena only the order bytes of the buddy allocator; BuddyRuns.FreeNodeInside says that the nodes would not disturb the programs' memory.
- Blocked lists, the death list and the lists of pipes and semaphores are sequences, with the walks over them kept; the doubly linked list that the C code keeps them in is proved by itself, in LinkedList. The record of a process is split into scheduler fields and descriptor tables.
- MachineRuns.Do: the steps that put the kernel out of step (parents from pid 256 on, tables of finished processes, killing a finished process, one that waits for a semaphore or one whose parent is being collected, dup2 over a pipe end or to a descriptor above 2, resuming a wait for any child while the child that it picked is alive, ending a collection by init behind whose back init has got more children) are not part of the runs; the lemmas above say what each of them breaks.
- MachineRuns.Do: a process that is killed by the escape key keeps the CPU until the next tick, and only a tick is possible then; the model does not say what it executes meanwhile.
- MachineRuns.Do: a read or write that blocks on a pipe is a step of its own, and so is waking its readers or writers; which of these steps the reads and writes of PipeRuns take is not stated.
- MachineRuns.Do: a collection by init is divided at the end of its walk over its children. Before that, the unlinking of the child from queue and siblings is one step of the runs, and after it the store, the new parent of the orphans and the free are one; what a process that comes in there can do to the links of a queue and to a free list is proved for lists alone, in Chains and BuddyLists. The counters of processes and of used memory, which such a process could change between their reading and writing, are not part of that.
- KernelSteps.StartInv: a priority of PRIORITY_COUNT or more, which startParentProcess takes unchecked from its caller and which would address memory behind the five queues.
- MachineSteps.SemWaited: the value it returns is not modelled, nor are names of semaphores, looking them up by name, and closing them, which strands waiters. postSem reads the pid of the waiter after freeing the memory that holds it; the model takes the pid that was stored.
- Pids, file ids, semaphore values, list sizes and reference counts are unbounded numbers; the widths that matter (the parent's pid, the philosophers' forks, the indices of the ring, the 64-bit counter, the 64-bit gap arithmetic and the calendar's bytes) are written out.
- OpenFiles.MkpipeKeepsNamesIff: names of 32 characters and more, which fill the field without a terminator. What an argument shorter than two characters is followed by in memory is a parameter.
- Standard input and output, a read from a closed descriptor, and the error messages of read and write.
- AnyChild.AnyChildCollectsIff: runs with the escape key, about which OthersDone and EscapeEarlyIff speak.
- PipeRuns.DeliveredInOrderIff: removing a pipe whose last end is closed is part of OpenFiles, not of the runs of one pipe.
- Philosophers.RunsAreSafe: the table is fixed; adding, removing and quitting, and the flags they use, rest on timing and have no clear invariant. Sleeping and printing are left out.
- Philosophers.AlwaysSafeIff: the semaphores of the table are the only ones that the kernel knows; a fork id cut to eight bits could also hit a semaphore of another program.
- SharedCounter.ExactIffGuarded: parsing of arguments and the delay loop between load and store; any interleaving is allowed there.
- BmfsDirectory.SortSorts: the library's sort is modelled by insertion; the theorems about the scan hold for any order that the comparison allows. Reading and writing the disk image, and the other commands, are left out.
- BmfsCreate.CreateKeepsIff: for names of 1 to 31 characters that mark no record as free, since longer names do not fit a record, and for sizes that an int of the command line can hold.
- Calendar.GetCurrentDateTime: reading the clock registers.
- Memory running out: several routines leave a lock held or a list head lost when an allocation inside the kernel fails. Allocations succeed in the model. The count of a new list is taken to start at 0, which the C code does not set.
- Locks that are held within one atomic system call, saving and switching stacks, interrupt and boot code, drawing and keyboard code, the shell and its commands, formatting of text, reporting functions, shared memory, module packing.
