# AlienOS kernel: a verified model

This project models three parts of the AlienOS kernel in Dafny and proves what they keep and promise.

**The kernel heap** (`src/kernel/kmalloc.c`). `KernelHeap.KHeap` is the allocator on an array of bytes, with 16-byte
headers in band and the free list threaded through them by address. Its methods are proved against the functions
`Malloc`, `Free` and `Realloc` of `HeapModel`, on a value with three views of the heap at once: the tiling of
`[kheap_begin, kheap_end)` by blocks, the free list, and the live blocks. `Intervals` has the algebra of free lists: a
canonical list (sorted, no two blocks touching) is determined by the bytes it covers. `HeapTheorems` and `HeapStats`
prove the properties of the operations and of whole runs, `HeapCounters` what the counters mean; `HeapWalk` ties the
tiling to the headers in memory. `Headers` and `HeapMemory` hold the reasoning about bytes.

**Threads, scheduler and synchronization** (`src/kernel/thread.c`, `src/kernel/synch.c`, `src/io/timer.c`,
`src/io/interruptasm.s`). `KernelState` is a state machine with any number of threads, semaphores, mutexes and condition
variables; an `Event` is one atomic piece of a kernel call by the running thread, or a timer interrupt. `KernelPlaces`,
`KernelLocks` and `KernelSteps` prove the invariant that every step keeps; `KernelActs` splits a step into what the
thread does and the interrupt that may follow, and `KernelInterrupt` says exactly what one interrupt does. The theorems
about all runs are in `KernelRuns` (places and counts), `KernelIdle` (who runs when nobody is ready), `KernelOrder`
(dispatch order, reclaiming, assertions), `KernelSleep`, `KernelQueues` (service order of wait queues), `KernelSync`
(semaphores), `KernelMutex` (mutexes), `KernelCond` (condition variables) and `KernelLives` (mutexes against threads
that come and go at the same address). `ThreadLists.Nodes` has the doubly linked list operations on next and previous
pointers, and `SchedulerImpl.Scheduler` the scheduler and all primitives on such lists, one `local_list` node per thread
shared by all lists; each method is proved to take exactly the step of the state machine, and the kernel's assertions
are assertions in the method bodies. `ContextSwitch.Cpu` is the save, switch and restore sequence of the timer interrupt
and the frame a new thread starts from. `ThreadMemory` joins scheduler, heap and stack pointer: where the control blocks
and stacks of threads live on the heap, and when they are given back. `AddressReuse` is a history of this joined
machine.

**Printing** (`src/io/io.c`). `Printing` has the decimal and hexadecimal printers with their fixed digit buffers, and
`Formats` the index loop of `io_printf` against a recursive tokenizer.

## Conditions

The model states these openly; the code gives nothing stronger.

- Code between disabling and restoring interrupts is one step, up to a yield inside it. Where interrupts are enabled,
  the pieces are separate steps and an interrupt may fall between any two: the three stores of `thread_sleep`, the three of
  `mutex_try_acquire`, and the two list insertions of `thread_create_arg`. After a blocked `mutex_acquire` is let
  through, the model even allows interrupts before `holder` is written; the proofs do not need their absence.
- The insertion of a new thread into a list, and its tid, are single steps. `clean_zombies` frees
  memory while no thread holds `free_list_lock`.
- Heap clients pass NULL or live pointers and write only inside their own payloads. A request must get a block with bytes in
  it, and the end of a needed extension must stay below 2^32 (`Fits`). These are exactly the requests that the allocator
  survives: `TargetExact`, `TargetWraps`, `CallocExact` and `ExtendTestExact` say for which sizes the code's own arithmetic
  is right, `CallocWraps` and `ExtendTestFails` give inputs for which it is not, and `KmallocOfNothing` and
  `ExtensionBeyond` show what the other requests do: the heap is destroyed, or memory behind its end is handed out.
- The fifteen sizes from 2^32 - 15 on do no harm to the heap but get a block that is all header. A reallocation to such a size
  loses the whole payload (`ReallocRoomExact`, `ReallocTruncates`); callers must keep `size + 31` below 2^32.
- A mutex's recursion count is a thread's own acquires less its releases only if the thread that had the same control block
  address before did not exit while it held the mutex. No caller may exit holding a mutex; the kernel does not check it
  (`KernelLives.BalancedSinceCreation`, `InheritsIffDiedHolding`, `CleanExitsBalanced`); `AddressReuse.NewThreadHolds` is a history in which it happens.
- Running out of memory halts the machine: the methods return `ok == false`.
- A primitive is initialised once, semaphores with a count of at least zero.
- `owner` in `Mutex` and `pc` in `Thread` are auxiliary: no branch of the scheduler methods depends on `owner`, and `pc` stands for
  the place in the code where a thread continues.

## Where code and documentation disagree

- `include/alienos/mem/kmalloc.h` says that the counters count calls of `kmalloc`, `kcalloc` and `krealloc`, the bytes they
  request, and calls of `kfree`. The code counts allocations made, block sizes with header and padding, and blocks freed
  (`HeapCounters.CountersAre`, which also covers the fourth counter, freed bytes); `HeapCounters.DocumentedIff` says exactly when the documented meaning holds, and
  `HeapCounters.DocumentedFails` gives a run in which none of the three does.
- `condvar_wait` is said to wait "releasing the lock". It releases one level; a caller that holds the mutex more than once sleeps
  with it (`KernelCond.WaitReleasesIffHeldOnce`, `WaitMayKeepMutex`).
- The comments in `internal_thread_init` name the saved registers in another order than the one in which `isr_IRQ0` pops
  them. All of them are zero, or the same selector, so the frame is right (`ContextSwitch.Cpu.InitThread`).

## Model

| member | source | states |
|---|---|---|
| `Intervals.CanonicalUnique` | src/kernel/kmalloc.c:154-163 | two sorted lists without touching blocks that cover the same bytes are equal: the maximal-interval form is unique |
| `Intervals.InsertCanonical` | src/kernel/kmalloc.c:166-203 | inserting a block apart from the list, with merging on both sides, gives a canonical list that covers exactly the bytes of both |
| `HeapModel.RoundFacts` | src/kernel/kmalloc.c:20-20 | the alignment macro gives the least multiple not below its argument when it does not wrap |
| `HeapModel.TargetExact` | src/kernel/kmalloc.c:313-313 | the computed block size holds header and payload if and only if the size does not wrap |
| `HeapModel.TargetWraps` | src/kernel/kmalloc.c:313-313 | of the sizes that wrap, sixteen get a block of no bytes and the others one that is all header |
| `HeapModel.CallocExact` | src/kernel/kmalloc.c:340-341 | a zeroing allocation has room for all its elements if and only if the unwrapped product plus 31 stays below 2^32 |
| `HeapModel.CallocWraps` | src/kernel/kmalloc.c:340-341 | 65536 elements of 65536 bytes get a block that is all header, and one element of 2^32 - 31 bytes one of no bytes |
| `HeapModel.ExtendTestExact` | src/kernel/kmalloc.c:210-218 | for every target size the out-of-memory test is right if and only if the new end stays below 2^32 |
| `HeapModel.ExtendTestFails` | src/kernel/kmalloc.c:210-218 | two requests that pass the test though there is no such memory, one by a wrapped end and one by a wrapped rounding |
| `HeapModel.FirstFit` | src/kernel/kmalloc.c:250-256 | the block found is large enough and every block before it is too small |
| `HeapTheorems.MallocBlock` | src/kernel/kmalloc.c:311-327 | an allocation keeps the tiling and adds exactly one live block, 16-aligned, of exactly the target size, disjoint from all live ones |
| `HeapTheorems.MallocFirstFit` | src/kernel/kmalloc.c:248-275 | the heap keeps its size if and only if some run of free bytes reaches the target size, and the block starts no later than any such run |
| `HeapTheorems.MallocGrows` | src/kernel/kmalloc.c:208-225 | otherwise the heap grows by the target rounded up to whole pages, and halts if and only if that passes the limit |
| `HeapTheorems.FreeBytes` | src/kernel/kmalloc.c:440-456 | freeing keeps the tiling and adds exactly the bytes of the block to the free bytes |
| `HeapTheorems.FreeUndoesMalloc` | src/kernel/kmalloc.c:311-327 | allocating and freeing at once restores the identical free list, or the canonical list with the new pages added if the heap grew |
| `HeapTheorems.FreeAllInAnyOrder` | src/kernel/kmalloc.c:440-456 | freeing all live blocks in any order leaves one free block that covers the whole heap |
| `HeapTheorems.NextIsBlock` | src/kernel/kmalloc.c:388-390 | the address behind a live block, unless it is the end, is the start of a live or of a free block, never both |
| `HeapTheorems.InPlaceIffRunFree` | src/kernel/kmalloc.c:380-390 | resizing in place is possible if and only if all bytes missing behind the block are free |
| `HeapTheorems.ReallocInPlace` | src/kernel/kmalloc.c:380-415 | shrinking and absorbing keep the tiling, the address and all other live blocks, and give the block the target size |
| `HeapModel.ReallocRoomExact` | src/kernel/kmalloc.c:373-385 | a reallocated block has room for the smaller of old payload and new size if and only if the size does not wrap or the old payload is empty |
| `HeapTheorems.ReallocTruncates` | src/kernel/kmalloc.c:373-385 | every size from 2^32 - 15 on cuts every live block down to its header |
| `HeapTheorems.ReallocMoves` | src/kernel/kmalloc.c:417-430 | moving keeps the tiling, frees the old block and adds one new block of the target size |
| `HeapTheorems.ReallocKeepsAddress` | src/kernel/kmalloc.c:373-415 | the address is kept if and only if the block with the whole free run behind it reaches the target size |
| `HeapTheorems.StepKeepsWF` | src/kernel/kmalloc.c:302-456 | every call keeps the tiling, the disjointness and the canonical free list |
| `HeapTheorems.RunKeepsWF` | src/kernel/kmalloc.c:227-456 | they hold after every call of every run from initialisation |
| `HeapStats.RunBalanced` | src/kernel/kmalloc.c:322-323 | over every run, modulo 2^32, allocation count less free count is the number of live blocks, and the byte counters plus the in-place size changes give the live bytes |
| `HeapStats.CountersExact` | src/kernel/kmalloc.c:451-452 | the byte counters alone give the live bytes if and only if the in-place changes cancel |
| `HeapStats.CountersDrift` | src/kernel/kmalloc.c:380-385 | a run of two calls after which they do not, with an allocation count of 1 |
| `HeapCounters.CountersAre` | src/kernel/kmalloc.c:311-456 | over every run, modulo 2^32: the allocation count is the calls that allocate, the allocated bytes are what these calls asked for plus header and padding, the free count is the kfree calls with a block and the reallocations that freed or moved, and the freed bytes are the sizes of those blocks with headers |
| `HeapCounters.OverheadBounds` | src/kernel/kmalloc.c:313-323 | modulo 2^32, header and padding are 16 to 31 bytes for every allocation, wrapped sizes included |
| `HeapCounters.DocumentedIff` | include/alienos/mem/kmalloc.h:27-33 | the documented meaning of each of the three counters holds if and only if, modulo 2^32, no call was served without allocating; overhead equals what such calls asked for; NULL was freed as often as a reallocation freed |
| `HeapCounters.DocumentedFails` | include/alienos/mem/kmalloc.h:27-33 | a run of three calls after which none of the three is as documented |
| `HeapWalk.WalkTiles` | src/kernel/kmalloc.c:388-388 | walking from header to header by size from the start of the heap visits exactly the live and free blocks and stops on its end |
| `KernelHeap.KHeap.constructor` | src/kernel/kmalloc.c:227-244 | four pages form one free block, over whatever bytes memory held |
| `KernelHeap.KHeap.InitBlock` | src/kernel/kmalloc.c:147-152 | size, allocation bit and magic are set and only the header changes |
| `KernelHeap.KHeap.SetSize` | src/kernel/kmalloc.c:111-114 | the size changes, the flag bits do not, nothing outside the header does |
| `KernelHeap.KHeap.SetAlloc` | src/kernel/kmalloc.c:123-132 | the allocation bit changes, size, link and magic do not |
| `KernelHeap.KHeap.KmCoalesce` | src/kernel/kmalloc.c:156-163 | the linked list in memory becomes the list with a block and its touching successor fused, by one header write |
| `KernelHeap.KHeap.KmInsert` | src/kernel/kmalloc.c:166-203 | the walk and the link writes give the canonical insertion, and change only headers of free blocks; the three assertions hold |
| `KernelHeap.KHeap.KmExtend` | src/kernel/kmalloc.c:208-225 | in 32-bit arithmetic, for every size: the new end, when the call halts, and the fresh header, which is all that changes |
| `KernelHeap.KHeap.ExtensionBeyond` | src/kernel/kmalloc.c:208-225 | an extension by nothing, or past 2^32, is not noticed: the block handed out lies behind the end of the heap |
| `KernelHeap.KHeap.KmFind` | src/kernel/kmalloc.c:248-275 | the first block that fits is unlinked, or a new one made; only free bytes change |
| `KernelHeap.KHeap.KmSplit` | src/kernel/kmalloc.c:279-297 | the first bytes of a block are kept and the rest goes back to the canonical list |
| `KernelHeap.KHeap.KmallocUnsafe` | src/kernel/kmalloc.c:311-327 | the heap in memory becomes what `Malloc` says, and every live payload and size is unchanged |
| `KernelHeap.KHeap.KmallocOfNothing` | src/kernel/kmalloc.c:279-323 | a request that wraps to no bytes leaves the head of the free list marked allocated with size zero: memory holds no heap any more |
| `KernelHeap.KHeap.KcallocUnsafe` | src/kernel/kmalloc.c:338-348 | the same, and the new payload is zero |
| `KernelHeap.KHeap.KfreeUnsafe` | src/kernel/kmalloc.c:440-456 | the heap becomes what `Free` says, every other payload is unchanged, NULL is ignored; the assertions hold |
| `KernelHeap.KHeap.ReallocShrink` | src/kernel/kmalloc.c:380-385 | the kept payload and all other blocks are unchanged |
| `KernelHeap.KHeap.ReallocAbsorb` | src/kernel/kmalloc.c:388-415 | the whole old payload and all other blocks are unchanged when the next block is absorbed |
| `KernelHeap.KHeap.FindLink` | src/kernel/kmalloc.c:401-406 | the search for the block that links to the adjacent one never runs off the list |
| `KernelHeap.KHeap.ReallocMove` | src/kernel/kmalloc.c:417-430 | the whole old payload is copied to the new block and all other blocks are unchanged |
| `KernelHeap.KHeap.CopyPayload` | src/kernel/kmalloc.c:424-428 | the byte loop copies the payload and changes nothing else |
| `KernelHeap.KHeap.KreallocUnsafe` | src/kernel/kmalloc.c:358-431 | the heap becomes what `Realloc` says and other blocks are unchanged; on every path the payload that fits the new block is kept, which is the first min(old payload, new size) bytes unless the size wraps |
| `KernelPlaces.PickAsserted` | src/kernel/thread.c:180-220 | the thread picked is ready, or is the current one and still running |
| `KernelPlaces.RescheduleSched` | src/kernel/thread.c:123-233 | a whole interrupt keeps every thread in the place its status names |
| `KernelSteps.StepInv` | src/kernel/synch.c:61-256 | every step of every call, and every interrupt, keeps the invariant of lists, queues, counts and mutexes |
| `KernelRuns.RunInv` | src/kernel/thread.c:303-424 | the invariant holds in every reachable state |
| `KernelRuns.OnePlace` | src/kernel/thread.c:76-227 | in every reachable state each thread sits in exactly one place, the one its status stands for, and no list holds a thread twice |
| `KernelRuns.ThreadCountIsSum` | src/kernel/thread.c:412-424 | the number of threads is the sum of the parts: current, idle, ready, sleeping, zombie, all wait queues, and threads being created |
| `KernelInterrupt.TickExact` | src/kernel/thread.c:392-410 | one tick wakes exactly the sleepers that are due, in list order, though the loop unlinks nodes from the list it walks |
| `KernelInterrupt.ReapExact` | src/kernel/thread.c:124-146 | the zombie walk reclaims exactly the zombies and nothing else |
| `KernelInterrupt.RescheduleExact` | src/io/interruptasm.s:131-146 | what one interrupt does to clock, ready list, zombies, sleepers and every thread |
| `KernelIdle.NobodyReady` | src/kernel/thread.c:156-159 | with nobody ready and nobody due the interrupt leaves the running thread on the processor, and a thread that may not go on gives it to idle |
| `KernelIdle.SleeperNext` | src/kernel/thread.c:161-172 | with nobody ready and somebody due, the first sleeper of the list that is due runs next |
| `KernelIdle.IdleIff` | src/kernel/thread.c:149-173 | the interrupt ends with idle running if and only if after the tick nobody is ready and the thread that had the processor is idle or may not go on |
| `KernelIdle.IdleRunsAlone` | src/kernel/thread.c:149-227 | in every run idle has the processor only while no thread waits for it: the ready list is empty, and every other ready thread is one still being created |
| `KernelIdle.CreatedIsLast` | src/kernel/thread.c:354-356 | a new thread is dispatched after all that were ready before it |
| `KernelIdle.WokenIsLast` | src/kernel/thread.c:372-381 | so is a waiter that is woken |
| `KernelIdle.PreemptedIsLast` | src/kernel/thread.c:198-203 | so is a thread that the interrupt takes the processor from |
| `KernelOrder.TicksCountSwitches` | src/io/timer.c:159-170 | the clock counts the passes through the scheduler, yields included |
| `KernelOrder.DispatchedInOrder` | src/kernel/thread.c:149-173 | a ready thread with b threads nearer the tail is dispatched by exactly the (b+1)-th following pass, whatever happens in between |
| `KernelOrder.ExitedIsReclaimedNext` | src/kernel/thread.c:236-248 | from its exit to the next pass a thread is the only zombie and is not current; that pass reclaims it |
| `KernelOrder.ZombieExited` | src/kernel/thread.c:207-209 | there is never more than one zombie, and it exited since the pass before |
| `KernelOrder.ReclaimedHadExited` | src/kernel/thread.c:124-146 | no block is given back except by the first pass after its thread's exit |
| `KernelOrder.NoAssertionFails` | src/kernel/thread.c:131-133 | in every run the assertions on zombies, sleepers, woken threads, the picked thread, the current thread's status and the recursion count hold |
| `KernelSleep.WakesExactlyWhenDue` | src/kernel/thread.c:393-410 | a sleeper stays in the list until the tick that reaches its time, and that tick makes it ready |
| `KernelSleep.SleepLastsLongEnough` | src/kernel/thread.c:383-390 | a thread that called thread_sleep(n) is not back in its own code before n ticks have passed, wherever interrupts fall |
| `KernelSleep.SleeperArmed` | src/kernel/thread.c:383-390 | in every run a thread inside thread_sleep armed the call in an earlier step of its own, and its wake-up time is the clock of that step plus the argument, zero included |
| `KernelSleep.SleepsUntilDue` | src/kernel/thread.c:383-410 | a pass through the scheduler leaves a sleeper in the list if and only if it brings the clock to less than that time; otherwise the sleeper is ready or running again |
| `KernelQueues.StepQueue` | src/kernel/synch.c:9-52 | every step takes from the front of a queue and adds at its end |
| `KernelQueues.ServedInOrder` | src/kernel/synch.c:105-122 | a waiter with p threads before it keeps that order and is made ready by exactly the (p+1)-th wake-up, for semaphores, mutexes and condition variables |
| `KernelActs.WakeAllOrder` | src/kernel/synch.c:242-256 | broadcast empties the queue and makes all waiters ready with the longest waiter nearest the end the scheduler takes from |
| `KernelSync.SemaphoreAccounts` | src/kernel/synch.c:54-122 | for a semaphore started at n: count = n + ups - downs - successful tries, queue length = max(0, -count), threads let through = n + ups - max(count, 0), never more than n + ups |
| `KernelLocks.LockHandoff` | src/kernel/synch.c:179-198 | the outermost release passes the mutex to the longest waiter, or frees it |
| `KernelMutex.HasIsOwner` | src/kernel/synch.c:132-177 | holding a mutex or having been let through to it is the same as being its owner |
| `KernelMutex.MutualExclusion` | src/kernel/synch.c:132-198 | in every reachable state at most one thread holds a mutex or has been granted it, the gap before holder is written included |
| `KernelMutex.OwnerStep` | src/kernel/synch.c:132-198 | a mutex changes owner only by being taken while free, or by its owner's outermost release, which gives it to the longest waiter; nobody else changes it |
| `KernelMutex.HandedToLongestWaiter` | src/kernel/synch.c:179-198 | after a release with waiters the longest waiter, and nobody else, has the mutex until it lets it go itself |
| `KernelMutex.RecursionBalanced` | src/kernel/synch.c:139-196 | over every run, for each control block address, the recursion count is completed acquires less releases |
| `KernelLives.BalancedSinceCreation` | src/kernel/synch.c:139-196 | from a thread's creation on, its recursion count is its own acquires less its releases if and only if the mutex did not name its address as holder already |
| `KernelLives.InheritsIffDiedHolding` | src/kernel/thread.c:236-248 | a new thread finds its address named as holder if and only if the last thread at that address exited while it held the mutex |
| `KernelLives.CleanExitsBalanced` | src/kernel/synch.c:179-198 | if no thread exits while it holds a mutex, every thread's count is its own acquires less its releases, so only the release that matches its outermost acquire frees the mutex |
| `AddressReuse.NewThreadHolds` | src/kernel/thread.c:339-359 | a history of scheduler and heap together, for every heap with room: first fit gives a new thread the address of one that exited holding a mutex, and it runs as holder though it never acquired it, and may release it |
| `AddressReuse.ReusedAddressHolds` | src/kernel/synch.c:179-198 | the scheduler's side of it: no acquire since creation, and holder at recursion 1 |
| `KernelCond.NoLostWakeup` | src/kernel/synch.c:206-240 | a waiter is queued from the very step that lets the mutex go; with p older waiters the (p+1)-th wake-up makes it ready |
| `KernelCond.WaitKeepsRecursion` | src/kernel/synch.c:206-223 | during the wait the mutex is let go exactly if it was held once, else held one level less; the return acquires it again or blocks for it |
| `KernelCond.WaitEndsHolding` | src/kernel/synch.c:206-224 | when the caller of condvar_wait is back in its own code, on every path, it holds the mutex at the recursion count of the call |
| `KernelMutex.GrantedHoldsOnce` | src/kernel/synch.c:151-153 | one step: the thread that was let through finds the mutex its own and unheld, and becomes holder at recursion 1 |
| `KernelMutex.BlockedAcquireHolds` | src/kernel/synch.c:132-155 | a blocked acquire, from the call to its end: the caller then holds the mutex at recursion 1, and from the grant on nobody else has it |
| `KernelCond.WaitReleasesIffHeldOnce` | src/kernel/synch.c:217-217 | condvar_wait lets the mutex go if and only if the caller holds it once |
| `KernelCond.WaitMayKeepMutex` | src/kernel/synch.c:217-217 | a run that ends with a thread asleep on a condition variable and holding the mutex |
| `ThreadLists.LinkedUnique` | src/kernel/thread.c:160-168 | the links from a head spell only one list |
| `ThreadLists.Nodes.Add` | src/kernel/thread.c:76-88 | the pointers spell the list with the node in front; no other node's links change |
| `ThreadLists.Nodes.Remove` | src/kernel/thread.c:91-121 | the pointers spell the list without the node, from head, middle or tail; its own links are NULL and the head assertion holds |
| `ThreadLists.Nodes.Append` | src/kernel/synch.c:9-27 | the pointers spell the queue with the node at the end, which is the new tail |
| `ThreadLists.Nodes.PopFront` | src/kernel/synch.c:30-52 | the first node is returned and head and tail are those of the rest; both assertions hold |
| `ThreadLists.Nodes.FindLast` | src/kernel/thread.c:163-168 | the walk ends on the last node and every back link agrees on the way |
| `ThreadLists.Nodes.Count` | src/kernel/thread.c:415-421 | the walk counts the list |
| `SchedulerLists.WiredChange` | src/kernel/thread.c:76-121 | changing one list leaves every other list spelt by the shared nodes, because the lists are disjoint |
| `SchedulerImpl.Scheduler.constructor` | src/kernel/thread.c:303-337 | the initial state: main thread running, idle thread aside |
| `SchedulerImpl.Scheduler.ThreadUnblock` | src/kernel/thread.c:372-381 | the thread, blocked as asserted, becomes ready at the head of the ready list; no other list changes |
| `SchedulerImpl.Scheduler.ThreadTimerTick` | src/kernel/thread.c:393-410 | the loop that unlinks while walking wakes the due threads as the state machine says |
| `SchedulerImpl.Scheduler.FreeThread` | src/kernel/thread.c:136-144 | takes a dead thread out of both lists |
| `SchedulerImpl.Scheduler.CleanZombies` | src/kernel/thread.c:124-146 | the loop reclaims the dead threads as the state machine says; both assertions hold |
| `SchedulerImpl.Scheduler.FindReadyThread` | src/kernel/thread.c:149-173 | returns the thread the state machine picks and takes it off the ready list |
| `SchedulerImpl.Scheduler.Schedule` | src/kernel/thread.c:177-227 | parks the current thread where its status says and switches; both assertions hold and the panic is not reached |
| `SchedulerImpl.Scheduler.SchedulerNext` | src/kernel/thread.c:230-233 | both together |
| `SchedulerImpl.Scheduler.TimerInterrupt` | src/io/timer.c:159-170 | tick, then scheduler |
| `SchedulerImpl.Scheduler.ThreadExit` | src/kernel/thread.c:236-248 | the thread becomes a zombie and is switched away from; it is not the idle thread, as asserted |
| `SchedulerImpl.Scheduler.SleepArm` | src/kernel/thread.c:386-386 | the wake-up time is the clock plus n, and nothing else changes |
| `SchedulerImpl.Scheduler.SleepMark` | src/kernel/thread.c:387-387 | the running thread is marked sleeping and still runs |
| `SchedulerImpl.Scheduler.SleepYield` | src/kernel/thread.c:388-388 | the marked thread is switched away from into the sleeping list, unless it has been woken already |
| `SchedulerImpl.Scheduler.CreateThread` | src/kernel/thread.c:348-351 | the new thread joins all_threads and no other list |
| `SchedulerImpl.Scheduler.PublishThread` | src/kernel/thread.c:354-356 | the new thread joins the ready list at its head |
| `SchedulerImpl.Scheduler.ThreadCount` | src/kernel/thread.c:412-424 | returns the number of threads |
| `SchedulerImpl.Scheduler.SemaphoreInit` | src/kernel/synch.c:54-59 | a semaphore with its count and an empty queue; all other lists are as before |
| `SchedulerImpl.Scheduler.Down` | src/kernel/synch.c:61-85 | blocks exactly when the count goes below zero, and then yields |
| `SchedulerImpl.Scheduler.SemaphoreDown` | src/kernel/synch.c:61-85 | refines the semaphore step: count down, and when it goes below zero queue at the tail and switch away |
| `SchedulerImpl.Scheduler.SemaphoreTryDown` | src/kernel/synch.c:87-103 | succeeds exactly when the count is positive, and then takes one |
| `SchedulerImpl.Scheduler.SemaphoreUp` | src/kernel/synch.c:105-122 | refines the semaphore step: count up, and wake the longest waiter if there is one |
| `SchedulerImpl.Scheduler.MutexInit` | src/kernel/synch.c:125-130 | a free mutex with an empty queue |
| `SchedulerImpl.Scheduler.MutexAcquire` | src/kernel/synch.c:132-155 | refines the mutex step, recursive, free or contended |
| `SchedulerImpl.Scheduler.MutexReturn` | src/kernel/synch.c:151-154 | the stores after a blocked acquire is let through |
| `SchedulerImpl.Scheduler.MutexTry` | src/kernel/synch.c:157-177 | succeeds exactly if the caller holds the mutex or the semaphore is free |
| `SchedulerImpl.Scheduler.MutexTryHolder` | src/kernel/synch.c:171-171 | the thread that took the semaphore by a try becomes holder |
| `SchedulerImpl.Scheduler.MutexTryDepth` | src/kernel/synch.c:172-172 | its recursion count becomes 1 and the call ends |
| `SchedulerImpl.Scheduler.MutexRelease` | src/kernel/synch.c:179-198 | refines the release step, which frees the mutex, hands it over or gives one level back; both assertions hold |
| `SchedulerImpl.Scheduler.CondvarInit` | src/kernel/synch.c:200-204 | an empty queue |
| `SchedulerImpl.Scheduler.CondvarWait` | src/kernel/synch.c:206-220 | queues the caller, releases, yields |
| `SchedulerImpl.Scheduler.CondvarReturn` | src/kernel/synch.c:222-223 | acquires the mutex again |
| `SchedulerImpl.Scheduler.CondvarSignal` | src/kernel/synch.c:226-240 | wakes the longest waiter, if there is one |
| `SchedulerImpl.Scheduler.CondvarBroadcast` | src/kernel/synch.c:242-256 | the popping loop wakes all waiters in order |
| `SchedulerImpl.Scheduler.SemaphoreReturn` | src/kernel/synch.c:81-85 | a waiter that was let through is back in its own code |
| `SchedulerImpl.Scheduler.WakeWaiter` | src/kernel/synch.c:114-119 | the longest waiter, if there is one, leaves the queue and becomes ready |
| `SchedulerImpl.Scheduler.Perform` | src/kernel/synch.c:54-256 | simulation: whatever happens next in a run, the linked structures take exactly the step of the state machine and the invariant holds again |
| `ContextSwitch.FrameUnique` | src/io/interruptasm.s:117-129 | a saved frame determines every register |
| `ContextSwitch.FrameLayout` | src/io/interruptasm.s:114-129 | the offset of every register above the saved stack pointer, the processor's three words on top |
| `ContextSwitch.Cpu.Save` | src/io/interruptasm.s:114-129 | processor and handler push one frame with all registers, and change no other word |
| `ContextSwitch.Cpu.Restore` | src/io/interruptasm.s:148-164 | the pops and the return give back exactly the registers of the frame, stack pointer included |
| `ContextSwitch.Cpu.IsrIrq0` | src/io/interruptasm.s:113-164 | the thread switched to goes on with exactly the registers it had when it was last interrupted, and a thread that has not run yet is entered as its creator said; all other threads' frames and stacks are kept, and threads that have not run yet stay so |
| `ContextSwitch.Cpu.InitThread` | src/kernel/thread.c:251-301 | the new thread is to be entered at its entry point with the given flags and selectors, all other registers zero, the exit wrapper as return address at the stack pointer and the argument above it, on an otherwise empty stack; `IsrIrq0`, `Run` and `Retire` keep that until the first switch to it |
| `ContextSwitch.Cpu.Retire` | src/kernel/thread.c:138-144 | a reclaimed thread's block and stack may be used again, and every other thread's registers are safe |
| `ThreadMemory.BirthEnabled` | src/kernel/thread.c:342-351 | the block a creator allocated is never the address of a thread that is there |
| `ThreadMemory.MoveSound` | src/kernel/thread.c:124-359 | every kernel step, creation, allocator call and computation keeps blocks and stacks of all threads live, whole and apart |
| `ThreadMemory.ThreadsHoused` | src/kernel/thread.c:339-359 | at every point of every history the control block and stack of each thread but idle are live heap blocks of full size, no block serves two threads, and no two share a byte |
| `ThreadMemory.ReclaimGivesBack` | src/kernel/thread.c:124-146 | a thread that goes was not running; that very turn frees its block and stack, and neither has a byte of the stack in use, the interrupt's frame included |
| `ThreadMemory.KeptWhileThere` | src/kernel/thread.c:138-144 | nothing else frees or moves them |
| `Printing.NumeralReads` | src/io/io.c:218-221 | a printed numeral has no leading zeros and only digits, and reads back as the number |
| `Printing.NumeralUnique` | src/io/io.c:209-221 | there is only one such numeral for a number |
| `Printing.DecimalReads` | src/io/io.c:165-199 | every signed number, the least one included, reads back |
| `Printing.DecimalForm` | src/io/io.c:165-222 | what is printed is a numeral without leading zeros, behind a minus sign if and only if the number is negative |
| `Printing.DecimalUnique` | src/io/io.c:165-222 | no other text of this form reads as the number |
| `Printing.DecimalWritten` | src/io/io.c:173-198 | digit by digit: the text of 10n + v is the text of n followed by the digit v, and that of -n has a minus sign before |
| `Printing.HexReads` | src/io/io.c:224-255 | behind the prefix every number reads back from a hexadecimal numeral of one letter case |
| `Printing.HexForm` | src/io/io.c:224-255 | the text is 0x or 0X and then digits without leading zeros, the letters in the case of the prefix |
| `Printing.HexUnique` | src/io/io.c:224-255 | no other text of this form reads as the number |
| `Printing.HexWritten` | src/io/io.c:235-249 | digit by digit: the text of 16n + v is the text of n followed by the digit v, one of sixteen by letter case |
| `Printing.RoomEnough` | src/io/io.c:212-212 | a full buffer of ten decimal or eight hexadecimal digits means nothing is left to print |
| `Printing.WriteInt` | src/io/io.c:165-199 | prints the numeral of every 32-bit signed number; the digit loop ends because the value is zero |
| `Printing.WriteUint` | src/io/io.c:201-222 | the same for unsigned numbers |
| `Printing.WriteHex` | src/io/io.c:224-255 | the same in hexadecimal, with the prefix in the letter case of the digits |
| `Formats.WriteStr` | src/io/io.c:156-163 | prints the string |
| `Formats.WriteBool` | src/io/io.c:262-272 | prints the word |
| `Formats.Convert1` | src/io/io.c:286-319 | each specifier prints its argument as read by its type |
| `Formats.NineLetters` | src/io/io.c:284-327 | exactly nine letters are specifiers |
| `Formats.UnsignedPrinted` | src/io/io.c:296-298 | %u prints a numeral without sign that reads back as the argument |
| `Formats.SignedPrinted` | src/io/io.c:300-303 | %i and %d print the numeral of the number from -2^31 to 2^31 - 1 that is congruent to the argument modulo 2^32 |
| `Formats.HexPrinted` | src/io/io.c:309-319 | %x and %p print the argument in lower case behind 0x, %X in upper case behind 0X |
| `Formats.OthersPrinted` | src/io/io.c:288-307 | %c prints the character of the lowest byte, %b false exactly for zero and true otherwise, %s the string |
| `Formats.Printf` | src/io/io.c:274-330 | the index loop prints what the recursive tokenizer says, with lone, doubled and unknown percent signs |
| `Formats.PieceByPiece` | src/io/io.c:274-330 | from the left, a character prints itself, a specifier its argument, %% one percent sign, a percent sign before any other character both, and a percent sign at the end itself |
| `Formats.EscapedPrintsItself` | src/io/io.c:279-327 | a text with its percent signs doubled needs no arguments and prints as itself |
| `Formats.ConcatIffComplete` | src/io/io.c:279-283 | the tokens of two formats are those of their concatenation if and only if the first does not end in a percent sign without a partner |
| `Formats.InTurnIffComplete` | src/io/io.c:274-330 | printing two formats in turn, each with its own arguments, is printing their concatenation with all the arguments if and only if the first is complete in that sense |

## Left out

- Wrap-around of the tick counter, semaphore counts, recursion counts and thread ids: they are unbounded numbers here.
- Instruction-level preemption inside list operations, and contention for `free_list_lock` from `clean_zombies`.
- `blocked_on` and `blocker_type`, which only debug output reads and which an uncontended acquire leaves stale.
- The mutexes around `kmalloc`, `kfree`, `thread_create_arg` and `thread_count`: the operations under them are modelled, not the calls that take the locks.
- SchedulerImpl.Scheduler.CreateThread: takes the address of the new block as a parameter; `ThreadMemory` shows that an allocated block is a fresh one.
- KernelHeap.KHeap.KcallocUnsafe: excludes products whose 32-bit value is 2^32 - 31 or more, for which there is no room (`CallocExact`) and the zeroing loop runs over all of memory.
- KernelHeap.KHeap.KmallocUnsafe: excludes the sixteen sizes that wrap to no bytes and the extensions past 2^32, for which it does not keep the heap; `KmallocOfNothing` and `ExtensionBeyond` cover them.
- KernelHeap.KHeap.KreallocUnsafe: excludes the same requests.
- ThreadMemory.MoveSound: the words on the stacks are in `ContextSwitch`, not in the joined model, which has the stack pointer only.
- ContextSwitch.Cpu.IsrIrq0: takes the scheduler's choice and the registers and memory its calls disturb as parameters; stack memory is a map of aligned words.
- ThreadLists.Nodes.Add: links are maps from control block to control block, with one object for each kind of node, in place of pointers into the blocks.
- Formats.Printf: formats and string arguments are strings without their terminator, and arguments have the kind their specifier asks for, as C demands.
- The multiboot memory map: the upper limit of the heap is a given constant.
- Port I/O, serial setup, interrupt controller and timer programming, descriptor tables, terminal, keyboard, boot code.
- Debug printing, `thread_get_by_tid` and the other counting walks, and the string library: easy loops once the list refinement is there.
- More than one processor.
