# A model of the qemuos kernel

qemuos is a small multiprocessor x86 kernel in C++. This project models the parts of it that keep
state consistent, each in its own module, and proves what they promise.

**Copy-on-write memory** (`Paging`, `PagingSteps`, `PagingFacts`, `Vmm`, `EagerCopy`,
`EagerFork`, `ForkMachine`).
Physical memory is an array of 4096-byte frames of 1024 words. Page directories, page tables and the
links of the free list live inside frames. `Vmm` updates them in place: the frame pool with its
reference counts, address spaces, page faults and the page loop of fork. Frames and addresses in
`firstFree` and `avail` are frame numbers; an address space is named by the frame of its directory.
A ghost record of the references that exist ties counts, write bits, free list and page contents
together. The main result is `ForkMachine.Machine.Run`: over any schedule, with any number of forks
half done, each operation is answered as by a machine where fork copies all pages at once, and
`EagerFork` says how each fork ends.

**Scheduler** (`Scheduler`, `SchedulerProof`, `SchedulerSafety`, `SchedulerTurns`). A machine of atomic steps over any
number of CPUs: each read or write of a `leaveMeAlone` flag or of `activeThreads`, each queue
operation, the register save, the stack switch. A timer interrupt may push a call of `yield` on the
running stack between any two steps, also where the kernel has interrupts off, so every run of the
kernel is a run of the model. `SafeRuns` is safety in all reachable states. `SchedulerTurns` says what each routine
achieves: who runs and who waits where when a CPU has gone through it.

**Blocking primitives** (`Queue`, `Semaphores`, `Semaphore`, `Mutex`, `BoundedBuffer`, `Future`). The
intrusive queue and the semaphore are classes over linked threads; mutex, bounded buffer and future
run any number of calls in any interleaving, one semaphore operation or one access a step.

**Heap** (`HeapModel`, `Heap`, `HeapProgram`). One array of words, changed in place, with the tags and
links where the kernel has them. A pointer is the index of the first payload word. The kernel's
best-of-20 malloc and the user library's first-fit malloc and realloc share everything else.

**BobFS** (`Ide`, `Volume`, `VolumeLayout`, `Directory`, `BobFs`, `BobProgram`). The disk is an array of bytes, read
and written by whole sectors. `VolumeLayout.Decode` reads a volume off it, the bytes outside its structures included;
`Volume` says what the block map keeps; `Directory` what directories hold; `BobFS` is the code. Contents are a map
from used inodes to byte sequences, and `BobProgram.Run` is about whole runs.

**Hash table** (`Primes`, `PrimeWords`, `TopPrime`, `Hashmap`) and **integer formatting** (`FormatInt`).

Where the code and what one would expect of it differ, the model follows the code:

- `Hashmap::erase` loses the rest of a bucket when the key is at its head (kernel/hashmap.h:198-201);
  `Erase` says exactly when, and `EraseLoses` is such a case.
- `IsPrime(1)` is true and `NextPrime(0)` is 1 (kernel/hashmap.h:6-28). `IsPrime` also denies the largest 32-bit
  prime, 4294967291: the square in the loop guard wraps around, so the search goes on until the divisor is the
  number itself. Apart from these two words it is right, which `PrimeWords` proves.
- A `0` flag together with a precision above the digit count makes the field too short
  (kernel/snprintf.cc:445-449), and the flag is not ignored there as section 7.19.6.1 of ISO C99 has it.
- `realloc` frees the old block even when it fails (user/heap.c:210-217), unlike section 7.20.3.4 of
  ISO C99 (`ReallocLoses`); and it copies up to 8 bytes from behind the old payload, inside the array.
- A request of more than 2^32 - 4 bytes wraps and is granted 8 bytes (kernel/heap.cc:134-135). `realloc` to such a size
  then copies the whole old block, and overruns the new one unless the old one is two words smaller
  (`OverrunsWhen`, `ReallocOverruns`).
- `BobFS::mkfs` does not clear the inode table (kernel/bobfs.cc:398-421), so the invariants speak of inodes marked
  as used.

## Model

| member | source | states |
|---|---|---|
| `ForkMachine.Machine.Run` | kernel/sys.cc:80-160 | over any schedule of process creation, forks (any number half done), loads, stores and deletions, each operation that its process can run is answered as by the machine in which fork copies every page at once, and moves the forks under way on as the page loop does; a run stops early only at an enabled operation that needs more frames than there are left, and what came before it still holds |
| `ForkMachine.Machine.Perform` | kernel/sys.cc:80-160 | one operation of the schedule is one step of the eager machine and its forks; it fails exactly when it was enabled and fewer frames are left than it takes: one for a new space, one for a page of a fork where the child lacks the page table, up to two for a fault, none otherwise |
| `ForkMachine.Machine.StartFork` | kernel/sys.cc:80-95 | the child owns a copy of the whole parent from here on as far as user code can tell; a fork at page 0 is under way, and neither parent nor child can run |
| `ForkMachine.Machine.ForkStep` | kernel/sys.cc:97-136 | the loop gets one page further, or, after the last one, the fork is over; nothing that any process owns changes; it takes no frame but one for a page table that the child lacks, and fails exactly when it needs that one and there is none |
| `ForkMachine.Machine.Load` | kernel/vmm.cc:139-177 | a load, with the fault it may take, answers with the word the process owns there |
| `ForkMachine.Machine.Store` | kernel/vmm.cc:139-177 | a store, with the fault it may take, changes one word of the storing process and nothing of any other |
| `ForkMachine.Machine.Delete` | kernel/vmm.cc:101-119 | deleting an address space takes away that process alone |
| `EagerFork.WholeFork` | kernel/sys.cc:91-159 | from a fork to the last step of its loop, whatever other processes do: then parent and child can run, the parent owns what it owned and the child the same |
| `EagerFork.ForkEnds` | kernel/sys.cc:154-158 | one step for each page left and one more ends the fork and makes both processes runnable |
| `EagerFork.ForkGoesOn` | kernel/sys.cc:97-158 | before that, the loop has done as many pages as it had steps, neither process can run, and both own what they owned |
| `EagerFork.FollowsRuns` | kernel/sys.cc:80-160 | the answers to a schedule are a run of the eager machine |
| `EagerCopy.Isolation` | kernel/sys.cc:95-136 | on the eager machine no run of other processes changes what a space holds |
| `EagerFork.ReadsBack` | kernel/sys.cc:95-136 | a word that a process stored is what it loads next, whatever other processes store, fork and delete in between |
| `EagerFork.OthersRun` | kernel/sys.cc:80-160 | what other processes do never stops a process that takes part in no fork, nor changes what it owns |
| `CopyOnWriteVmm.Vmm.HandlePageFault` | kernel/vmm.cc:139-170 | every resolved fault leaves every page of every space as seen by user code, makes the faulting page writable, and touches no other mapping; it is bad exactly when the page was writable already; it takes no frame for a page with one reference, one for a shared page, one for an absent page and one more for a missing page table, and finds none exactly when there are fewer |
| `CopyOnWriteVmm.Vmm.DemandZero` | kernel/vmm.cc:145-150 | first branch: a page never touched becomes a writable page of zeros, which it read as before, in a frame that was free |
| `CopyOnWriteVmm.Vmm.GrantWrite` | kernel/vmm.cc:151-156 | second branch: the only reference gets write permission |
| `CopyOnWriteVmm.Vmm.CopyPage` | kernel/vmm.cc:157-165 | third branch: the page is copied to a frame of its own, the old frame loses one reference and the other mappings of it stay, no view changes |
| `CopyOnWriteVmm.Vmm.UserStore` | kernel/vmm.cc:139-177 | the stored word changes in the storing space only, after at most one fault; it fails exactly when that fault finds no frame |
| `CopyOnWriteVmm.Vmm.UserLoad` | kernel/vmm.cc:139-177 | the word loaded is the one the page held before, zero for an absent page; only an absent page takes a frame |
| `CopyOnWriteVmm.Vmm.WalkMeans` | kernel/vmm.cc:122-137 | walking the two-level tables in memory reaches exactly the frames that the recorded references say, with the same write permission |
| `CopyOnWriteVmm.Vmm.constructor` | kernel/vmm.cc:13-28 | the pool starts with every invariant true and the shared directory as its one reference |
| `CopyOnWriteVmm.Vmm.Alloc` | kernel/vmm.cc:31-51 | the frame handed out had no reference and has one now, zeroed: the head of the free list, or the first untouched frame when the list is empty; None exactly when both are used up |
| `CopyOnWriteVmm.Vmm.Free` | kernel/vmm.cc:53-61 | one reference less, and at zero the frame is linked in front of the free list inside its own first word |
| `CopyOnWriteVmm.Vmm.GetPTE` | kernel/vmm.cc:122-129 | a table there already is returned and nothing changes; a missing one is a fresh, empty, unshared frame, and no user page changes; None exactly when it is missing and no frame is left |
| `CopyOnWriteVmm.Vmm.NewSpace` | kernel/vmm.cc:71-99 | a new space shares the kernel part and maps no user page; every other space sees what it saw; it takes one frame |
| `CopyOnWriteVmm.Vmm.ForkPage` | kernel/sys.cc:98-135 | after one page of the loop the child maps the very frame that the parent maps and reads what the parent reads, and no other view changes; it fails exactly when the parent maps the page, the child has no table there and no frame is left |
| `CopyOnWriteVmm.Vmm.SharePage` | kernel/sys.cc:102-133 | clearing the write bit, counting the child and mapping the frame read-only leaves the page readable in both and writable in neither; both map the same frame, whose count is one more, and the page itself takes no frame |
| `CopyOnWriteVmm.Vmm.ForkPages` | kernel/sys.cc:97-136 | the whole loop: the child maps what the parent maps, page by page the same frame and the same contents; the only frames taken are one for each page table of the parent with a page in it, and it fails exactly when there are fewer |
| `CopyOnWriteVmm.Vmm.ForkAndDestroy` | kernel/sys.cc:95-136 | fork followed by destroying the untouched child restores every reference count and the number of free frames, and keeps every view of the other spaces |
| `CopyOnWriteVmm.Vmm.Destroy` | kernel/vmm.cc:101-119 | exactly the references of that space go; every page still mapped elsewhere keeps its contents |
| `CopyOnWriteVmm.Vmm.BuildShared` | kernel/vmm.cc:71-99 | the shared space maps each physical page but 0 and the two APIC pages to themselves and nothing else, with a table for every kernel directory entry |
| `PagingFacts.RefsExact` | kernel/vmm.h:77-95 | between operations each reference count is the number of directories, page tables and page-table entries in memory that use the frame |
| `PagingFacts.SharedIsReadOnly` | kernel/vmm.cc:151-165 | a frame that two user pages map is writable through neither |
| `PagingFacts.PoolPartition` | kernel/vmm.cc:31-61 | frames below avail are the free list, without repetition, or have references, never both; frames above have none |
| `PagingFacts.RefsFit` | kernel/vmm.h:79-95 | no reference count can reach 2^32 |
| `PagingFacts.SpareIs` | kernel/vmm.cc:31-51 | the frames that alloc can still hand out are exactly those that no directory, table or entry refers to |
| `PagingFacts.WordBits` | kernel/vmm.cc:131-137 | an entry is the frame number from bit 12 on, with P, W and U in bits 0, 1 and 2 |
| `PagingFacts.AddressBits` | kernel/vmm.cc:122-129 | an address is 10 bits of directory index, 10 bits of table index and 12 bits of offset; the private part of a space is 0x80000000 up to 0xF0000000 |
| `PagingFacts.SameEdgesSameCounts` | kernel/vmm.cc:101-119 | the counts depend only on the references that exist, not on what happened in between |
| `PagingSteps.SoleIsOne` | kernel/vmm.cc:151-157 | a count of 1 read through a mapping means that mapping is the only reference; a referenced frame never has count 0, so decrementing cannot find 0 |
| `PagingSteps.AllocHold` | kernel/vmm.cc:31-51 | the frame that alloc is about to hand out has no reference, so that panic is unreachable |
| `PagingSteps.LinkLeaf` | kernel/vmm.cc:131-137 | pmap of a held frame keeps the invariant and changes the view of that one page to the frame |
| `PagingSteps.DetachPage` | kernel/vmm.cc:157-165 | freeing the shared frame before clearing the entry comes to the same as clearing first |
| `PagingSteps.Drop` | kernel/vmm.cc:53-61 | giving up a reference keeps the invariant and every page still mapped |
| `Heap.Heap.constructor` | kernel/heap.cc:17-24 | one available block between two taken sentinels of size 2 |
| `Heap.Heap.Malloc` | kernel/heap.cc:130-179 | a new live block large enough, none of whose words was in a live block, the smallest of the first 20 that fit in list order; at most 3 words of it are waste, a larger rest is an available block right behind it and the first of the list; None exactly when no available block is large enough; the heap stays well formed and no live word changes |
| `Heap.Heap.FindBest` | kernel/heap.cc:144-163 | the search picks the smallest of the first 20 fitting blocks, 0 exactly when none fits |
| `Heap.BestOfAll` | kernel/heap.cc:144-163 | with at most 20 fitting blocks the choice is the best fit of the whole list |
| `Heap.Heap.MallocFirst` | user/heap.c:125-161 | the first fitting block of the list, with the same guarantees, waste and rest included |
| `Heap.Heap.Free` | kernel/heap.cc:181-212 | that block alone stops being live, merged with whichever neighbours are available, and is the first of the list, which loses them; no other live word changes; refused exactly for a pointer that is not a live block |
| `Heap.Heap.Absorb` | kernel/heap.cc:199-208 | an available neighbour leaves the list and gives its words; a taken one stays |
| `Heap.Heap.AbsorbBoth` | kernel/heap.cc:196-208 | both neighbours one after the other: the run of words that becomes one block, and the list without them |
| `Heap.Heap.Realloc` | user/heap.c:193-218 | for every 32-bit size at which the copy stays inside the granted payload: null exactly when no block of the list is large enough; otherwise the new block holds the first min(old payload, new size) bytes and no other live word changed; every array access is in bounds although the copy counts the tags; without room the old block is freed all the same |
| `Heap.Heap.OverrunsWhen` | user/heap.c:208-214 | the copy leaves the granted payload exactly when the size is one of the three whose rounding wraps and the old block is not at least two words smaller than the granted one |
| `Heap.ReallocOverruns` | user/heap.c:193-218 | 4 words reallocated to 2^32 - 1 bytes in a heap of 16 words: the copy overwrites the header of the block behind the granted one, and the heap is no longer well formed |
| `Heap.Heap.Move` | user/heap.c:208-217 | copying into the granted block and freeing the old one, with the same words |
| `Heap.ReallocLoses` | user/heap.c:193-218 | 8 bytes of a heap of 8 words, reallocated to 100 bytes: null, and the block is no longer allocated |
| `Heap.IntsEnough` | kernel/heap.cc:134-135 | the rounded block has room for the bytes asked for exactly when the rounding does not wrap |
| `Heap.IntsClose` | kernel/heap.cc:134-136 | the rounded block is less than a word larger than the bytes asked for, from 5 bytes on; up to 8 bytes it is 4 words with its tags |
| `Heap.IntsTooSmall` | kernel/heap.cc:134-135 | a request whose rounding wraps gets 8 bytes |
| `HeapModel.InitOk` | kernel/heap.cc:17-24 | the initial array is a well-formed heap |
| `HeapModel.RemoveOk` | kernel/heap.cc:90-104 | unlinking keeps all blocks, tags and taken words, and the list is the same without that block |
| `HeapModel.PublishOk` | kernel/heap.cc:106-115 | making a run of blocks available as one keeps tiling, links and the separation of available blocks |
| `HeapModel.SplitOk` | kernel/heap.cc:168-170 | splitting gives a taken block of the size asked for and puts the rest on the list |
| `HeapModel.FreedOk` | kernel/heap.cc:194-211 | coalescing on either side, both or none keeps the heap well formed and removes one live block |
| `HeapModel.LeftExists` | kernel/heap.cc:196-197 | the footer before a header leads to the block that ends there |
| `HeapModel.TwoBlocks` | kernel/heap.cc:130-212 | two live blocks are disjoint, inside the array, and of at least 4 words |
| `HeapModel.LiveOffList` | kernel/heap.cc:122-128 | blocks not on the free list, but for the sentinels, are exactly the live ones |
| `HeapProgram.Program.Run` | kernel/heap.cc:130-212 | any run of malloc, free, loads and stores behaves as a map from pointers to private blocks, and malloc refuses exactly when no block of the heap at that moment is large enough |
| `HeapProgram.Program.AllowedIs` | kernel/heap.cc:130-212 | what a program may ask: sizes whose rounding does not wrap, and pointers and words of blocks it was given and has not freed |
| `HeapProgram.Private` | kernel/heap.cc:130-212 | no run changes a block except by stores through its own pointer |
| `SchedulerSafety.SafeRuns` | kernel/threads.cc:91-140 | for any number of CPUs, threads and semaphores, any interleaving and any timer interrupts: no thread on two CPUs, at most one queue position or hand for each thread, none lost, only saved contexts resumed, the flag protects, the reaper deletes only switched-out threads, deleted threads are named nowhere, semaphore counts add up |
| `SchedulerSafety.InvIsSafe` | kernel/threads.cc:91-140 | the inductive invariant implies every clause of safety |
| `SchedulerSafety.RunsInv` | kernel/threads.cc:41-54 | the invariant holds after boot and after every step |
| `SchedulerProof.NextKeeps` | kernel/threads.cc:91-140 | every single step of every CPU keeps the invariant |
| `SchedulerProof.OnYieldAdd` | kernel/threads.cc:121-131 | queueing a thread that still runs, its registers not yet saved, keeps the invariant |
| `SchedulerProof.OnGotSelf` | kernel/threads.cc:95-100 | a thread that runs into itself drops its flag and goes on; the invariant holds |
| `SchedulerProof.OnClaim` | kernel/threads.cc:104-109 | claiming a thread whose flag was read as clear, in a later step than the read, keeps the invariant |
| `SchedulerProof.OnJump` | kernel/context.s:12-24 | switching stacks, which uses up the saved context, keeps the invariant |
| `SchedulerProof.OnLand` | kernel/context.s:26-27 | clearing the flag of the thread left, on the new stack, keeps the invariant |
| `SchedulerProof.OnLanded` | kernel/context.s:26-32 | clearing the flag of the thread resumed keeps the invariant |
| `SchedulerProof.OnReapFree` | kernel/threads.cc:26-39 | deleting a zombie whose flag was read as clear keeps the invariant |
| `SchedulerProof.OnWait` | kernel/semaphore.cc:22-35 | a down that has to wait, queued under its flag while it still runs, keeps the invariant |
| `SchedulerProof.OnWake` | kernel/semaphore.cc:10-20 | an up that takes the first waiter in hand keeps the invariant |
| `SchedulerProof.OnSpawn` | kernel/threads.h:230-240 | a new thread, with its context already saved, keeps the invariant |
| `SchedulerProof.OnInterrupt` | kernel/pit.cc:138-144 | a timer interrupt before any step keeps the invariant |
| `SchedulerTurns.YieldSwitches` | kernel/threads.cc:121-131 | from every state that can be reached with a CPU in thread code, and nothing else moving in between: a yield ends with that CPU executing the first ready thread whose flag is down, from its saved context and with its flag down; the yielder is saved, its flag is down, and it is in the ready queue behind all others but those passed over |
| `SchedulerTurns.YieldReturns` | kernel/threads.cc:121-131 | when every other ready thread is under its flag, yield ends in the state it began in |
| `SchedulerTurns.StopSwitches` | kernel/threads.cc:133-140 | stop: the same switch, the thread last among the zombies |
| `SchedulerTurns.DownSwitches` | kernel/semaphore.cc:22-35 | down at count 0: the same switch, the thread last among the waiters of that semaphore |
| `SchedulerTurns.DownPasses` | kernel/semaphore.cc:31-34 | down at a count above 0: the count is one less and nothing else changes |
| `SchedulerTurns.UpWakes` | kernel/semaphore.cc:10-15 | up while threads wait: the first leaves the waiting queue, and one step later is last in the ready queue |
| `SchedulerTurns.UpCounts` | kernel/semaphore.cc:16-19 | up with nobody waiting: the count is one more and nothing else changes |
| `SchedulerTurns.SpawnReadies` | kernel/threads.h:230-240 | a new thread ends up last in the ready queue, with its start as saved context and its flag down |
| `SchedulerTurns.Reaps` | kernel/threads.cc:26-39 | the reaper deletes every zombie and no other thread when their flags are down |
| `SchedulerTurns.ReaperGivesUp` | kernel/threads.cc:31-35 | a lone zombie under its flag is met twice and then lost: neither queued nor deleted |
| `SchedulerTurns.InterruptReturns` | kernel/pit.cc:138-144 | a timer interrupt while the flag of the active thread is up changes nothing |
| `SchedulerTurns.Switches` | kernel/threads.cc:104-117 | block with a switched-out thread at the head: the CPU executes it, the one left is saved, both flags are down |
| `SchedulerTurns.DefersAll` | kernel/threads.cc:104-107 | threads under their flags go to the back of the ready queue, in order |
| `SchedulerTurns.MeetsItself` | kernel/threads.cc:95-100 | a thread that meets itself goes on, its flag down and out of the queue |
| `SchedulerTurns.AtCode` | kernel/threads.cc:41-54 | where a CPU executes thread code it executes its active thread, flag down and not ready; each ready thread with its flag down has a saved context |
| `Queues.Queue.Add` | kernel/queue.h:14-23 | the linked list holds the old threads in order, then this one |
| `Queues.Queue.AddFront` | kernel/queue.h:25-30 | this thread, then the old ones in order |
| `Queues.Queue.Remove` | kernel/queue.h:32-43 | the first thread, and the others in order; null when empty |
| `Queues.Transfer` | kernel/semaphore.cc:10-20 | removing from one queue and adding to another, over the shared links |
| `Queues.Entangle` | kernel/queue.h:14-23 | with a thread in two queues a further add to one breaks the other |
| `Semaphores.Accounting` | kernel/semaphore.cc:10-35 | in every run: downs granted equal the smaller of those asked for and initial value plus ups; the others wait in order of arrival, and only when the count is 0 |
| `SemaphoreClass.Semaphore.Down` | kernel/semaphore.cc:22-35 | count and queue move as the specification says; true when the caller has to block |
| `SemaphoreClass.Semaphore.Up` | kernel/semaphore.cc:10-20 | the first waiter is handed over, or the count grows |
| `Mutexes.Exclusive` | kernel/mutex.h:6-11 | in every run with callers that unlock what they hold, at most one holds, and somebody holds while anybody waits |
| `Mutexes.LockGets` | kernel/mutex.h:9 | in every run: who locks holds the mutex at once when nobody holds it, and is last in line otherwise |
| `Mutexes.UnlockGives` | kernel/mutex.h:10 | who unlocks hands the mutex to the first in line, if there is one |
| `BoundedBuffer.Buffer.Run` | kernel/bb.h:17-34 | any schedule of any number of calls does to the ring exactly what it does to a plain list of items: items come out in the order they were stored, never more than N are in the buffer, and free slots, slots held by calls under way and items always sum to N |
| `BoundedBuffer.CallsAre` | kernel/bb.h:17-34 | after any schedule the calls are, in order, those that the schedule starts, each put with its item |
| `BoundedBuffer.Buffer.Perform` | kernel/bb.h:17-34 | one line of one call is one step on that list; a call that waits, is done or does not exist changes nothing |
| `BoundedBuffer.Buffer.Settle` | kernel/bb.h:17-34 | the calls there are, left to themselves, all end, except gets on an empty and puts on a full buffer: no wake-up is lost; puts keep their items, and a call that has its result keeps it |
| `BoundedBuffer.Buffer.Store` | kernel/bb.h:27-34 | the slot written holds no unread item, and the item is the next one in order |
| `BoundedBuffer.Buffer.Read` | kernel/bb.h:17-25 | the slot read is not empty and holds the oldest unread item |
| `BoundedBuffer.Buffer.Advance` | kernel/bb.h:17-34 | head or tail moves on by one, modulo N, still under the mutex |
| `BoundedBuffer.Buffer.TakeSlot` | kernel/bb.h:17-29 | down on the semaphore of its kind |
| `BoundedBuffer.Buffer.GiveSlot` | kernel/bb.h:24-33 | up on the other semaphore, with direct hand-off |
| `BoundedBuffer.Delivered` | kernel/bb.h:17-34 | for each get that has read there is exactly one put with the same number, no other get has it, and the get returned the item of that put |
| `BoundedBuffer.Fetched` | kernel/bb.h:17-34 | an item that was taken went to the get with the number of the put that stored it |
| `BoundedBuffer.Alone` | kernel/bb.h:17-34 | a call inside the mutex is alone there |
| `BoundedBuffer.AccessSafe` | kernel/bb.h:17-34 | an access in progress implies a free slot for a put, an unread one for a get |
| `BoundedBuffer.Stuck` | kernel/bb.h:17-34 | when nothing can move, what waits is gets on an empty buffer or puts on a full one |
| `Future.Future.Run` | kernel/future.h:14-22 | any schedule of any number of calls is a run of the lines of set and get, with the turn handed to the first waiter |
| `Future.CallsAre` | kernel/future.h:14-22 | after any schedule the calls are, in order, those that the schedule starts, each set with its value |
| `Future.Future.Settle` | kernel/future.h:14-22 | the calls there are, left to themselves, all end once there is a set, every get with the value when there is one set; what is done stays |
| `Future.Future.OneStep` | kernel/future.h:14-22 | each line of set and get, one step at a time |
| `Future.OneToken` | kernel/future.h:14-22 | after the one set, count plus getters holding a token is exactly 1, and each get that is through has the value |
| `Future.NoEarlyGet` | kernel/future.h:18-22 | no get is through before a set is |
| `Future.AllReturned` | kernel/threads.h:32-46 | when nothing can move after a set, every get has returned |
| `BobProgram.Run` | kernel/bobfs.cc:99-305 | any run of writes, reads, links, look-ups and new nodes is a run of a map from inodes to byte sequences and of a map from directories to entries; it stops early only at an operation that names nothing or has no room |
| `BobProgram.Perform` | kernel/bobfs.cc:99-305 | one operation is one step of those maps |
| `BobProgram.AllowedWhen` | kernel/bobfs.cc:206-305 | with 258 free blocks an operation is possible exactly when its inodes exist, its names hold no NUL and it stays within 257 KiB |
| `BobProgram.Stable` | kernel/bobfs.cc:99-305 | over any run, a file changes only when it is written, and a name once found keeps its inode |
| `IdeDisk.Ide.Read` | kernel/ide.cc:122-140 | the bytes of the range that lie in its first sector |
| `IdeDisk.Ide.ReadAll` | kernel/ide.cc:142-157 | exactly the bytes of the range |
| `IdeDisk.Ide.Write` | kernel/ide.cc:159-178 | read-modify-write changes the bytes of the range in its first sector and no other |
| `IdeDisk.Ide.WriteAll` | kernel/ide.cc:180-195 | exactly the bytes of the range change |
| `BobFiles.BobFS.GetBlockNumber` | kernel/bobfs.cc:178-204 | the block of that index, allocated with its indirect block if need be, without changing any file; 0 exactly when the index is out of range or the blocks needed are not free |
| `BobFiles.BobFS.AllocateBlock` | kernel/bobfs.cc:381-387 | the lowest block that was free, marked and zeroed; 0 exactly when none is free |
| `BobFiles.BobFS.FindClear` | kernel/bobfs.cc:46-63 | the first clear bit of the map, and it alone is set; -1 exactly when all are set |
| `BobFiles.BobFS.FirstClear` | kernel/bobfs.cc:51-59 | the lowest clear bit of a word |
| `BobFiles.BobFS.Write` | kernel/bobfs.cc:206-228 | a prefix of the bytes is written at the offset, in that file only, and the size grows if need be |
| `BobFiles.BobFS.WriteAll` | kernel/bobfs.cc:230-245 | the file becomes the overwritten file, gaps zero; every other file, all metadata and the directories stay |
| `BobFiles.BobFS.Read` | kernel/bobfs.cc:247-263 | bytes of the file from the offset on, never beyond its end |
| `BobFiles.BobFS.ReadAll` | kernel/bobfs.cc:265-280 | exactly the slice of the file; filling holes on the way changes no file |
| `BobFiles.BobFS.LinkNode` | kernel/bobfs.cc:282-289 | one entry more at the end of the directory, one link more for the inode it names, all else unchanged |
| `BobFiles.BobFS.FindNode` | kernel/bobfs.cc:99-126 | the inumber of the first entry of that name, None exactly when there is none |
| `BobFiles.BobFS.NewNode` | kernel/bobfs.cc:291-305 | the lowest unused inode becomes an empty file of that kind with one link, named by one new entry; with a fresh name findNode then finds it; None exactly when no inode is left |
| `BobFiles.BobFS.StrEq` | kernel/bobfs.cc:87-97 | true exactly for equal names |
| `BobFiles.BobFS.Mkfs` | kernel/bobfs.cc:398-421 | whatever was on the disk: one empty root directory with one link, inode 42, every other inode unused and every data block free, the signature in the first 8 bytes and zeros in the rest of that block; what lies behind the volume stays |
| `Volume.PointersExact` | kernel/bobfs.cc:178-204 | no two block pointers name one block; each names a data block whose bit is set; each set bit is some pointer's block |
| `Volume.ClaimKeeps` | kernel/bobfs.cc:178-204 | giving a free block to an empty pointer keeps that and changes no file |
| `Volume.WriteRefines` | kernel/bobfs.cc:206-245 | a write is an update of one byte sequence in the map from inodes to contents |
| `Volume.ReadRefines` | kernel/bobfs.cc:247-280 | a read is no update |
| `Volume.ReadBack` | kernel/bobfs.cc:206-280 | what was written reads back, a gap reads as zeros, the rest as before |
| `Volume.OverwriteTwice` | kernel/bobfs.cc:230-245 | writing in two pieces is writing the whole |
| `Volume.NeedsStep` | kernel/bobfs.cc:178-204 | how many free blocks a transfer takes adds up over its blocks |
| `VolumeLayout.InodeWord` | kernel/bobfs.cc:143-176 | writing a field of an inode changes that field on the disk and nothing else |
| `VolumeLayout.BlockBytes` | kernel/bobfs.cc:213-218 | writing inside a data block changes that block only |
| `VolumeLayout.DataBitSet` | kernel/bobfs.cc:20-31 | setting a bit of the data map marks that block only |
| `VolumeLayout.BitmapBytes` | kernel/bobfs.cc:355-359 | data block b is bit b % 8 of byte 1024 + b / 8, inode k bit k % 8 of byte 2048 + k / 8 |
| `VolumeLayout.InodeBytes` | kernel/bobfs.cc:143-176 | inode k has kind, links, size, direct and indirect block at byte 3072 + 16 k, in 2, 2, 4, 4 and 4 bytes, low byte first |
| `VolumeLayout.BlockAndRootBytes` | kernel/bobfs.cc:355-387 | data block b is the 1024 bytes at 1024 * (131 + b), and the root inumber the 4 bytes at 8 |
| `Directories.RoundTrip` | kernel/bobfs.cc:282-289 | a directory decodes to the entries that were encoded |
| `Directories.RecordBytes` | kernel/bobfs.cc:282-289 | a record is the inumber and the length of the name, each in 4 bytes, low byte first, and the name |
| `Directories.RecordAt` | kernel/bobfs.cc:99-126 | where the scan finds record i, and what it reads there |
| `Directories.FirstAppend` | kernel/bobfs.cc:291-305 | a name linked for the first time is found, other names as before |
| `Directories.TreeLink` | kernel/bobfs.cc:282-289 | linking keeps every directory decodable and every link count equal to the entries naming the inode, plus one for the root, modulo 2^16 |
| `Directories.TreeCreate` | kernel/bobfs.cc:291-305 | so does a fresh inode |
| `Directories.TreeQuiet` | kernel/bobfs.cc:247-280 | so does anything that leaves files and metadata alone |
| `PrimeWords.IsPrime` | kernel/hashmap.h:6-22 | on 32-bit words, with the square that wraps: true exactly for the primes but 4294967291, and for 1 |
| `PrimeWords.NextPrime` | kernel/hashmap.h:24-28 | on 32-bit words: the least number above a that IsPrime accepts, and 1 when there is none because a has wrapped |
| `PrimeWords.LeastPrime` | kernel/hashmap.h:24-28 | that is the least prime above a wherever a 32-bit prime other than 4294967291 is above a |
| `PrimeWords.WrongAtTwo` | kernel/hashmap.h:6-22 | IsPrime is wrong about a word exactly when it is 1 or 4294967291; the one is no prime, the other is |
| `PrimeWords.OddSquare` | kernel/hashmap.h:15 | no wrapped square of the search exceeds 2^32 - 7, so for 4294967291 the loop guard never fails |
| `TopPrime.TopIsPrime` | kernel/hashmap.h:6-22 | 4294967291 is prime |
| `TopPrime.Criterion` | kernel/hashmap.h:6-22 | a number whose powers modulo n have a long period shows that n is prime |
| `Primes.IsPrime` | kernel/hashmap.h:6-22 | over naturals, as the table uses it: true exactly for the primes, and for 1 |
| `Primes.NextPrime` | kernel/hashmap.h:24-28 | over naturals: the least prime above a, for every a from 1 on; it ends because there is always one; 1 for 0 |
| `Primes.LargerPrime` | kernel/hashmap.h:24-28 | beyond every number there is a prime |
| `Primes.SixApart` | kernel/hashmap.h:13-20 | testing 6k-1 and 6k+1 is enough once 2 and 3 do not divide |
| `Primes.RootBound` | kernel/hashmap.h:13-20 | divisors below the root decide |
| `Hashmaps.Hashmap.Walk` | kernel/hashmap.h:110-126 | the walk along a bucket ends at the node of the key, or at the end exactly when the key is absent |
| `Hashmaps.Hashmap.Find` | kernel/hashmap.h:110-126 | true exactly for the keys of the map, also after an erase that went wrong |
| `Hashmaps.Hashmap.At` | kernel/hashmap.h:128-145 | the value of a key of the map |
| `Hashmaps.Hashmap.Insert` | kernel/hashmap.h:147-182 | a missing key is added, at the end of its bucket, a present one left alone; the table grows to more than 2n + 1 buckets exactly when it was over three quarters full |
| `Hashmaps.Hashmap.Slot` | kernel/hashmap.h:253-288 | operator[]: the node of the key, made with the initial value when missing |
| `Hashmaps.Hashmap.Put` | kernel/hashmap.h:253-288 | an assignment through operator[] updates the map at one key |
| `Hashmaps.Hashmap.Resize` | kernel/hashmap.h:290-314 | the same map in the least prime number of buckets above 2n + 1; its inserts never resize again |
| `Hashmaps.Hashmap.Clear` | kernel/hashmap.h:218-233 | the empty map in the same buckets |
| `Hashmaps.Hashmap.Erase` | kernel/hashmap.h:184-216 | removes the key and nothing else exactly when the key is not at the head of a longer bucket; there the whole bucket is lost and size is wrong |
| `Hashmaps.EraseLoses` | kernel/hashmap.h:198-201 | keys 0 and 101 in one bucket of 101: erasing 0 loses 101, and size still says 1 |
| `Hashmaps.KeysDiffer` | kernel/hashmap.h:147-182 | no key is in two places |
| `FormatInt.FmtInt` | kernel/snprintf.cc:400-488 | appends to the stream the text of the layout |
| `FormatInt.Parts` | kernel/snprintf.cc:400-488 | the text is spaces, sign, zeros, digits, spaces: - exactly for negative signed values, + for others with the plus flag, a space with the space flag alone; padding on the right with the minus flag and on the left without; digits of the case asked for, without leading zero, that denote the magnitude |
| `FormatInt.DigitIs` | kernel/snprintf.cc:430-437 | ten digits and six letters, capital exactly when asked for |
| `FormatInt.RoundTrip` | kernel/snprintf.cc:400-488 | for every value, base, width, precision and flags the text parses back to the value, modulo 2^32 when unsigned |
| `FormatInt.WidthExact` | kernel/snprintf.cc:441-488 | the text is as long as the larger of field width and sign plus max(precision, digits), exactly unless the 0 flag meets a precision above the digit count in a wider field |
| `FormatInt.WidthShort` | kernel/snprintf.cc:445-449 | "%08.3d" of 5 gives six characters, not eight |
| `FormatInt.Convert` | kernel/snprintf.cc:432-439 | the digit loop leaves the digits in reverse, at most 11, so the buffer of 20 is never short |
| `FormatInt.DigitsNumber` | kernel/snprintf.cc:432-437 | the digits denote the number |

## Left out

- Port I/O, IDE polling, UART, timers and the APIC, descriptor tables, boot and ACPI code: hardware.
  Sector reads and writes are exact.
- The TLB and its invalidation; kernel-mode stores through user addresses; locks around the frame pool
  and around page faults, which make each operation one step here. A decrement of a reference count and
  the read that follows it are one step.
- Running out of frames: the kernel stops, so the methods return None or false there and promise
  nothing about a fork under way.
- CopyOnWriteVmm.Vmm.HandlePageFault: for user addresses in directory entries 512 to 959 only; a fault elsewhere
  is not modelled.
- CopyOnWriteVmm.Vmm.BuildShared: for APIC pages from 0xF0000000 on, and memory of at most 32736 frames, the
  size of the reference array.
- ForkMachine.Machine.StartFork: the rest of fork, process ids and open files, is not modelled; the page loop takes one
  page a step, and the child starts after it.
- Memory of processes that exit: the kernel frees it only where an address space is deleted.
- The scheduler is a function on values, not a class: its state is shared by all CPUs and changes
  between any two lines of a routine. Steps are sequentially consistent; deleting a thread is one step,
  although destructors could block; thread numbers are not used again.
- SchedulerSafety.SafeRuns: says nothing about progress, and SchedulerTurns only about a CPU that runs a routine to its
  end with no step of another in between; fairness is not modelled. The reaper gives up on a zombie that it meets twice
  (kernel/threads.cc:32), which the history variable `dropped` records; `saved` is a history variable too.
- Semaphores.Accounting: counts are unbounded; a count that passes 2^32 is not modelled.
- Mutexes.Exclusive: for callers that unlock only what they hold; the class does not check it.
- BoundedBuffer.Buffer.Run: a call belongs to one thread for its whole time.
- PIDManager (kernel/threads.h:18-55): a hash map from process ids to futures, adding nothing to the two.
- Heap.Heap.Realloc: not for the pointer that malloc(0) returns, whose size the code would read in front of the
  array, and not for what follows a copy that overruns the granted block (`OverrunsWhen`), after which the tags
  that free goes by are no longer what they were.
- Heap.Heap.Free: a pointer into the array that is no live block must point at a word that says so; the index in front of the
  array is out.
- Heap locks, and the statistics and sanity scans, which only stop the kernel.
- BobFiles.BobFS.WriteAll: requires the blocks it needs to be free and the end to be within 257 KiB. Beyond that
  getBlockNumber returns 0 and the kernel writes to block 0 (kernel/bobfs.cc:188, 213-218).
- BobFiles.BobFS.ReadAll: requires free blocks for the holes it meets, because reading allocates them.
- BobFiles.BobFS.constructor: mounting is modelled for a volume that already satisfies the invariant.
- BobFS concurrency and crashes; path lookup (kernel/bobfs.cc:423), dump and reading a volume whose directories are
  damaged. Disks have fewer than 2^32 bytes and hold a whole volume; names contain no NUL.
- Hashmap locks: insert takes its lock again inside resize (kernel/hashmap.h:150-154, 293); the bodies are
  modelled as sequential code. The load test is over the reals, and the hash function any function.
- Hashmaps.Hashmap.At: requires the key; the code dereferences null without it.
- Primes.IsPrime: over naturals, as is Primes.NextPrime; the 32-bit versions are in PrimeWords. Hashmap uses the
  former: a table of 2^31 buckets does not fit in the address space, so its sizes never come near the wrap.
- Primes.NextPrime: over naturals, see the line above.
- FormatInt.FmtInt: the magnitude of the smallest long is taken without overflow; the count of characters written and
  its limit, the `#` flag, floating point and the parsing of format strings are not modelled.
- ELF loading, the stack of a new program, strings and vectors.
