# Verified model of a small operating system kernel

This project models, in Dafny, the parts of the kernel whose correctness is not visible from reading
one function: the process scheduler with joins and semaphores, three concurrent user programs built
on those semaphores, the memory of a process and everything forked from it, reading from a FAT16
volume, and the shell's path normalisation. `dafny verify dfyconfig.toml` checks everything.

Code that updates objects is modelled by classes and methods; each method is proved equal to a
function on values (`ensures Model() == F(old(Model()))`), and the theorems are about these
functions. Failures of the source (errors, `None`, panics) are outcomes of the functions, not
preconditions.

## Processes

- `Semaphores`: the counting semaphore, the tables of semaphores, and the law that relates a
  semaphore's state to its whole history.
- `Scheduler`, `SchedulerInvariant`, `SchedulerTheorems`, `ProcessManager`: each kernel call runs
  with interrupts off and is one step of a machine. `Inv` says that every live process is current, or
  Ready and queued exactly once, or Blocked and on exactly one wait list exactly once, that other
  queue entries are dead, that only the current process can be Running, and that nobody waits for a
  dead process. `Allowed` is the guard under which a call keeps `Inv`: pid 1 neither blocks nor
  exits nor is killed, a victim is not blocked, a semaphore that is replaced or removed has no
  waiters. `GuardIsExact` proves that the guard is not only sufficient but necessary. `CallLaws` says
  what single calls leave in the fields of the kernel.
- `CoffeeShop`, `SharedCounter`, `FishTank`: the three programs as interleavings of single memory
  accesses and semaphore calls, for any number of threads and rounds. `Tally` holds sums over threads.
- `KernelHost`, `HostedShop`, `HostedCounter`, `HostedFish`: the programs on the kernel machine, from
  before their first fork on. `Sound` relates the semaphores, statuses and queues of the kernel to the
  program; `Foreign` are the calls that may happen between the threads' statements.

## Memory

- `Frames`, `Paging`: the frame allocator and the mapping loops over a page table, which is a partial
  map from pages to frames. `Count` counts the places a frame is in; `Conserved` says that no frame
  is lost or duplicated.
- `UserHeap`, `UserStack`, `ElfLoader`: the three owners of pages.
- `ProcessFamily`: a program, everything forked from it, any sequence of events, granted or failing,
  until all are gone. `Loss` is what an event leaves without an owner or outside pool and table.

## Files and paths

- `FatVolume`, `FatFile`: cluster chains, sector-wise reading, the file handle.
- `FatNames`, `FatDirectory`: 8.3 names, directory scan, path lookup.
- `Pieces`, `ShellPath`: splitting and joining; normalisation of paths. `Common` holds result types.

## False as promised, with the exact condition

- Kernel calls do not always keep the processes in order: `GuardIsExact`. A killed process that
  waited on a semaphore becomes Ready again (`KilledSleeperWalks`), though resuming a killed process
  panics; under the guard none is resumed (`ResumedLives`). The system call spares pid 1 by its
  untruncated argument only, so an argument like 0x10001 kills it: `InitKilled`.
- A failed `brk` damages the heap exactly when it was in range, not affordable, and there was a frame:
  `FailedBrkExact`. The heap then never grows again and cannot be cleaned up completely, whatever is
  requested: `DamageStays`.
- A segment is loaded rightly from every file exactly when it starts at a page boundary:
  `RightIffAligned`. Others end up in the wrong place, or panic (`LoadedUnlessUnderflow`), or, in
  builds without overflow checks, are followed by a page of foreign bytes: `WrappedCopy`.
- Mapping loses a frame exactly when there is a mapped page in the range and the frames last beyond the
  free pages before it: `MapConserves`; for instance a single mapped page: `MappedPageLoses`.
- The memory of a family is given back exactly when nobody who holds code goes before the last one and
  every map was of free pages with enough frames, or there was no frame at all: `FamilyConserves`. A
  program that forks and goes before its child leaves its code behind: `LoaderFirst`.
- A listing never returns exactly if it comes back to a cluster it has scanned: `EndlessExactly`; a
  lookup never returns exactly if its walk reaches such a directory: `FindPathEndless`. A cluster that
  is its own successor is enough: `OwnSuccessorIsEndless`.
- A long extension makes a lookup panic: `PanicExactly` and `FindPathPanics` say exactly when; "a.text" does:
  `LongExtensionPanics`.
- The blank 8.3 name is produced by parsing "." but cannot be parsed back: `ShownParsesBack`,
  `DotIsBlank`.
- The components of the current directory are not normalised by the shell, so the result is normal
  for every target exactly when they are plain: `NormalResult`. In "/.." the path "x" becomes "/../x":
  `DotsOfTheDirectoryStay`.

## Where code and comments differ

The code is followed. `parse` declares an error for extensions that are too long, but the test for
it is commented out and a long extension runs past the end of its field (`PanicExactly`); the error for a
misplaced period can never be given (`ParsedIsWellFormed`). The comment in `find_path` that empty
components are skipped holds only for those at the two ends of a path (`FindPathIsWalk`,
`EmptyComponentFails`). The stack comment speaks of 0x2000 stacks of 4 GiB; the search below the
parent's stack is not bounded by that region, and the model has no such bound either.

## Model

| member | source | states |
|---|---|---|
| Semaphores.HistoryLaw | pkg/kernel/src/proc/sync.rs:30-73 | after W waits and S signals on a semaphore created with V, exactly the first min(W, V+S) requests are granted, in arrival order, the rest are queued in arrival order, and the count is what is left |
| Semaphores.NoOvertaking | pkg/kernel/src/proc/sync.rs:43-72 | a positive count implies an empty queue; granted requests followed by queued ones are the arrivals |
| Semaphores.Semaphore.Wait | pkg/kernel/src/proc/sync.rs:43-53 | result and new state of a wait: taken from the count, or queued at the end |
| Semaphores.Semaphore.Signal | pkg/kernel/src/proc/sync.rs:60-72 | result and new state of a signal: the oldest waiter is released, or the count grows |
| Semaphores.SemaphoreSet.Insert | pkg/kernel/src/proc/sync.rs:81-87 | the key holds a new semaphore without waiters, all other keys are unchanged, and the result tells whether the key was new |
| Semaphores.SemaphoreSet.Remove | pkg/kernel/src/proc/sync.rs:91-96 | exactly the key is gone |
| Semaphores.SemaphoreSet.Wait | pkg/kernel/src/proc/sync.rs:99-111 | waits on the semaphore of the key only; an unknown key changes nothing |
| Semaphores.SemaphoreSet.Signal | pkg/kernel/src/proc/sync.rs:113-124 | signals the semaphore of the key only; an unknown key changes nothing |
| SchedulerInvariant.BootInv | pkg/kernel/src/proc/mod.rs:40-53 | the kernel starts with every process in its place |
| SchedulerInvariant.SwitchInv | pkg/kernel/src/proc/manager.rs:134-154 | when nobody has the processor, switching finds a Ready process and leaves every process in its place |
| SchedulerInvariant.KillPlaced | pkg/kernel/src/proc/manager.rs:207-222 | killing detaches the victim's waiters and puts each of them back into the queue once |
| SchedulerInvariant.TimerInv | pkg/kernel/src/proc/mod.rs:55-62 | a timer switch keeps the invariant |
| SchedulerInvariant.ExitInv | pkg/kernel/src/proc/mod.rs:76-83 | an exit of any process but pid 1 keeps the invariant |
| SchedulerInvariant.WaitPidInv | pkg/kernel/src/proc/mod.rs:85-97 | a join keeps the invariant, whether it blocks or returns at once |
| SchedulerInvariant.VForkInv | pkg/kernel/src/proc/mod.rs:188-196 | a fork keeps the invariant |
| SchedulerInvariant.SemWaitInv | pkg/kernel/src/proc/mod.rs:216-232 | a semaphore wait keeps the invariant |
| SchedulerInvariant.SemSignalInv | pkg/kernel/src/proc/mod.rs:234-245 | a semaphore signal keeps the invariant |
| SchedulerInvariant.CallInv | pkg/kernel/src/proc/mod.rs:55-245 | every allowed call keeps the invariant |
| SchedulerInvariant.RunInv | pkg/kernel/src/proc/mod.rs:55-245 | every run of allowed calls keeps the invariant |
| SchedulerInvariant.InsertFacts | pkg/kernel/src/proc/manager.rs:101-106 | inserting into a wait set, which the invariant keeps ascending, adds one member and keeps it ascending, hence without duplicates |
| SchedulerTheorems.GuardIsExact | pkg/kernel/src/proc/manager.rs:207-241 | from a state in order, a call keeps the order if and only if it is allowed |
| SchedulerTheorems.InitKilled | pkg/kernel/src/interrupt/syscall/service.rs:74-81 | a kill whose argument is not 1 but names pid 1 in its lower 16 bits leaves the kernel out of order, from every state in order |
| SchedulerTheorems.ResumedLives | pkg/kernel/src/proc/process.rs:197-235 | in every run from the start the process that has the processor has no exit code, so resuming never finds the memory gone that killing takes |
| SchedulerTheorems.KilledSleeperWalks | pkg/kernel/src/proc/manager.rs:232-241 | a process killed while it waits on a semaphore is Ready and queued again, with its exit code set, once the semaphore is signalled |
| SchedulerTheorems.NoLostJoin | pkg/kernel/src/proc/mod.rs:85-97 | in every run from the start, whoever is joined on a process is blocked, and that process lives and has no exit code yet |
| SchedulerTheorems.JoinReturnsExitCode | pkg/kernel/src/proc/mod.rs:85-97 | when a process that blocked in a join next has the processor, the other is dead and `rax` is its exit code; all other registers are those of the call |
| SchedulerTheorems.LaterJoins | pkg/kernel/src/proc/manager.rs:92-95 | every later join on a dead process returns the same exit code at once |
| SchedulerTheorems.WaitersStay | pkg/kernel/src/proc/manager.rs:207-222 | only the death of a process detaches those joined on it |
| SchedulerTheorems.DeadStays | pkg/kernel/src/proc/process.rs:212-235 | death is final, and so is the exit code unless a dead process is killed again |
| SchedulerTheorems.StaysDead | pkg/kernel/src/proc/process.rs:212-235 | over every run of allowed calls a dead process stays dead |
| SchedulerTheorems.BoundedWaiting | pkg/kernel/src/proc/manager.rs:134-154 | a Ready process with i queue entries before it has the processor, or is dead, before the processor has been handed on more than i times |
| SchedulerTheorems.CallAdvances | pkg/kernel/src/proc/manager.rs:134-154 | no call moves a queued process back, and a call that hands on the processor moves it forward or serves it |
| SchedulerTheorems.SchedulerIsInvisible | pkg/kernel/src/proc/process.rs:184-206 | after any allowed call each surviving process finds its own registers, with `rax` changed only by its own call's result or the exit code it joined for |
| SchedulerTheorems.RegistersSurvive | pkg/kernel/src/proc/manager.rs:123-154 | over every run, from losing the processor until getting it again, a process's registers change at most in `rax` |
| SchedulerTheorems.ChildStarts | pkg/kernel/src/proc/process.rs:237-254 | a forked child starts from the parent's registers with result 0, on its own stack |
| SchedulerTheorems.ForkSwitchesAway | pkg/kernel/src/proc/mod.rs:188-196 | a fork always switches to another process, which is why the parent's saved result is the one it sees |
| CallLaws.WordIs | pkg/kernel/src/proc/process.rs:184-186 | a result is the number itself, or 2^64 more for a negative one |
| CallLaws.ExitKeepsCode | pkg/kernel/src/proc/process.rs:212-235 | an exited process is dead with the code it gave, joined or not |
| CallLaws.KillKeepsCode | pkg/kernel/src/proc/mod.rs:117-127 | a killed process is dead with code 0xdead; a kill of pid 1 or of nobody does nothing |
| CallLaws.JoinAfterExit | pkg/kernel/src/proc/mod.rs:76-97 | in every orderly run after an exit, whoever asks for the process gets exactly its code as an unsigned word, at once, and nothing else changes |
| CallLaws.JoinBlocksExactly | pkg/kernel/src/proc/mod.rs:85-97 | a join blocks its caller if and only if the other process is unknown or not dead |
| CallLaws.SpawnAdds | pkg/kernel/src/proc/manager.rs:156-181 | a spawn adds a Ready process with its start context and an empty table of its own, queued last, and returns its pid; nothing else changes |
| CallLaws.TimerTicks | pkg/kernel/src/proc/mod.rs:55-62 | a timer interrupt counts a tick of exactly the process it interrupts |
| CallLaws.SemNewMakes | pkg/kernel/src/proc/mod.rs:198-205 | a new semaphore has the value asked for and an empty queue, the result says if the key was new, and nothing else changes |
| CallLaws.SemRemoveRemoves | pkg/kernel/src/proc/mod.rs:207-214 | a removed semaphore is gone, the result says if there was one, and nothing else changes |
| CallLaws.UnknownKey | pkg/kernel/src/proc/mod.rs:216-245 | a wait or signal on an unknown key only returns 1 |
| CallLaws.CountIsGranted | pkg/kernel/src/proc/sync.rs:43-53 | as many waits are granted as the count says, each taking one from it |
| CallLaws.ValueIsGranted | pkg/kernel/src/proc/mod.rs:198-232 | after a semaphore has been made with a value, exactly so many waits are granted, and with the next the caller blocks, alone in the queue |
| ProcessManager.Process.VFork | pkg/kernel/src/proc/process.rs:89-108 | the child's whole state, and the parent's with the child's pid as result |
| ProcessManager.ProcessManager.constructor | pkg/kernel/src/proc/manager.rs:57-71 | the manager starts in the state for which the invariant is proved |
| ProcessManager.ProcessManager.SaveCurrent | pkg/kernel/src/proc/manager.rs:123-132 | in the whole table exactly the current process is saved, counted and made Ready |
| ProcessManager.ProcessManager.Resume | pkg/kernel/src/proc/manager.rs:146-150 | the process becomes current and Running, no other changes, and the registers handed out are those it was saved with |
| ProcessManager.ProcessManager.Bury | pkg/kernel/src/proc/manager.rs:207-213 | the victim is dead with its exit code, its waiters are detached and returned, and nothing else changes |
| ProcessManager.ProcessManager.SwitchNextProc | pkg/kernel/src/proc/manager.rs:134-154 | the popping loop computes the function for which progress is proved |
| ProcessManager.ProcessManager.KillProc | pkg/kernel/src/proc/manager.rs:207-222 | the loop over the waiters wakes all of them, in order, with the exit code |
| ProcessManager.ProcessManager.WakeUpProc | pkg/kernel/src/proc/manager.rs:232-241 | the process is Ready, queued last, and its result is set if there is one |
| ProcessManager.ProcessManager.SpawnProc | pkg/kernel/src/proc/manager.rs:156-181 | a new process with its own semaphore table is queued last |
| ProcessManager.ProcessManager.VForkProc | pkg/kernel/src/proc/manager.rs:224-230 | the child is in the table and queued, and the parent has its result |
| ProcessManager.Switch | pkg/kernel/src/proc/mod.rs:55-62 | a timer interrupt on the objects is the timer step of the machine |
| ProcessManager.ProcessExit | pkg/kernel/src/proc/mod.rs:76-83 | an exit on the objects is the exit step |
| ProcessManager.WaitForPid | pkg/kernel/src/proc/mod.rs:85-97 | a join on the objects is the join step |
| ProcessManager.KillProcess | pkg/kernel/src/proc/mod.rs:117-127 | a kill on the objects is the kill step |
| ProcessManager.ForkProcess | pkg/kernel/src/proc/mod.rs:188-196 | a fork on the objects is the fork step |
| Semaphores.SemDirectory.Insert | pkg/kernel/src/proc/sync.rs:81-87 | a new semaphore in one table leaves all other tables and keys as they are |
| Semaphores.SemDirectory.Remove | pkg/kernel/src/proc/sync.rs:91-96 | removing a semaphore from one table leaves all other tables and keys as they are |
| Semaphores.SemDirectory.Wait | pkg/kernel/src/proc/sync.rs:99-111 | a wait on one table's semaphore leaves all other tables and keys as they are |
| Semaphores.SemDirectory.Signal | pkg/kernel/src/proc/sync.rs:113-124 | a signal on one table's semaphore leaves all other tables and keys as they are |
| ProcessManager.NewSem | pkg/kernel/src/proc/mod.rs:198-205 | inserting a semaphore object into the current process's table is the step of the machine, with the result by whether the key was new |
| ProcessManager.RemoveSem | pkg/kernel/src/proc/mod.rs:207-214 | removing a semaphore object from the current process's table is the step of the machine, with the result by whether the key was there |
| ProcessManager.WaitSem | pkg/kernel/src/proc/mod.rs:216-232 | a wait on the semaphore object, granted, blocking and switching, or reporting an unknown key, is the step of the machine |
| ProcessManager.SignalSem | pkg/kernel/src/proc/mod.rs:234-245 | a signal on the semaphore object, granted, waking a process, or reporting an unknown key, is the step of the machine |
| ProcessManager.Dispatch | pkg/kernel/src/proc/mod.rs:55-245 | any allowed call on objects in order does the machine's step and leaves them in order |
| CoffeeShop.StepKeepsInv | pkg/app/mq/src/main.rs:71-121 | every step of every thread keeps the balance of tokens, lock, cups and queues |
| CoffeeShop.MutualExclusion | pkg/app/mq/src/main.rs:71-121 | at most one thread is between the wait and the signal of the lock |
| CoffeeShop.RackNeverBreaks | pkg/app/mq/src/main.rs:28-32 | for any capacity, customers and cups each, in every interleaving the cups stay between 0 and the capacity |
| CoffeeShop.MadeAndNotDrunk | pkg/app/mq/src/main.rs:71-121 | whenever everybody is between two rounds, the rack holds exactly the cups made and not drunk |
| CoffeeShop.NoDeadlock | pkg/app/mq/src/main.rs:71-121 | with capacity at least 1, some thread can step until all have gone |
| CoffeeShop.EveryRunEndsEmpty | pkg/app/mq/src/main.rs:71-121 | a run is at most 12 * customers * cups steps, is finished exactly at that length, can always be continued before, and ends with zero cups |
| SharedCounter.MutualExclusion | pkg/app/counter/src/main.rs:40-56 | at most one worker is between load and unlock |
| SharedCounter.NoLostUpdate | pkg/app/counter/src/main.rs:12-56 | for any number of workers and rounds, in every interleaving the counter is workers * rounds once all have exited, which every maximal run reaches |
| FishTank.StepKeepsInv | pkg/app/fish/src/main.rs:27-139 | every load, store, print and semaphore call of every process keeps the single turn, the mutex and the order of the goodbyes |
| FishTank.NextIsSinger | pkg/app/fish/src/main.rs:27-48 | after n characters the semaphore chosen belongs to the process whose character is next in the repeated block |
| FishTank.TheSong | pkg/app/fish/src/main.rs:57-139 | in every interleaving of single accesses the output is a prefix of the repeated block and never longer than the total, the unreachable arm is not reached, runs are bounded, some process can step until all have gone, and then exactly the total has been printed |
| FishTank.CounterFollows | pkg/app/fish/src/main.rs:57-139 | the counter equals the output's length, or is one less while a printed character is not yet counted |
| KernelHost.ForeignStep | pkg/kernel/src/proc/mod.rs:55-245 | a timer interrupt, private code, or any allowed call of a process that is no unfinished thread, kills none and leaves the program's semaphores alone, changes nothing the program sees |
| KernelHost.ForkStep | pkg/kernel/src/proc/mod.rs:188-196 | a fork by a process that shares the semaphores adds a thread that can run |
| KernelHost.StatementStep | pkg/kernel/src/proc/mod.rs:216-245 | a statement of the thread that has the processor is allowed and does to semaphores, queues and blocked threads what the program's step says |
| KernelHost.RunIsInterleaving | pkg/kernel/src/proc/mod.rs:55-245 | every run of the kernel with a program on it, under any scheduling and with any other processes, is an interleaving of the program's statements |
| KernelHost.CanRunGoesOn | pkg/kernel/src/proc/manager.rs:134-154 | a thread that can go on is yet to be forked, or its process has the processor or is Ready in the queue |
| HostedShop.StepIsGroupStep | pkg/app/mq/src/main.rs:71-121 | each statement of the shop asks the kernel for exactly what its step does to the semaphores |
| HostedShop.Starts | pkg/app/mq/src/main.rs:28-48 | on any kernel in order, a process that has made the three semaphores with its calls has put the shop on it, before the first fork |
| HostedShop.EveryRunEndsEmpty | pkg/app/mq/src/main.rs:28-121 | on the kernel, under any scheduling: the cups stay between 0 and the capacity, the statements are bounded, the rack is empty when all are gone, and until then some thread can go on |
| HostedCounter.Starts | pkg/app/counter/src/main.rs:12-24 | on any kernel in order, a process that has made the mutex has put the counter program on it, before the first fork |
| HostedCounter.NoLostUpdate | pkg/app/counter/src/main.rs:12-56 | on the kernel, under any scheduling: the statements are bounded, the counter is workers * rounds when all have exited, and until then some worker can go on |
| HostedFish.Starts | pkg/app/fish/src/main.rs:150-177 | on any kernel in order, a process that has made the four semaphores and signalled the first turn with its calls has put the fish on it, before the first fork |
| HostedFish.TheSong | pkg/app/fish/src/main.rs:57-186 | on the kernel, under any scheduling: the output is a beginning of the repeated block, the statements are bounded, all has been printed when all have gone, and until then some fish can go on |
| Frames.FrameIterCovers | pkg/kernel/src/memory/frames.rs:76-88 | exactly the frames of the conventional regions are handed out |
| Frames.FramesDistinct | pkg/kernel/src/memory/frames.rs:76-88 | no frame is handed out twice if and only if no two conventional regions share a frame |
| Frames.TakeFacts | pkg/kernel/src/memory/frames.rs:52-66 | allocation fails exactly when nothing is available, and moves exactly one frame out of the pool |
| Frames.GiveThenTake | pkg/kernel/src/memory/frames.rs:70-73 | a frame given back is the next one taken, and nothing else has changed |
| Frames.FreshInOrder | pkg/kernel/src/memory/frames.rs:51-67 | without recycled frames the fresh ones come in the iterator's order and are counted |
| Frames.RecycledInReverse | pkg/kernel/src/memory/frames.rs:51-67 | recycled frames come last in first out and are not counted again |
| Frames.FrameAllocator.AllocateFrame | pkg/kernel/src/memory/frames.rs:52-66 | recycled frames first, last in first out, then fresh ones, which count as used |
| Frames.FrameAllocator.DeallocateFrame | pkg/kernel/src/memory/frames.rs:70-73 | the frame is recycled and nothing else changes |
| Paging.MapExact | pkg/elf/src/lib.rs:97-130 | mapping succeeds if and only if all pages are free and there are enough frames; then it costs exactly one frame a page and loses none |
| Paging.MapKeeps | pkg/elf/src/lib.rs:97-130 | whether or not mapping succeeds, old entries stay and the new pages are the first of the range, with the flags asked for |
| Paging.MapCosts | pkg/elf/src/lib.rs:97-130 | a failed mapping costs at most one frame more than the pages it mapped |
| Paging.MapBalance | pkg/elf/src/lib.rs:118-127 | whatever happens, every frame is as often in pool and table as before, but for one frame that is lost exactly if the mapping ends at a mapped page |
| Paging.CollidesExactly | pkg/elf/src/lib.rs:118-127 | mapping ends at a mapped page if and only if there is one in the range and there are more frames than free pages before it |
| Paging.MapConserves | pkg/elf/src/lib.rs:118-127 | mapping conserves the frames if and only if the whole range is free, or there are no more frames than free pages before its first mapped page |
| Paging.MappedPageLoses | pkg/elf/src/lib.rs:118-127 | mapping a single mapped page loses a frame, if there is one |
| Paging.RangesAreWritable | pkg/elf/src/lib.rs:90-127 | pages mapped for heaps and stacks are writable and executable, and open to the user as asked |
| Paging.UnmapExact | pkg/elf/src/lib.rs:152-176 | unmapping succeeds if and only if all pages are mapped, removes exactly these, and never loses a frame |
| Paging.MapThenUnmap | pkg/elf/src/lib.rs:97-176 | unmapping what has been mapped gives back the table and the frames |
| Paging.MapRange | pkg/elf/src/lib.rs:97-130 | the mapping loop computes the function of these laws, errors included |
| Paging.UnmapRange | pkg/elf/src/lib.rs:152-176 | the unmapping loop computes the function of these laws, errors included |
| UserHeap.BrkKeepsBacked | pkg/kernel/src/proc/vm/heap.rs:52-106 | whatever fails, every page up to the end stays mapped and pages outside the heap are untouched |
| UserHeap.BrkAllKeepsBacked | pkg/kernel/src/proc/vm/heap.rs:52-106 | the same after any sequence of requests |
| UserHeap.BrkExact | pkg/kernel/src/proc/vm/heap.rs:52-106 | on an exact heap a request succeeds if and only if it is in range and the frames suffice; then the heap is exact again and no frame is lost |
| UserHeap.HeapStaysExact | pkg/kernel/src/proc/vm/heap.rs:52-106 | after any granted requests by any sharers exactly the pages up to the end are mapped, at most HEAP_PAGES + 1 |
| UserHeap.CleanUpExact | pkg/kernel/src/proc/vm/heap.rs:108-127 | cleaning up cannot fail, removes exactly the heap's pages and loses no frame |
| UserHeap.ExactPages | pkg/kernel/src/proc/vm/heap.rs:17-37 | a heap is exact if and only if its end is in the 4 GiB from 0x2000_0000_0000 on, and of the pages there exactly those from the first byte to the end are mapped |
| UserHeap.BackedAddresses | pkg/kernel/src/proc/vm/heap.rs:17-37 | a heap is backed if and only if every address from its first byte to its end is mapped |
| UserHeap.BrkInAddresses | pkg/kernel/src/proc/vm/heap.rs:52-106 | a request on an exact heap succeeds if and only if its address is in the region and there are frames for the pages between the ends; then exactly the pages from the first byte to it are mapped |
| UserHeap.HeapInAddresses | pkg/kernel/src/proc/vm/heap.rs:52-106 | the same after any granted requests; after any requests at all, every address up to the end is mapped |
| UserHeap.CleanUpInAddresses | pkg/kernel/src/proc/vm/heap.rs:108-127 | cleaning up unmaps exactly the pages from the first byte to the end |
| UserHeap.BrkIsWritable | pkg/kernel/src/proc/vm/heap.rs:90-97 | the pages a request adds are writable and open to the user |
| UserHeap.FailedBrkExact | pkg/kernel/src/proc/vm/heap.rs:64-105 | a request leaves an exact heap exact if and only if it is out of range, or the frames suffice, or there is no frame at all; otherwise the end stays and the page behind it is left mapped |
| UserHeap.NeverPast | pkg/kernel/src/proc/vm/heap.rs:90-105 | under any sequence of requests the heap never grows past a page that was left mapped, and that page stays mapped |
| UserHeap.DamageStays | pkg/kernel/src/proc/vm/heap.rs:52-127 | after a request that fails while there is a frame, no sequence of requests grows the heap past its present pages, and cleaning up leaves a page mapped |
| UserHeap.HeapHandle.BrkTo | pkg/kernel/src/proc/vm/heap.rs:52-106 | the request on the shared end, the table and the allocator computes the function of these laws |
| UserHeap.HeapHandle.CleanUpHeap | pkg/kernel/src/proc/vm/heap.rs:108-127 | the clean-up computes the function of these laws |
| UserStack.InitExact | pkg/kernel/src/proc/vm/stack.rs:102-107 | the first stack is set up exactly when the top page is free and a frame is available; it is mapped and ends at its slot's top |
| UserStack.SearchExact | pkg/kernel/src/proc/vm/stack.rs:117-128 | the search ends in slot m if and only if m is the first slot downwards whose pages are free and the frames cover the child and exactly what the skipped slots cost |
| UserStack.SearchKeeps | pkg/kernel/src/proc/vm/stack.rs:117-128 | old entries stay, the pages found were free and are mapped, no frame comes to be used twice |
| UserStack.VForkSeparates | pkg/kernel/src/proc/vm/stack.rs:117-148 | live stacks stay in pairwise different slots, each mapped and ending at its slot's top, with the child among them |
| UserStack.SlotsDiffer | pkg/kernel/src/proc/vm/stack.rs:13-24 | pages of two live stacks lie in different 4 GiB slots |
| UserStack.ChildHasTheStack | pkg/kernel/src/proc/vm/stack.rs:130-141 | the child's pages hold the bytes of the parent's, page for page, and no other mapped page has changed |
| UserStack.FaultExact | pkg/kernel/src/proc/vm/stack.rs:150-208 | a fault on an unmapped page is handled if and only if it is in the stack's slot, the gap is free and the frames suffice; then the page is mapped and part of the stack, otherwise the stack is as before |
| UserStack.FirstStack | pkg/kernel/src/proc/vm/stack.rs:102-107 | the first stack is the page below 0x4000_0000_0000, writable and open to the user |
| UserStack.FaultInPages | pkg/kernel/src/proc/vm/stack.rs:150-208 | a fault on an unmapped page is handled if and only if it is one of the 0x10_0000 pages that end with the stack, everything up to the stack is free and there are frames; then these pages are mapped, writable and the stack's |
| UserStack.ChildIsBelow | pkg/kernel/src/proc/vm/stack.rs:117-148 | if there is room `offset` times 0x10_0000 pages below the parent's stack, the child's starts exactly there |
| UserStack.SearchIsWritable | pkg/kernel/src/proc/vm/stack.rs:117-128 | the pages of a child's stack are writable and open to the user |
| UserStack.FaultSeparates | pkg/kernel/src/proc/vm/stack.rs:176-208 | handling a fault keeps the live stacks apart |
| UserStack.CleanUpExact | pkg/kernel/src/proc/vm/stack.rs:79-100 | cleaning up a live stack cannot fail, removes exactly its pages and loses no frame |
| UserStack.CleanUpSeparates | pkg/kernel/src/proc/vm/stack.rs:79-100 | the other live stacks stay mapped and apart |
| UserStack.StackHandle.InitStack | pkg/kernel/src/proc/vm/stack.rs:102-107 | the object's first stack is the one of these laws |
| UserStack.StackHandle.Fork | pkg/kernel/src/proc/vm/stack.rs:117-148 | the retry loop and the copy compute the functions of these laws |
| UserStack.StackHandle.HandlePageFault | pkg/kernel/src/proc/vm/stack.rs:150-208 | growing the object computes the function of these laws |
| UserStack.StackHandle.CleanUpStack | pkg/kernel/src/proc/vm/stack.rs:79-100 | cleaning up the object computes the function of these laws |
| ElfLoader.SegmentExact | pkg/elf/src/lib.rs:334-446 | an aligned segment on free pages is loaded if and only if there are frames; then every byte is the file's or zero, exactly its pages are new and carry its protection, range and usage are those pages, and nothing else has changed |
| ElfLoader.RightIffAligned | pkg/elf/src/lib.rs:334-446 | on free pages and with enough frames, in a build with overflow checks and in one without, every file that contains the segment is loaded with the right image if and only if the segment starts at a page boundary |
| ElfLoader.LoadedUnlessUnderflow | pkg/elf/src/lib.rs:376-381 | on free pages and with enough frames, aligned or not, loading succeeds unless the count of the bytes left underflows in a build with overflow checks, which then panics |
| ElfLoader.WrappedCopy | pkg/elf/src/lib.rs:376-388 | in a build without overflow checks, a segment whose count underflows is loaded, and the last page of its file part holds a page from behind the segment's bytes |
| ElfLoader.UnalignedIsWrong | pkg/elf/src/lib.rs:363-402 | for every segment that does not start at a page boundary there is a file that is not loaded or loaded with a wrong image |
| ElfLoader.ElfImage | pkg/elf/src/lib.rs:292-330 | for aligned, page-disjoint segments on free pages, loading succeeds if and only if there are frames for all; then ranges and usage are exactly those of the new pages, every byte of every segment is in place under the segment's protection, old pages are undisturbed and no frame is lost |
| ElfLoader.RangesAre | pkg/elf/src/lib.rs:292-330 | ranges and usage are those of the segments to be loaded, from the page of the first byte to that of the last, 4096 bytes a page |
| ElfLoader.LoadSegmentPages | pkg/elf/src/lib.rs:334-446 | loading a segment on table, allocator and memory computes the function of these laws, errors included |
| ElfLoader.LoadFilePages | pkg/elf/src/lib.rs:366-403 | the loop over the file part computes a fill with the file's blocks, or stops at the underflow with one more frame taken |
| ElfLoader.LoadBssPages | pkg/elf/src/lib.rs:406-437 | the loop over the zeroed part maps and zeroes the pages that are not mapped yet |
| ElfLoader.LoadElfFile | pkg/elf/src/lib.rs:292-330 | the loop over the segments computes the function of these laws |
| ProcessFamily.StartLedger | pkg/kernel/src/proc/vm/mod.rs:104-127 | a loaded program starts with every added page owned exactly once and no frame lost |
| ProcessFamily.StartsExactly | pkg/kernel/src/proc/vm/mod.rs:104-127 | a program is started if and only if there are frames for its pages, its stack and the root, and its stack's page is not taken |
| ProcessFamily.EventKeepsLedger | pkg/kernel/src/proc/vm/mod.rs:96-190 | every request, fault, fork or drop, whether it succeeds or fails, keeps exactly one owner for each added page and loses exactly the pages and frames stated for that event |
| ProcessFamily.LastDrop | pkg/kernel/src/proc/vm/mod.rs:157-190 | the last process to go frees heap, code and root without failing |
| ProcessFamily.RunKeepsLedger | pkg/kernel/src/proc/vm/mod.rs:96-190 | the same over every run, losses added up |
| ProcessFamily.LossExactly | pkg/kernel/src/proc/vm/mod.rs:96-190 | an event loses nothing if and only if what it maps is free with enough frames, or there is no frame, a fork finds its first slot free, and no process with code goes before others |
| ProcessFamily.FamilyBalance | pkg/kernel/src/proc/vm/mod.rs:104-190 | when all are gone, whatever failed on the way, the page table is the kernel's with exactly the lost pages on top, and every frame is in pool and table as often as before the load, but for the lost ones |
| ProcessFamily.FamilyConserves | pkg/kernel/src/proc/vm/mod.rs:104-190 | when all are gone, the page table is the kernel's and every frame is available again if and only if nobody who holds code was dropped before the last one and every map was safe |
| ProcessFamily.LoaderFirst | pkg/kernel/src/proc/vm/mod.rs:157-190 | a process that holds code, forks, and is dropped before its child breaks the condition |
| ProcessFamily.ProcessVm.Load | pkg/kernel/src/proc/vm/mod.rs:104-127 | code ranges, usage and stack of the loader are those of the loading function |
| ProcessFamily.ProcessVm.ForkVm | pkg/kernel/src/proc/vm/mod.rs:129-144 | the child shares page table and heap end, has its own stack and no code |
| ProcessFamily.ProcessVm.CleanUp | pkg/kernel/src/proc/vm/mod.rs:157-190 | cleaning up on the objects computes the function of these laws, errors included |
| ProcessFamily.UnmapCode | pkg/kernel/src/proc/vm/mod.rs:169-172 | the loop over the code ranges unmaps them in order up to the first failure |
| FatVolume.Layout | pkg/storage/src/fs/fat16/impls.rs:14-52 | from the boot parameters: the sectors where the root directory and cluster 2 start, that each cluster starts `sectorsPerCluster` behind the one before, and the number of the root's sectors |
| FatVolume.ClustersApart | pkg/storage/src/fs/fat16/impls.rs:14-52 | data clusters lie behind the FATs and the root directory, and two of them never share a sector |
| FatVolume.FatIsFlat | pkg/storage/src/fs/fat16/impls.rs:63-82 | the next cluster is the 16-bit little-endian number at place c of the concatenated FAT sectors; 0 and 0xFFF8 upwards end the chain |
| FatVolume.ReadSectorsIsSlice | pkg/storage/src/fs/fat16/file.rs:108-141 | reading sector by sector, from any byte of the first on, is slicing the concatenated sectors |
| FatVolume.ReadClusterIsSlice | pkg/storage/src/fs/fat16/file.rs:97-142 | reading from an offset in a cluster is slicing the cluster's bytes |
| FatVolume.ChainDrop | pkg/storage/src/fs/fat16/impls.rs:63-82 | the bytes of a chain from its k-th cluster on are the bytes of the rest of the chain |
| FatFile.LocateInChain | pkg/storage/src/fs/fat16/file.rs:34-72 | following the FAT from the start reaches the cluster that holds the offset |
| FatFile.ReadLoopIsSlice | pkg/storage/src/fs/fat16/file.rs:177-209 | reading along a chain across cluster borders is slicing the chain's bytes, and the current cluster is the one of the last byte read |
| FatFile.ReadIsSlice | pkg/storage/src/fs/fat16/file.rs:146-212 | on a chain that covers the size, a read returns exactly the next min(length, rest) bytes of the content and advances the offset by as many |
| FatFile.ReadIsOnDisk | pkg/storage/src/fs/fat16/file.rs:146-212 | every byte a read returns is that of the device's sector which the boot parameters and the file's chain give for its place |
| FatFile.DeviceFails | pkg/storage/src/fs/fat16/file.rs:146-212 | if the sector of the next byte cannot be read, the read fails and the offset stays |
| FatFile.ReadBehindChain | pkg/storage/src/fs/fat16/file.rs:34-72 | a read from behind the end of a chain fails and changes nothing |
| FatFile.ReadShort | pkg/storage/src/fs/fat16/file.rs:177-209 | a read that runs into the end of a chain returns the rest of the chain |
| FatFile.ReadAllIsRest | pkg/storage/src/common/io.rs:10-38 | reading everything ends and appends exactly the rest of the content |
| FatFile.File.EnsureCorrectCluster | pkg/storage/src/fs/fat16/file.rs:34-72 | the walk computes the located cluster, or its error without a change |
| FatFile.File.MoveToNextCluster | pkg/storage/src/fs/fat16/file.rs:75-94 | one step along the chain, or its end, or an error |
| FatFile.File.ReadFromCurrentCluster | pkg/storage/src/fs/fat16/file.rs:97-142 | the sector loop writes exactly the specified bytes into the buffer, also when the device fails half-way |
| FatFile.File.ReadChunk | pkg/storage/src/fs/fat16/file.rs:177-208 | one round of the read loop, with all ways to stop |
| FatFile.File.Read | pkg/storage/src/fs/fat16/file.rs:146-212 | buffer, offset, current cluster and result are those of the specified read, on any volume |
| FatFile.File.ReadToEnd | pkg/storage/src/common/io.rs:10-38 | the loop over chunks computes the specified read of everything, on any volume |
| FatNames.ParsedIsWellFormed | pkg/storage/src/fs/fat16/direntry.rs:177-285 | whatever parses is padded, valid, in upper case and without a dot in the base; the error for a misplaced period is never given |
| FatNames.ShownParsesBack | pkg/storage/src/fs/fat16/direntry.rs:294-307 | an 8.3 name survives being shown and parsed if and only if it is well formed and not blank |
| FatNames.DotIsBlank | pkg/storage/src/fs/fat16/direntry.rs:177-307 | "." parses to the blank name, which is shown as nothing, and nothing does not parse |
| FatNames.ParsedShowsBack | pkg/storage/src/fs/fat16/direntry.rs:177-307 | showing a parsed name gives it back in upper case, without a dot at its end |
| FatNames.PanicExactly | pkg/storage/src/fs/fat16/direntry.rs:228-260 | parsing writes past the extension field exactly for valid names whose base fits and whose extension has more than three bytes |
| FatNames.LongExtensionPanics | pkg/storage/src/fs/fat16/direntry.rs:228-260 | "a.text" panics |
| FatNames.PanicOfAnyName | pkg/storage/src/fs/fat16/direntry.rs:177-285 | the same for any name, ASCII or not, in terms of its upper case |
| FatNames.InvalidIs | pkg/storage/src/fs/fat16/direntry.rs:196-217 | the bytes rejected are exactly those of the list |
| FatNames.UpperIs | pkg/storage/src/fs/fat16/direntry.rs:225 | the letters a to z become A to Z and nothing else changes |
| FatNames.ErrorsExactly | pkg/storage/src/fs/fat16/direntry.rs:177-285 | which error is given if and only if the name is empty, contains a forbidden byte, or has more than eight bytes before its first dot |
| FatNames.ParseIgnoresCase | pkg/storage/src/fs/fat16/direntry.rs:225 | names that differ in ASCII case only parse alike |
| FatNames.ParseName | pkg/storage/src/fs/fat16/direntry.rs:177-285 | for any name and its upper case the loops compute the parse of these laws, errors and the out-of-bounds write included |
| FatDirectory.EntryOfRecord | pkg/storage/src/fs/fat16/direntry.rs:71-111 | parsing a 32-byte record laid out as the FAT specification has it gives back name, attributes, 32-bit cluster and size |
| FatDirectory.AttributeBits | pkg/storage/src/fs/fat16/direntry.rs:25-53 | which bits of the attribute byte make a directory and a long name |
| FatDirectory.ListingIs | pkg/storage/src/fs/fat16/impls.rs:102-128 | a listing has exactly the entries of the records before the first zero byte that start with something else than 0xE5 and are no part of a long name, in their order |
| FatDirectory.SectorsScan | pkg/storage/src/fs/fat16/impls.rs:102-128 | scanning sector by sector finds exactly the listed records before the first end marker of the concatenated sectors |
| FatDirectory.EndlessExactly | pkg/storage/src/fs/fat16/impls.rs:85-148 | a listing never returns if and only if the clusters it scans come back to one of them |
| FatDirectory.OwnSuccessorIsEndless | pkg/storage/src/fs/fat16/impls.rs:137-144 | a directory in cluster 2 whose successor is cluster 2, without an end marker, is listed forever |
| FatDirectory.ReadDirIsFlat | pkg/storage/src/fs/fat16/impls.rs:85-148 | a directory with a readable chain that is whole, or that contains an end marker whatever follows, returns and lists the records of its concatenated chain cut at the first end marker, without deleted and long-name records |
| FatDirectory.RootIsFlat | pkg/storage/src/fs/fat16/impls.rs:92-97 | the root directory always returns and lists the same of its region |
| FatDirectory.FirstNamedIsFirst | pkg/storage/src/fs/fat16/impls.rs:157-163 | the entry found is the first of that name, and nothing is found only if there is none |
| FatDirectory.NotFoundHow | pkg/storage/src/fs/fat16/impls.rs:151-164 | which error, or none, a lookup gives in a directory for a bad name, a bad directory, and a name that is not there |
| FatDirectory.UnreadableFails | pkg/storage/src/fs/fat16/impls.rs:85-148 | a directory whose first sector cannot be read is a device error |
| FatDirectory.FindPathIsRoute | pkg/storage/src/fs/fat16/impls.rs:167-204 | a path is found if and only if there is a route to it: for each component the first entry of its name where the one before leads, all but the last being directories |
| FatDirectory.FindPathStops | pkg/storage/src/fs/fat16/impls.rs:167-204 | every outcome of a lookup is that of the component with which its walk ends, or NotADirectory where something else is found in between |
| FatDirectory.FindPathIsWalk | pkg/storage/src/fs/fat16/impls.rs:167-204 | for every path, whatever its upper case, the lookup is the stepwise walk over its components, without those that are empty at the end |
| FatDirectory.PathOfComponents | pkg/storage/src/fs/fat16/impls.rs:167-204 | for well-formed components joined by slashes, with any slashes before and after, the lookup walks exactly these from the root |
| FatDirectory.EmptyComponentFails | pkg/storage/src/fs/fat16/impls.rs:183-201 | with an empty component between others nothing is found |
| FatDirectory.FindPathPanics | pkg/storage/src/fs/fat16/impls.rs:151-204 | a lookup panics exactly when its walk reaches, through directories, a readable directory in which it looks for a name that panics |
| FatDirectory.FindPathEndless | pkg/storage/src/fs/fat16/impls.rs:151-204 | a lookup never returns exactly when its walk reaches, through directories, one whose listing never returns |
| FatDirectory.ReadDirEntries | pkg/storage/src/fs/fat16/impls.rs:85-148 | wherever the listing returns, the nested loops compute the listing of these laws, errors included |
| FatDirectory.LookUp | pkg/storage/src/fs/fat16/impls.rs:151-164 | the search in a directory computes the specified lookup |
| FatDirectory.LookUpPath | pkg/storage/src/fs/fat16/impls.rs:167-204 | the loop over the components computes the specified lookup |
| ShellPath.ResultNames | pkg/app/sh/src/main.rs:169-214 | from an absolute directory the result is absolute and its names are the fold of the target's names over the directory's |
| ShellPath.NormalResult | pkg/app/sh/src/main.rs:169-214 | the result is normal for every target if and only if no component of the directory is "." or ".." |
| ShellPath.DotsOfTheDirectoryStay | pkg/app/sh/src/main.rs:169-214 | in the directory "/.." the path "x" becomes "/../x", which is not normal |
| ShellPath.NormalIsFixed | pkg/app/sh/src/main.rs:169-214 | a normal path is its own normal form from anywhere |
| ShellPath.Idempotent | pkg/app/sh/src/main.rs:169-214 | normalising twice is normalising once |
| ShellPath.Composes | pkg/app/sh/src/main.rs:169-214 | for a non-empty p and a relative q, going to p and then to q is going to p/q |
| ShellPath.OneStep | pkg/app/sh/src/main.rs:179-198 | "." stays, ".." drops the last name if there is one, any other name is added |
| ShellPath.UpAgain | pkg/app/sh/src/main.rs:179-198 | going to a name and up again is staying, and up from the root is the root |
| ShellPath.UpFromB | pkg/app/sh/src/main.rs:179-198 | from "/a/b", ".." leads to "/a" |
| ShellPath.RelativeResult | pkg/app/sh/src/main.rs:200-213 | where neither directory nor target is absolute, the result is relative, "." if nothing is left |
| ShellPath.WithoutTheConditions | pkg/app/sh/src/main.rs:169-214 | what both sides of that law are when p is empty or q is absolute |
| ShellPath.NamesOfRendered | pkg/app/sh/src/main.rs:200-213 | splitting a rendered path gives its components back |
| ShellPath.NormalizePath | pkg/app/sh/src/main.rs:169-214 | the loops compute the function of these laws |

## Left out

- Hardware and foreign code: ATA, UART, APIC, GDT and IDT, CR3 and TLB, UEFI boot, the page-table levels below the page map and the frames they cost, `linked_list_allocator`.
- Kernel stack (`Stack::kstack`) and the kernel's own ELF ranges; `map_elf`, `map_segment` and `unmap_segment`.
- Integer widths where the source does not wrap in use: the 16-bit pid counter and the semaphore count are assumed not to overflow, addresses to stay canonical.
- The parent and children links of processes: they do not influence scheduling, and `kill` moving children to the grandparent is not modelled. The child's stack offset is a parameter of the fork.
- ProcessManager.ProcessManager.SpawnProc: the program loaded by a spawn appears as its first context only; a spawn of a program that is not in the list changes nothing and is not modelled as a call.
- ProcessManager.Dispatch: a process refers to its semaphore table by a number in a directory of table objects; locks and reference counts around the objects are not modelled.
- ProcessManager.Process.VFork: the fork of the memory is in `ProcessFamily`, and the list of children is not modelled.
- SchedulerTheorems.KilledSleeperWalks: the panic on resuming a killed process is not an outcome of the machine, which goes on; `ResumedLives` shows that it does not occur under the guard.
- ProcessManager.WaitSem: `rax` is not set when a wait blocks or a signal wakes somebody, as in the source; the model therefore promises nothing about it there.
- HostedShop.EveryRunEndsEmpty: private statements and the kernel's other calls are any change of registers and any allowed call that is `Foreign`; a thread that is killed, or semaphores changed from outside, are left out, and so is what the parents do after the last exit. That a thread which can go on is served is `BoundedWaiting`, which speaks of hand-overs, not of time.
- ProcessFamily.FamilyConserves: one family in isolation; frames taken by other families in between are not modelled. Page-table frames are not counted. The page table is a map of 4 KiB pages without the kernel's window onto all physical memory, in which every frame would occur a second time. A fork that finds no slot, and a fault on a mapped page, end in a panic or a kill and are no events.
- ProcessFamily.ProcessVm.Load: logging and the statistics in bytes other than the code usage.
- ElfLoader.WrappedCopy: the memory behind the file is a parameter; that reading it might fault is not modelled.
- ElfLoader.SegmentExact: the parsing of ELF headers by its library; a file size above the memory size, which the ELF specification forbids.
- FatFile.ReadIsSlice: 512-byte sectors; other sector sizes in the boot parameter block are not modelled.
- FatDirectory.EntryOfRecord: the time stamps of a record are not parsed.
- FatDirectory.ReadDirEntries: requires that the listing returns, and `LookUpPath` that the lookup does, since the source loops forever otherwise (`EndlessExactly`, `FindPathEndless`).
- FatNames.ParseName: the Unicode upper case of a string is a parameter, here and in the lookups; the laws on showing a name are for ASCII.
- `read_file_data`, metadata, the boot parameter block's field getters, the file-descriptor table and the block devices.
- `pkg/app/dinner`, whose waiter semaphore shares its key with a chopstick, and the remaining applications.
- Shell line editing, command parsing and output.
