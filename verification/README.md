# xv6 with scheduling queues and a priority lock: a Dafny model

This project models the parts of an x86 xv6 kernel, and of three of its user programs, whose
correctness spans whole runs, and proves what they are for.

* **Crash-safe storage.** `Journal` is the redo log and the buffer cache (log.c, bio.c) as a state
  machine: every lock, block write, header write and power failure is a step of its own, taken by
  any process in any order. `JournalSafety` is the invariant of its steps and `JournalTheorems` what
  follows from it. `BufferCache` and `Log` are the C functions as methods on the
  ring of buffers, the in-memory header and the disk; every `Log` method records the steps it takes,
  so the theorems hold of what the methods do. In that machine log_write's append
  repeats its size test; `JournalRace`, `JournalCode` and `JournalOverrun` are about the code as it is
  written, with the test outside the lock, and `JournalCode` states the theorems of those runs.
* **Files.** `FsLayout` to `FsTrunc` and class `Fs` are the block bitmap, block mapping, reading,
  writing and truncation of fs.c; `File` is the chunking of file.c. `FsHistory` keeps what every
  operation wrote, and `Storage` joins it with the log: a crash leaves a sound file system.
* **Processes.** `Process` is the process table as a state machine, `Scheduling` the starvation
  bound, `Family` pids, parents and wait, `Wakeups` who sleeps until when and what a process is
  charged, `Lifecycle` the states and times of a slot, `Ptable` the scanning loops of proc.c.
  `PriorityLock` is priority_lock.c with sleep and wakeup_pl, one step for each time a spinlock is
  taken or released.
* **Memory.** `Umalloc` is the user-level allocator. `PageTables`, `AddressSpace` and `Vm` are
  kalloc.c and the page-table functions of vm.c.
* **Pipe, shell, grep.** `Pipe` is the ring buffer with its sleepers. `ShellGrammar` is the shell's
  grammar, `Shell` and `ShellCommand` its parser, `ShellText` what a line says by its characters
  alone, against what the parser makes of it. `Grep` is the regular-expression matcher.

`dafny verify dfyconfig.toml` checks the whole project.

## What is taken for granted

* One disk write is one step and is atomic, as in memide.c. A crash may come between any two steps,
  also during recovery, any number of times. `panic` ends a run.
* Of the callers of the log the journal machine takes three things: a block that is changed inside
  an operation is passed to log_write before its buffer is released and before end_op; an operation
  makes at most MAXOPBLOCKS new header entries; what is logged lies outside the log region.
  `File.File.WriteOp` and `Fs.Fs.Writei` prove the second for filewrite's chunks.
* The methods of `Log` are run by one process without interference, though others may hold buffers;
  what they may do in between is the business of the machine. Nobody but log.c reads the log region.
  `Fs` runs operations one after the other.
* Buffers start as device 0, block 0, so keys are unique for the root device, 1.
* Times and ticks are unbounded integers, ranks and ratios are reals.
* The clock interrupt's aging looks at a slot and writes it in separate steps, because it does not
  take ptable.lock.
* sbrk's answer, the page of kernel data between the kernel's two mappings and the time are
  parameters.

## Properties that fail, and exactly when they hold

* The header outgrows its region when two processes pass log_write's unlocked test with one place
  left. All entries fit in every run if and only if the region has one block or more than LOGSIZE
  (`JournalRace.LogFitsExactly`); mkfs makes it exactly LOGSIZE (mkfs.c:25).
* Crash atomicity survives that on mkfs's log, because the overfull transaction pins every buffer and
  its commit finds none to write with. It holds of every run if and only if the region has one block
  or at least LOGSIZE (`JournalOverrun.CrashAtomicExactly`); `JournalOverrun.Overrun` is the run that
  breaks it on a smaller one.
* bget has no buffer for a block that is not cached if and only if the blocks still to be installed and
  the clean buffers somebody has a reference to are NBUF together (`JournalCode.CodeNoBuffer`). So
  commit panics if and only if that holds of what is logged when it starts (`Log.Log.Commit`): because
  fileread holds buffers outside any operation, a single logged block is enough
  (`JournalRace.FullCache`).
* A writer that is killed while it fills the pipe returns without waking the readers
  (`Pipe.KilledWriterStrands`); every other step keeps sleepers justified, and that one never does
  (`Pipe.SleepersStep`).
* A process runnable in RR is passed over by fewer than NPROC dispatches, whatever happens, if and only
  if the clock has moved on since it last ran or it is init (`Scheduling.StarvationExactly`). In the tick
  in which it last ran any other process can be passed over any number of times
  (`Scheduling.TieStarves`), and such a table is reachable (`Scheduling.TiedReachable`).
* best_job_first passes over exactly the ranks of MAX_INT and more (`Scheduling.NobodyPassedOver`), so
  the scheduler can idle while such a process is runnable (`Scheduling.IdleReachable`).
* allocuvm's failure clears the whole new range. The old mapping is restored if and only if nothing was
  mapped there (`AddressSpace.RestoredExactly`, `Vm.Vm.Allocuvm`).
* The shell treats `>>` as `>`: nothing is appended (`ShellGrammar.AppendIsWrite`).

## Model

| member | source | states |
|---|---|---|
| JournalTheorems.LogWriteSucceeds | log.c:214-233 | With a region larger than LOGSIZE an operation within its budget passes log_write's test, and the test still holds when it appends |
| JournalRace.RoomMakesTestStable | log.c:214-233 | With room for LOGSIZE blocks the runs with the test outside the lock are the runs with the test under it |
| JournalRace.LogFitsExactly | log.c:214-233 | All entries lie in the region in every run of the code if and only if the region has one block or more than LOGSIZE |
| JournalRace.RaceOverruns | log.c:214-233 | For every smaller region, a run in which two processes pass the test with one place left and both append |
| JournalRace.FullCache | log.c:178-190 | For any NBUF home blocks, of which any number but none are logged and each of the others is held by a reader outside any operation, a reachable state at the start of write_log with no buffer for the first log block |
| JournalCode.SafeStep | log.c:70-233 | On a region of at least LOGSIZE every step of the code, by any process, and a power failure keep the invariant: cache coherent with log and disk, pins exact, log area consistent, reservations kept, or one entry too many with every buffer pinned |
| JournalCode.CodeCrashAtomic | log.c:69-122 | In every run of the code with any number of crashes, on a region of one block or at least LOGSIZE, mkfs's included: recovery from the disk as it is gives each home block its committed contents; no operation has writes both among the committed and the lost ones, and none that is committed is still running |
| JournalCode.CodeCommitPoint | log.c:193-202 | In those runs only the header write commits; it commits all that was logged, with no operation outstanding; no step takes a committed write back |
| JournalCode.CodeRecoveryCompletes | log.c:116-122 | When recovery returns, after any number of interruptions, the home blocks hold the committed contents and the log on disk is empty |
| JournalCode.CodeCacheTransparent | bio.c:97-106 | A process that holds a filled buffer of a home block sees the latest logged contents, whatever was evicted or committed since |
| JournalCode.CodeMatchesDisk | bio.c:62-93 | A valid clean buffer nobody is changing equals the disk, no block of the root device has two buffers, and between commits the pinned blocks are exactly the logged ones |
| JournalCode.CodeNoBuffer | bio.c:82-92 | Outside recovery bget has no buffer for a block that is not cached if and only if the blocks still to be installed and the clean referenced buffers are NBUF together |
| JournalCode.CodeWritesAhead | log.c:178-202 | A home block changes on disk only when the header on disk names it, everything logged is durable, and the new contents are the logged ones |
| JournalCode.CodeReserves | log.c:126-141 | Entries plus what outstanding operations may still add never exceed LOGSIZE; entries are distinct home blocks; while an operation is outstanding no commit is under way, so end_op never finds the committing flag set |
| JournalOverrun.Overrun | log.c:178-190 | For a region of two to LOGSIZE - 1 blocks, a run in which write_log overwrites the block behind the region before anything is durable |
| JournalOverrun.CrashAtomicExactly | log.c:69-233 | Every run of the code is crash atomic if and only if the region has one block or at least LOGSIZE |
| BufferCache.Unlink | bio.c:132-133 | Taking a buffer out of the ring leaves a ring of the others, in their order |
| BufferCache.PushFront | bio.c:134-137 | Linking a buffer in behind the head gives a ring that starts with it |
| BufferCache.RecencyFront | bio.c:129-138 | Moving a just released buffer to the front keeps the ring ordered by last release |
| BufferCache.Bcache.constructor | bio.c:39-56 | The ring threads all NBUF buffers once, all of them fresh |
| BufferCache.Bcache.Lookup | bio.c:68-77 | Finds the buffer of a block if and only if it is cached |
| BufferCache.Bcache.Victim | bio.c:79-91 | The unreferenced clean buffer whose last release is oldest, or none if there is no such buffer |
| BufferCache.Bcache.BGet | bio.c:62-93 | A cached buffer gets one more user and is locked; otherwise exactly the oldest unreferenced clean buffer is recycled; it panics only if neither exists |
| BufferCache.Bcache.BRelse | bio.c:121-141 | Drops the lock and the reference; an unreferenced buffer becomes the most recent, the rest of the order stays |
| BufferCache.Bcache.BWrite | bio.c:110-116 | The buffer's block, and no other, changes on disk, and the buffer is clean |
| Log.Log.BRead | bio.c:97-106 | Gives a locked, filled buffer of the block with one more reference and changes nothing else; panics exactly if the block is not cached and no buffer is free |
| Log.Log.BeginOp | log.c:126-141 | Starts the operation, and counts it, exactly when no commit is under way and the entries and ten for each outstanding operation and this one are at most thirty |
| Log.Log.LogWrite | log.c:214-233 | Panics exactly with thirty entries or all the region takes, even for a block it could absorb; else the block is among the entries, once, behind those that were there, and its buffer and no other is pinned |
| Log.Log.FindSlot | log.c:224-227 | The place of the block in the header, or the first unused one if it is not there |
| Log.Log.EncodeHead | log.c:102-113 | The block written reads back as exactly the header |
| Log.Log.DecodeHead | log.c:86-96 | Reads back exactly the header a block holds |
| Log.Log.WriteLog | log.c:178-190 | Copies all logged blocks into the region and leaves every other reference and lock as it was; it panics exactly when every buffer is pinned or referenced |
| Log.Log.WriteHead | log.c:102-113 | The header reaches the disk in one write, the commit point when there are entries |
| Log.Log.InstallTrans | log.c:70-82 | Every logged block reaches its home, and always finds buffers to do it with |
| Log.Log.Commit | log.c:193-202 | With other processes holding any buffers but pinned ones and log blocks, succeeds exactly when the logged blocks and the clean referenced buffers are fewer than NBUF, or nothing is logged; then every home block on disk has its latest logged contents, the log is empty and nobody else's references or locks have changed |
| Log.Log.RecoverFromLog | log.c:116-122 | Whatever a crash left, every home block gets the contents that header and log blocks give it, and the log is emptied |
| Log.Log.EndOp | log.c:146-174 | The last operation to end commits all of them; any other leaves without a commit |
| Log.Log.Store | log.c:126-233 | One whole operation of a process alone: the block is on disk when it ends and no other home block has changed; it panics exactly on a region without room for an entry |
| FsLayout.StoredLoaded | fs.c:221-309 | What iupdate stores is, byte for byte where ilock looks, what ilock reads back, and every other inode reads as before |
| FsLayout.FileByteIs | fs.c:373-400 | Byte k of a file is in one of the twelve blocks the inode names, or in one of the 128 that the words of its thirteenth name |
| FsLayout.UsedIs | fs.c:57-95 | A block is in use exactly if its bit, 4096 to a block and the lowest of a byte first, is set |
| Fs.Fs.Balloc | fs.c:57-78 | The lowest free block, marked in use and zeroed, two blocks logged; it panics exactly when no block is free |
| Fs.Fs.Bfree | fs.c:82-95 | Clears the block's bit; it panics exactly when the block is free |
| Fs.Fs.Bmap | fs.c:373-400 | The block of the file's bn-th block, allocating what is missing and nothing else and keeping every block with exactly one owner; it fails only out of range or on a full disk |
| FsMapping.ThroughIndirect | fs.c:385-396 | Looking the indirect block up and then its entry is one lookup, allocating at most both |
| Fs.Fs.Iupdate | fs.c:221-236 | Reading the inode from the disk then gives it as it is in memory, type, numbers, links, size and addresses; every other inode reads as before, and no block but the inode's changes |
| Fs.Fs.Ilock | fs.c:288-309 | An inode read from the disk is the one in memory; it panics exactly if it has no type |
| FsInode.UpdateCopies | fs.c:221-236 | After iupdate the disk copy of the inode is current, and that of every other inode is as current as before |
| Fs.Fs.Writei | fs.c:482-511 | Refuses exactly a start past the end or an end past the largest file; otherwise the file's bytes are spliced with the source, every other file keeps its contents, blocks and inode, the disk copies are current and ownership is exact; a chunk of at most 1536 bytes logs at most MAXOPBLOCKS blocks; it panics only on a full disk |
| FsInode.ReadBack | fs.c:482-511 | After a write the written range reads as the source, every other byte is what it was, the length is the larger of the two |
| FsInode.WroteTwice | fs.c:482-511 | Two writes one behind the other are one write |
| Fs.Fs.Readi | fs.c:453-476 | Exactly the requested slice clipped to the size; it never allocates, panics or changes anything, and refuses exactly a start past the end or a range that wraps |
| FsWrite.ChunkTotal | file.c:126-152 | A chunk of three blocks' worth logs at most nine blocks besides the inode's, wherever it starts and whatever it allocates |
| Fs.Fs.Itrunc | fs.c:408-435 | Frees exactly the blocks of the file, indirect ones included, never one that is free; other files keep their contents and all is in order |
| FsTrunc.WritesThenTruncate | fs.c:408-435 | A file without blocks that is written in any way and then truncated leaves the free map as it was |
| File.File.WriteOp | file.c:140-145 | One operation: the chunk is written at the offset and the offset moves, or nothing happens; at most MAXOPBLOCKS blocks are logged |
| File.File.Filewrite | file.c:118-156 | Fails if not writable, hands a pipe and, for n above zero, a device on, panics on a file of no kind; for a file, returns n exactly when n is zero or the bytes fit, else failure; what was done is one write of a prefix of whole chunks; every operation stays within MAXOPBLOCKS; it panics only on a full disk |
| File.File.Fileread | file.c:97-113 | Fails if not readable, hands pipes and devices on; for a file, the bytes from the offset clipped to the size, and the offset moves by as many; fails exactly past the end or on a range that wraps |
| Storage.WholeOperations | log.c:146-202 | What is durable at a crash is a whole number of file system operations |
| Storage.CrashLeavesSound | log.c:69-122 | Wherever the power fails in any run of the code on mkfs's log or a larger one, recovery leaves a sound file system: the one some number of operations had left, every inode read from the disk and every file with its contents as then |
| Storage.Perform | log.c:126-233 | Any history of operations that each write at most MAXOPBLOCKS different home blocks can be handed to the log: from power-on, begin_op, log_write and end_op lead to a reachable state that `CrashLeavesSound` speaks of |
| Ptable.Ptable.RoundRobin | proc.c:497-515 | The runnable RR process longest off the CPU, ties to the lowest slot, or none if there is no candidate |
| Ptable.Ptable.LastComeFirstServe | proc.c:516-533 | The runnable LCFS process created last, ties to the lowest slot, or none |
| Ptable.Ptable.BestJobFirst | proc.c:535-552 | The runnable BJF process of least rank below MAX_INT, ties to the lowest slot, or none |
| Ptable.Ptable.Pick | proc.c:561-587 | RR before LCFS before BJF; idles exactly when none of the three has a candidate |
| Scheduling.ChosenUnique | proc.c:561-587 | The scheduler's choice is unique |
| Scheduling.NobodyPassedOver | proc.c:497-552 | With stored times between zero and now every runnable process of RR and LCFS is a candidate, and of BJF exactly those of rank below MAX_INT |
| Scheduling.RunTimes | proc.c:561-635 | In every run stored times lie between zero and now |
| Ptable.Ptable.Aging | proc.c:60-79 | A runnable process that has waited more than 8000 ticks is in RR afterwards; only such a process changes queue, and nothing else changes |
| Scheduling.StarvationExactly | proc.c:497-515 | A process runnable in RR is passed over by fewer than NPROC dispatches in every run if and only if the clock has moved on since it last ran or it is init |
| Scheduling.StarvationBound | proc.c:561-599 | The first half, run by run: each dispatch that passes the process over costs it a rival |
| Scheduling.NoStarvation | proc.c:60-79 | A runnable process of any queue found overdue runs within NPROC dispatches of aging's write, whatever happens between its test and its write |
| Scheduling.TiedReachable | proc.c:355-400 | A reachable table with two RR processes that last ran in the current tick |
| Scheduling.TieStarves | proc.c:497-515 | From any table in order, a process other than init that last ran in the current tick can be passed over any number of times |
| Scheduling.IdleReachable | proc.c:535-552 | A reachable table in which a process is runnable in BJF, with a rank of MAX_INT or more, and the scheduler has nobody to choose |
| Ptable.Ptable.Wakeup1 | proc.c:702-709 | Afterwards nobody sleeps on the channel; who did is runnable and otherwise as before, and nobody else has changed |
| Ptable.Ptable.WakeupPl | proc.c:718-737 | Exactly the sleeper with the highest pid becomes runnable, if there is one |
| Ptable.Ptable.Kill | proc.c:754-773 | The first process with the pid, and no other, is marked and, if asleep, made runnable; success exactly if there is one |
| Ptable.Ptable.FindUnused | proc.c:117-131 | The first unused slot, or none if there is none |
| Ptable.Ptable.WaitScan | proc.c:453-496 | Reaps a zombie child exactly if there is one; gives up exactly if there is no child or the caller is killed |
| Ptable.Ptable.Exit | proc.c:405-449 | The parent is woken, the children go to init, init is woken if one is a zombie, the caller is a zombie |
| Wakeups.WakeupMeans | proc.c:702-715 | The same of the step: after wakeup no slot sleeps on the channel, its sleepers are runnable and otherwise as they were, the other slots are unchanged |
| Wakeups.ExitMeans | proc.c:405-449 | Exit makes the caller a zombie, the children's parent init, and runnable exactly those asleep in wait for it or, as init, for a zombie it inherits; nothing else changes |
| Wakeups.KillMeans | proc.c:754-773 | Kill marks the first slot with the pid and ends its sleep, and changes no other |
| Wakeups.SleepEnds | proc.c:661-773 | A step ends a sleep if and only if it is a wakeup on that channel, wakeup_pl's choice, a kill of that pid or the exit that is waited for; then the process is runnable |
| Wakeups.SleepBegins | proc.c:453-698 | A process falls asleep only by its own sleep or wait, on the channel it names, from running |
| Wakeups.SleepsOn | proc.c:661-773 | In every run a process sleeps on, on the same channel, as long as no step rouses it |
| Wakeups.WakesAt | proc.c:661-773 | In every run the first step that rouses a sleeper makes it runnable |
| Wakeups.RankGrows | proc.c:30-33 | Rank is zero when all attributes are and grows with each in proportion to its own ratio |
| Wakeups.CyclesCharged | proc.c:561-635 | In every run a job is charged a tenth for each turn it gets and each it yields, and for nothing else |
| Lifecycle.LifeStep | proc.c:355-773 | Which step takes a slot from each state to which other, for every step and every slot: nothing else moves one |
| Lifecycle.LastTurn | proc.c:497-635 | In every run the time round_robin compares is when the process was last dispatched, yielded or was started, by the ticks counted since |
| Lifecycle.QueueStep | proc.c:60-168 | A queue is set by allocproc, RR for pid 2 and else LCFS, by aging, to RR, and by change_queue, and by no other step |
| Lifecycle.KinStep | proc.c:117-496 | Pids are given in turn by allocproc and taken by wait; parents are set by fork, changed to init by exit and taken by wait; no other step touches either |
| Family.StepKeeps | proc.c:355-496 | Every step keeps pids, parents and waiting parents in order |
| Family.PidsDistinct | proc.c:117-168 | In every run no two processes have the same pid, and wait never returns a pid twice or one still in the table |
| Family.ParentAlive | proc.c:405-449 | In every run each started process but init has a parent that has started, is no zombie and has a smaller pid |
| Family.Rooted | proc.c:355-449 | In every run parent links form a tree rooted at init: from parent to parent every started process comes to init, and none comes back to itself |
| Family.WaitMissesNothing | proc.c:453-496 | A process asleep in wait has no zombie child |
| Family.ZombieWillBeReaped | proc.c:405-496 | Each zombie's parent is active and not asleep in wait |
| PriorityLock.MutualExclusion | priority_lock.c:20-39 | In every run at most one process is inside, and the lock's fields say which |
| PriorityLock.NoLostWakeup | priority_lock.c:20-39 | In every run, if the lock is free and no release still has someone to wake, a sleeper has a process awake in the acquire loop, and nobody is about to fall asleep; with barging acquirers and kill |
| PriorityLock.ReleaseWakesHighest | priority_lock.c:32-39 | A release wakes exactly the sleeper with the highest pid, if anyone sleeps; that wakeup_pl's loop finds it is `Ptable.Ptable.WakeupPl` |
| Umalloc.Heap.FindPlace | umalloc.c:30-32 | free's loop ends at the free block that the address comes after in the circular order |
| Umalloc.Heap.Free | umalloc.c:25-44 | The block's units become free, joined with the free blocks they touch; no other unit changes hands; the list stays one circular address-ordered list of disjoint blocks that do not touch, and the rover is left in front of the block |
| Umalloc.Heap.Scan | umalloc.c:74-88 | The first block from the rover on that is large enough, or none if no block of the list is |
| Umalloc.Heap.Morecore | umalloc.c:47-61 | What sbrk gives, at least 4096 units, becomes free; then some block is large enough; if sbrk fails nothing changes |
| Umalloc.Heap.Malloc | umalloc.c:64-90 | A block that was not live becomes live with the units of the request and no other changes hands: the last units of the first block from the rover on that is large enough; morecore is called at most once and only if nothing fits; it fails only if sbrk does |
| Umalloc.RoomEnough | umalloc.c:69 | The units of a request hold it behind the header with less than a header to spare, and sbrk's argument does not overflow |
| Umalloc.BlocksDisjoint | umalloc.c:25-90 | Different blocks, free or live, share no unit |
| Umalloc.Heap.Accounts | umalloc.c:25-90 | After any calls of malloc and free the units of free and live blocks together are the units obtained from sbrk |
| Vm.Vm.Freerange | kalloc.c:47-53 | Exactly the whole pages of the range are free, each filled with ones |
| Vm.Vm.Kalloc | kalloc.c:83-95 | Takes the first page of the free list, or nothing if it is empty |
| Vm.Vm.Kfree | kalloc.c:60-77 | Gives back a page in hand, all 4096 bytes one, at the head of the free list; no address space sees a change |
| Vm.Vm.Walk | vm.c:47-69 | The page table for an address, added if it is missing; fails exactly if a page is needed and none is free |
| Vm.Vm.MapUser | vm.c:75-95 | The page appears at its address with its flags and contents, and no other page of any address space changes; it panics exactly if a page is mapped there already, and for want of a page for the table nothing at all changes |
| Vm.Vm.Setupkvm | vm.c:135-153 | A directory with exactly the kernel's mappings, if and only if 65 pages are free; else memory is as before |
| Vm.Vm.Deallocuvm | vm.c:270-295 | Exactly the pages of the range go, each back to the pool, skipping missing tables as freeing page by page would |
| Vm.Vm.Freevm | vm.c:299-315 | Everything that belonged to the directory is free again, nothing else changes |
| Vm.Vm.Allocuvm | vm.c:234-264 | Panics exactly if it comes, with a page in hand, to a page mapped already; else pages appear in the whole range if and only if enough pages are free for them and their tables, each writable, open to the user and 4096 zero bytes, so none is as kfree left it; else the whole range is cleared, and all is as before if nothing was there |
| AddressSpace.RestoredExactly | vm.c:248-261 | What a process sees after that clearing is what it saw before if and only if nothing was mapped in the range |
| Vm.Vm.Copyuvm | vm.c:332-363 | Panics exactly if a page of the parent is missing and there are enough free pages to come to it; makes a new address space, with the same contents and flags on pages of its own and the kernel's mappings, if and only if none is missing and 65 pages, one for each copied page and one for each 1024 of them are free; else memory is as before, each page in use and each free page |
| PageTables.OneOwner | vm.c:234-363 | A mapped user page is mapped once and is not free, a directory or a table |
| PageTables.NoLeak | vm.c:234-363 | A page that is not free is a directory, a table, a mapped page or in someone's hands |
| AddressSpace.ClearTable | vm.c:281-283 | Skipping to the next directory entry when a table is missing is freeing page by page |
| AddressSpace.NoTrace | vm.c:332-363 | A directory built and torn down again leaves memory as it was |
| Pipe.Ring.Put | pipe.c:93 | One byte behind what is in the pipe, with counters that wrap |
| Pipe.Ring.Fill | pipe.c:84-94 | As many bytes as there is room for, in order; it stops early only at a full pipe |
| Pipe.Ring.Drain | pipe.c:113-117 | The oldest bytes, as many as asked for or there are, in order |
| Pipe.SharedPipe.WriteOn | pipe.c:79-98 | Stores what there is room for and returns, with the count of the whole call, exactly if that was all; else fails exactly if the read end is closed or the caller killed, and else sleeps with the rest; readers are woken unless it fails, nobody else changes; it is the machine's step |
| Pipe.SharedPipe.ReadOn | pipe.c:101-121 | On an empty pipe with the write end open fails exactly if the caller is killed and else sleeps; otherwise returns the oldest bytes, as many as asked for or there are, and wakes the writers; nobody else changes; it is the machine's step |
| Pipe.SharedPipe.CloseWrite | pipe.c:60-75 | Closes the write end and wakes every reader and nobody else |
| Pipe.SharedPipe.CloseRead | pipe.c:60-75 | Closes the read end and wakes every writer and nobody else |
| Pipe.SharedPipe.Delivered | pipe.c:79-121 | For any interleaving of readers, writers, closes and kills, what was returned is a prefix of what was stored, at most PIPESIZE bytes are in between, and the wrapped counters tell empty and full exactly |
| Pipe.SharedPipe.SleepsRightly | pipe.c:79-121 | If no user was killed, a sleeping reader has an empty pipe with the write end open, a sleeping writer a full one with the read end open |
| Pipe.EndOfFile | pipe.c:60-121 | Once the write end is closed and all that was stored is taken, it stays so whatever the processes do next, no reader sleeps and every read returns at once with nothing |
| Pipe.SharedPipe.AtTheEnd | pipe.c:60-121 | On a pipe whose write end is closed nobody writes and no reader sleeps, however it came to that, and the ring is empty exactly when all is taken |
| Pipe.SleepersStep | pipe.c:79-121 | Every step keeps sleepers justified, except a killed writer's return after filling the pipe under a sleeping reader, which never does |
| Pipe.KilledWriterStrands | pipe.c:85-92 | A run in which a reader sleeps on in front of a full pipe |
| ShellGrammar.RoundTrip | sh.c:328-446 | The fully parenthesised printing of any command of at most nine words per exec parses to that command |
| ShellGrammar.Canonical | sh.c:328-446 | A line that is accepted means what its fully parenthesised form means |
| ShellGrammar.AppendIsWrite | sh.c:375-397 | A redirection written with `>>` parses as with `>` |
| ShellText.NothingLost | sh.c:328-446 | The command of an accepted line has exactly the line's words and operators, and its redirections and operators, as the characters of the line alone give them: all, in order, each redirection between the same operators |
| ShellText.CommandTyped | sh.c:375-446 | Words and redirections in any mixture, with `<`, `>` and `>>`: the command runs the words in their order with the redirections around it in theirs |
| ShellText.TypedRoundTrip | sh.c:328-446 | A line without parentheses, of any commands joined by the bar, followed by any `&` and joined by `;`, is the list of the background commands of the pipes nested to the right |
| Shell.Parser.GetToken | sh.c:266-308 | Skips white space, takes one token and the white space behind it; a word's two pointers enclose exactly the word |
| Shell.Parser.Peek | sh.c:311-320 | Skips white space and says whether one of the characters is next |
| Shell.Parser.ParseLine | sh.c:345-359 | The grammar's line, its tree and what is left of the text, or its failure |
| Shell.Parser.ParsePipe | sh.c:362-372 | The grammar's pipeline |
| Shell.Parser.ParseRedirs | sh.c:375-397 | The grammar's redirections |
| Shell.Parser.ParseBlock | sh.c:400-413 | The grammar's block |
| Shell.Parser.ParseExec | sh.c:416-446 | The grammar's command, its tree and what is left of the text, or its failure; what that is of the line is `ShellText.NothingLost` |
| ShellCommand.Nulterminate | sh.c:450-493 | Zeroes exactly the places where words of the command end |
| ShellCommand.WordsIntact | sh.c:450-493 | Zeroes at the ends of words leave every argument and file name what it was |
| ShellCommand.ParseCmd | sh.c:328-342 | The command, read from the buffer as C strings, is the grammar's parse of the line; on failure the buffer is untouched |
| Grep.MatchHere | grep.c:85-96 | True exactly if a prefix of the text, all of it under a final `$`, is in the pattern's language |
| Grep.MatchStar | grep.c:99-106 | True exactly if, after some number of fitting characters, the rest matches the rest of the pattern |
| Grep.Match | grep.c:73-82 | True exactly if a substring that respects `^` and `$` is in the pattern's language |
| Grep.OccursMeans | grep.c:73-82 | Spelt out with the two ends of the substring |

## Left out

- BufferCache.Bcache.BGet: does not model the wait for a buffer somebody else has locked; the machine does.
- Log.Log.BRead: likewise.
- Log.Log.WriteLog: without interference and without the wait for a pinned buffer that somebody has locked; the machine has both.
- Log.Log.WriteHead: likewise.
- Log.Log.InstallTrans: likewise.
- Log.Log.Commit: likewise.
- Log.Log.EndOp: likewise.
- Log.Log.LogWrite: an operation that makes more than MAXOPBLOCKS entries, which log_write does not notice.
- Storage.CrashLeavesSound: takes it that the log was handed what `Fs` wrote, each operation under its own number; `Storage.Perform` shows it can be, one operation after the other. That truncation of a large file keeps to MAXOPBLOCKS is not claimed.
- Umalloc.Heap.Malloc: for requests below 0x7FFFFFF0 bytes, above which the size arithmetic of the C code wraps; addresses count 8-byte units, and sbrk answers with memory above what it gave before.
- Vm.Vm.Deallocuvm: for old sizes up to KERNBASE; above it the C code would free kernel mappings.
- Vm.Vm.Kfree: the panic on an address outside memory; pages freed come from the pool.
- Vm.Vm.Freevm: tables go from the directory as they are freed, where the C code frees the directory with its entries still in it.
- Shell.Parser.ParseExec: the exec node is built when its words are known, where the C code fills it through an alias while redirections already wrap it; order of construction is not modelled.
- Wakeups.CyclesCharged: while the slot is not given a new job.
- Scheduling.StarvationBound: change_queue is not among the steps after the process starts to wait.
- Shared memory (vm.c:413-488), loaduvm, inituvm, copyout and clearpteu.
- change_queue and the setters of BJF parameters beyond their being steps.
- Fs.Fs.Ilock: the sleep lock and the reference count.
- Inode allocation and the inode cache, link counts, directories and path lookup, system calls on files, exec.
- pipealloc's failure paths and the freeing of the pipe by its last close.
- grep's buffering, printf, user test programs.
- Context switches, trap frames, interrupt flags, device and boot code.
- Rounding of floating-point ranks.
