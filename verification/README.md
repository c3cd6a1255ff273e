# A verified model of the xv6 kernel with mmap

This project models the parts of xv6 (32-bit x86, with an added mmap system call)
whose correctness does not show in any finite set of runs, and proves what they
promise. Each component has the same three layers:

- a model on values: a step machine with every interleaving or crash point, or
  functions that say what a call does;
- lemmas over every run, every reachable state or every input of that model;
- an object that works as the C code does, with its fields, arrays and loops, and
  whose contracts tie each call to the model.

| files | source | subject |
|---|---|---|
| `log_model`, `log_safety`, `log_history`, `log_reserve`, `log_sleep`, `log` | log.c | the write-ahead redo log, group commit, recovery, log-space reservation and waiting for it |
| `fs_model`, `fs_effects`, `fs_trunc`, `fs_image`, `fs` | fs.c, file.c, mkfs.c | the block bitmap, direct and indirect block maps, file contents, transaction sizes |
| `layouts` | log.c, fs.h | where the fields of the log header and of an inode lie on disk |
| `crash_fs` | log.c, fs.c | the file system over the log: what a crash leaves of the files |
| `log_buffers`, `log_pins` | log.c, bio.c | the log and the buffer cache together: what readers find, and when commit finds a buffer |
| `heap_model`, `heap_run`, `heap` | umalloc.c | the allocator of Kernighan and Ritchie, "The C Programming Language", 2nd edition, section 8.7 |
| `pipe_model`, `pipe_safety`, `pipe_results`, `pipe` | pipe.c, proc.c | pipes with the sleep and wakeup they rest on |
| `proc_model`, `proc_safety`, `proc_kill`, `proc_sleep`, `proc` | proc.c | fork, exit, wait, kill, sleep and wakeup |
| `vm_model`, `vm_tables`, `vm_effects`, `vm_spaces`, `vm_loop`, `vm_needs`, `vm_bits`, `vm` | vm.c, kalloc.c, mmu.h | two-level page tables and the page allocator |
| `bio_model`, `bio_safety`, `bio` | bio.c, memide.c | the buffer cache over the in-memory disk |
| `mmap_model`, `mmap_safety`, `mmap_unmap`, `mmap` | sys_mmap.c | the table of mapped regions |
| `shell_model`, `shell_grammar`, `shell_language`, `shell_accepts`, `shell_trip`, `shell_tree`, `shell` | sh.c | the command parser, the language it accepts, and the termination of its words |
| `grep` | grep.c | the regular expression matcher |

`common` and `blocks` hold what several of them share.

`dafny verify dfyconfig.toml` checks everything. A panic in the C code appears as
an error result, or as a precondition where every caller avoids it. Disk block
writes and spinlock critical sections are atomic steps; the pipe machine is finer
and takes the lock operations inside `sleep` and `wakeup` one by one.

## What turned out not to hold

In each case the model keeps the code's behaviour; of the members named, the
first gives a concrete run or input, and those after "against" say exactly when the
code does meet the promise.

- The log area that mkfs lays out (`mkfs.c:25`) is one block short for the
  reservation in `begin_op`: `ShortLogPanics`, against `ReservationSuffices`.
- `log_write` tests for a full log before it looks for an absorbed block:
  `AbsorbedWritePanics`, against `ReservationSuffices`.
- With a log area long enough for the reservation, three operations can pin all
  NBUF buffers, and the commit finds none for its first log block:
  `CommitWithoutBuffer`, against `BreadFindsBuffer`.
- `itrunc` of an inode whose blocks lie under ten bitmap blocks logs more blocks
  than are reserved for one operation: `TruncExceeds`, against `TruncBudget`.
- A killed writer leaves a full pipe without waking sleeping readers
  (`pipe.c:86-89`): `KilledWriterLosesWakeup`, against `SleepersIff`.
- `malloc` of nearly the whole address space wraps around: `RequestWraps`,
  against `RequestExactIff`.
- `freevm` loses the pages mapped from MMAPBASE on: `FreeVmLosesPage`, by way of
  `MappedPageLost`, against `GoneIff`.
- `kill` marks unused slots too, and `allocproc` leaves the mark, so that a process
  may be born killed: `BornKilled`, against `KilledByNameIff`.
- An address hint just below KERNBASE with a huge size passes `my_mmap`'s range
  test: `WrapAccepted`, against `MmapKeepsIff`.
- `my_mmap` and `my_munmap` leave their array on MAP_FIXED without an address, on a
  hint for an empty table, and on the removal of a region from a full one:
  `LeavesArray`, against `MmapKeepsIff` and `UnmapKeepsIff`.
- `my_munmap` may leave a stale slot behind the live ones. A later `my_mmap` may then
  store its region outside the live slots, or refuse a request that the last gap
  holds, and a later `my_munmap` may accept the stale region: `StaleSlotLosesRegion`, against `MmapKeepsIff` and `UnmapKeepsIff`.

## Model

| member | source | states |
|---|---|---|
| LogModel.DecodeEncode | log.c:85-113 | reading the header block back gives the block numbers that were written to it |
| Layouts.HeaderLayout | log.c:34-37 | n and block[k] are written to and read from their offsets in struct logheader, and the other words of the block are left alone |
| LogModel.RecoverRestores | log.c:115-122 | recovery of a disk whose log holds a target state leaves exactly the target's home blocks, and a log that still recovers to them |
| LogSafety.HeadHolds | log.c:101-113 | once every logged block is copied, writing a header that names them makes recovery restore what readers of the cache see |
| LogSafety.StepKeeps | log.c:69-233 | every step of begin_op, log_write, end_op, commit, recovery and every crash keeps the invariant of header, cache and disk |
| LogHistory.CrashAtomicity | log.c:69-122 | after any run, at any point between two block writes, recovery yields exactly the initial home blocks with the committed groups applied, and recovering again changes nothing |
| LogHistory.RecoveryConverges | log.c:115-122 | recovery that crashes and restarts any number of times ends with the home blocks that were durable at the first crash |
| LogHistory.CrashLeavesPrefix | log.c:126-202 | a crash leaves the effect of a prefix of the groups that are ever committed |
| LogHistory.AllOrNothing | log.c:126-174 | of the writes of one operation all or none are durable, none while it is running, and they lie in one group |
| LogHistory.CommitIsDurable | log.c:145-202 | without a crash, an operation's writes are durable in full once the next commit has finished |
| LogHistory.ReadsLatest | log.c:205-233 | in every run, except while the machine is down or installing, bread of a home block gives the last write to it that no crash has lost, on top of the initial disk |
| LogHistory.CommitInstalls | log.c:69-82 | once a commit has finished, nothing is pinned and the disk itself holds what readers saw when it began |
| LogHistory.EndNeverPanics | log.c:145-153 | end_op never finds a commit in progress |
| LogReserve.ReservationFits | log.c:132-138 | in every run in which no operation logs more than MAXOPBLOCKS blocks, logged blocks are distinct, and they and all unused reservations together fit LOGSIZE |
| LogReserve.ReservationSuffices | log.c:213-219 | in such a run with log.size above LOGSIZE, the panic means a log of exactly LOGSIZE blocks, and every operation under way has used up its reservation |
| LogReserve.ShortLogPanics | log.c:218-219 | with log.size at most LOGSIZE, as mkfs.c sets it, some such run makes log_write panic for an operation with reservation left |
| LogReserve.AbsorbedWritePanics | log.c:218-232 | with a full log even a block that would be absorbed makes log_write panic |
| LogSleep.SleepersHaveReason | log.c:125-174 | in every run of any number of processes, whoever sleeps in begin_op still finds a commit or too little room, and an operation or commit is under way whose end wakes it: no wakeup is lost |
| LogSleep.IdleAdmits | log.c:125-141 | nobody sleeps while no operation and no commit is under way, and begin_op then admits |
| Log.LogDevice.constructor | log.c:53-66 | a device that has just been switched on stands at the start of a run, before recovery |
| Log.LogDevice.WriteLog | log.c:177-190 | the loop performs exactly the block writes of the machine's copy phase, in order |
| Log.LogDevice.WriteHead | log.c:101-113 | the header write is the machine's commit step, or its clearing step when n is 0 |
| Log.LogDevice.FillHead | log.c:105-110 | the buffer holds n and the n block numbers and keeps its other words |
| Log.LogDevice.InstallTrans | log.c:69-82 | the loop installs every logged block, one step of the run each |
| Log.LogDevice.ReadHead | log.c:85-96 | the header in memory is the one on disk, which is always valid |
| Log.LogDevice.RecoverFromLog | log.c:115-122 | the home blocks end up as recovery of the old disk defines them, through n + 2 steps of the run |
| Log.LogDevice.Commit | log.c:192-202 | a commit is 2n + 2 block writes of the run; it leaves the log empty, nothing pinned, and on disk every home block as readers of the cache saw it |
| Log.LogDevice.BeginOp | log.c:125-141 | admission if and only if no commit runs and n + (outstanding + 1) * MAXOPBLOCKS is at most LOGSIZE, with one more operation outstanding; otherwise nothing changes |
| Log.LogDevice.LogWrite | log.c:213-233 | the panic exactly when n has reached LOGSIZE or log.size - 1; otherwise the block is in the header once, and its data is pinned; with a log area above LOGSIZE the panic does not happen to an operation with reservation left, if all have kept to theirs |
| Log.LogDevice.EndOp | log.c:145-174 | one operation less is outstanding; the last to end runs the whole commit and leaves the disk as readers saw it, the others change nothing else |
| LogBuffers.StepKeeps | log.c:69-233 | when log and buffer cache run together on one disk, every step keeps the dirty buffers equal to the pinned blocks, every settled buffer equal to what the log's readers see, and what commit copies equal to what the log machine writes |
| LogBuffers.CacheIsView | bio.c:96-106 | in every such run a valid buffer with no change pending, so every unlocked one, holds what the log promises its readers: while operations run, the committed groups with the current writes on top |
| LogPins.BreadFindsBuffer | bio.c:61-93 | in every such run bread of a block finds a buffer if and only if the block is cached, or the pinned buffers and the clean ones in use are fewer than NBUF; outside install_trans the pinned ones are the n logged blocks |
| LogPins.CommitWithoutBuffer | log.c:177-190 | with log.size above LOGSIZE, a run in which nobody uses a buffer and write_log's first bread panics |
| CrashFs.WordsAgree | fs.c:389-391 | a block that the log sees as words and the file system as bytes holds the same 32-bit words |
| CrashFs.SameImage | fs.c:57-95 | the file system's invariant and all file contents depend only on the blocks from the first inode block on, so not on the log area |
| CrashFs.ValidAfterCrash | log.c:115-122 | if every group of operations takes a valid file system to a valid one, then after a crash at any point of any run recovery leaves a valid one: every block owned once and marked, inodes current, no holes |
| CrashFs.FilesAfterCrash | log.c:115-174 | under the same condition every file reads after the crash as it did at boot or at one earlier moment at which no operation was under way |
| CrashFs.SerialGroupsKeep | fs.c:407-511 | runs whose groups log what writei and itrunc calls log, one call after the other, take a valid file system to a valid one |
| CrashFs.GroupImage | log.c:213-233 | while operations run, however they interleave, readers see the image at the start with the logged blocks applied in the order of the log_write calls |
| CrashFs.OneCallIsSerial | fs.c:407-511 | a group that logs what one writei or itrunc call logs is such a group |
| FsModel.AddAddress | fs.c:378-381 | storing a freshly allocated block in a free inode slot keeps every block owned once and marked in use |
| FsModel.AddEntry | fs.c:385-395 | the same for an entry of an indirect block |
| FsModel.DataWrite | fs.c:498-504 | writing a data block moves no slot of any inode |
| FsModel.PutInodeReadBack | fs.c:220-236 | an inode written to its dinode reads back equal, and every other dinode reads as before |
| Layouts.DinodeLayout | fs.h:29-36 | iupdate puts size and addresses at their offsets in struct dinode i, counted from the sizes of the fields before them, and changes no other word of the disk |
| Layouts.DinodeRead | fs.h:29-36 | ilock reads size and addresses from the same offsets |
| FsModel.PutInodeKeeps | fs.c:220-236 | writing a dinode touches no data block and no slot of any file, and keeps ownership consistent |
| Fs.Volume.Balloc | fs.c:56-78 | the lowest free block is marked and zeroed and nothing else changes; failure exactly when no block is free |
| Fs.Volume.Bfree | fs.c:81-95 | exactly this block's bit is cleared, or the block was already free |
| Fs.Volume.Bmap | fs.c:372-400 | the block is mapped afterwards; only missing slots of this file are filled, a mapped block changes nothing, consistency holds, and the log_write calls are exactly as listed |
| FsEffects.NewIndirectRel | fs.c:385-397 | allocating the indirect block and then its first entry is one mapping step of the file |
| FsEffects.ProgressStep | fs.c:498-504 | one pass of writei's loop extends the written prefix by one chunk and changes no other byte of any file |
| FsEffects.WroteInPlace | fs.c:498-510 | a write within the file allocates nothing, so the inodes on disk stay current, and splices the content |
| FsEffects.WroteGrown | fs.c:498-510 | a write past the end leaves no hole, and size and block map reach the disk |
| FsEffects.PatchBytes | fs.c:499-503 | patching one file block changes only the patched bytes, of all files |
| Fs.Volume.Writei | fs.c:481-511 | the content is spliced at off and every other file's content is untouched; -1 exactly for an offset past the end or a file too long, in 32-bit arithmetic; a chunk of filewrite's size stays within the log's budget; the new image is the old one with exactly the log_write calls applied |
| Fs.Volume.Readi | fs.c:452-476 | the clipped slice of the content, with nothing allocated or changed |
| Fs.Volume.Itrunc | fs.c:407-435 | exactly the blocks the inode owned become free, the inode is empty on disk, other files keep their content; "freeing free block" does not occur; the blocks logged are the bitmap blocks over the inode's blocks and the inode block, and applying those writes gives the new image |
| FsTrunc.TruncConsistent | fs.c:407-435 | after all of an inode's blocks are freed, ownership is consistent for the rest |
| FsTrunc.TruncBudget | fs.c:407-435 | itrunc keeps to one operation's reservation if and only if at most nine bitmap blocks cover the inode's blocks |
| FsImage.TruncExceeds | fs.c:407-435 | a valid volume with room for a log of 31 blocks, whose inode 1 has ten blocks under ten bitmap blocks |
| FsImage.FreshValid | mkfs.c:238-251 | for every layout the volume with the metadata blocks marked and no files is valid |
| FsImage.MkfsValid | mkfs.c:91-115 | mkfs's own layout is one of them, with exactly the first 59 blocks in use |
| Fs.ChunkBudget | file.c:129-135 | a chunk of at most 1536 bytes at any offset logs at most MAXOPBLOCKS distinct blocks: 4 data, 3 bitmap, the indirect block, its bitmap and the inode |
| FsEffects.TallyStep | fs.c:372-400 | each mapped block adds to the transaction at most itself, its bitmap block, and once the indirect block with its bitmap block |
| Fs.Volume.Filewrite | file.c:117-160 | the content is spliced with the bytes written, by as many transactions as needed, each within MAXOPBLOCKS blocks; -1 exactly when a chunk is refused |
| HeapModel.RequestExactIff | umalloc.c:52-69 | the block holds the request and sbrk is asked for exactly its size if and only if nbytes is at most 0x7ffffff0 |
| HeapModel.RequestWraps | umalloc.c:69 | a request for almost all memory is rounded to one unit |
| HeapModel.InsertKeeps | umalloc.c:30-43 | inserting a block keeps the free list in address order with no two blocks touching, and the sum of units grows by the block's |
| HeapModel.InsertCovers | umalloc.c:33-42 | merging neighbours neither loses nor gains a byte |
| HeapRun.FindFirst | umalloc.c:74-89 | the search stops at the first block that fits, going round from freep |
| HeapRun.FreeKeeps | umalloc.c:24-44 | free keeps order, disjointness of all free and live blocks, freep on the list, and the sum of units |
| HeapRun.TakeKeeps | umalloc.c:75-85 | cutting a block off the tail of a free one, or unlinking it, keeps the same and hands out a block not in use before |
| HeapRun.GrowFinds | umalloc.c:86-88 | after morecore the search always succeeds, so one call is enough |
| HeapRun.MallocKeeps | umalloc.c:63-90 | malloc hands out a new block of exactly the rounded size, or fails and changes nothing, exactly when nothing fits and sbrk fails |
| HeapRun.MallocPlaces | umalloc.c:69-89 | the block is the end of the first free one that is large enough, going round from freep, on the list as it was or as morecore has grown it; freep becomes that block's predecessor |
| HeapRun.UnitsConserved | umalloc.c:24-90 | in every run free units plus live units equal the units obtained from sbrk |
| HeapRun.OwnedIsGranted | umalloc.c:24-90 | in every run a byte belongs to a free or live block exactly when sbrk has granted it |
| HeapRun.NoOverlap | umalloc.c:24-90 | in every run no byte belongs to two blocks, free or live |
| HeapRun.LiveUntilReleased | umalloc.c:24-90 | a block keeps its place and size until it is freed itself, whatever else happens |
| HeapRun.FullyCoalesced | umalloc.c:33-42 | when nothing is in use, adjacent granted bytes lie in one free block |
| Umalloc.StopsAtPos | umalloc.c:30-32 | free's two loop tests together hold at exactly one position of the circle, the block's predecessor |
| Umalloc.ChainJoin | umalloc.c:33-42 | relinking the headers in memory as free does leaves the merged list in memory |
| Umalloc.Allocator.FindPlace | umalloc.c:30-32 | the pointer-chasing loop ends, at the predecessor in address order |
| Umalloc.Allocator.Free | umalloc.c:24-44 | the headers in memory represent the heap after the block is inserted and merged, and freep is the last free block that starts below it |
| Umalloc.Allocator.Morecore | umalloc.c:46-61 | one sbrk call of at least 4096 units, which enter the list through free; live blocks stay |
| Umalloc.Allocator.Malloc | umalloc.c:63-90 | the circular search ends; the block is cut off the end of the first free one that fits, going round from freep; sbrk is called once if and only if nothing on the list fits, and the call fails if and only if sbrk then does |
| PipeModel.FullIff | pipe.c:85-114 | the counter tests for full and empty are right even after the 32-bit counters wrap |
| PipeModel.PutKeeps | pipe.c:93 | depositing a byte keeps the ring equal to the unread end of the stream |
| PipeModel.DropKeeps | pipe.c:116 | taking a byte returns the oldest unread one and keeps the ring |
| PipeSafety.StepKeeps | pipe.c:60-121 | every step of any interleaving keeps the locks, the streams and, exactly when it is not the lossy exit, every sleeper's reason to sleep |
| PipeSafety.NoLostWakeup | proc.c:427-484 | with the pipe lock free, a sleeping reader means an empty pipe with its write end open, a sleeping writer a full one with its read end open, and never both, for any number of processes |
| PipeSafety.SleepersIff | pipe.c:85-91 | a run has no lost wakeup if and only if no killed writer leaves a full pipe while a reader sleeps |
| PipeSafety.KilledWriterLosesWakeup | pipe.c:86-89 | a run that ends with a full pipe and a reader asleep on it |
| PipeSafety.FifoStream | pipe.c:79-121 | in every run the bytes read are a prefix of the bytes written, the ring holds the rest, each writer's bytes are in the stream in order, and a reader returns the last bytes taken |
| PipeSafety.StreamsGrow | pipe.c:79-121 | bytes once written or read stay where they are in the streams |
| PipeResults.ReadReturns | pipe.c:101-121 | in every run piperead returns -1 only to a killed process that finds the pipe empty with a writer left; otherwise it returns the oldest bytes unread when its wait ended, n of them or as many as there were |
| PipeResults.ReadTakes | pipe.c:113-117 | at every point of its copy loop a reader has taken exactly the oldest of those bytes, and nobody else has read or written meanwhile |
| PipeResults.WriteReturns | pipe.c:79-98 | in every run pipewrite returns -1 only with the pipe full and no reader left or the writer killed; otherwise all its bytes are in the stream in order |
| PipeResults.ReaderDecides | pipe.c:106-112 | at its test a reader goes to sleep exactly on an empty pipe with a writer left, unless killed, and then returns -1; otherwise it copies |
| PipeResults.WriterDecides | pipe.c:84-94 | a writer deposits its next byte exactly while there is room; on a full pipe it returns -1 exactly without a reader or when killed, and otherwise wakes readers and sleeps |
| Pipe.PipeBuffer.Deposit | pipe.c:84-94 | bytes are appended to the stream until all are in or the ring is full |
| Pipe.PipeBuffer.Collect | pipe.c:113-117 | the oldest unread bytes of the stream, n of them or as many as there are |
| Pipe.PipeBuffer.CloseEnd | pipe.c:63-69 | exactly the named end is closed |
| ProcSafety.StepKeeps | proc.c:73-322 | every step of fork, exit, wait, sleep, wakeup, kill and scheduling keeps the process table's invariant |
| ProcSafety.ExitWait | proc.c:262-275 | after exit, whoever still sleeps in wait has no zombie among its own or inherited children |
| ProcSafety.SleepingWaiters | proc.c:283-321 | in every reachable state a process asleep in wait has a child, and none of its children is a zombie |
| ProcSafety.ParentsAlive | proc.c:265-272 | in every reachable state every parent is alive, and only init has none |
| ProcSafety.ReapedOnce | proc.c:292-311 | no pid is returned by two waits; an exited one not yet returned is a zombie with a parent |
| ProcSafety.ForkedChild | proc.c:182-228 | when fork finishes, its child is runnable, has the caller for a parent and a pid that no other slot in use has, and no other slot has changed |
| ProcTable.Ptable.Wakeup1 | proc.c:467-475 | the scan wakes exactly the sleepers on the channel |
| ProcTable.Ptable.Abandon | proc.c:265-272 | the loop passes every child to init and wakes init if one of them is a zombie |
| ProcTable.Ptable.Exit | proc.c:234-278 | the process is a zombie, its children are init's, and woken are exactly its parent if asleep in wait, and init if asleep in wait and one of the children is a zombie; nothing else changes |
| ProcTable.Ptable.Wait | proc.c:282-322 | one scan reaps the first zombie child and frees its slot, or fails exactly without children or when killed and without a zombie, or sleeps with a child left and none of them a zombie; nothing else changes |
| ProcTable.Ptable.AllocProc | proc.c:73-92 | the first unused slot becomes an embryo with the next pid, if there is one, and no other slot but the caller's changes |
| ProcTable.Ptable.Kill | proc.c:489-507 | the first slot with the pid is marked and, if asleep on any channel, runnable; its other fields and every other slot are unchanged; failure exactly when there is none |
| ProcKill.KilledByNameIff | proc.c:489-507 | throughout a run every killed process has been hit by a kill of its own pid if and only if no fork of the run takes a slot that is marked killed |
| ProcKill.BornKilled | proc.c:73-92 | a run of five steps after which a new process is killed and no kill named it |
| ProcSleep.KillWakes | proc.c:489-507 | in every run a kill leaves the process it hits marked and awake, whatever channel it slept on |
| ProcSleep.SleepsAgain | proc.c:428-463 | a process hit by a kill is asleep later only if it has called sleep or wait again |
| ProcSleep.WakeupWakes | proc.c:479-484 | after a wakeup nobody sleeps on its channel |
| ProcSleep.SleepLasts | proc.c:428-484 | a process that goes to sleep on a channel is asleep on it, under the same pid, until the first wakeup of that channel or kill of that pid |
| ProcSleep.WokenBy | proc.c:467-507 | who sleeps on a channel other than wait's wakes only by a wakeup of that channel or a kill of its pid |
| ProcSleep.Switches | proc.c:333-404 | the scheduler runs a runnable process, yield makes a running one runnable, and neither changes another slot |
| VmBits.AddressFields | mmu.h:65-80 | PDX, PTX and the offset of a 32-bit word are the directory index and table index of its page number, and the remainder |
| VmBits.EntryFields | mmu.h:93-101 | the word stored for a page-aligned address and permission bits decodes to the frame and flags of the model, and 0 to an absent entry |
| VmBits.Permissions | mmu.h:93-101 | the model's write and user permissions of a present entry are bits PTE_W and PTE_U of its word |
| VmModel.Partition | kalloc.c:60-95 | every managed frame has exactly one use: free, directory, table, user page or otherwise handed out |
| VmTables.AddKeeps | vm.c:45-52 | adding a blank table under a directory entry with PTE_W and PTE_U changes no mapping of any address space |
| VmTables.SetKeeps | vm.c:69-73 | storing one entry changes the flat map of one page only and keeps every frame used once |
| VmTables.ClearKeeps | vm.c:269-275 | clearing an entry removes one page from the flat map and gives up its frame |
| VmModel.AccessIs | mmu.h:93-101 | as every directory entry carries PTE_W and PTE_U, what both levels together allow a process on a page is what its table entry says |
| VmEffects.NoTable | vm.c:266-268 | a missing table means that no page up to the next directory entry is mapped |
| VmEffects.AllocUndo | vm.c:235-246 | undoing a partial allocuvm leaves the flat map as before, and of the frames taken only page tables stay out of the free list |
| VmSpaces.GoneIff | vm.c:283-298 | freevm returns everything an address space held if and only if no page is mapped from MMAPBASE on |
| VmSpaces.MappedPageLost | vm.c:283-298 | a frame mapped at MMAPBASE in a directory from setupkvm ends in nobody's hands after freevm, and everything else is as before setupkvm |
| Vm.PhysMem.FreeVmLosesPage | vm.c:283-298 | with 67 free frames the calls of setupkvm, kalloc, mappages and freevm succeed and lose that frame |
| VmSpaces.BuildUndo | vm.c:342-344 | freeing a space that was being built restores every frame's owner, every map and all data in use |
| VmSpaces.BuildLost | vm.c:342-344 | freeing a space with pages from MMAPBASE on loses those pages' frames and nothing else |
| VmSpaces.KmapIsOk | vm.c:105-115 | the kernel's regions do not overlap, so mapping them cannot meet the remap panic |
| VmNeeds.KernelTableCount | vm.c:105-115 | the kernel's regions take exactly 64 tables, all in the upper half of the directory |
| Vm.KernelClosed | vm.c:105-115 | in a directory from setupkvm no page above KERNBASE is open to user code, and of those mapped exactly the kernel's text is read-only |
| Vm.PhysMem.Kalloc | kalloc.c:82-95 | the first free frame, taken off the list, or 0 exactly when there is none |
| Vm.PhysMem.Kfree | kalloc.c:59-77 | the frame heads the free list and holds junk; nothing else changes |
| Vm.PhysMem.FreeRange | kalloc.c:46-53 | exactly the whole pages of the range become free |
| Vm.PhysMem.Walk | vm.c:35-55 | the table of the page, with at most a new blank table added, under a directory entry with PTE_W and PTE_U; failure exactly when it is missing and may not or cannot be allocated |
| Vm.PhysMem.MapPages | vm.c:60-80 | the first n pages of the range, none of which was mapped, map to consecutive frames with the access that perm gives at both levels, and nothing else changes; the call succeeds if and only if that is the whole range, then having taken one frame for each directory entry without a table; it fails only with too few frames for those, or panics at a page that is mapped already |
| Vm.PhysMem.DeallocUvm | vm.c:255-279 | exactly the present pages from newsz rounded up to oldsz are unmapped and their frames freed, despite the skips; the loop ends, at the address the step function gives |
| VmLoop.LoopEndsIff | vm.c:264-277 | in 32-bit arithmetic the loop, started below oldsz, ends if and only if oldsz is at most 0xffc00000, or at most 0xfffff000 with a table in the last directory entry |
| VmLoop.KernelTables | vm.c:105-136 | a directory from setupkvm has that table, so there the loop ends if and only if oldsz is at most 0xfffff000 |
| Vm.PhysMem.AllocUvm | vm.c:221-249 | the new pages are zeroed, on frames that were free, and open to user code for writing; over a range with no page mapped there is no panic, and a failure leaves the flat map unchanged and no data frame lost; failure if and only if the free list is shorter than the pages and missing tables |
| Vm.PhysMem.FreeVm | vm.c:283-298 | directory, tables and pages below MMAPBASE become free, other address spaces are untouched |
| Vm.PhysMem.SetupKvm | vm.c:118-136 | the new directory maps exactly the kernel's regions with their access, or everything is as before; failure if and only if the free list is shorter than the directory and its tables |
| Vm.PhysMem.CopyUvm | vm.c:315-345 | the copy has equal contents, flags and access on frames that were free; a failure below MMAPBASE leaves everything as before, above it loses only frames; failure if and only if the free list is shorter than directory, tables and pages; the panic means that a page of the source is missing |
| BioSafety.StepKeeps | bio.c:61-141 | every step keeps reference counts, lock holders, one buffer per block, and agreement with the disk |
| BioSafety.CacheAgrees | bio.c:61-141 | in every run the list names every buffer once, no block has two buffers, and a valid, clean, unlocked buffer equals its disk block |
| BioSafety.RecyclesOldest | bio.c:78-91 | in every run a recycled buffer is unreferenced, unlocked and clean, and of all such buffers the last brelse that left it unreferenced is the earliest |
| BioSafety.SortedByRelease | bio.c:128-138 | at every point of every run the list is sorted by the step at which each buffer was last left unreferenced, the latest first, and buffers never used stay in their first order behind |
| BioSafety.PanicsWhenAllUsed | bio.c:61-93 | bget panics if and only if the block is not cached and every buffer is in use or dirty |
| BioSafety.MoveKeeps | bio.c:130-138 | moving a released buffer to the front keeps the list naming every buffer once |
| Bio.Relink | bio.c:132-137 | the six pointer stores of brelse turn the ring into the ring with the buffer moved to the front |
| Bio.Bcache.Binit | bio.c:38-56 | the ring of all buffers, the last one linked first |
| Bio.Bcache.ScanForward | bio.c:69-76 | the first buffer of the list that holds the block |
| Bio.Bcache.ScanBackward | bio.c:81-91 | the last idle buffer of the list |
| Bio.Bcache.Bget | bio.c:61-93 | the cached buffer, referenced once more, or else the last idle one of the list, given the block's number and cleared flags; the list and every other buffer stay as they are |
| Bio.Bcache.Iderw | memide.c:38-60 | a dirty buffer is written to its block and becomes clean, an invalid one is read from it; the four panics, exactly when a guard fails, change nothing |
| Bio.Bcache.Fetch | bio.c:96-106 | the buffer is valid afterwards, and read from disk only if it was not; a panic exactly for an invalid buffer of a block that is not on the disk |
| Bio.Bcache.Bwrite | bio.c:109-116 | the block on disk equals the buffer, which is clean; the panic exactly when the caller does not hold the buffer |
| Bio.Bcache.Brelse | bio.c:128-138 | one reference less; when none is left the buffer is at the front and the others keep their order, otherwise the list is as before |
| MmapSafety.SetupEffect | sys_mmap.c:127-140 | with room at its place the region is inserted; the bound check fails only at the end of the table, where nothing was shifted |
| MmapSafety.FindEffect | sys_mmap.c:164-196 | on live regions in order with anything in the slots behind them: success if and only if some gap holds the request, and then in the lowest one, unless none but the last may hold it and the slot behind the last region is stale; the region is stored outside the live slots if and only if moreover there is room behind the stale one |
| MmapSafety.CheckGap | sys_mmap.c:143-161 | between regions, a hint is taken if and only if it lies strictly inside a gap that is long enough |
| MmapSafety.CheckLast | sys_mmap.c:143-148 | past the last region, a hint is taken if and only if it ends below KERNBASE |
| MmapSafety.HintMeans | sys_mmap.c:322-336 | the range test on hints says what it means except for the hints that wrap |
| MmapSafety.WrapAccepted | sys_mmap.c:332-342 | a wrapping hint is accepted at KERNBASE |
| MmapSafety.FixedPlace | sys_mmap.c:318-327 | a region mapped with MAP_FIXED is inserted at the address asked for |
| MmapSafety.MmapKeepsIff | sys_mmap.c:295-361 | on any table whose live regions are in order, my_mmap stays within the array, succeeds if and only if the size is positive, the table not full, the address acceptable and either taken or, without MAP_FIXED, some gap long enough, and then adds one region at the rounded address or else at the start of the lowest such gap; all this if and only if the call is not MAP_FIXED without an address, an accepted hint on an empty table, one that wraps, or a search that a stale slot spoils |
| MmapUnmap.UnmapFinds | sys_mmap.c:364-381 | my_munmap finds a live region exactly at its start, and accepts any other address exactly when it finds a stale slot there |
| MmapUnmap.PartialKeeps | sys_mmap.c:415-418 | cutting off the front keeps the region's end and the table in order |
| MmapUnmap.RemovedKeeps | sys_mmap.c:407-414 | the left shift leaves the other live regions in order |
| MmapUnmap.UnmapKeepsIff | sys_mmap.c:364-420 | on any table whose live regions are in order, my_munmap removes or cuts the live region at the address, or refuses, if and only if it finds no stale slot and, to remove a whole region, an empty slot behind it |
| MmapUnmap.LeavesArray | sys_mmap.c:314-414 | three calls on tables in order that read or write outside the array |
| MmapUnmap.StaleSlotLosesRegion | sys_mmap.c:407-414 | six calls after which a new region is in no live slot and a removed one is, and five after which total_mmaps is -1 |
| MmapUnmap.RegionsDisjoint | sys_mmap.c:295-420 | in every run of calls that meet these two conditions the regions are sorted, aligned, disjoint after rounding and between MMAPBASE and KERNBASE |
| MmapUnmap.LiveUntilUnmapped | sys_mmap.c:295-420 | in every such run a region keeps its place, size and information until a my_munmap names its start |
| MmapArea.Maps.SetupMmapArr | sys_mmap.c:127-140 | the right shift in place, and the slot or -1 |
| MmapArea.Maps.ScanHint | sys_mmap.c:149-160 | the region after which the hint fits, if any |
| MmapArea.Maps.ScanGaps | sys_mmap.c:181-189 | where the search for a gap stops |
| MmapArea.Maps.MyMmap | sys_mmap.c:314-360 | the table and slot that the specification of my_mmap gives, and whether the call stays within the array; when it keeps that promise, it succeeds exactly when it should and puts the region where it should |
| MmapArea.Maps.MyMunmap | sys_mmap.c:364-420 | the table that the specification of my_munmap gives, with the left shift in place, and whether the call stays within the array; without stale slots the live region at the address is removed or cut, or the call refused |
| ShellGrammar.LexText | sh.c:265-308 | a text is read as its tokens however they are spaced, if words are apart from words and > from > |
| ShellGrammar.LexCovers | sh.c:265-308 | every text is tokens spaced in such a way, so this determines its tokens |
| ShellAccepts.Accepts | sh.c:327-446 | parsecmd accepts a text and gives a command if and only if its tokens are a line of the grammar that denotes this command: every command line is accepted and nothing else |
| ShellAccepts.AnySpacing | sh.c:265-446 | every line of the grammar, with any spaces between its tokens, parses to the command it denotes |
| ShellAccepts.SimpleComplete | sh.c:415-446 | words and redirections in any order and spacing are the exec of the words in order with all the redirections round it, the first innermost |
| ShellAccepts.ArgsMean | sh.c:429-445 | parseexec's loop succeeds if and only if words and redirections, fewer than ten of them words, come next up to one of the symbols that end a command, and then none of them is lost |
| ShellModel.ParseLine | sh.c:344-359 | the parser is total: what remains is never longer than the input |
| ShellTrip.RoundTrip | sh.c:266-446 | parsing the canonical text of any command with proper words and at most nine arguments gives that command |
| ShellTrip.ParsePrintParse | sh.c:327-342 | whatever was parsed, its canonical text parses to the same command |
| ShellTrip.LineWf | sh.c:344-446 | every parsed command has words without spaces and symbols, and at most nine arguments |
| ShellTrip.AppendIsWrite | sh.c:384-394 | `>>` asks for the same redirection as `>` |
| Shell.Parser.PeekTok | sh.c:310-320 | skips spaces and looks at the next character |
| Shell.Parser.GetToken | sh.c:265-308 | the next token, the positions of its ends, and the position behind it and its spaces |
| Shell.Parser.ReadRedirs | sh.c:374-397 | the loop reads the redirections that the grammar defines |
| Shell.Parser.ReadArgs | sh.c:429-445 | the loop reads words and redirections in any order and keeps them all, with those read before; it refuses a tenth argument |
| Shell.Parser.ReadExec | sh.c:415-446 | a block or a simple command |
| Shell.Parser.ReadBlock | sh.c:399-413 | a line in parentheses with its redirections |
| Shell.Parser.ReadPipe | sh.c:361-372 | a pipeline, grouped to the right |
| Shell.Parser.ReadLine | sh.c:344-359 | a list with its background marks |
| Shell.Parser.ReadCmd | sh.c:327-342 | a command if and only if the text is a line of the grammar, and then the one it denotes; afterwards every word of it is the C string at its start in the buffer |
| Shell.NulTerminate | sh.c:450-493 | a NUL is stored exactly at the ends of the command's words |
| ShellTree.WordsTerminated | sh.c:450-493 | no such NUL falls inside a word, so each word reads as its token |
| Grep.HereMeans | grep.c:85-96 | matching here is the existence of cut positions, one per pattern item, that each item accepts |
| Grep.StarMeans | grep.c:99-106 | the same for a starred character, as some number of repetitions |
| Grep.Match | grep.c:72-82 | 1 if and only if the pattern matches at some position, or at the start after `^` |
| Grep.MatchHere | grep.c:85-96 | true if and only if the pattern matches at the position |
| Grep.MatchStar | grep.c:99-106 | the loop is the search over repetitions |

## Left out

- Boot code, device drivers (ide.c, uart.c, lapic.c, ioapic.c, kbd.c, console.c) and assembly: hardware effects without a property of this kind.
- Spinlock memory ordering: critical sections are taken to be atomic.
- Directories, path lookup, the inode cache, link counts and system call argument fetching.
- pagecache.c, filling of mapped pages, file write-back in my_munmap, `copy_maps`, `delete_mmaps`, and the `ref_count` and `stored_size` fields of a region.
- copyout, uva2ka, loaduvm, inituvm and clearpteu of vm.c, and `runcmd` of sh.c: they would only add easy members.
- Device files: the model's inodes have no type, so the T_DEV branches of readi and writei do not appear.
- Liveness: nothing is said about a process being scheduled or a sleeping process being woken in time.
- Fs.Volume.Writei: does not say what the volume holds after balloc's panic, except that no block is free.
- Fs.Volume.Filewrite: does not model the pipe and page-cache branches of file.c.
- Fs.Volume.Readi: does not model the T_DEV branch; the model's inodes have no type.
- Umalloc.Allocator.Malloc: a request that sbrk would receive as another number than asked for is excluded when the list does not hold it; `SbrkExactIff` and `RequestExactIff` say which those are.
- Log.LogDevice.BeginOp: sleeping appears as a call that is not admitted; who wakes whom is in `LogSleep`.
- LogSleep.SleepersHaveReason: going to sleep is one step with the test, as proc.c's sleep makes it under log.lock; `PipeModel` takes those steps apart.
- Log.LogDevice.WriteLog: bread is taken to find a buffer; `LogPins.BreadFindsBuffer` says when it does.
- Log.LogDevice.Commit: the same as for WriteLog.
- Log.LogDevice.EndOp: the same as for WriteLog.
- CrashFs.ValidAfterCrash: that a group of operations keeps the file system valid is a hypothesis, met by groups that log what writei and itrunc calls log one after the other (`SerialGroupsKeep`), so by groups of one such call; that inode locks make concurrent calls so is not modelled.
- CrashFs.FilesAfterCrash: the same hypothesis.
- CrashFs.SerialGroupsKeep: the same about concurrent calls.
- MmapSafety.MmapKeepsIff: the tests of flags, protection and file mode that precede the table are taken to have passed.
- MmapArea.Maps.MyMunmap: freeing of the pages and file write-back are not modelled, and nothing is said about the table after a call that leaves the array.
- MmapArea.Maps.MyMmap: a table whose live regions are out of order, as a call that breaks its promise leaves it, is excluded, and nothing is said about the table after a call that leaves the array.
- Vm.PhysMem.DeallocUvm: sizes above KERNBASE are excluded, because kernel pages would be freed; `VmLoop.LoopEndsIff` covers the loop for all sizes.
- Vm.PhysMem.AllocUvm: after a failure over a range in which some page was mapped already, only the invariant is promised.
- Vm.PhysMem.CopyUvm: a size above KERNBASE is excluded; allocuvm never gives one to a process.
- Vm.PhysMem.Kfree: frames are numbers, so the alignment and range panics do not appear.
- Pipe.PipeBuffer.CloseEnd: the wakeup belongs to the machine of `PipeModel`, and freeing the pipe's page is not modelled.
- ProcTable.Ptable.Exit: closing files, unmapping regions and giving up the current directory are not modelled.
- ProcTable.Ptable.AllocProc: the kernel stack and its allocation failure are not modelled.
- ProcSafety.StepKeeps: pids do not wrap around, and open files, memory and kernel stacks of a process are not part of its slot.
- PipeSafety.NoLostWakeup: an end is closed only when no call on it is in progress, which file.c's reference counts ensure.
- BioSafety.CacheAgrees: a holder that changes a buffer calls log_write or bwrite before brelse.
