# Proofs about xv6's lab kernel and its companions

A Dafny model of the hard parts of the lab6 xv6 kernel (write-ahead log, buffer cache, copy-on-write
fork, file blocks, user heap, process table, pipes), of its shell parser and `grep` matcher, of the SHA-1
of `lab8/lab8.patch` and of the bounded request queue of `lab4/server-mt.cpp`. `dafny verify
dfyconfig.toml` verifies everything.

| file | module | what it is about |
|---|---|---|
| `options.dfy`, `params.dfy`, `blocks.dfy` | Options, Params, Blocks | shared: optional results, sizes, disk blocks and the 32-bit words in them |
| `redo_log.dfy` | RedoLog | disk images that a crash can leave during commit and recovery, and what recovery makes of them |
| `group_commit.dfy` | GroupCommit | begin_op, log_write, end_op as interleaved steps |
| `log.dfy` | Log | `struct log` as a class; its methods produce the images and steps of the two modules above |
| `frames.dfy`, `cow.dfy` | Frames, Cow | page frames, reference counts, page tables; the kernel routines over them as a class |
| `cow_refinement.dfy` | CowRefinement | whole runs of processes under copy-on-write against eager copying |
| `bitmap.dfy`, `dinode.dfy`, `file_state.dfy`, `file_contents.dfy`, `transaction_size.dfy`, `file_system.dfy`, `open_file.dfy` | Bitmap, Dinode, FileState, FileContents, TransactionSize, FileSystem, OpenFile | free map, inodes, file bytes, what a write logs, and the routines as classes |
| `buffer_list.dfy`, `cache_state.dfy`, `buffer_cache.dfy` | BufferList, CacheState, BufferCache | the MRU list, the cache as a state machine, and the routines as a class |
| `crash_files.dfy` | CrashFiles | the file system on top of the log: the files that a disk holds after crashes |
| `heap.dfy` | Heap | the Kernighan-Ritchie free list and the allocator class over it |
| `process_state.dfy`, `process_table.dfy` | ProcessState, ProcessTable | the process table as a state machine, and the routines as loops over the table |
| `pipe.dfy`, `pipe_system.dfy` | Pipe, PipeSystem | the ring buffer with 32-bit counters, and readers and writers on it |
| `sleep_wakeup.dfy` | SleepWakeup | sleep and wakeup, instruction by instruction with both locks, against the single steps that the other modules take them for |
| `shell_grammar.dfy`, `shell_lines.dfy`, `shell_parser.dfy` | ShellGrammar, ShellLines, ShellParser | what each parsing routine means and printing; a grammar of lines that knows nothing of the parser; the parser that advances in the line |
| `sha1_standard.dfy`, `sha1.dfy` | Sha1Standard, Sha1 | FIPS PUB 180-1, and the patch's code |
| `regex.dfy` | Regex | regular languages and the matcher |
| `bounded_queue.dfy` | BoundedQueue | the queue monitor of the thread-pool server |

Conventions. A kernel structure that routines update in place is a class; a function of its fields gives
its value, and each method states the whole new value as a function or relation of the old one. Lemmas
about those values carry the invariants. Concurrency is a state machine whose steps are the sections that
run under one lock (`SleepWakeup.SleepIsAtomic` proves that `sleep` may be taken for such a step);
theorems about runs quantify over all lists of actions. A `panic` is either a
precondition that the callers are proved to meet or an outcome that the contract accounts for
(`Option.None` where memory or disk runs out).

Where comments or constants in the repository promise more than the code does, the model follows the code:

* `log_write` can panic with the shipped sizes: `mkfs.c:25,100` gives the log LOGSIZE blocks while
  `log.c:216` wants one more, and `begin_op` counts calls, not distinct blocks. `GroupCommit.PanicFreeIff`
  says exactly when it cannot.
* `log_write` makes its tests before it takes the lock (`log.c:216-221`). No interleaving overfills the
  header (`GroupCommit.AppendHasRoom`), but two calls that pass the test together can log one block more
  than the log area holds; `GroupCommit.AreaSafeIff` says for which area sizes they cannot.
* The page-fault test at `trap.c:88` asks for a page table entry, not for a present one.
  `Cow.FaultKeepsAccountingIff` says that a fault which does not panic keeps the reference counts exact if
  and only if the page is present or has no page table; `Cow.AbsentFaultExample` is a fault that breaks them.
* `copyout` writes through shared frames. `Cow.KernelWriteIsPrivateIff` says exactly when no other address
  space sees such a write.
* When `mappages` fails in `allocuvm` (`vm.c:242-248`) the new frame's count is already 1, so `kfree` keeps
  it. `Cow.Kernel.Allocuvm` says of the state before the call when that happens: exactly when the last free
  frame goes to a page whose table is missing. The accounting is proved for counts that are exact but for
  such `leaked` frames.
* A `setupkvm` that runs out of frames gives up without freeing its directory and tables (`vm.c:133-141`):
  `Cow.Kernel.Setupkvm` says that then, and only then, it fails, and that every frame that was free is lost.
* `growproc` to size zero frees the pages, answers -1 and keeps the old size (`proc.c:129-130`).
  `CowRefinement.DeallocStep` says that a negative `sbrk` refines eager copying if and only if the new size
  is not zero or the old one is; `CowRefinement.SbrkToZeroExample` is one that does not.
* A killed writer that fills the pipe returns without waking readers (`pipe.c:85-88`):
  `PipeSystem.StepForgetsIff` shows that this is the one step that leaves a sleeper behind.
* Signalling only at the empty edge can leave a worker waiting beside a queue that is not empty, though it
  cannot deadlock. `BoundedQueue.NoIdleIff`: it never does exactly with a queue of one place or one worker.
* `SHA1Update`'s test `(j + len) > 63` is in 32 bits; `Sha1.LengthTest` says for which lengths it is right.

## Model

| member | source | states |
|---|---|---|
| RedoLog.HeaderRoundTrip | lab6/xv6-public/log.c:86-112 | read_head after write_head gives the same block list, whatever the header block held before |
| RedoLog.RecoveryIsIdempotent | lab6/xv6-public/log.c:116-122 | a crash after any write of recovery leaves a disk whose own recovery yields the same home blocks |
| RedoLog.CrashedRecoveriesRecover | lab6/xv6-public/log.c:69-122 | so does any number of crashed recoveries, each crashing anywhere |
| RedoLog.HeaderWriteCommits | lab6/xv6-public/log.c:98-112 | the header write is the commit point: right after it recovery yields exactly the new contents |
| RedoLog.CrashAtomicity | lab6/xv6-public/log.c:175-200 | crash after any block write of commit, then any number of crashed recoveries: completed recovery leaves all home blocks old, or all new, new exactly when the header write was reached |
| RedoLog.HistoryAtomicity | lab6/xv6-public/log.c:53-67 | over whole histories of transactions, crashes and crashed recoveries the home blocks are those of the transactions whose header was written, in order |
| GroupCommit.CommitIsolation | lab6/xv6-public/log.c:125-231 | over all interleavings, log_write's tests and its append being separate steps, a commit runs alone, the header never overflows or repeats a block, and an operation's blocks are all in the transaction open when it began |
| GroupCommit.BeginAdmitsIff | lab6/xv6-public/log.c:125-142 | in every reachable state begin_op admits a process exactly when no commit runs and the log can hold, beside what is logged, MAXOPBLOCKS for each operation inside and for this one; else it sleeps |
| GroupCommit.SleepersWillBeWoken | lab6/xv6-public/log.c:125-162 | while a process sleeps in begin_op a commit runs or the log has no such place for it, and an operation or commit is under way that will wake it |
| GroupCommit.AppendHasRoom | lab6/xv6-public/log.c:216-230 | whatever others have logged since the tests, an append within the limit finds a free slot in the header |
| GroupCommit.PanicFreeIff | lab6/xv6-public/log.c:211-231 | no run panics in log_write exactly when operations keep to MAXOPBLOCKS calls and the log has more than LOGSIZE blocks |
| GroupCommit.AreaSafeIff | lab6/xv6-public/log.c:216-221 | in every interleaving the logged blocks fit the log area behind its header exactly when the area has more than LOGSIZE blocks, or one |
| Log.Log.constructor | lab6/xv6-public/log.c:53-67 | initlog recovers: disk and cache view are the recovered disk, and every intermediate disk is an image of the recovery model |
| Log.Log.WriteHead | lab6/xv6-public/log.c:101-112 | one disk write, which stores exactly the in-memory header |
| Log.Log.InstallTrans | lab6/xv6-public/log.c:69-82 | the disk and each intermediate disk are those of copying the logged blocks home in order |
| Log.Log.Commit | lab6/xv6-public/log.c:190-200 | the disk ends as the cache view, and the disks in between are exactly the images that the crash theorem quantifies over |
| Log.Log.TryBeginOp | lab6/xv6-public/log.c:125-142 | admits exactly when no commit runs and what is logged and MAXOPBLOCKS for every operation with this one fit LOGSIZE, and counts the operation |
| Log.Log.LogWrite | lab6/xv6-public/log.c:211-231 | appends the block unless absorbed, or panics, by the same tests as the state machine |
| Log.Log.EndOp | lab6/xv6-public/log.c:145-172 | the last operation out commits and reopens the log; the panic happens only while committing |
| Frames.TakeKeepsInv | lab6/xv6-public/kalloc.c:126-141 | taking a frame from the free list keeps counts, list and freepg_cnt consistent |
| Frames.UnmapKeepsInv | lab6/xv6-public/vm.c:270-282 | removing an entry and its count keeps every frame's count equal to its entries, freeing the frame with the last one |
| Frames.ShareKeepsInv | lab6/xv6-public/vm.c:363-380 | naming a frame from a second, read-only entry keeps the accounting |
| Frames.CopyKeepsInv | lab6/xv6-public/vm.c:403-423 | a fault's private copy keeps the accounting |
| Frames.LeakedIsUnmapped | lab6/xv6-public/vm.c:242-248 | a frame lost by a failed allocuvm is named by no entry |
| Frames.EveryFrame | lab6/xv6-public/kalloc.c:98-141 | every frame past the kernel is free, a directory, a page table, named by an entry, leaked by allocuvm, or lost by setupkvm |
| Frames.FramesConserved | lab6/xv6-public/kalloc.c:98-141 | the numbers of these add up to the memory past the kernel |
| Cow.Kernel.Kalloc | lab6/xv6-public/kalloc.c:126-141 | takes the first free frame, or returns null exactly when there is none |
| Cow.Kernel.Setupkvm | lab6/xv6-public/vm.c:128-142 | a new directory exactly when there are 65 frames, for it and for the 64 directory indices that kmap covers; otherwise every free frame is lost |
| Cow.Kernel.Walkpgdir | lab6/xv6-public/vm.c:44-65 | finds or makes the page table, touching no address space |
| Cow.Kernel.Mappages | lab6/xv6-public/vm.c:69-90 | adds exactly one entry, or fails exactly when a table is needed and no frame is free |
| Cow.Kernel.Allocuvm | lab6/xv6-public/vm.c:223-252 | grows by zeroed pages exactly when there are frames for them and their tables; else every page is as before, and one frame is lost exactly when the last free one went to a page whose table was missing |
| Cow.LastFrameLost | lab6/xv6-public/vm.c:242-248 | one free frame and no page tables: the frame is lost |
| Cow.Kernel.Deallocuvm | lab6/xv6-public/vm.c:258-286 | removes exactly the pages beyond newsz; accounting kept |
| Cow.Kernel.Freevm | lab6/xv6-public/vm.c:289-304 | the directory disappears with its pages and tables, every other address space is as before, and no frame is lost |
| Cow.Kernel.Copyuvm | lab6/xv6-public/vm.c:354-388 | succeeds exactly when there are frames for the directory, the tables that kmap needs and those of the pages; the child then shows what the parent shows and all of it is shared read-only; on failure everything is as before and no frame is lost but by setupkvm |
| Cow.Kernel.CopyuvmCow | lab6/xv6-public/vm.c:390-426 | makes the faulting page private and writable, copying exactly when the frame is shared; an absent entry is handled as the code does, and no counts are then exact |
| Cow.Kernel.PageFault | lab6/xv6-public/trap.c:82-101 | at any user address: kill exactly without a page table, panic exactly when the code must give up, and otherwise the state that the code leaves |
| Cow.Kernel.UserStore | lab6/xv6-public/trap.c:82-101 | a user store with the faults it takes changes one byte of one address space |
| Cow.FaultKeepsAccountingIff | lab6/xv6-public/trap.c:88 | a fault handled as coded, without a panic, leaves reference counts that are exact but for lost frames if and only if the page is present or has no page table |
| Cow.AbsentFaultExample | lab6/xv6-public/trap.c:88 | a state with a page table and an absent page, in which every invariant holds before the fault and none after |
| Cow.KernelWriteIsPrivateIff | lab6/xv6-public/vm.c:447-467 | a kernel write through a page is seen by no other entry if and only if the frame's count is 1 |
| CowRefinement.ForkRefines | lab6/xv6-public/vm.c:319-349 | the copy-on-write copyuvm yields the world of the eager one: the child sees the parent's bytes |
| CowRefinement.StoreRefines | lab6/xv6-public/vm.c:390-426 | a store after its fault changes the storing process's byte as under eager copying and nobody else's |
| CowRefinement.GrowRefines | lab6/xv6-public/proc.c:119-135 | growth adds zero bytes for one process only |
| CowRefinement.ShrinkRefines | lab6/xv6-public/proc.c:119-135 | shrinking cuts one process's bytes only |
| CowRefinement.DeallocStep | lab6/xv6-public/proc.c:119-135 | a negative sbrk, the sum wrapping as in the code, refines the eager one if and only if it does not empty the process |
| CowRefinement.EmptyingLosesPages | lab6/xv6-public/proc.c:128-130 | an sbrk to size zero leaves the old size without its pages, and no answer makes that right |
| CowRefinement.SbrkToZeroExample | lab6/xv6-public/proc.c:128-130 | a sound state of one process in which that happens |
| CowRefinement.Machine.Growproc | lab6/xv6-public/proc.c:119-135 | for every int, growproc's outcome and state are those of the eager sbrk, or those of an emptying one |
| CowRefinement.ExitRefines | lab6/xv6-public/vm.c:289-304 | an exit takes one process's bytes only |
| CowRefinement.Machine.Fork | lab6/xv6-public/vm.c:354-388 | fork is the eager copy and fails exactly for want of those frames |
| CowRefinement.Machine.Grow | lab6/xv6-public/proc.c:125-127 | a growing sbrk is the eager one and fails exactly for want of frames for the pages and their tables, or past KERNBASE |
| CowRefinement.ForkIsAffordable | lab6/xv6-public/vm.c:354-388 | a fork cannot fail while the memory is enough for a frame for every page of every process beside directories, tables, lost and leaked frames |
| CowRefinement.Machine.Run | lab6/xv6-public/vm.c:319-426 | any sequence of forks, loads, stores, sbrks and exits: every process sees what it would see under eager copying and every call returns what it would return there; each fork and growing sbrk succeeds exactly when the frames are there, a store panics exactly when its copy finds none, no other frame is lost; up to a panic or the first sbrk that empties a process |
| Bitmap.BlockBitOfPut | lab6/xv6-public/fs.c:65-92 | setting or clearing one bit of the free map changes that bit and no other |
| Dinode.StoreThenLoad | lab6/xv6-public/fs.c:208-224 | an inode read back from its 64-byte slot is the one stored, and its neighbours are untouched |
| FileState.UsedIffReachable | lab6/xv6-public/fs.c:56-96 | the free map's set bits are exactly the metadata blocks and the blocks that some inode or indirect block names |
| FileState.NamedOnce | lab6/xv6-public/fs.c:354-382 | no block is named twice |
| FileState.AssignedCore | lab6/xv6-public/fs.c:354-382 | allocating a block for an empty place keeps both |
| FileContents.WriteSplices | lab6/xv6-public/fs.c:467-497 | the loop's effect on file i is to splice the bytes in at the offset, extending the file when they end beyond it |
| FileContents.WriteKeepsOthers | lab6/xv6-public/fs.c:467-497 | and no other file or inode changes |
| FileContents.EmptiedSound | lab6/xv6-public/fs.c:389-417 | discarding a file keeps the free map, the inodes and the disk copies consistent |
| FileSystem.EmptiedFiles | lab6/xv6-public/fs.c:389-417 | discarding empties that file and no other |
| FileSystem.EndedFiles | lab6/xv6-public/fs.c:467-497 | seen as a whole, the files after a write are those before with the bytes put in |
| FileSystem.WrapTest | lab6/xv6-public/fs.c:443 | the 32-bit test off + n < off says whether the sum leaves 32 bits |
| FileSystem.FileSys.Balloc | lab6/xv6-public/fs.c:56-78 | the lowest free block, marked and zeroed; the panic exactly when none is free |
| FileSystem.FileSys.Bmap | lab6/xv6-public/fs.c:354-382 | the block for bn, allocating it and the indirect block only if they are missing |
| FileSystem.FileSys.Readi | lab6/xv6-public/fs.c:432-464 | -1 for a bad range; else the bytes up to n or the end of the file, and nothing changes |
| FileSystem.FileSys.Writei | lab6/xv6-public/fs.c:467-497 | -1 for a bad or too large range, else the bytes are put in the file, all other files are as before, in-memory and disk inodes agree, and at most LogBound blocks are logged |
| FileSystem.FileSys.Itrunc | lab6/xv6-public/fs.c:389-417 | frees exactly the inode's data blocks and its indirect block, and never a free block |
| TransactionSize.BmapKeeps | lab6/xv6-public/fs.c:354-382 | bmap keeps every file's bytes, and changes nothing when the block is there |
| FileSystem.RoundCharge | lab6/xv6-public/fs.c:482-488 | one round of writei adds its block and, only if it was not there, one free-map block; an unaligned first block always is |
| TransactionSize.ChunkFitsLog | lab6/xv6-public/file.c:126-142 | what a writei of at most ((LOGSIZE-1-1-2)/2)*512 bytes may log is at most LOGSIZE blocks, at any offset |
| OpenFile.File.Fileread | lab6/xv6-public/file.c:95-113 | -1 exactly for an unreadable file or a bad range, else the slice from the offset, which moves by its length; a device gives any result and the offset moves by it in 32 bits |
| OpenFile.PutMore | lab6/xv6-public/file.c:134-154 | writing chunk after chunk is one write of all of them |
| OpenFile.File.WriteChunk | lab6/xv6-public/file.c:138-145 | one transaction: it logs at most LOGSIZE blocks, changes no other block, and either writes its chunk or, the range being bad, nothing |
| OpenFile.File.Filewrite | lab6/xv6-public/file.c:115-157 | the chunks together put a prefix of the bytes at the offset and move it; all n when they fit; the short-write panic is for devices only; the committed states follow one another by transactions that fit the log |
| CrashFiles.MountsOnce | lab6/xv6-public/fs.c:278-306 | a disk holds one file system at most |
| CrashFiles.HistoryMounts | lab6/xv6-public/log.c:53-67 | over any history of file system transactions, crashes at any write of a commit and crashed recoveries, the disk holds the files of the last transaction whose header was written |
| CrashFiles.FilewriteCrash | lab6/xv6-public/file.c:126-154 | a crash at any write during filewrite, and any crashed recoveries, leave the files from before the call with the chunks put in whose header was written |
| BufferList.UnlinkKeepsLinks | lab6/xv6-public/bio.c:130-134 | taking a buffer out leaves a circular doubly linked list of the others |
| BufferList.FrontKeepsLinks | lab6/xv6-public/bio.c:46-57 | the four assignments put a buffer right behind the head |
| CacheState.ActionKeepsCoherent | lab6/xv6-public/bio.c:60-141 | every atomic section of any process keeps the cache coherent |
| CacheState.HeldBufferIsLatest | lab6/xv6-public/bio.c:95-106 | after any interleaving a held, unchanged buffer shows what was last logged or written for its block, and no other buffer holds that block |
| CacheState.FillReadsLatest | lab6/xv6-public/memide.c:37-59 | a read from disk gets the latest contents: nothing newer is waiting in another buffer |
| CacheState.PendingStays | lab6/xv6-public/bio.c:77-88 | a logged buffer is never recycled; it stays until it is written out |
| BufferCache.Bcache.constructor | lab6/xv6-public/bio.c:38-58 | binit builds the list of all buffers, the last one first |
| BufferCache.Bcache.Bget | lab6/xv6-public/bio.c:60-92 | the block's buffer, or else the last free one in the list; the panic exactly when there is neither |
| BufferCache.Bcache.FindFree | lab6/xv6-public/bio.c:80-90 | the last buffer in use order that is unreferenced and clean |
| BufferCache.Bcache.AcquireSleep | lab6/xv6-public/bio.c:70-72 | whatever others did while waiting, the buffer still holds the block asked for |
| BufferCache.Bcache.Bread | lab6/xv6-public/bio.c:95-106 | the buffer is valid and holds the latest contents |
| BufferCache.Bcache.Bwrite | lab6/xv6-public/bio.c:108-116 | disk, buffer and latest contents agree afterwards |
| BufferCache.Bcache.Brelse | lab6/xv6-public/bio.c:118-141 | drops a reference; the last one puts the buffer in front of the others, whose order stays |
| BufferCache.ByRecency | lab6/xv6-public/bio.c:77-90 | after any releases the list is in order of last release, most recent first, so that the last free buffer is the least recently used |
| Heap.FreeKeepsInvariant | lab6/xv6-public/umalloc.c:24-44 | inserting a block and joining it with its neighbours keeps the list circular, in order, fully coalesced and disjoint from blocks handed out |
| Heap.SearchEnds | lab6/xv6-public/umalloc.c:30-32 | free's search test holds at exactly one place of the circle |
| Heap.LinkedIsFreed | lab6/xv6-public/umalloc.c:33-43 | the two tests and four assignments compute that insertion and joining |
| Heap.TakeWholeKeepsInvariant | lab6/xv6-public/umalloc.c:75-76 | handing out an exact fit keeps the invariant |
| Heap.TakeTailKeepsInvariant | lab6/xv6-public/umalloc.c:77-81 | handing out the tail of a larger block keeps the invariant |
| Heap.FreshFreed | lab6/xv6-public/umalloc.c:46-61 | after morecore some free block is large enough, even when the new memory joined its predecessor |
| Heap.Conservation | lab6/xv6-public/umalloc.c:24-90 | free and handed-out blocks are disjoint and their sizes add up to the units obtained from sbrk |
| Heap.Allocator.Locate | lab6/xv6-public/umalloc.c:30-32 | the search ends, at the place where the block belongs |
| Heap.Allocator.Free | lab6/xv6-public/umalloc.c:24-44 | the block is free again and coalesced, all others as before |
| Heap.Allocator.FirstFit | lab6/xv6-public/umalloc.c:73-85 | the walk finds the first block from freep on that fits, or has seen the whole circle |
| Heap.Allocator.Malloc | lab6/xv6-public/umalloc.c:63-90 | ends; hands out a block nobody held, of just enough units; asks sbrk once, for at least MINUNITS, exactly when no free block is large enough, and fails exactly when sbrk then refuses |
| ProcessState.StepKeepsInv | lab6/xv6-public/proc.c:34-441 | every step of every process keeps families, forks, sleepers and ids consistent |
| ProcessState.ExitKeepsInv | lab6/xv6-public/proc.c:207-222 | so does exit: its children get a living parent and nobody misses a zombie |
| ProcessState.ExitWaitSafety | lab6/xv6-public/proc.c:184-269 | over every run no process sleeps in wait with a zombie child, and every process past EMBRYO but init has a parent neither UNUSED nor ZOMBIE |
| ProcessState.ReapedOnce | lab6/xv6-public/proc.c:228-269 | over every run an exited process is a zombie until wait returns it, and wait returns it once |
| ProcessState.ParentReaps | lab6/xv6-public/proc.c:240-257 | only its current parent reaps a zombie |
| ProcessState.AllocFinds | lab6/xv6-public/proc.c:34-57 | allocproc takes the lowest unused slot and the next pid, and fails only when there is none |
| ProcessState.ForkCompletes | lab6/xv6-public/proc.c:159-178 | fork's last stores leave a runnable child of its maker |
| ProcessState.WaitAnswers | lab6/xv6-public/proc.c:228-269 | wait returns the pid of the lowest zombie child, which it reaps, exactly when there is one; -1 exactly when there is none and no child or a kill; else it sleeps on its slot |
| ProcessState.ExitLeaves | lab6/xv6-public/proc.c:207-222 | exit leaves a zombie, and exactly its children get init as parent |
| ProcessState.ExitWakes | lab6/xv6-public/proc.c:207-219 | the parent is not left asleep in wait, nor init when it gets a zombie |
| ProcessState.WakeupWakes | lab6/xv6-public/proc.c:407-425 | after wakeup nobody sleeps on the channel and only its sleepers have changed |
| ProcessState.KillMarks | lab6/xv6-public/proc.c:430-449 | kill marks the lowest slot with the pid, which then does not sleep, and changes nothing else |
| ProcessTable.Ptable.Allocproc | lab6/xv6-public/proc.c:34-57 | takes the first unused slot with a fresh pid |
| ProcessTable.Ptable.Wakeup1 | lab6/xv6-public/proc.c:407-416 | makes runnable exactly those asleep on the channel |
| ProcessTable.Ptable.Reparent | lab6/xv6-public/proc.c:213-219 | the loop gives all children to init and wakes it if and only if one is a zombie |
| ProcessTable.Ptable.Exit | lab6/xv6-public/proc.c:207-222 | exit under the lock is the machine's exit step |
| ProcessTable.Ptable.Wait | lab6/xv6-public/proc.c:230-269 | one round reaps the first zombie child, gives up, or sleeps, as the code chooses |
| ProcessTable.Ptable.Kill | lab6/xv6-public/proc.c:430-449 | marks the first process with the pid and makes it runnable if it sleeps |
| ProcessTable.Ptable.Schedule | lab6/xv6-public/proc.c:279-309 | runs the next runnable slot, skipping none |
| Pipe.CounterTests | lab6/xv6-public/pipe.c:85-107 | with 32-bit counters that wrap, full and empty are what the two comparisons say |
| Pipe.StoreOne | lab6/xv6-public/pipe.c:94 | storing at nwrite++ % PIPESIZE appends to the bytes in the ring |
| Pipe.TakeOne | lab6/xv6-public/pipe.c:113 | reading at nread++ % PIPESIZE takes the oldest byte |
| Pipe.Ring.Pipewrite | lab6/xv6-public/pipe.c:78-98 | up to its sleep or return it stores all that is left or fills the pipe, and returns n, gives up, or sleeps at the first byte not stored |
| Pipe.Ring.Piperead | lab6/xv6-public/pipe.c:100-121 | sleeps, or gives up when killed, exactly on an empty pipe open for writing; else takes and returns the oldest bytes, as many as there are up to n, and wakes writers |
| PipeSystem.Fifo | lab6/xv6-public/pipe.c:78-121 | over every run the bytes delivered are a prefix of those stored and at most PIPESIZE are pending |
| PipeSystem.ReaderTakes | lab6/xv6-public/pipe.c:100-121 | in any reachable state a reader's turn on a pipe with bytes delivers min(n, pending) of them and leaves no writer asleep |
| PipeSystem.WriterStores | lab6/xv6-public/pipe.c:78-98 | a writer's turn stores all that is left and ends, or fills the pipe and sleeps or gives up; unless it gives up no reader stays asleep |
| PipeSystem.StepForgetsIff | lab6/xv6-public/pipe.c:78-121 | a step leaves a sleeper whose wait condition is false if and only if it is that of a killed writer that fills the pipe beside a sleeping reader |
| PipeSystem.NoMissedWakeup | lab6/xv6-public/proc.c:370-425 | in runs without kill every sleeper's wait condition holds whenever the lock is free |
| PipeSystem.KilledWriterForgets | lab6/xv6-public/pipe.c:85-88 | a run with kill in which it does not |
| SleepWakeup.SleepIsAtomic | lab6/xv6-public/proc.c:370-425 | every interleaving of the instructions of sleep and wakeup under their two locks is a run of the machine in which each is one step |
| SleepWakeup.NoWakeupLost | lab6/xv6-public/proc.c:382-405 | callers that sleep after a failed test and wake what they made true: whenever lk is free nobody is asleep, or on the way there, with the condition true |
| SleepWakeup.TableIsReleased | lab6/xv6-public/proc.c:382-405 | the holder of ptable.lock never waits for the other lock |
| ShellGrammar.PrintThenParse | lab6/xv6-public/sh.c:327-341 | printing any command with parentheses and parsing the line gives the command, with nothing left |
| ShellGrammar.LegalIffParsed | lab6/xv6-public/sh.c:327-459 | the commands that lines can say are exactly those with under MAXARGS words per command, proper words and the two kinds of redirection |
| ShellGrammar.ParseThenPrint | lab6/xv6-public/sh.c:327-341 | any line that parses has the same meaning as its command printed |
| ShellGrammar.WordToken | lab6/xv6-public/sh.c:265-308 | gettoken reads a word whole up to a blank, a symbol or the end |
| ShellGrammar.BlockRoundTrip | lab6/xv6-public/sh.c:399-413 | a block in parentheses parses to its command with the redirections behind it around it |
| ShellLines.ParsesIffWritten | lab6/xv6-public/sh.c:327-459 | a line parses to a command if and only if its tokens are those of a line of the independent grammar that means it |
| ShellLines.LexWord | lab6/xv6-public/sh.c:265-308 | a word up to a blank, a symbol or the end is one token, whatever follows |
| ShellLines.LexSymbol | lab6/xv6-public/sh.c:265-308 | a symbol is one token, needing no blank around it |
| ShellLines.LexAppend | lab6/xv6-public/sh.c:283-289 | >> is one token |
| ShellLines.LexBlank | lab6/xv6-public/sh.c:265-308 | blanks before a token change nothing |
| ShellLines.RedirectedCommand | lab6/xv6-public/sh.c:415-446 | words with redirections before, between and behind them are the words inside the redirections in line order |
| ShellLines.PipeBeforeList | lab6/xv6-public/sh.c:344-372 | a pipe b ; c is the pipe, then c |
| ShellLines.PipesGroupRight | lab6/xv6-public/sh.c:361-372 | a pipe b pipe c is a into (b into c) |
| ShellLines.BackTakesLast | lab6/xv6-public/sh.c:344-359 | in a ; b & only b is in the background |
| ShellParser.Parser.Gettoken | lab6/xv6-public/sh.c:265-308 | advances over one token, which is the specification's |
| ShellParser.Parser.ParseWords | lab6/xv6-public/sh.c:429-446 | the loop that stores words in the inner command while wrapping redirections around it yields what the grammar says |
| ShellParser.Parsecmd | lab6/xv6-public/sh.c:327-341 | the mutually recursive parser ends on every line with the specification's command or panic message |
| Sha1.SwapOfLoad | lab8/lab8.patch:1807-1809 | blk0's byte swap of a little-endian load is the standard's big-endian word |
| Sha1.MixIsF | lab8/lab8.patch:1819-1823 | the macros' boolean operations are the standard's functions f_t |
| Sha1.ExpandIsW | lab8/lab8.patch:1815-1816 | the word taken from the 16-word circular buffer in round t is W_t of the 80-word schedule |
| Sha1.Transform | lab8/lab8.patch:1828-1951 | SHA1Transform is one block step of section 7 |
| Sha1.CountsMore | lab8/lab8.patch:1995-1998 | the two-word bit count with its carry counts modulo 2^64 |
| Sha1.LengthTest | lab8/lab8.patch:1999 | the 32-bit test says whether a block is complete if and only if j + len does not wrap |
| Sha1.Context.Update | lab8/lab8.patch:1984-2012 | after any update the context stands for all bytes fed so far |
| Sha1.Context.PadZeros | lab8/lab8.patch:2063-2067 | the padding loop adds exactly the zero bytes of section 4 |
| Sha1.Context.Final | lab8/lab8.patch:2031-2077 | the digest is the standard's for all that was fed |
| Sha1.DigestOf | lab8/lab8.patch:1984-2077 | however a message is split into updates the digest is that of sections 4 and 7 of FIPS PUB 180-1 |
| Sha1.HashOf | lab8/lab8.patch:2094-2105 | SHA1, which feeds single bytes, computes the standard's digest |
| Regex.StarLanguage | lab6/xv6-public/grep.c:98-105 | the language of c* is the words all of whose characters fit c |
| Regex.StarBeginsRead | lab6/xv6-public/grep.c:88-90 | a starred character followed by the rest, as matchhere hands it to matchstar |
| Regex.SingleBegins | lab6/xv6-public/grep.c:92-95 | one character, dot included, then the rest |
| Regex.Matchhere | lab6/xv6-public/grep.c:84-96 | true exactly when a beginning of the text (all of it under a final $) is in the pattern's language |
| Regex.Matchstar | lab6/xv6-public/grep.c:98-106 | true exactly when some number of fitting characters and then a match begin the text |
| Regex.Match | lab6/xv6-public/grep.c:72-82 | true exactly when a substring of the text, placed as ^ and $ require, is in the pattern's language |
| BoundedQueue.StepKeepsInv | lab4/server-mt.cpp:42-86 | every step keeps the bound, the order, an awake worker beside a nonempty queue, and a full queue beside a waiting main |
| BoundedQueue.BoundedFifo | lab4/server-mt.cpp:194-203 | in every interleaving at most QSIZE sockets are queued, and every accepted socket is, once and in arrival order, taken, queued, or in main's hand |
| BoundedQueue.MainQueues | lab4/server-mt.cpp:195-202 | main queues its socket behind the others exactly when the queue is not full, else waits with it |
| BoundedQueue.NoDeadlock | lab4/server-mt.cpp:42-86 | in every interleaving a waiting main means a full queue, and a nonempty queue means an awake worker whose own next steps take the first socket and let main go on |
| BoundedQueue.NoIdleIff | lab4/server-mt.cpp:42-53 | for positive sizes, no interleaving leaves a worker waiting beside a queued socket that no other worker is about to take exactly when the queue has one place or there is one worker |
| BoundedQueue.Monitor.WorkerTurn | lab4/server-mt.cpp:81-87 | a worker's turn under the lock is the machine's step |
| BoundedQueue.Monitor.MainTurn | lab4/server-mt.cpp:195-202 | main's turn under the lock is the machine's step |

## Left out

- Cow.Kernel.PageFault: a fault is one atomic step; the race between check, decrement and copy (vm.c:403-415) is outside, and so are addresses of the kernel half.
- Cow.Kernel.Setupkvm: the kernel half of an address space is only the page-table pages it takes; its entries are not modelled. lcr3 does nothing.
- CowRefinement.Machine.Run: stops at an sbrk that empties a process, after which the eager machine has no counterpart.
- Heap.Allocator.Malloc: the request size in units does not wrap at 2^32, the source's single loop is written as the walks before and after a successful morecore, and sbrk is any increasing source of memory that may fail.
- Heap.Allocator.Free: the caller passes a pointer that malloc returned and has not been freed.
- Sha1.Context.Update: the 32-bit sum j + len does not wrap, which is exactly when the source's test is right (Sha1.LengthTest).
- FileSystem.FileSys.Writei: device files return any result and change nothing; balloc's panic is an outcome after which only "no block is free" is promised.
- CrashFiles.FilewriteCrash: each transaction has one writei in it; that several operations can share one is in GroupCommit. The log area lies before the inodes, as mkfs puts it, and log_write has not panicked.
- OpenFile.File.Filewrite: no other process writes the same file between two chunks; pipes are in Pipe.
- FileContents.EmptiedSound: iput, ialloc and the inode cache with its reference counts are not modelled, so an inode's file is discarded only by itrunc.
- TransactionSize.ChunkFitsLog: the stated chunk fits the log as a whole, though it can exceed the MAXOPBLOCKS that begin_op reserves per operation.
- BufferCache.Bcache.Brelse: a holder that changed a buffer logs or writes it before it releases it.
- GroupCommit.CommitIsolation: a transaction's writes to disk are in RedoLog; here a commit is one step that can take any time.
- ProcessState.StepKeepsInv: exit of init panics and is not a step; closing files and leaving the directory in exit happen before the modelled step; pids and reference counts do not overflow.
- ShellParser.Parser.ParseWords: argument strings are slices of the line; nulterminate's stores into the buffer after parsing are not modelled.
- SleepWakeup.SleepIsAtomic: sleep on ptable.lock itself, as in wait, is a step of ProcessState; the scheduler's stretch between sched and the next process is part of letting go of ptable.lock.
- PipeSystem.NoMissedWakeup: an end is closed only when nobody is inside a call on it, since such a call holds a reference to the open file.
- Regex.Match: grep's reading of lines, which drops a partial line longer than its buffer, is not modelled.
- Directories, path names, system calls, exec, traps other than the page fault, and device drivers but the memory disk.
- runcmd, the effects of running a parsed command.
- The unbounded mode of server-mt, which queues without the lock, and its sockets and file sending.
- The FUSE callbacks of lab8.patch, and the labs that repeat lab6's files.
