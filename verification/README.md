# xv6 with copy-on-write fork and priority scheduling: a verified model

This project models the parts of an xv6 kernel for RISC-V where most can go wrong, and proves what they are for. The kernel
adds copy-on-write fork and a priority-based scheduler (PBS) to xv6. `dafny verify dfyconfig.toml` checks everything.

Each module follows one part of the system:

| module | part of the system | main results |
|---|---|---|
| RedoLog | the log's disk writes, one at a time | commit is all or nothing at every crash point, through any number of crashes during recovery |
| LogRuns | concurrent operations over log and buffer cache, with crashes | every run refines an atomic store, and a crash yields what was seen at the last settled moment; reservations hold, with a bound per operation below which log_write cannot panic and a run beyond it that does |
| BufferCache | the LRU list of buffers, linked in place | one ring of all buffers, no block cached twice, least recently used recycled |
| CowMemory, UserPages, UserVm | frames, reference counts, page permissions, user memory | frames are conserved on success and failure; each operation succeeds exactly when there are frames for it |
| EagerFork, ForkRuns | processes under copy-on-write, against a machine that copies all of a parent's memory at once | exactly when the two can be told apart, for each operation and over whole runs; runs that do; no frame is ever lost |
| KfreeSteps | kfree's two locks on several CPUs | no frame is lost, freed twice or freed in use, in any interleaving |
| Sv39, PageTrees | three-level page tables in memory words | the tree is a flat map; walk adds exactly what is missing; freewalk frees each page once |
| Umalloc | the circular first-fit allocator | one ordered cycle, disjoint blocks, units conserved, one sbrk at most |
| SleepWakeup, SleepLock, Pipe | sleep and wakeup, and two users of them | no lost wakeup; FIFO pipes; exactly the runs in which a kill does lose a wakeup |
| Scheduler | CPUs, process states and locks | RUNNING if and only if exactly one CPU runs it |
| Priority | PBS | the selection is a lexicographic minimum; bounds and monotonicity of priorities |
| FileBlocks, FileData | bitmap, block maps, file contents | files are byte sequences, blocks have exactly one owner, a chunk fits its log reservation, how far a failed write gets |
| Virtio | driver and device on shared rings | each request is carried out exactly once |
| Grep | the regular expression matcher | sound and complete for a declarative language |
| Collections | options, finite sets and maps | shared by the others |

Objects that the source updates in place are classes whose methods are proved against functions of the old state.
Protocols are state machines: a step is what happens between two points where another process or CPU may run, `Enabled` and
`Do` say when and what, and the results quantify over every run. Where a step function appears in a method's contract, the
results about it are the lemmas over runs.

Results reach across modules in several places. `FileData.WriteTransaction` bounds what a chunk of filewrite logs by 10, and by 7
on a disk with one bitmap block, which the disk of FSSIZE blocks that mkfs builds is; `LogRuns.ReservationHolds` and
`LogRuns.NeverTooBig` show that 10 is what the reservation allows and that up to 9 never trips log_write's own limit. And
`SleepLock.StepDisciplined` and `Pipe.StepDisciplined` show that these modules keep the rules under which
`SleepWakeup.NoLostWakeup` holds. `PageTrees.SameAnswer` and `PageTrees.SameCost` tie the page-table pages that module UserVm
counts to the trees of module Sv39: both walks find the same entries and need as many new pages.

## Where the code falls short of what one would expect

- calculate_rbi divides before it multiplies by 50, so it yields 0, 50 or 100 only. It agrees with the formula in the
  repository's README exactly when 3 RTime - STime - WTime is not positive or leaves a remainder that, times 50, is below the
  divisor (`Priority.RbiMeetsDocument`, `Priority.RbiMissesDocument`). The model follows the code.
- A writer killed inside pipewrite returns without the wakeup that its bytes call for. `Pipe.GivingUpStrands` says exactly
  when that leaves a reader asleep, `Pipe.KillStrandsReader` gives a run, and `Pipe.CleanIsExact` shows that the runs in which
  nobody is left stuck are exactly those without such a step.
- log_write tests `lh.n >= log.size - 1`, before it looks for a block to absorb. With three operations that add MAXOPBLOCKS
  blocks each, all within their reservation, it panics (`LogRuns.TooBigReachable`); with one block less each it cannot.
- A process can tell copy-on-write fork from one that copies. dup_pg grants read, write and execute whatever the page had
  before, so a store to a page that was allocated read-only fails before fork and succeeds after it, and the page can be
  executed from then on. dup_pg refuses address 0, so a store to address 0 of a COW page fails after fork; and copyout, which
  rounds down to the page, cannot write page 0 at all. Apart from these it is a question of free frames:
  `EagerFork.AgreesExact` is an if and only if for every operation, `EagerFork.RunAgrees` extends it to whole runs, and
  `ForkRuns.TellsStores` and `ForkRuns.TellsCopyout` are runs where the two differ.
- fork does not notice that uvmcowpy failed, since it tests an unsigned value for being negative. With n pages to share, that
  happens exactly when at least 4 frames are free, which allocproc takes, but fewer than 4 + ceil(n / 512) + ceil(n / 2^18).
  Then fork succeeds, the child has its parent's size and none of its pages (`ForkRuns.Processes.DoFork`), and the kernel
  panics when it exits. `ForkRuns.HollowPanics` is such a run, with 11 frames and one page.
- filewrite returns -1 when it stops half way, though the offset has moved and bytes have been written. `FileData.FileWrite`
  says how far, on a disk that does not fill up; `FileData.MovedAtAll` says exactly when the offset moves at all, and
  `FileData.FailsAfterMoving` gives a short source and a file too long. writei may leave bytes in a block that it does not
  report and does not log, when the source becomes unreadable within a block (`FileData.Writei`).

## Model

| member | source | states |
|---|---|---|
| `RedoLog.CrashSafety` | initial-xv6/src/kernel/log.c:68-203 | power fails after any j disk writes of a commit and again at any point of any number of recoveries: the recovery that completes leaves the home blocks all old or all new, all new exactly when the non-empty header had reached the disk, and every other block outside the log as it was |
| `RedoLog.CommitAtomic` | initial-xv6/src/kernel/log.c:194-203 | a commit cut off after j writes recovers to the old contents if the header is not yet on disk, and to the new ones from that write on |
| `RedoLog.NestedCrashes` | initial-xv6/src/kernel/log.c:117-123 | recoveries that are themselves cut off, any number of times and anywhere, do not change what the next recovery yields |
| `RedoLog.RecoveryKeepsMeaning` | initial-xv6/src/kernel/log.c:117-123 | every single write of a recovery leaves a disk that recovers to the same contents; the last leaves them in place and the log idle |
| `RedoLog.HeaderCommits` | initial-xv6/src/kernel/log.c:103-114 | the one write of the header turns a disk that recovers to the old contents into one that recovers to the new |
| `RedoLog.LogCopyInvisible` | initial-xv6/src/kernel/log.c:179-191 | copying blocks into the data slots of an idle log does not change what recovery yields |
| `RedoLog.InstallKeepsMeaning` | initial-xv6/src/kernel/log.c:69-83 | installing any prefix of the logged blocks does not change what recovery yields |
| `RedoLog.InstallCompletes` | initial-xv6/src/kernel/log.c:69-83 | once every slot is installed, with the header still in place, the home blocks stand as recovery would leave them; clearing the header then leaves them so and the log idle |
| `RedoLog.CommitPhases` | initial-xv6/src/kernel/log.c:194-203 | the disk writes of a commit are the log copies, the header, and then exactly those of a recovery |
| `RedoLog.NoRepeatsMeans` | initial-xv6/src/kernel/log.c:224-232 | the header names no block twice, in the sense that the proofs use and in the plain one |
| `RedoLog.Log.WriteHead` | initial-xv6/src/kernel/log.c:103-114 | one disk write, after which the header block on disk decodes to the blocks in memory |
| `RedoLog.Log.ReadHead` | initial-xv6/src/kernel/log.c:87-97 | memory holds the header decoded from disk; the disk is not written |
| `RedoLog.Log.WriteOne` | initial-xv6/src/kernel/log.c:183-190 | one round of write_log: one more slot on the disk, no logged block disturbed |
| `RedoLog.Log.WriteLog` | initial-xv6/src/kernel/log.c:179-191 | the disk images held on the way are the data slots filled one by one with the cached contents of the logged blocks |
| `RedoLog.Log.InstallTrans` | initial-xv6/src/kernel/log.c:69-83 | the disk images held on the way are the home blocks overwritten one by one from their slots; the cache ends coherent with the disk |
| `RedoLog.Log.RecoverFromLog` | initial-xv6/src/kernel/log.c:117-123 | the disk images held on the way are those that CrashSafety quantifies over, and the log is empty afterwards |
| `RedoLog.Log.Commit` | initial-xv6/src/kernel/log.c:194-203 | the disk images held on the way are those that CrashSafety quantifies over; an empty transaction writes nothing |
| `RedoLog.Log.LogWrite` | initial-xv6/src/kernel/log.c:215-235 | false exactly where the source panics for want of space; a block already in the header is absorbed, another is appended once |
| `RedoLog.Log.Bread` | initial-xv6/src/kernel/bio.c:93-103 | the cached contents if there are any, otherwise those on disk |
| `RedoLog.Log.Bwrite` | initial-xv6/src/kernel/bio.c:107-112 | cache and disk both hold the data |
| `LogRuns.NextRefines` | initial-xv6/src/kernel/log.c:126-235 | every step of concurrent operations, buffer cache, commit, crash and recovery keeps the invariant and is a step of an atomic store whose durable part changes only by whole groups |
| `LogRuns.RunRefinesStore` | initial-xv6/src/kernel/log.c:126-235 | seen through the abstraction every run, with crashes anywhere, is a run of the atomic store |
| `LogRuns.RecoveredIsWholeGroups` | initial-xv6/src/kernel/log.c:126-203 | at every point of every run, what recovery would yield is what the file system showed at the last moment when no operation was in progress or waiting for its commit: all the groups finished by then, whole, and nothing since |
| `LogRuns.SettledIsDurable` | initial-xv6/src/kernel/log.c:145-203 | once the header of their group is on the disk, or with nothing to commit, what the finished operations have written survives a power failure |
| `LogRuns.DurableStep` | initial-xv6/src/kernel/log.c:126-235 | no step but the commit's header write, and those after it, changes what recovery yields |
| `LogRuns.DurableIsWholeGroups` | initial-xv6/src/kernel/log.c:126-175 | in the atomic store the durable contents are always those of an earlier moment with no operation in progress |
| `LogRuns.PinnedStaysCached` | initial-xv6/src/kernel/bio.c:58-151 | a block that log_write has pinned stays in the cache, valid, until install_trans unpins it |
| `LogRuns.CleanBufferIsDisk` | initial-xv6/src/kernel/bio.c:58-151 | in every run a valid buffer that is neither locked nor pinned equals its disk block |
| `LogRuns.CommittingMeansNoOps` | initial-xv6/src/kernel/log.c:147-175 | while committing no operation is in progress, so the panic in end_op is unreachable |
| `LogRuns.ReservationHolds` | initial-xv6/src/kernel/log.c:126-142 | in every interleaving the header plus what the operations in progress may still add fits in LOGSIZE |
| `LogRuns.SpareSlots` | initial-xv6/src/kernel/log.c:126-235 | if every operation adds at most MAXOPBLOCKS - 1 blocks, two slots are always left over |
| `LogRuns.NeverTooBig` | initial-xv6/src/kernel/log.c:214-235 | under that bound, on the log that mkfs makes, log_write never panics with "too big a transaction" |
| `LogRuns.TooBigReachable` | initial-xv6/src/kernel/log.c:214-235 | without it the panic is reachable: a run of three operations, none of which adds more than MAXOPBLOCKS blocks |
| `EagerFork.RunAgrees` | initial-xv6/src/kernel/vm.c:350-416 | over any run of creations, forks, loads, fetches, stores, copyouts, resizings, exec's mappings and exits: up to the first operation that fails the condition of AgreesExact, every outcome is the one that eager copying gives and every process sees the same memory; and that operation's outcome differs, or it leaves a child without its pages |
| `EagerFork.AgreesExact` | initial-xv6/src/kernel/kalloc.c:155-191 | for each operation, an if and only if on page permissions, address and free frames: its outcome is that of a machine that copies eagerly, keeps the permissions pages were allocated with and decides by itself |
| `EagerFork.NextRelated` | initial-xv6/src/kernel/vm.c:350-416 | an operation that meets the condition leaves both machines with the same memory, sizes and compatible permissions |
| `EagerFork.ReachAgrees` | initial-xv6/src/kernel/vm.c:392-416 | copyout beyond page 0 gets as far as under eager copying if and only if there are frames for the COW pages on the way |
| `ForkRuns.Processes.Run` | initial-xv6/src/kernel/proc.c:108-352 | any sequence of operations, until a panic: each outcome and state is as EagerFork's machine says, so RunAgrees applies; and at the end free frames, page-table pages, mapped frames and trapframes add up to the memory |
| `ForkRuns.Processes.Do` | initial-xv6/src/kernel/proc.c:108-352 | one operation: what it returns, what every process then sees, every page's permissions, and the frames it takes |
| `ForkRuns.Processes.DoFork` | initial-xv6/src/kernel/proc.c:304-352 | exactly when fork fails, when it gives the child all of its parent's pages, and when it leaves the child without any |
| `ForkRuns.Processes.DoGrow` | initial-xv6/src/kernel/proc.c:281-300 | growing adds zeroed pages exactly when there are frames for them, shrinking removes pages, and a failure changes nothing that is seen |
| `ForkRuns.Processes.DoExit` | initial-xv6/src/kernel/proc.c:169-195 | all frames of the process are given back, and a panic exactly if fork left it without its pages |
| `ForkRuns.Processes.DoCreate` | initial-xv6/src/kernel/proc.c:108-163 | a process without memory, exactly if four frames are free |
| `ForkRuns.Processes.DoExtend` | initial-xv6/src/kernel/exec.c:52-88 | exec's mapping of a segment or the stack, with the permissions asked for, exactly when there are frames for it |
| `ForkRuns.Processes.DoStore` | initial-xv6/src/kernel/trap.c:65-80 | a user store, with the fault that it may cause |
| `ForkRuns.Processes.DoCopyOut` | initial-xv6/src/kernel/vm.c:392-416 | copyout, as an operation of a run |
| `ForkRuns.Processes.DoClear` | initial-xv6/src/kernel/exec.c:86-86 | the guard page below the stack |
| `ForkRuns.Processes.AllocProc` | initial-xv6/src/kernel/proc.c:108-163 | four frames are taken, one for the trapframe and three for page tables, or none; exactly when |
| `ForkRuns.Processes.FreeProc` | initial-xv6/src/kernel/proc.c:169-195 | trapframe, pages and page-table pages go back, with no other process's touched |
| `ForkRuns.Processes.constructor` | initial-xv6/src/kernel/kalloc.c:38-53 | no process yet, and every frame free |
| `ForkRuns.Conserved` | initial-xv6/src/kernel/kalloc.c:59-191 | in every state that the operations leave: free frames, page-table pages, distinct mapped frames and trapframes add up to the memory |
| `ForkRuns.PathsCount` | initial-xv6/src/kernel/vm.c:84-105 | the first n pages of a process have ceil(n / 512) + ceil(n / 2^18) page-table pages below the root |
| `ForkRuns.StoresTold` | initial-xv6/src/kernel/kalloc.c:155-191 | every run that maps a page, stores to it, forks and stores again: the second store fails at address 0 and succeeds elsewhere, whatever the page allowed; after a fork that copies it does what the first did |
| `ForkRuns.TellsStores` | initial-xv6/src/kernel/kalloc.c:155-191 | there is such a run |
| `ForkRuns.CopyoutTold` | initial-xv6/src/kernel/vm.c:392-416 | every run that maps page 0 and copies a byte out to it: nothing is copied, where eager copying copies it |
| `ForkRuns.TellsCopyout` | initial-xv6/src/kernel/vm.c:392-416 | there is such a run |
| `ForkRuns.HollowTold` | initial-xv6/src/kernel/proc.c:317-322 | every run in which, with 11 frames, a process of one page forks and the child exits: the fork succeeds, the child has no page, and the exit panics |
| `ForkRuns.HollowPanics` | initial-xv6/src/kernel/proc.c:317-322 | there is such a run |
| `UserVm.Vm.Kalloc` | initial-xv6/src/kernel/kalloc.c:107-124 | the first frame of the free list, count 0 and filled with 5; or none, exactly when the list is empty |
| `UserVm.Vm.Kfree` | initial-xv6/src/kernel/kalloc.c:59-102 | one reference fewer; the frame is filled and pushed when it was the last |
| `UserVm.Vm.Duplicate` | initial-xv6/src/kernel/kalloc.c:178-190 | past its checks dup_pg gives the page a private copy; nobody sees a difference, frames stay conserved, and it fails exactly when there is no free frame |
| `UserVm.Vm.DupPg` | initial-xv6/src/kernel/kalloc.c:155-191 | exactly when it returns -1 and -2; in every case what processes see is unchanged and frames are conserved |
| `UserVm.Vm.Walk` | initial-xv6/src/kernel/vm.c:84-105 | finds or makes the page-table pages on the way to a page, exactly those missing and exactly if there are frames for them; no mapping and no view changes |
| `UserVm.Vm.MapPage` | initial-xv6/src/kernel/vm.c:143-166 | a mapping added to an unmapped page, or failure with at most new page-table pages |
| `UserVm.Vm.WalkAddr` | initial-xv6/src/kernel/vm.c:111-128 | the frame of a valid user page, and none otherwise |
| `UserVm.Vm.CopyoutPage` | initial-xv6/src/kernel/vm.c:396-411 | the chunk is written, in the one process's view, exactly if the page can be written: not page 0, a user page, and a frame for a copy if it is COW; otherwise nothing changes |
| `UserVm.Vm.Copyout` | initial-xv6/src/kernel/vm.c:392-416 | exactly the first done bytes are written, to the one process only; done is determined beforehand by the pages and the free frames, -1 is returned exactly if it falls short, and to page 0 nothing can be written |
| `UserVm.Vm.Copyin` | initial-xv6/src/kernel/vm.c:421-441 | the bytes that the process sees, stopping only at a page it cannot read; nothing changes |
| `UserVm.Vm.Uvmunmap` | initial-xv6/src/kernel/vm.c:171-194 | exactly the range is unmapped, with frames conserved |
| `UserVm.Vm.Uvmdealloc` | initial-xv6/src/kernel/vm.c:260-272 | exactly the whole pages above the new size are unmapped; the size returned |
| `UserVm.Vm.Uvmalloc` | initial-xv6/src/kernel/vm.c:227-253 | zeroed pages with the permissions asked for exactly in the range, exactly if there are frames for them and for the page-table pages missing on the way; otherwise 0, with nothing new mapped and every other frame taken given back |
| `UserVm.Vm.CowPage` | initial-xv6/src/kernel/kalloc.c:126-149 | one page shared, with its count, or a failure that shows nowhere |
| `UserVm.Vm.Uvmcowpy` | initial-xv6/src/kernel/vm.c:350-375 | exactly if there are frames for the child's page tables, the child sees the parent's bytes and both have the pages COW; otherwise the child has no page, all views are as before, and the parent's first pages stay marked |
| `UserVm.Vm.StoreByte` | initial-xv6/src/kernel/trap.c:65-80 | a user store, by way of a fault if need be, changes one byte of one process; exactly when it succeeds |
| `UserVm.Vm.LoadByte` | initial-xv6/src/kernel/riscv.h:341-346 | a user load gets the byte that the process sees, exactly if the page is a user page that may be read |
| `UserVm.Vm.FetchByte` | initial-xv6/src/kernel/riscv.h:341-346 | the same of an instruction fetch, if the page may be executed |
| `UserVm.Vm.Uvmclear` | initial-xv6/src/kernel/vm.c:379-387 | the page is no longer the user's; nothing else changes |
| `UserVm.Vm.ProcPagetable` | initial-xv6/src/kernel/proc.c:200-231 | a root and the page-table pages for the trampoline and trapframe, exactly if three frames are free; otherwise all that was taken is given back |
| `UserVm.Vm.Uvmcreate` | initial-xv6/src/kernel/vm.c:199-207 | an empty page table, or failure exactly when there is no frame |
| `UserVm.Vm.Freewalk` | initial-xv6/src/kernel/vm.c:276-295 | every page-table page of the process goes back to the free list, once, children before parents |
| `UserVm.Vm.constructor` | initial-xv6/src/kernel/kalloc.c:38-53 | kinit frees each frame of the pool once and the invariant holds |
| `UserPages.ReadsBackWrite` | initial-xv6/src/kernel/vm.c:392-441 | a process reads back the bytes that were copied out to it |
| `CowMemory.PrivatiseKeeps` | initial-xv6/src/kernel/kalloc.c:178-190 | replacing a shared frame by a private copy keeps conservation and every view |
| `CowMemory.ShareKeeps` | initial-xv6/src/kernel/kalloc.c:126-149 | one more mapping and one more count keep conservation |
| `CowMemory.FlagKeeps` | initial-xv6/src/kernel/vm.c:350-375 | changing the flags of a PTE, as clearing W and setting COW, keeps conservation and every view |
| `CowMemory.UnmapKeeps` | initial-xv6/src/kernel/vm.c:171-194 | kfree and the clearing of a PTE keep conservation, whether or not the frame was shared |
| `CowMemory.StoreKeeps` | initial-xv6/src/kernel/vm.c:392-416 | writing through a mapping that is not shared changes the view of that page only |
| `CowMemory.FramesCounted` | initial-xv6/src/kernel/kalloc.c:59-191 | free frames, page-table pages, frames held by the kernel and distinct mapped frames add up to the memory |
| `KfreeSteps.QuietConservation` | initial-xv6/src/kernel/kalloc.c:59-191 | in every interleaving of the lock-delimited steps of kfree, kalloc, cowmappage, dup_pg and uvmunmap: whenever no thread is inside them, each frame is free once and unmapped, or held by the kernel with count 0, or mapped by exactly count + 1 PTEs |
| `KfreeSteps.KfreeSafe` | initial-xv6/src/kernel/kalloc.c:59-102 | the panic on a negative count is unreachable, the frame that kfree is about to push is nowhere else, and kalloc never takes a frame that is still counted on |
| `KfreeSteps.RunInv` | initial-xv6/src/kernel/kalloc.c:59-191 | the claims on each frame, of PTEs and of threads between two locks, stay exact over every run |
| `KfreeSteps.StepInv` | initial-xv6/src/kernel/vm.c:171-194 | one step keeps them, also between kfree and the clearing of the PTE |
| `Sv39.PxInjective` | initial-xv6/src/kernel/riscv.h:356-358 | below MAXVA the three indices together determine the page |
| `Sv39.PxSurjective` | initial-xv6/src/kernel/riscv.h:356-364 | every triple of indices with the first below 256 is that of a page below MAXVA |
| `Sv39.PteRoundTrip` | initial-xv6/src/kernel/riscv.h:349-353 | PTE2PA undoes PA2PTE under any flags, and the flags come back |
| `Sv39.ExtendFlat` | initial-xv6/src/kernel/vm.c:84-105 | adding a page-table page leaves the mapping of every address as it was |
| `Sv39.WriteFlat` | initial-xv6/src/kernel/vm.c:143-194 | writing a PTE changes the mapping of its page and of no other |
| `Sv39.PageTable.Walk` | initial-xv6/src/kernel/vm.c:84-105 | the slot that the tree has for the address; no mapping changes even when pages are added; with alloc exactly the page-table pages missing on the way are added, and it fails exactly if there are too few free; without alloc nothing changes |
| `Sv39.PageTable.MapPages` | initial-xv6/src/kernel/vm.c:143-166 | the flat map gains exactly the range, or on failure exactly the first part of it |
| `Sv39.PageTable.Uvmunmap` | initial-xv6/src/kernel/vm.c:171-194 | the flat map loses exactly the range, and the addresses given up are the ones that were mapped, in order |
| `Sv39.PageTable.FreeWalk` | initial-xv6/src/kernel/vm.c:276-295 | every page at or below the given one is freed exactly once, no other |
| `Sv39.PageTable.FreeTree` | initial-xv6/src/kernel/vm.c:276-304 | with no mapping left, every page-table page is freed exactly once and the rest of memory is untouched |
| `Sv39.NoLeaves` | initial-xv6/src/kernel/vm.c:284-294 | with no mapping left, the panic of freewalk at a leaf is unreachable |
| `Sv39.UnmapUndoesMap` | initial-xv6/src/kernel/vm.c:143-194 | unmapping what was just mapped returns the frames in order and restores the map |
| `PageTrees.SameAnswer` | initial-xv6/src/kernel/vm.c:84-105 | the descent through the words of a tree finds a slot exactly when module UserVm's page-table pages of the process have the path |
| `PageTrees.SameCost` | initial-xv6/src/kernel/vm.c:84-105 | walk misses as many page-table pages in one as in the other, and after adding them both are the same tree again |
| `PageTrees.PlacesApart` | initial-xv6/src/kernel/riscv.h:356-358 | no two places of a tree are one page-table page |
| `Umalloc.Allocator.Free` | initial-xv6/src/user/umalloc.c:25-44 | the block is on the free list again, merged with both neighbours; the list stays one address-ordered cycle with no two adjacent blocks, and no live block changes |
| `Umalloc.Allocator.Morecore` | initial-xv6/src/user/umalloc.c:47-61 | at least nu units, no fewer than 4096, become free, or nothing changes; afterwards a block is big enough |
| `Umalloc.Allocator.Carve` | initial-xv6/src/user/umalloc.c:75-84 | exactly n units become live, from the end of the block if it is larger; live blocks do not change |
| `Umalloc.Allocator.Init` | initial-xv6/src/user/umalloc.c:70-73 | the degenerate list satisfies the invariant |
| `Umalloc.Allocator.Malloc` | initial-xv6/src/user/umalloc.c:64-90 | a live block of the right size that was free or fresh, or none exactly when nothing fits and sbrk fails; sbrk is asked at most once and the loop terminates |
| `Umalloc.Allocator.constructor` | initial-xv6/src/user/umalloc.c:21-22 | nothing is allocated yet |
| `Umalloc.OneCycle` | initial-xv6/src/user/umalloc.c:25-44 | following the links from base visits every free block once, in address order, and comes back |
| `Umalloc.UnitsConserved` | initial-xv6/src/user/umalloc.c:25-90 | the sizes of the free and the live blocks add up to what sbrk gave |
| `Umalloc.BlocksDisjoint` | initial-xv6/src/user/umalloc.c:25-90 | no two blocks, free or live, share a unit |
| `Umalloc.ReleaseKeeps` | initial-xv6/src/user/umalloc.c:33-42 | inserting and merging keeps the heap invariant |
| `Umalloc.TakeKeeps` | initial-xv6/src/user/umalloc.c:76-77 | unlinking a block of exact size keeps it |
| `Umalloc.SplitKeeps` | initial-xv6/src/user/umalloc.c:78-82 | taking the tail of a larger block keeps it |
| `Umalloc.GrowKeeps` | initial-xv6/src/user/umalloc.c:53-60 | a fresh block at or above the break keeps it |
| `SleepWakeup.NoLostWakeup` | initial-xv6/src/kernel/proc.c:674-720 | in every interleaving where the condition's lock is held at the check, and whoever makes it hold calls wakeup before letting go or finds nobody waiting: a process asleep on a channel whose condition holds will be visited by a wakeup that the holder of the lock is running or owes; so when the lock is free the condition does not hold |
| `SleepWakeup.StepInv` | initial-xv6/src/kernel/proc.c:674-720 | every step of sleep, wakeup, the scheduler and kill keeps the invariant behind it |
| `SleepWakeup.SleepersWait` | initial-xv6/src/kernel/proc.c:674-720 | of a single state: who is SLEEPING on a channel waits on it, and if its condition holds the holder of the lock is running the wakeup or owes it |
| `SleepWakeup.VisitWakes` | initial-xv6/src/kernel/proc.c:704-720 | the visit makes the sleeper runnable |
| `SleepLock.SleeperMeansHeld` | initial-xv6/src/kernel/sleeplock.c:21-41 | whenever the spinlock is free, a sleeper on the lock sleeps on a lock that is held |
| `SleepLock.MutualExclusion` | initial-xv6/src/kernel/sleeplock.c:21-41 | no two processes are between acquiresleep and releasesleep |
| `SleepLock.HoldingSleepExact` | initial-xv6/src/kernel/sleeplock.c:43-52 | holdingsleep tells exactly whether the caller has the lock |
| `SleepLock.StepDisciplined` | initial-xv6/src/kernel/sleeplock.c:21-41 | the code keeps the rules that NoLostWakeup asks of its callers |
| `SleepLock.StepInv` | initial-xv6/src/kernel/sleeplock.c:21-41 | every step keeps the invariant |
| `Pipe.Fifo` | initial-xv6/src/kernel/pipe.c:76-130 | in every run, kills included, the bytes read are a prefix of the bytes written |
| `Pipe.CountersTell` | initial-xv6/src/kernel/pipe.c:76-130 | the counters, though they wrap around, tell an empty ring and a full one |
| `Pipe.SleepersMustWait` | initial-xv6/src/kernel/pipe.c:58-130 | whenever the lock is free, in a run without a step that strands: a sleeping reader implies an empty pipe with its write end open, a sleeping writer a full one with its read end open |
| `Pipe.CleanIsExact` | initial-xv6/src/kernel/pipe.c:58-130 | the runs in which nobody is ever left stuck with the lock free are exactly those in which no writer gives up owing a wakeup to a waiting reader |
| `Pipe.UncleanStrands` | initial-xv6/src/kernel/pipe.c:84-87 | each such step leaves somebody stuck |
| `Pipe.KillFreeIsClean` | initial-xv6/src/kernel/pipe.c:76-103 | every run without kill is clean |
| `Pipe.GivesUpClean` | initial-xv6/src/kernel/pipe.c:84-87 | a writer that nobody killed gives up only when the read end is closed, and owes no wakeup |
| `Pipe.GivingUpStrands` | initial-xv6/src/kernel/pipe.c:84-87 | a writer that gives up strands a reader if and only if it has put bytes in since its last wakeup and a reader waits |
| `Pipe.KillStrandsReader` | initial-xv6/src/kernel/pipe.c:76-103 | a reachable run in which a killed writer leaves a reader asleep on a pipe with a byte in it |
| `Pipe.StepDisciplined` | initial-xv6/src/kernel/pipe.c:58-130 | the code keeps the rules of sleep and wakeup except where a killed writer gives up on a waiting reader |
| `Pipe.StepInv` | initial-xv6/src/kernel/pipe.c:58-130 | every step keeps the invariant |
| `Scheduler.RunningIffOneCpu` | initial-xv6/src/kernel/proc.c:509-649 | in every interleaving on any number of CPUs, when p->lock is free p is RUNNING if and only if exactly one CPU has c->proc == p |
| `Scheduler.OneStackOneCpu` | initial-xv6/src/kernel/proc.c:622-649 | no two CPUs are ever on the same kernel stack |
| `Scheduler.RecheckStopsSecond` | initial-xv6/src/kernel/proc.c:509-530 | of two scans that picked the same process only one runs it |
| `Scheduler.ReapedIsOffCpu` | initial-xv6/src/kernel/proc.c:419-469 | a zombie that wait finds is on no CPU's stack and bound to none |
| `Scheduler.SchedHoldsLock` | initial-xv6/src/kernel/proc.c:622-639 | the panic "sched p->lock" is unreachable, and "sched locks" as far as process locks go: the CPU holds the lock of the process it gives up, which was RUNNING on it, and no other process's |
| `Scheduler.StepInv` | initial-xv6/src/kernel/proc.c:373-649 | every step keeps the invariant |
| `Priority.Table.Select` | initial-xv6/src/kernel/proc.c:478-613 | on a table stable during the scan, the RUNNABLE process that is least by SP, times scheduled, creation time and index; none exactly when none is RUNNABLE |
| `Priority.SelectedUnique` | initial-xv6/src/kernel/proc.c:478-499 | there is exactly one such process |
| `Priority.RbiExact` | initial-xv6/src/kernel/proc.c:941-951 | the index is 0, 50 or 100, and which one by how the running time compares with the rest |
| `Priority.RbiMeetsDocument` | README.md:43-45 | the code agrees with the documented formula if and only if the condition stated on the times holds |
| `Priority.RbiMissesDocument` | README.md:43-45 | one tick of running: the document says 75, the code 50 |
| `Priority.UpdateDpExact` | initial-xv6/src/kernel/proc.c:953-960 | the dynamic priority that results, never above 100 |
| `Priority.EndedExact` | initial-xv6/src/kernel/proc.c:509-530 | what a time slice leaves in the process, within bounds |
| `Priority.PrioritiesBounded` | initial-xv6/src/kernel/proc.c:941-960 | in every run, SP stays in 0 to 100 and the index is 0, 50 or 100 |
| `Priority.SpNeverFalls` | initial-xv6/src/kernel/proc.c:509-530 | over any stretch in which nobody sets its priority, a live process's SP never falls |
| `Priority.StepKeepsSp` | initial-xv6/src/kernel/sysproc.c:112-144 | only setpriority, or reuse of the slot, lowers SP |
| `Priority.StepInv` | initial-xv6/src/kernel/proc.c:883-960 | every step keeps the bounds |
| `Priority.Table.UpdateTime` | initial-xv6/src/kernel/proc.c:883-911 | each process gains a tick in the counter of its state |
| `Priority.Table.BeginSlice` | initial-xv6/src/kernel/proc.c:509-521 | only a process still RUNNABLE is run, with its counters reset |
| `Priority.Table.EndSlice` | initial-xv6/src/kernel/proc.c:521-530 | the priorities are recomputed from the slice |
| `Priority.Table.SetPriority` | initial-xv6/src/kernel/sysproc.c:112-144 | the first process with the pid gets the priority; the old one, -1 or 999999999 is returned, and whether it yields |
| `Grep.Match` | initial-xv6/src/user/grep.c:72-81 | true if and only if some position of the text, only the first under a leading ^, has a prefix in the declarative language of the pattern |
| `Grep.MatchHere` | initial-xv6/src/user/grep.c:84-95 | true if and only if a prefix of the text is in that language |
| `Grep.MatchStar` | initial-xv6/src/user/grep.c:98-105 | true if and only if some run of the character followed by the rest of the pattern is a prefix |
| `Grep.AcceptsOne` | initial-xv6/src/user/grep.c:92-93 | a leading literal or dot, unfolded |
| `Grep.AcceptsStar` | initial-xv6/src/user/grep.c:98-105 | a leading starred character, unfolded to the number of repetitions |
| `BufferCache.Cache.constructor` | initial-xv6/src/kernel/bio.c:37-53 | binit links the head and all NBUF buffers in one ring |
| `BufferCache.Cache.Bget` | initial-xv6/src/kernel/bio.c:59-89 | a cached block gains a reference; another takes the least recently used free buffer and is invalid; none exactly when all are in use. No two buffers get the same block and the ring is kept |
| `BufferCache.Cache.Lookup` | initial-xv6/src/kernel/bio.c:65-73 | the buffer of the block, if any has it |
| `BufferCache.Cache.FindVictim` | initial-xv6/src/kernel/bio.c:75-87 | the unreferenced buffer nearest the tail of the list, if there is one |
| `BufferCache.Cache.Brelse` | initial-xv6/src/kernel/bio.c:117-137 | one reference fewer; at the last the buffer moves to the front and the others keep their order |
| `BufferCache.Cache.Bpin` | initial-xv6/src/kernel/bio.c:140-144 | one reference more, and nothing else |
| `BufferCache.Cache.Bunpin` | initial-xv6/src/kernel/bio.c:147-151 | one reference fewer, and the buffer keeps its place |
| `BufferCache.UnlinkRing` | initial-xv6/src/kernel/bio.c:125-129 | taking a buffer out leaves a ring of the others in order |
| `BufferCache.PushRing` | initial-xv6/src/kernel/bio.c:130-133 | putting it behind the head gives the ring with it first |
| `BufferCache.OneCycle` | initial-xv6/src/kernel/bio.c:37-53 | following next visits every buffer once and returns to the head |
| `Virtio.ExactlyOnce` | initial-xv6/src/kernel/virtio_disk.c:216-327 | between the start and the return of a call of virtio_disk_rw the device has carried out its request exactly once, and the block has been copied in the right direction between the right places |
| `Virtio.DescriptorsPartition` | initial-xv6/src/kernel/virtio_disk.c:156-213 | in every run of driver and device, each descriptor is free or in exactly one chain of three, and at most two requests exist |
| `Virtio.NoOverwrite` | initial-xv6/src/kernel/virtio_disk.c:268-327 | no entry of either ring is overwritten before it has been read |
| `Virtio.InterruptSafe` | initial-xv6/src/kernel/virtio_disk.c:295-327 | every used entry has a status of 0 and a buffer with a caller; the handler never panics |
| `Virtio.FreeChainSafe` | initial-xv6/src/kernel/virtio_disk.c:170-197 | free_chain frees exactly the three descriptors of the request, none of them free already; free_desc never panics |
| `Virtio.DeviceReads` | initial-xv6/src/kernel/virtio_disk.c:235-268 | following the chain the device finds the request's own header, buffer and status byte |
| `Virtio.CompleteDoes` | initial-xv6/src/kernel/virtio_disk.c:235-268 | the device moves one block, in the direction asked for |
| `Virtio.RingsFit` | initial-xv6/src/kernel/virtio_disk.c:268-327 | neither ring ever holds more than two unread entries |
| `Virtio.IndexFacts` | initial-xv6/src/kernel/virtio_disk.c:268-327 | the 16-bit indices, though they wrap around, select the right slots and tell whether there are entries |
| `Virtio.StepInv` | initial-xv6/src/kernel/virtio_disk.c:216-327 | every step of driver and device keeps the invariant |
| `Virtio.Pool.AllocDesc` | initial-xv6/src/kernel/virtio_disk.c:157-166 | the lowest free descriptor, or -1 exactly when there is none |
| `Virtio.Pool.FreeDesc` | initial-xv6/src/kernel/virtio_disk.c:170-182 | one descriptor becomes free |
| `Virtio.Pool.FreeChain` | initial-xv6/src/kernel/virtio_disk.c:186-197 | exactly the chain becomes free |
| `Virtio.Pool.Alloc3` | initial-xv6/src/kernel/virtio_disk.c:202-213 | three different descriptors that were free, or the pool as it was, exactly when there are fewer |
| `FileBlocks.Disk.Balloc` | initial-xv6/src/kernel/fs.c:66-88 | the lowest free block, zeroed and marked; 0 exactly when none is free |
| `FileBlocks.Disk.Bfree` | initial-xv6/src/kernel/fs.c:92-105 | one bit cleared, and its bitmap block logged |
| `FileBlocks.Disk.Bmap` | initial-xv6/src/kernel/fs.c:383-421 | the block of the file, allocated if need be; every block in use stays in exactly one place; what is logged and allocated is bounded |
| `FileBlocks.Disk.Itrunc` | initial-xv6/src/kernel/fs.c:426-453 | every block of the file is freed once, so the panic in bfree is unreachable; no other file loses one |
| `FileBlocks.BmapFacts` | initial-xv6/src/kernel/fs.c:383-421 | bmap changes no block number that was set, no other file and no contents in use; a new block is zero and was free; 0 only if the disk is full |
| `FileBlocks.GivenKeeps` | initial-xv6/src/kernel/fs.c:383-421 | entering a free block in an empty slot, direct or indirect, keeps ownership exact |
| `FileBlocks.OverwrittenKeeps` | initial-xv6/src/kernel/fs.c:505-539 | overwriting a data block keeps it |
| `FileBlocks.TruncatedKeeps` | initial-xv6/src/kernel/fs.c:426-453 | truncation keeps it |
| `FileBlocks.DropOne` | initial-xv6/src/kernel/fs.c:426-453 | each slot holds a block that is still in use when it is freed |
| `FileBlocks.BlocksConserved` | initial-xv6/src/kernel/fs.c:65-105 | free and owned data blocks add up to the disk, and a block is free if and only if no slot holds it |
| `FileBlocks.RefsDiffer` | initial-xv6/src/kernel/fs.c:382-421 | no two slots, of the same file or of two, hold the same block |
| `FileBlocks.WordPut` | initial-xv6/src/kernel/fs.c:404-417 | a block number written to the bytes of an indirect block is read back, and no other changes |
| `FileData.Readi` | initial-xv6/src/kernel/fs.c:472-496 | the bytes of the file from off on, as many as were asked for and there are; -1 exactly when the destination is too short; nothing is allocated, changed or logged |
| `FileData.Writei` | initial-xv6/src/kernel/fs.c:506-539 | -1 and nothing changed exactly when the range is refused; otherwise the file is its old bytes overlaid with those written, fewer than asked for only if the disk is full or the source unreadable; other files keep their contents, no hole arises, and what is logged is bounded |
| `FileData.WriteTransaction` | initial-xv6/src/kernel/file.c:157-167 | whatever the offset, one chunk logs at most MAXOPBLOCKS blocks, and at most 7 with a single bitmap block |
| `FileData.FileWrite` | initial-xv6/src/kernel/file.c:135-181 | n only with all n bytes in the file; -1 only if the write is hopeless or the disk full; hopeless ones always -1, with the offset moved and the bytes in the file exactly as stated unless the disk filled up, which more than four free blocks a chunk exclude; in each case what the offset has moved over is written |
| `FileData.MovedAtAll` | initial-xv6/src/kernel/file.c:149-176 | the offset moves at all if and only if the first chunk fits in a file and the source reaches to the end of the write or of the first block |
| `FileData.StopsThere` | initial-xv6/src/kernel/file.c:149-176 | at which chunk filewrite stops, and how much of that one counts |
| `FileData.WriteFresh` | initial-xv6/src/kernel/file.c:135-181 | a write to an empty file on an empty disk that is large enough: exactly what it returns and where the offset ends |
| `FileData.FailsAfterMoving` | initial-xv6/src/kernel/file.c:135-181 | two such writes that return -1 with the offset at 3072 and at 273408 |
| `FileData.Run` | initial-xv6/src/kernel/fs.c:382-539 | over any sequence of reads, writes and truncations of any files, results and contents are those of a machine of byte sequences without blocks, and no data block is lost |
| `FileData.Do` | initial-xv6/src/kernel/fs.c:382-539 | one operation of such a run |
| `FileData.ReadBack` | initial-xv6/src/kernel/fs.c:471-539 | what was written is what is read |
| `FileData.WriteDone` | initial-xv6/src/kernel/fs.c:530-538 | the finished loop and the new size give the overlaid file, no holes and unchanged other files |
| `FileData.BmapPartial` | initial-xv6/src/kernel/fs.c:516-521 | allocating in the middle of a write disturbs nothing written so far |
| `FileData.StoredPartial` | initial-xv6/src/kernel/fs.c:520-527 | storing one chunk adds exactly its bytes |
| `FileData.TruncatedContents` | initial-xv6/src/kernel/fs.c:426-453 | truncation empties one file and leaves the contents of the others |
| `FileData.FirstMapped` | initial-xv6/src/kernel/fs.c:505-521 | a write that starts inside a block finds that block there, since files have no holes |
| `FileData.FormattedWf` | initial-xv6/src/kernel/fs.c:382-453 | a disk on which no file has a block, with exactly the metadata marked in use, satisfies the invariant |
| `FileData.ChunkBound` | initial-xv6/src/kernel/file.c:149-160 | the arithmetic of the chunk size, for any offset |

## Left out

- Boot, traps, assembly, the UART, PLIC and console, printf: register plumbing. A context switch is a step, a store fault a call of dup_pg.
- virtio_disk_init: a fixed sequence of register writes. The device is modelled as OASIS Virtio 1.1, sections 2.6 and 5.2, prescribes.
- exec's reading of the program file; its mappings are operations of ForkRuns. System call dispatch and argument fetching, the shell and the other user programs.
- Directories, path names, link counts, the inode cache and its locks, ialloc and iput.
- spinlock.c: push_off and pop_off nest interrupt disabling, which would only add easy members. A spinlock is a field that one process or CPU at a time can hold.
- TLBs, fences and weak memory: what a lock protects is one step.
- The round-robin scheduler's choice of process. Module Scheduler covers any choice, so its results hold for round robin too.
- uvmfirst and copyinstr, which add nothing to uvmalloc and copyin.
- UserVm.Vm.StoreByte: a fault that dup_pg answers with 0 or -2 without making the page writable is retried by the hardware for ever; the model reports it once as a failed store.
- UserVm.Vm.ProcPagetable: the PTEs of the trampoline and the trapframe are not among the user mappings; the frames of their page tables are.
- ForkRuns.Processes.DoFork: the trapframe's contents, the file table and the parent links are not modelled, only the memory.
- ForkRuns.Processes.Run: a child without its pages is taken to do nothing but exit, since it cannot fetch its first instruction; nothing is said after a panic. At most 2^15 frames, which is all that the memory below PHYSTOP has.
- EagerFork.AgreesExact: the reference machine never runs out of memory; reads by the kernel are Load.
- LogRuns.NextRefines: a process holds at most one pointer to a given buffer at a time, and passes what it modifies to log_write before brelse and end_op. The file system does so but for writei when a copy fails half way (fs.c:522-525): runs in which that happens are excluded.
- LogRuns.ReservationHolds: asks that each operation adds at most MAXOPBLOCKS blocks, which begin_op assumes of its callers.
- RedoLog.CrashSafety: one block is written atomically, and a torn write within a block is not modelled.
- BufferCache.Cache.Bget: the sleep lock and the contents of a buffer are in LogRuns; several processes in bget are serialised by bcache.lock.
- Umalloc.Allocator.Malloc: sizes do not overflow, sbrk answers at or above the previous break, and its int argument is not truncated.
- Umalloc.Allocator.Free: the argument is a live block; the source detects no other.
- Pipe.SleepersMustWait: pipeclose of an end happens only when no call is using that end, which the reference counts of file.c see to.
- Priority.PrioritiesBounded: tick counts stay below 2^28, and a clock tick over the whole table is one step.
- Priority.Table.Select: the table does not change during the scan, during which the source holds one process's lock at a time.
- FileBlocks.Disk.Balloc: the bitmap is a sequence of bits, without the masks within a byte.
- FileData.Writei: what a failed copy leaves in the cached block counts as contents of the file; that it is lost if the buffer is recycled is not modelled.
- FileData.FileWrite: other writers to the same file between two chunks are not modelled; `FileData.WriteTransaction` holds of each chunk in any state. Pipes and devices are not covered.
- FileData.Run: directories and inode allocation are not among the operations.
- Virtio.ExactlyOnce: the device answers every request with status 0; termination, that it answers at all, is not claimed.
- SleepWakeup.NoLostWakeup: safety only; that a woken process is eventually scheduled is not claimed.
- Grep.Match: the text has no embedded NUL, and the buffer handling of grep is not modelled.
