# A verified model of xv6 with shared memory

This project models the parts of this xv6 (RISC-V) repository where global state is changed by small
steps under locks, and proves what those steps keep. `dafny verify dfyconfig.toml` verifies all of it.

| files | component |
|---|---|
| `WriteAheadLog.dfy`, `LogProtocol.dfy`, `LogGuard.dfy`, `LogProgress.dfy` | the redo log and its crash recovery; cache, log and disk under every interleaving; when `log_write` can panic; that what is logged can always be committed |
| `Lru.dfy` | the buffer list |
| `FileSys.dfy`, `InodeOps.dfy` | bitmap, block maps, inode contents, the chunks of `filewrite` |
| `PageTable.dfy`, `Vm.dfy`, `UserCopy.dfy` | Sv39 page tables, the page allocator, address spaces, copies to and from user memory |
| `SleepLock.dfy`, `SleepProgress.dfy` | sleep locks, sleep and wakeup; that the lock can always be got |
| `ExitWait.dfy`, `ExitProgress.dfy` | fork, exit and wait; that a child can always be reaped |
| `Shmem.dfy`, `ShmemTable.dfy` | the shared pages |
| `Umalloc.dfy`, `Grep.dfy` | the user allocator; grep |
| `Virtio.dfy` | the disk queue |
| `Pipe.dfy`, `PipeWake.dfy`, `PipeProgress.dfy` | the bytes of a pipe; who sleeps on it; that a call can always be ended |
| `Bytes.dfy`, `Common.dfy` | little-endian words, bits, `Option` |

Code that updates structures in place is a class whose methods follow the C functions and are proved
against specification functions and invariants; ghost fields hold the bookkeeping the C code does not
have (the contents of a list in order, the role of every page, the owner of every block, the history of a
pipe). Where the result must hold for all interleavings, the code between two lock operations is a step
of a state machine, and the theorems are about every finite sequence of steps; those of the progress modules
say what can still be reached from every state of every such run. A panic is a result value
where a caller can cause it, and otherwise shown not to be reached.

Modelling conventions:

- The disk writes one block atomically and in order. A crash can happen between any two block writes.
- Spin locks are atomic. A critical section of one lock that touches nothing else is one step.
- Shifts and masks are written as division and remainder. Wrap-around is written out where counters wrap
  (`Pipe`, `Virtio`), where `uint` sums are compared (`readi`, `writei`) and where `sbrk` takes an `int`;
  pids, reference counts and times are unbounded.
- Results of the environment are parameters: what `sbrk` returns, how `read` splits a file, which request
  the device completes, what other processes do to a pipe during a sleep, whether a copy fails.
- Kernel structures that the C code reaches by pointer (page-table entries, headers of `umalloc`, list
  links) are maps or sequences indexed by address or number, updated in the order of the C statements.

## Where a stated or expected property needs a condition

- `log_write` compares with the size of the log area less one, while `begin_op` reserves LOGSIZE blocks,
  and mkfs makes the area LOGSIZE blocks long (mkfs/mkfs.c:25). `LogGuard.NeverPanicsIff` gives the exact
  condition on the area. The check is also made before absorption: `LogGuard.AbsorbableWriteCanPanic` is a run
  in which a block already recorded is refused, `LogGuard.LogWritePassesIff` says when a call goes through.
- `exec` changes `top_pid`, even if it then fails, but keeps access to shared pages. `Shmem.ExecCanLosePage` and
  `Shmem.ExecCanLeak` show what then goes wrong; `Shmem.OneGroupAtATime`, `Shmem.ContentsOfOneGroup`,
  `Shmem.LoadOwnIff` and `Shmem.LastExitClearsIff` give the exact conditions for one group of holders, for its
  contents, for what a load returns, and for the last exit to clear the page. `Shmem.FailedExecLooksTop` shows
  that `is_top_parent_process` does not tell images loaded by exec from forked ones.
  The pages are not zeroed at boot (kernel/main.c:31-33), so a read may also return what was there then.
- `malloc` passes its request through `sbrk`'s `int` parameter: `Umalloc.SbrkArgument` gives the exact bound.
- `grep` gets no further than a line that does not fit its buffer or has a NUL in it: `Grep.MissesLines` is a file
  on which it misses lines, `Grep.PrintsWantedIff` says exactly when nothing is missed.
- `writei` does not log the block in which copying from the user fails, but the bytes before the failure are in
  its buffer and show as long as it is cached: `InodeOps.ShowsExactly` says exactly when this happens.
- `pipewrite` returns early for a killed writer without waking readers. `PipeWake.StuckReaderIffLost` shows
  that nothing else leaves a reader asleep with bytes to read, `PipeWake.KilledExit` exactly when this exit does,
  `PipeWake.ReaderLeftAsleep` a run in which it happens.
- `copyout` to an address space in which a shared page is mapped more than once can overwrite its own bytes:
  `UserCopy.StoredHoldsIff` says exactly when the user sees what was copied.
- `readi` calls `bmap`, which could allocate. It never does, because files have no holes: `InodeOps.FileSystem.Readi`.

## Model

| member | source | states |
|---|---|---|
| `WriteAheadLog.HeadRoundTrip` | kernel/log.c:86-114 | a header block written by write_head is read back by read_head as the same list of blocks |
| `WriteAheadLog.FillHead` | kernel/log.c:102-112 | the copy loop of write_head produces exactly the encoded header and leaves the rest of the block alone |
| `WriteAheadLog.PartialRecoverStep` | kernel/log.c:68-83 | installing the next logged block of an interrupted recovery is the next step of the same recovery, whatever it has installed so far |
| `WriteAheadLog.RecoverAfterPartial` | kernel/log.c:68-123 | a recovery that starts over after being cut off at any block ends on the same disk as an uninterrupted one |
| `WriteAheadLog.RecoveryIdempotent` | kernel/log.c:68-123 | any number of recoveries cut off anywhere, followed by a complete one, end on the same disk as one complete recovery |
| `WriteAheadLog.UncommittedRecovers` | kernel/log.c:178-203 | as long as the header is empty, recovery yields the old home blocks, whatever is in the log region |
| `WriteAheadLog.CommittedRecovers` | kernel/log.c:178-203 | once the header lists the transaction and the log holds its blocks, recovery yields the new home blocks, however many of them are already installed |
| `WriteAheadLog.CommitAtomic` | kernel/log.c:178-203 | stopping commit after any number of its block writes recovers to the old home blocks up to the first write_head and to the new ones from then on |
| `WriteAheadLog.CommitTraceRecovers` | kernel/log.c:178-203 | the same for every disk on the whole way of commit, for every transaction that fits the log |
| `WriteAheadLog.CommitDone` | kernel/log.c:193-203 | a finished commit leaves an empty header and the new home blocks |
| `WriteAheadLog.RecoverTraceRecovers` | kernel/log.c:68-123 | every disk on the way of a recovery recovers to what the disk recovered to at its start |
| `WriteAheadLog.Log.Bread` | kernel/bio.c:92-103 | the cached copy if there is one, otherwise the block on disk, which is then cached |
| `WriteAheadLog.Log.WriteLogBlock` | kernel/log.c:183-190 | one turn of write_log copies the cached home block to its log block |
| `WriteAheadLog.Log.WriteLog` | kernel/log.c:178-191 | the log region ends up with exactly what the file system has in the cache for the transaction, and home blocks are untouched |
| `WriteAheadLog.Log.WriteHead` | kernel/log.c:102-114 | the header block becomes the encoding of the transaction |
| `WriteAheadLog.Log.InstallBlock` | kernel/log.c:73-82 | one turn of install_trans copies a log block to its home block |
| `WriteAheadLog.Log.InstallTrans` | kernel/log.c:68-83 | every block of the transaction is home, and the cache agrees with the disk again |
| `WriteAheadLog.Log.InstallAndErase` | kernel/log.c:116-123 | install_trans followed by the write of an empty header |
| `WriteAheadLog.Log.CommitBlocks` | kernel/log.c:193-203 | the disk and the sequence of disks produced by a non-empty commit are those of the specification |
| `WriteAheadLog.Log.Commit` | kernel/log.c:193-203 | run while committing keeps new operations out; afterwards the home blocks are what the file system saw before; every disk on the way recovers to old until the first write_head, then to new |
| `WriteAheadLog.Log.ReadHead` | kernel/log.c:86-97 | the in-memory list becomes the one recorded on disk |
| `WriteAheadLog.Log.RecoverFromLog` | kernel/log.c:116-123 | the disk becomes the recovered disk, the header is empty, and every disk on the way recovers to it |
| `WriteAheadLog.Log.FindLogged` | kernel/log.c:225-228 | the index of the block in the list, or the length of the list |
| `WriteAheadLog.Log.LogWrite` | kernel/log.c:214-235 | refuses exactly when one of its two panics would fire; otherwise the block is in the list once (absorption) and the file system sees the new contents of that block and no other change |
| `WriteAheadLog.Log.BeginOp` | kernel/log.c:126-142 | an operation is admitted exactly if no commit is in progress and the reservation fits |
| `WriteAheadLog.Log.EndOp` | kernel/log.c:146-175 | the last operation commits everything logged; an earlier one commits nothing |
| `LogProtocol.SpaceStep` | kernel/log.c:126-235 | every step keeps: blocks in the log plus unspent reservations at most LOGSIZE, and no operation active during a commit |
| `LogProtocol.CrashSafe` | kernel/log.c:178-203 | in every phase of commit and recovery the disk recovers to exactly what must survive |
| `LogProtocol.InvStep` | kernel/log.c:126-235 | every step of every process, the committer, a crash or a recovery keeps the whole invariant and matches a step of the reference map |
| `LogProtocol.ReadsSeeLastLoggedWrite` | kernel/bio.c:58-103 | in every run, a process that holds a buffer and has not changed it sees the last logged write of that block |
| `LogProtocol.LoggedBlocksStayPinned` | kernel/log.c:214-235 | in every run, a block recorded by log_write stays cached and unchanged until install_trans has installed it, so write_log copies what the operations wrote |
| `LogProtocol.CrashAtomicity` | kernel/log.c:116-203 | after any run, the disk recovers to all the writes of the committed operations and none of the others |
| `LogProtocol.CommittedWhenIdle` | kernel/log.c:146-175 | in every run, whenever no operation is active and no commit or recovery is running, the log is empty and everything the operations have logged is among what survives a crash |
| `LogProgress.AllCanCommit` | kernel/log.c:126-203 | from every state of every run, if every change made so far is logged, some schedule without a new operation or a crash makes everything logged so far durable and empties the log |
| `LogProgress.OperationCanCommit` | kernel/log.c:126-235 | from every state of every run in which every change is logged, any process can run an operation that writes any list of up to MAXOPBLOCKS blocks that fits the log area, and end with exactly these writes, on top of all earlier ones, durable and the log empty |
| `LogProgress.ReadCanSee` | kernel/bio.c:58-137 | from every such state without a commit running, any process can read any block and sees what was last logged, also if its buffer is recycled before |
| `LogProtocol.LogSpace` | kernel/log.c:126-235 | in every run the log never holds more than LOGSIZE blocks and no operation is active during a commit |
| `LogGuard.NeverPanicsIff` | kernel/log.c:220-223 | log_write never panics on an operation with budget left, in any run, if and only if the log area is larger than LOGSIZE blocks |
| `LogGuard.AbsorbableWriteCanPanic` | kernel/log.c:220-228 | for every log of two blocks or more, mkfs's included, there is a run in which log_write panics on a block that it would only absorb |
| `LogGuard.LogWritePassesIff` | kernel/log.c:220-223 | in every run, log_write by a process inside an operation goes through exactly while fewer than LOGSIZE blocks, and fewer than the area holds, are recorded; with a larger area it refuses only once all reservations are spent |
| `Shmem.UsersExact` | kernel/proc.c:332-338 | in every run numberofusers is the number of live processes with access, and a page that is NOT_SET has no holder |
| `Shmem.ChecksStayTrue` | kernel/proc.c:837-897 | the unlocked checks of write and read are still true when the access is made, in every interleaving |
| `Shmem.TopParentIsExec` | kernel/proc.c:718-725 | in every run is_top_parent_process is true exactly for a process that has called exec since it was forked, whether or not exec succeeded |
| `Shmem.AccessLaw` | kernel/proc.c:780-954 | after a step a process has access exactly if the step grants it (it sets or acquires the page, or is forked by a holder), or it had it and neither releases it nor exits |
| `Shmem.OpenedLaw` | kernel/proc.c:780-834 | in every run the page is open as the last call that set it says, for the exec group of the last call that set or initialised it, and NOT_SET without an owner if it was given back since |
| `Shmem.MemoryLaw` | kernel/proc.c:820-897 | in every run each element holds the last value stored there since the page was given back, zero if there is none since, and the contents at boot if it never was |
| `Shmem.WriteThenRead` | kernel/proc.c:837-897 | in every run a holder of a WRITABLE page can write any element, and a read then returns the value and changes nothing |
| `Shmem.UnwritableRefuses` | kernel/proc.c:801-861 | in every run, from shmem_set_unwritable until the page is given back it stays UNWRITABLE, no write gets past its check and none is in progress |
| `Shmem.FailedExecLooksTop` | kernel/exec.c:35-42 | a run in which it is true for an image made by fork, because top_pid is set before exec fails |
| `Shmem.UnwritableIsConstant` | kernel/proc.c:801-861 | an UNWRITABLE page keeps its contents from the moment it is set until it is given back |
| `Shmem.OneGroupAtATime` | kernel/proc.c:900-954 | every holder has the top_pid recorded in the page, in every state of a run, if and only if every exec by a holder is by the process with the recorded pid; then a page without users is NOT_SET |
| `Shmem.ContentsOfOneGroup` | kernel/proc.c:837-861 | the contents written since the page was cleared are the recorded group's, in every state of a run, if and only if no store is by a process of another group |
| `Shmem.LoadOwnIff` | kernel/proc.c:864-897 | then a load of a written element returns data of the reader's own group if and only if the reader is in the recorded group, and of any other element zero or the contents at boot |
| `Shmem.NoLeakBetweenGroups` | kernel/proc.c:864-954 | under the condition of OneGroupAtATime a read returns what the own exec group wrote since the page was cleared, zero, or the contents at boot |
| `Shmem.LastExitClearsIff` | kernel/proc.c:394-408 | when the last holder exits, the page is given back and zeroed exactly if its top_pid is still the one recorded in the page |
| `Shmem.ExecCanLosePage` | kernel/exec.c:35 | a holder that execs and exits leaves the page set with no users |
| `Shmem.ExecCanLeak` | kernel/exec.c:35 | with an exec in between, one exec group can read what another one wrote |
| `ShmemTable.Table.constructor` | kernel/proc.c:964-972 | at boot every page is in the initial state of the page machine |
| `ShmemTable.Table.Set` | kernel/proc.c:780-817 | succeeds exactly if the page is NOT_SET and not in use by another exec group; then it has the state asked for, the caller holds it, the contents stay, it is one step of the page machine on that page and nothing else changes |
| `ShmemTable.Table.SetInit` | kernel/proc.c:820-834 | stores the value in a page that is NOT_SET and not in use by another exec group, and records the own group; otherwise it panics and nothing changes |
| `ShmemTable.Table.WriteInt` | kernel/proc.c:837-861 | checks and stores as the two steps of the page machine |
| `ShmemTable.Table.ReadInt` | kernel/proc.c:864-897 | checks and loads as the two steps of the page machine; it changes nothing |
| `ShmemTable.Table.Acquire` | kernel/proc.c:900-922 | succeeds exactly if the page is set, not held yet and the recorded group is the caller\'s; then the caller holds it, and it is one step of the page machine on that page and nothing else changes |
| `ShmemTable.Table.Release` | kernel/proc.c:925-954 | one step of the page machine, the last user clearing the page |
| `ShmemTable.Table.Fork` | kernel/proc.c:332-338 | one fork step on every page: the child has the parent's access and every such page counts one more user |
| `ShmemTable.Table.Exit` | kernel/proc.c:394-408 | one exit step on every page |
| `PageTable.PteRoundTrip` | kernel/riscv.h:347-352 | PA2PTE and PTE2PA undo each other on page addresses and leave the flags alone |
| `PageTable.PrefixStep` | kernel/riscv.h:354-357 | PX of a level selects the child with the next longer prefix of the page number |
| `PageTable.IndicesDeterminePage` | kernel/riscv.h:354-363 | two pages below MAXVA with the same three indices are the same page |
| `PageTable.EachPageOnce` | kernel/kalloc.c:33-82 | page conservation: every page is in exactly one of the free list, a page table, a mapping that owns it, or the hands of the kernel |
| `PageTable.TakeKeeps` | kernel/kalloc.c:68-82 | taking the first free page keeps every page in exactly one role |
| `PageTable.GiveKeeps` | kernel/kalloc.c:46-63 | putting a page back at the front of the free list does |
| `PageTable.GrowKeeps` | kernel/vm.c:85-103 | linking a zeroed page as a missing page-table page does, and the flat map is unchanged |
| `PageTable.MapKeeps` | kernel/vm.c:142-165 | writing an unused leaf entry does, and the flat map gains exactly that page |
| `PageTable.UnmapKeeps` | kernel/vm.c:170-192 | clearing a leaf entry does, and the flat map loses exactly that page |
| `PageTable.RootKeeps` | kernel/vm.c:196-205 | a zeroed page as the root of a new tree does |
| `PageTable.DropKeeps` | kernel/vm.c:271-287 | giving up a page-table page with nothing below it does, but for the entry that still points to it |
| `PageTable.CloseGapKeeps` | kernel/vm.c:271-287 | clearing that entry restores the full invariant |
| `Vm.RoundUp` | kernel/riscv.h:338 | PGROUNDUP: the least multiple of PGSIZE not below the argument |
| `Vm.BootInv` | kernel/kalloc.c:26-31 | at boot, with every page held by the kernel and nothing mapped, the invariant holds |
| `Vm.RolledBack` | kernel/vm.c:225-333 | giving back the new pages of an allocation that failed leaves the flat map as it was and nothing but page-table pages taken |
| `Vm.ReleasedAll` | kernel/vm.c:271-297 | after uvmunmap and freewalk exactly the pages of this address space and its page table are free |
| `Vm.Machine.Kalloc` | kernel/kalloc.c:68-82 | the first page of the free list, filled with 5, or 0 exactly if the list is empty |
| `Vm.Machine.Kfree` | kernel/kalloc.c:46-63 | the page is the new head of the free list |
| `Vm.Machine.FreeRange` | kernel/kalloc.c:33-40 | exactly the whole pages in the range become free |
| `Vm.Machine.WalkStep` | kernel/vm.c:91-101 | one level of walk finds the page-table page below, or makes it from a zeroed page |
| `Vm.Machine.Walk` | kernel/vm.c:85-103 | the leaf table of the page; without alloc nothing changes, with alloc only page-table pages are added and 0 means memory ran out |
| `Vm.Machine.Walkaddr` | kernel/vm.c:108-126 | the physical page the flat map gives for a user page, 0 otherwise; nothing changes |
| `Vm.Machine.MapOne` | kernel/vm.c:153-158 | one turn of mappages: maps exactly that page, fails exactly for lack of memory, panics exactly on a remap or beyond MAXVA |
| `Vm.Machine.MapPages` | kernel/vm.c:142-165 | maps consecutive pages to consecutive physical pages and nothing else, in full or up to the page where memory ran out |
| `Vm.Machine.UnmapOne` | kernel/vm.c:179-191 | one turn of uvmunmap: that page leaves the flat map and, if asked, its physical page is free and the free list one longer |
| `Vm.Machine.UvmUnmap` | kernel/vm.c:170-192 | exactly the pages of the range leave the flat map; with do_free exactly their physical pages become free, and the free list grows by their number |
| `Vm.Machine.UvmDealloc` | kernel/vm.c:255-267 | exactly the pages between the two sizes are unmapped and freed |
| `Vm.Machine.AddPage` | kernel/vm.c:235-247 | one turn of uvmalloc or uvmcopy: the page is mapped to a page of its own with the given contents, or everything but page-table pages is given back, and then at most one page was left |
| `Vm.Machine.UvmAlloc` | kernel/vm.c:225-249 | on success every new page is mapped to a zeroed page of its own with the right flags; it fails only if no more pages are free than it was to map, and then the flat map and all user pages are as before |
| `Vm.Machine.UvmCopy` | kernel/vm.c:305-333 | on success every page of the parent has a copy in the child with the same bytes and flags in a page of its own; it fails only if no more pages are free than it was to copy, and then as before |
| `Vm.Machine.FreeWalk` | kernel/vm.c:271-287 | the recursion frees exactly the page-table pages of the subtree and never meets a leaf |
| `Vm.Machine.UvmCreate` | kernel/vm.c:196-205 | an empty page table, or 0 exactly if there is no free page |
| `Vm.Machine.UvmFree` | kernel/vm.c:291-297 | every page of the address space and of its page table is free, every other page keeps its role and contents |
| `UserCopy.CopyOut` | kernel/vm.c:351-371 | memory becomes what storing the bytes one by one through the page table would make it, whatever the mappings; it fails exactly at the first byte that is not mapped for the user |
| `UserCopy.StoredByte` | kernel/vm.c:351-371 | then every byte of memory is the last one stored there, or what it was |
| `UserCopy.StoredHoldsIff` | kernel/vm.c:351-371 | and the user sees the bytes at the destination if and only if no two different ones go to the same physical byte |
| `UserCopy.OwnConsistent` | kernel/vm.c:351-371 | which is so if all pages of the range are the user's own |
| `UserCopy.TwiceMapped` | kernel/proc.c:752-760 | but not for more than a page to a shared page that is mapped twice in a row, if the bytes differ |
| `UserCopy.StoredInPage` | kernel/vm.c:362-364 | within a page memmove is storing the bytes one by one |
| `UserCopy.CopyIn` | kernel/vm.c:376-396 | returns what the user sees, or fails exactly at the first byte that is not mapped; nothing changes |
| `UserCopy.CopyInStr` | kernel/vm.c:402-439 | returns the bytes before the first zero, or fails because there is none among the first max or a byte before it is not mapped |
| `UserCopy.CopyOutThenIn` | kernel/vm.c:351-396 | copyout and then copyin go through exactly if all the bytes are mapped for the user, and copyin returns the same bytes if and only if no two different ones went to the same physical byte |
| `UserCopy.UserOkUnmapped` | kernel/vm.c:170-267 | uvmunmap and uvmdealloc keep every page a user may access a data page of its own or one the kernel holds, for every address space |
| `UserCopy.UserOkReleased` | kernel/vm.c:291-297 | so does uvmfree |
| `UserCopy.UserOkOther` | kernel/vm.c:225-333 | so do uvmalloc and uvmcopy for another address space |
| `UserCopy.UserOkExtended` | kernel/vm.c:225-333 | and when they fail, for every address space |
| `UserCopy.UserOkGrown` | kernel/vm.c:225-249 | so does uvmalloc for the address space itself |
| `UserCopy.UserOkForked` | kernel/vm.c:305-333 | so does uvmcopy for the child, if it holds of the parent |
| `UserCopy.UserOkStored` | kernel/vm.c:351-371 | so does copyout, for every address space |
| `UserCopy.UserOkShared` | kernel/proc.c:752-757 | so does mapping a page the kernel holds, as get_shmem_access does with a shared page |
| `Umalloc.BlocksDisjoint` | user/umalloc.c:24-90 | free and live blocks never overlap |
| `Umalloc.OneCycle` | user/umalloc.c:24-90 | the free list is one cycle from base up through all free blocks in address order and back |
| `Umalloc.FreeKeeps` | user/umalloc.c:33-43 | linking a block in behind its predecessor and joining both neighbours keeps the list ordered, the memory tiled and no two free blocks adjacent |
| `Umalloc.TookWholeKeeps` | user/umalloc.c:76-77 | handing out a whole free block does |
| `Umalloc.TookTailKeeps` | user/umalloc.c:78-82 | handing out the tail of a free block does |
| `Umalloc.GrantKeeps` | user/umalloc.c:54-59 | fresh memory from sbrk as a block does |
| `Umalloc.Units` | user/umalloc.c:69 | the fewest units that hold the bytes and a header |
| `Umalloc.SbrkArgument` | user/umalloc.c:52-54 | sbrk's int parameter receives the bytes morecore counts on if and only if the request is below 2^27 units |
| `Umalloc.HugeRequestShrinks` | user/umalloc.c:52-54 | a request of 2 GB less a header passes a negative number to sbrk |
| `Umalloc.Allocator.constructor` | user/umalloc.c:21-22 | before the first malloc there is no list and no block |
| `Umalloc.Allocator.Search` | user/umalloc.c:30-32 | the search loop of free ends, at the highest free block below the address |
| `Umalloc.Allocator.Free` | user/umalloc.c:24-44 | the block is no longer live, all others are, the memory stays tiled, and some free block is at least as large |
| `Umalloc.Allocator.Morecore` | user/umalloc.c:46-61 | the fresh units join the arena as free memory, or nothing changes if sbrk fails |
| `Umalloc.Allocator.Take` | user/umalloc.c:75-84 | the units handed out were free and form one live block of the requested size |
| `Umalloc.Allocator.Malloc` | user/umalloc.c:63-90 | ends after at most one morecore; the pointer is to a block that was not live, live blocks stay as they are, memory is asked for only if no free block is large enough, and 0 is returned only if sbrk fails |
| `Virtio.RingPut` | kernel/virtio_disk.c:271-277 | an entry written at the 16-bit counter modulo NUM is the next entry of the ring, across wrap-around |
| `Virtio.CounterExact` | kernel/virtio_disk.c:312 | the two 16-bit counters are equal exactly if the ring is empty |
| `Virtio.DeviceSeesRequest` | kernel/virtio_disk.c:235-269 | following the descriptors of a request in flight, the device finds exactly its direction and sector, its buffer of 1024 bytes, and the status byte the interrupt handler will look at |
| `Virtio.Disk.constructor` | kernel/virtio_disk.c:144-146 | all descriptors are free and no request is in flight |
| `Virtio.Disk.AllocDesc` | kernel/virtio_disk.c:156-166 | the first free descriptor, or none exactly if none is free |
| `Virtio.Disk.FreeDesc` | kernel/virtio_disk.c:169-182 | the descriptor is free; neither panic is reached |
| `Virtio.Disk.GiveBack` | kernel/virtio_disk.c:206-209 | the descriptors got so far are free again, and no other descriptor changes |
| `Virtio.Disk.Alloc3Desc` | kernel/virtio_disk.c:201-213 | three different free descriptors, or the free set as it was, and then fewer than three are free |
| `Virtio.Disk.Format` | kernel/virtio_disk.c:235-269 | the three descriptors are linked and describe the request: header, buffer with the right direction, status |
| `Virtio.Disk.Offer` | kernel/virtio_disk.c:271-277 | the chain is the last entry of the avail ring, whatever the counter |
| `Virtio.Disk.Start` | kernel/virtio_disk.c:235-277 | the request is in flight, its buffer busy |
| `Virtio.Disk.Submit` | kernel/virtio_disk.c:215-281 | a new request for the buffer is in flight, or fewer than three descriptors are free and nothing changed |
| `Virtio.Disk.DeviceTake` | kernel/virtio_disk.c:271-281 | the device sees the requests in the order they were offered |
| `Virtio.Disk.DeviceComplete` | kernel/virtio_disk.c:309-314 | the device may complete any request it has taken, in any order; it writes the status byte that the chain leads to |
| `Virtio.Disk.SeeOne` | kernel/virtio_disk.c:312-323 | one turn of the interrupt handler clears the flag of exactly the request's own buffer, which was set; its panic is not reached |
| `Virtio.Disk.Device` | kernel/virtio_disk.c:299-310 | whatever requests the device takes and completes, in any order, the requests on their way are moved exactly as it says, requests only go forward and none becomes seen |
| `Virtio.Disk.Turn` | kernel/virtio_disk.c:312-324 | one test of the loop, and the turn it allows, with the device at work before and after the test: the oldest complete request is seen, or the ring is empty |
| `Virtio.Disk.Intr` | kernel/virtio_disk.c:294-327 | with the device completing requests meanwhile, the loop ends; every request complete at the start is seen, each once and in order, and exactly the buffers of the requests seen are cleared |
| `Virtio.Disk.FreeChain` | kernel/virtio_disk.c:185-197 | frees exactly the three descriptors of the chain |
| `Virtio.Disk.Finish` | kernel/virtio_disk.c:283-291 | the request is gone and exactly its three descriptors are free again |
| `Pipe.RingIndexExact` | kernel/pipe.c:11 | a ring may be indexed by a wrapping 32-bit counter if and only if its size divides 2^32 |
| `Pipe.Pipe.constructor` | kernel/pipe.c:33-36 | an empty pipe, open at both ends |
| `Pipe.Pipe.FullExact` | kernel/pipe.c:88 | the tests for full and empty on the wrapping counters are exact |
| `Pipe.Pipe.PutByte` | kernel/pipe.c:95 | the byte is the next of the bytes written; what is outstanding stays in the ring |
| `Pipe.Pipe.TakeByte` | kernel/pipe.c:123 | the byte taken is the oldest one not yet consumed |
| `Pipe.Pipe.Sleep` | kernel/proc.c:567-594 | the bytes written and consumed and the open ends are what the steps of others, taken in order, make of them; the ring and its counters agree with them |
| `Pipe.Pipe.PipeWrite` | kernel/pipe.c:76-103 | what happens to the pipe is an interleaving of its bytes, in order, each put in when there is room, with what others do while it sleeps, each sleep on a full pipe; it returns the count up to the first byte that cannot be read, -1 exactly if it is killed or the read end is closed before that, and stays asleep only on a full pipe |
| `Pipe.Pipe.Await` | kernel/pipe.c:112-118 | the first loop of piperead sleeps exactly as long as there are no bytes and there are writers; it fails exactly when killed before |
| `Pipe.Pipe.Drain` | kernel/pipe.c:119-126 | the second loop takes out the oldest bytes up to the number asked for, stopping only when the pipe is empty or copyout fails on the byte just taken |
| `Pipe.Pipe.PipeRead` | kernel/pipe.c:105-130 | the bytes returned are the next bytes of the stream, taken as soon as there are any or no writers are left; fewer than asked only if the pipe is empty or copyout fails; 0 for a positive request only at end of file; -1 exactly if killed while waiting |
| `PipeWake.StepInv` | kernel/pipe.c:58-130 | every step of pipewrite, piperead, pipeclose, sleep, wakeup and kill by any process keeps the invariant |
| `PipeWake.NoStuckWriter` | kernel/pipe.c:76-130 | in every run, while the pipe lock is free, a writer sleeps only on a full pipe with the read end open |
| `PipeWake.StuckReaderIffLost` | kernel/pipe.c:76-130 | in every run, while the pipe lock is free, a sleeping reader has nothing to read and writers left, if and only if no wakeup of a killed writer is lost: one it owed, since when no wakeup on nread has begun and the pipe has not been emptied |
| `PipeWake.KilledExit` | kernel/pipe.c:84-87 | in every run, a killed writer leaves a sleeping reader with bytes to read exactly if it has put bytes in since its last wakeup, or a wakeup was lost before |
| `PipeWake.SleepLaw` | kernel/proc.c:567-636 | in every run a process is asleep exactly from its sleep to a wakeup on its channel that looks at it, or a kill |
| `PipeWake.ReaderLeftAsleep` | kernel/pipe.c:84-87 | a run in which a reader is left asleep on a pipe that holds a byte |
| `PipeProgress.KillEndsCall` | kernel/pipe.c:76-130 | from every state of every run, a process inside a call on the pipe can be got out of it by one kill and a schedule of steps already under way |
| `PipeProgress.ReaderCanBeServed` | kernel/pipe.c:76-130 | from every state of every run, without a kill, one byte written by another process can get a reader out of its call |
| `PipeProgress.ReaderSeesEnd` | kernel/pipe.c:58-130 | from every state of every run, closing the write end, once no call on it is under way, can get a reader out of its call |
| `PipeProgress.WriterCanLeave` | kernel/pipe.c:58-103 | from every state of every run, closing the read end can get a writer out of its call |
| `Lru.UnlinkKeeps` | kernel/bio.c:128-129 | taking a buffer off keeps the rest one cycle in order |
| `Lru.PushKeeps` | kernel/bio.c:130-133 | putting a buffer behind the head keeps one cycle, with that buffer first |
| `Lru.OneCycle` | kernel/bio.c:26-34 | next, from the head, visits every buffer once, newest first, and comes back |
| `Lru.Cache.constructor` | kernel/bio.c:36-53 | binit leaves one cycle through the head and all buffers, none of them valid or in use |
| `Lru.Cache.Lookup` | kernel/bio.c:65-73 | finds the buffer of the block if there is one |
| `Lru.Cache.Oldest` | kernel/bio.c:75-88 | finds the unused buffer that was released first, or none exactly if all are in use |
| `Lru.Cache.Bget` | kernel/bio.c:58-89 | a hit adds a reference; a miss recycles the unused buffer whose last release to zero is oldest; the panic is reached exactly if all are in use; at most one buffer per block of a nonzero device |
| `Lru.Cache.PushFront` | kernel/bio.c:130-133 | the buffer is first, with the newest time |
| `Lru.Cache.Unlink` | kernel/bio.c:128-129 | the buffer is off the list, the rest in order |
| `Lru.Cache.Brelse` | kernel/bio.c:116-137 | a count that drops to zero makes the buffer the newest; otherwise the list is unchanged |
| `SleepLock.StepInv` | kernel/proc.c:567-636 | every step of acquiresleep, releasesleep, sleep, wakeup and kill by any process keeps the invariant |
| `SleepLock.MutualExclusion` | kernel/sleeplock.c:21-41 | in every run at most one process holds the sleep lock |
| `SleepLock.HoldingExact` | kernel/sleeplock.c:43-52 | holdingsleep is true for the holder and for nobody else; a free lock names nobody |
| `SleepLock.NoLostWakeup` | kernel/sleeplock.c:21-41 | in every run, unless a release is in progress, nobody sleeps for a lock that is free |
| `SleepLock.ScanLeavesNobody` | kernel/proc.c:598-612 | a release in progress has left nobody asleep among the processes it has looked at |
| `SleepLock.SleepLaw` | kernel/proc.c:567-636 | in every run a process is asleep exactly from its sleep to a wakeup on its channel that looks at it, or a kill, and takes no step meanwhile but the one that gives up the CPU |
| `SleepProgress.LockCanBeTaken` | kernel/sleeplock.c:21-41 | from every state of every run, some schedule without kills gives the lock to any process that is in acquiresleep or can call it |
| `ExitWait.TablesStep` | kernel/proc.c:287-467 | every step of fork, exit, reparent, wait, sleep and kill by any process keeps the invariant |
| `ExitWait.PidsStep` | kernel/proc.c:95-180 | every step keeps pids distinct and the exit statuses right |
| `ExitWait.ParentsAlive` | kernel/proc.c:346-418 | in every run no child has a ZOMBIE or UNUSED parent |
| `ExitWait.EveryoneHasParent` | kernel/proc.c:287-418 | in every run every live or zombie process other than init has a parent |
| `ExitWait.ReapedOnce` | kernel/proc.c:422-467 | in every run wait returns each process at most once, with the status it exited with |
| `ExitWait.NoSleepingParent` | kernel/proc.c:362-467 | in every run, while wait_lock is free, no process sleeps in wait with a zombie child |
| `ExitWait.WaitOutcome` | kernel/proc.c:432-466 | in every run, at the end of a scan there is no zombie child, and wait returns -1 exactly if the process is killed or has no children, and otherwise goes to sleep |
| `ExitWait.KilledLaw` | kernel/proc.c:618-636 | in every run a process is marked killed exactly from a kill until its slot is given back, and kill wakes it |
| `ExitWait.SleepLaw` | kernel/proc.c:567-636 | in every run a process is asleep exactly from its sleep to a wakeup of it as parent or as init, one on its other channel, or a kill |
| `ExitWait.FailedFork` | kernel/proc.c:287-304 | in every run a fork that fails to copy the address space leaves nothing behind but the pid it used |
| `ExitWait.ReapedIsDead` | kernel/proc.c:437-456 | in every run wait frees a slot only when its process has given up the CPU for good |
| `ExitProgress.WaitFreed` | kernel/proc.c:346-467 | from every state wait_lock can be given up without a kill; a holder in exit is past its last use of it then, a holder in wait with a zombie child has collected one |
| `ExitProgress.ExitCanFinish` | kernel/proc.c:362-418 | from every state of every run a process in exit can finish, as a zombie with its own pid and the status it was given |
| `ExitProgress.WaitCanCollect` | kernel/proc.c:422-467 | from every state of every run a process with a zombie child can call wait and get one, namely that child if it is the only one |
| `ExitProgress.SleeperCanCollect` | kernel/proc.c:458-466 | in every run, while wait_lock is free, a process in the sleep of wait that has a zombie child can go on and get one, namely that child if it is the only one |
| `ExitProgress.KillEndsWait` | kernel/proc.c:458-466 | in every run, while wait_lock is free, a process in wait can be killed and return |
| `ExitProgress.ChildCanBeReaped` | kernel/proc.c:287-467 | from every state of every run a process without children can fork a child that exits with any status, and get its pid and that status from wait |
| `Bytes.SetBit` | kernel/fs.c:77 | sets exactly one bit |
| `Bytes.ClearBit` | kernel/fs.c:102 | clears exactly one bit |
| `FileSys.WithBit` | kernel/fs.c:74-102 | changes the bit of one block and no other bit of the bitmap block |
| `FileSys.FreshInv` | mkfs/mkfs.c:93-115 | a disk as mkfs lays it out, for any number of log, inode and bitmap blocks, satisfies the ownership invariant |
| `FileSys.MarkUsed` | mkfs/mkfs.c:235-248 | the bitmap block of mkfs marks exactly the blocks used |
| `FileSys.AllocKeeps` | kernel/fs.c:65-88 | marking a free block and zeroing it keeps the ownership invariant and every byte of every file |
| `FileSys.FreeKeeps` | kernel/fs.c:91-105 | freeing a block in nobody's map does, and its bit was set |
| `FileSys.SetDirectKeeps` | kernel/fs.c:393 | entering a zeroed block as a direct block does |
| `FileSys.SetIndKeeps` | kernel/fs.c:405 | entering a zeroed block as the indirect block does |
| `FileSys.SetEntryKeeps` | kernel/fs.c:412-413 | entering a zeroed block in the indirect block does |
| `FileSys.WroteByte` | kernel/fs.c:522-526 | writing a data block changes the bytes of that block of that file and no other byte of any file |
| `FileSys.WroteKeeps` | kernel/fs.c:522-526 | and keeps the ownership invariant |
| `FileSys.DetachedKeeps` | kernel/fs.c:425-453 | the invariant holds of the other inodes while one is being emptied |
| `FileSys.EmptiedKeeps` | kernel/fs.c:451-452 | and of all of them when it is back, empty |
| `InodeOps.FileSystem.constructor` | mkfs/mkfs.c:93-115 | an empty file system: the invariant holds, exactly the blocks set aside have an owner, every inode is empty |
| `InodeOps.FileSystem.FindFree` | kernel/fs.c:72-85 | the first block whose bit is clear; 0 exactly if the disk is full |
| `InodeOps.FileSystem.Balloc` | kernel/fs.c:65-88 | a block that was free, now marked, zeroed and in nobody\'s map; every block it changes is logged, and only the bitmap block and the block are |
| `InodeOps.FileSystem.Bfree` | kernel/fs.c:91-105 | the block is free; the panic is not reached; every block it changes is logged |
| `InodeOps.FileSystem.BmapDirect` | kernel/fs.c:388-396 | as Bmap, for a direct block |
| `InodeOps.FileSystem.LoadInd` | kernel/fs.c:400-406 | the indirect block, made if necessary |
| `InodeOps.FileSystem.BmapIndirect` | kernel/fs.c:397-418 | as Bmap, for a block listed in the indirect block |
| `InodeOps.FileSystem.Bmap` | kernel/fs.c:382-421 | returns the block of the inode, 0 only if the disk is full; no byte of any file changes, maps only grow, every block it changes is logged, and only the bitmap, that block and the indirect block are |
| `InodeOps.FileSystem.Readi` | kernel/fs.c:471-496 | returns exactly the clipped slice of the file, or -1 exactly if the destination is too short for it, having copied what fits; changes nothing, bmap included |
| `InodeOps.FileSystem.CopyIn` | kernel/fs.c:521-527 | writes and logs up to the end of one block, or, if the copy fails, leaves the bytes before the failure in the buffer; every block it changes is logged but the one in which the copy fails |
| `InodeOps.FileSystem.WriteOne` | kernel/fs.c:516-528 | one turn of writei: a block written, no block left, or a failed copy; every block it changes is logged but the one in which the copy fails |
| `InodeOps.FileSystem.WriteBlocks` | kernel/fs.c:516-528 | the loop of writei: how many bytes count and how many show, with the exact reason for stopping; every block of the range is in the map, every block changed is logged but the one in which the copy fails, and the blocks logged are counted |
| `InodeOps.FileSystem.Writei` | kernel/fs.c:505-539 | replaces exactly the bytes from off on that show, extends the size over those it counts, changes no other file, writes the inode back; every block it changes is logged but the one in which the copy fails; stops short only if the disk is full or the source cannot be read; fails exactly on a bad range |
| `InodeOps.FileSystem.FileWrite` | kernel/file.c:155-175 | the bytes written are a prefix of the source at the offset; it falls short only for a full disk, a bad range or a source that cannot be read; it goes in chunks of three blocks, each of which logs at most MAXOPBLOCKS blocks when the bitmap is one block, and every block changed is logged by one of them unless a copy fails |
| `InodeOps.FileSystem.FreeBlock` | kernel/fs.c:432-445 | one block of the inode is freed, no other file changes, every block changed is logged |
| `InodeOps.FileSystem.FreeIndirect` | kernel/fs.c:439-449 | the blocks in the indirect block and the indirect block are freed, no other file changes, every block changed is logged |
| `InodeOps.FileSystem.Itrunc` | kernel/fs.c:425-453 | the inode is empty and on disk, exactly its blocks are free, no other file changes, every block changed is logged |
| `InodeOps.OnePlace` | kernel/fs.c:382-421 | a data block reachable from an inode is marked in the bitmap and reachable from one place only |
| `InodeOps.OneIndirect` | kernel/fs.c:382-421 | so is an indirect block |
| `InodeOps.ReadBack` | kernel/fs.c:471-539 | after a write the file reads as what was written |
| `InodeOps.ReadsOnce` | kernel/fs.c:471-496 | what a file reads as at an offset is unique |
| `InodeOps.WriteThenRead` | kernel/fs.c:471-539 | writei followed by readi of as many bytes returns exactly the bytes written |
| `InodeOps.ShowsExactly` | kernel/fs.c:516-531 | on a disk with room, exactly the bytes counted show if and only if the whole source can be read, or what can be read is nothing or ends at a block boundary |
| `InodeOps.ChunkFits` | kernel/file.c:149-155 | a chunk of filewrite fits the reservation of one operation when the bitmap is one block |
| `Grep.MatchHere` | user/grep.c:84-95 | true exactly if some prefix of the text is in the language of the pattern |
| `Grep.MatchStar` | user/grep.c:98-105 | true exactly if some number of matching characters can be skipped before the rest of the pattern begins the text |
| `Grep.Match` | user/grep.c:71-81 | true exactly if some substring is in the language of the pattern, tied to the ends by ^ and $ |
| `Grep.BeginsCons` | user/grep.c:84-95 | a pattern begins a text exactly if its first item fits some prefix and the rest begins what is left |
| `Grep.StrChr` | user/ulib.c:57-64 | the first newline, if there is one before the first NUL |
| `Grep.PrintLine` | user/grep.c:22-27 | prints the line exactly if it matches, and restores no more than its newline |
| `Grep.PrintLines` | user/grep.c:20-28 | prints the matching ones of the complete lines in the buffer and keeps the unfinished one |
| `Grep.MoveDown` | user/ulib.c:109-127 | the kept bytes are at the start of the buffer |
| `Grep.Grep` | user/grep.c:10-34 | however read splits the file, the lines printed are the matching lines before the first line that is longer than 1023 bytes or has a NUL in it |
| `Grep.PrintsWantedIff` | user/grep.c:10-34 | these are all matching newline-terminated lines in order if and only if no line from that one on matches |
| `Grep.StopsAtLine` | user/grep.c:17-32 | nothing is printed from such a line on, whatever follows |
| `Grep.MissesLines` | user/grep.c:17-32 | a file of two lines that both match, of which neither is printed |
| `Grep.ShortLines` | user/grep.c:10-34 | nothing is missed if every line fits in 1023 bytes with its newline and has no NUL |

## Left out

- Assembly, trap entry and return, interrupt controller, UART and boot: hardware effects the C code only triggers.
- Spin lock internals, memory fences and interrupt disabling: `acquire` and `release` are primitives.
- The scheduler's choice of process and its fairness: the theorems say what never happens and, for the log, sleep locks, exit and wait and pipes, what some schedule can always still bring about, not what every schedule does.
- The encoding of inodes in their blocks (`struct dinode`), `ialloc`, `iget`, `iput` and the inode table: an inode is its size and block list, in memory and on disk.
- Interleaving inside one call on an inode or an address space: each call of `InodeOps` and `Vm` is taken as a whole; but for `FileWrite` its locks are held throughout. The cache and the log underneath are interleaved in `LogProtocol`.
- InodeOps.FileSystem.FileWrite: the inode is unlocked between chunks, so its contract holds when nobody else changes the file system then; each chunk by itself is `Writei`.
- InodeOps.FileSystem.Writei: bytes that show without being logged are in the cache only; what remains of them once the buffer is recycled is not modelled.
- InodeOps.FileSystem.constructor: does not model the files mkfs copies in; its rounding of the root directory's size (mkfs/mkfs.c:163-168) would leave a hole behind a full last block.
- Directories, path names and link counts: creation inside an unlinked directory is allowed, which would need many side conditions.
- Device initialisation of the disk beyond the descriptors, the transfer of data by the device, and failed requests (they panic).
- The fairness of wakeups: a process that is woken may find nothing to do and sleep again.
- `uvmclear`, `uvmfirst`, `proc_pagetable` and the kernel page table: single entries set or cleared, as in `MapOne`.
- `get_shmem_access` beyond the mapping itself (`UserOkShared`): accesses through it bypass the checks modelled here.
- Closing a pipe frees its page once both ends are closed; the page is not modelled.
- Console, printf, shell, ELF loading, system call wrappers and user test programs.
- UserCopy.CopyOut: requires that every page the user may access is a data page, its own or one the kernel holds; so do `CopyIn` and `CopyInStr`. Every call that changes an address space keeps this (`UserOkUnmapped` and the lemmas after it).
- Vm.Machine.UnmapOne: requires what the C function panics without, that the page is mapped as a leaf, and that it is owned by the mapping if it is to be freed.
- Vm.Machine.UvmUnmap: requires this of every page of the range.
- Vm.Machine.UvmDealloc: requires this of every page between the two sizes.
- Vm.Machine.UvmFree: requires this of every page of the address space.
- Vm.Machine.UvmAlloc: requires that the new pages are below MAXVA and not mapped yet, without which `mappages` panics.
- WriteAheadLog.Log.ReadHead: for a header that lists at most LOGSIZE blocks, as every header written by `write_head` does; a longer one would be read past the end of the list.
- WriteAheadLog.Log.RecoverFromLog: for a header that names home blocks on the disk, as every header written by `write_head` does.
- ShmemTable.Table.Set: for page numbers in range; the kernel does not check them, and an access out of range has no meaning in C.
- ShmemTable.Table.SetInit: for page and element numbers in range.
- ShmemTable.Table.WriteInt: for page and element numbers in range.
- ShmemTable.Table.ReadInt: for page and element numbers in range.
- ShmemTable.Table.Acquire: for page numbers in range.
- ShmemTable.Table.Release: for page numbers in range.
- Umalloc.Allocator.Morecore: for requests below 2^27 units, the bound of `SbrkArgument`.
- Umalloc.Allocator.Malloc: for requests below 2^27 units; the break is taken to be a multiple of the header size and above `base`, and `free` gets only pointers that `malloc` returned.
- ExitWait.ReapedOnce: pids are unbounded, so reuse of a pid after 2^31 processes is not modelled.
- SleepLock.HoldingExact: a process is known by its index, so it takes pids to be distinct.
