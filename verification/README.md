# Verification of the xv6-riscv copy-on-write branch

A Dafny model of the parts of xv6 whose correctness is a property of whole runs, with
proofs.  `dafny verify dfyconfig.toml` checks everything.

- **Copy-on-write memory** (kernel/vm.c, kernel/kalloc.c, fork and growproc in
  kernel/proc.c).  `CowProtocol` lets any number of processes run fork, fault handling,
  copyout, growth, shrinking, exit and the page allocator, one critical section, one
  page-table access or one copied byte at a time, in any interleaving.  Over every run what
  each process reads is what it would read if fork copied all memory (`CowRefinesEager`),
  every reference count is the number of holders, no panic is reachable, and each routine
  left to itself gets done (`CowService`).  `CowMemory` is the same code as loops over pages
  and bytes on one processor, up to unaligned copies that cross pages.  `PageTable` and
  `Riscv` are the three-level table and its bit patterns.
- **Log and buffer cache** (kernel/log.c, kernel/bio.c).  `LogDisk` and `Log` prove crash
  atomicity with crashes at any block write, also during recovery.  `GroupCommit` lets
  operations share transactions, with caching, pinning, sleeping and crashes in any
  interleaving; `GroupCommitStory` tells what was asked for from the events alone and proves
  that a crash leaves exactly the writes of whole ended operations.  `Bio` is the LRU list
  and the coherence of cache and disk.
- **Files** (kernel/fs.c, kernel/file.c, mkfs/mkfs.c).  `Fs` updates bitmap, inodes and
  blocks in place; every file is a byte string, every block has one owner, every changed
  block is in the transaction.
- **Processes** (kernel/proc.c, kernel/sleeplock.c).  `SleepLock`, `ExitWait`, `ExitStatus`
  and `ExitService` are step systems with program counters and locks; the theorems compare
  states with the calls made in the run.
- **Algorithms**: `Umalloc` (user/umalloc.c), `Virtio` (kernel/virtio_disk.c),
  `ShellGrammar` and `Shell` (user/sh.c), `Grep` (user/grep.c).

Two promises of the source turn out to be false, and are given with their exact condition:

- begin_op reserves MAXOPBLOCKS blocks for an operation out of LOGSIZE, but log_write refuses
  a block from `log.size - 1` on, and mkfs makes `log.size` equal to LOGSIZE.  log_write's
  panic is reachable exactly when MAXOPBLOCKS plus two budgets reach the log's capacity
  (`PanicExactlyWhen`); for mkfs's log that means exactly when operations may use all
  MAXOPBLOCKS blocks (`MkfsLogPanicsAtMaxOpBlocks`).
- mkfs rounds the size of the root directory up.  The directory has a hole exactly when its
  size was a multiple of the block size (`RootHole`).

filewrite's chunks fit in a transaction for files without holes (`ChunkFitsTransaction`), and
the bound is reached (`ChunkBoundIsTight`).  On a disk with one bitmap block every chunk logs
at most seven blocks, holes or not.

The stack guard page is mapped writable but not for users.  uvmcopy shares and counts it, and
does not mark it copy-on-write; the model follows the code.

## Model

| member | source | states |
|---|---|---|
| CowRuns.CowRefinesEager | kernel/vm.c:301-365 | over every interleaved run, what every process reads equals a memory in which fork copies all pages, a store changes the storer only, growth gives zero pages, and faults, failed forks and freeing do not show; and the count invariant holds throughout |
| CowRuns.StepRefines | kernel/vm.c:301-409 | each step of each process is one operation of the eager memory or none |
| CowRuns.Isolation | kernel/vm.c:301-409 | in every reachable state, no step of one process changes what another reads |
| CowRuns.CountsAreHolders | kernel/kalloc.c:65-149 | in every reachable state, a page's count is the number of entries and kernel routines that hold it; free pages have count 0 and no holder; a page that some user can write has that entry as its only holder |
| CowRuns.RunNeverPanics | kernel/kalloc.c:65-149 | in every reachable state the next step of every kernel routine is possible: no panic of kfree, krefinc, kalloc, mappages, uvmcopy or uvmunmap is reachable |
| CowSafety.StepKeeps | kernel/vm.c:301-365 | every step of every process keeps the reference-count invariant |
| CowSafety.TickKeeps | kernel/kalloc.c:65-149 | every critical section of the allocator and every page-table access keeps it |
| CowSafety.NeverPanics | kernel/vm.c:174-186 | the invariant makes every check before a panic succeed |
| CowSteps.ForkIncUndisturbed | kernel/vm.c:321-323 | between mappages and krefinc of a page in fork, the page still has a reference, and no other holder is disturbed by counting it late |
| CowSteps.CowUpgradeKeeps | kernel/vm.c:349-353 | making the entry writable in place keeps the invariant: the count that was read as one is still one |
| CowSteps.CopyIsElsewhere | kernel/vm.c:358-361 | the copy is made in another page than the one copied |
| CowRefinement.StoreRefines | kernel/vm.c:384-408 | a store or a byte of copyout changes one byte of the storer's memory and nothing any other process reads |
| CowRefinement.OtherContent | kernel/vm.c:358-361 | what a process has copied so far stays equal to the shared page, and pages being grown stay zero, whatever the others do meanwhile |
| CowRefinement.ForkMapRefines | kernel/vm.c:321-323 | mapping a page in the child does not show before fork returns |
| CowRefinement.CowSetRefines | kernel/vm.c:358-364 | switching an entry to the finished copy does not show |
| CowRuns.ForkReturnRefines | kernel/proc.c:272-319 | when fork returns, the child reads at every page what the parent reads |
| CowRuns.UnmapDoneRefines | kernel/vm.c:327-329 | a failed fork and a reaped process change nobody's memory |
| CowService.FaultIsServed | kernel/vm.c:334-365 | cowalloc run to its end on a user copy-on-write page, unless the page is shared and no page is free: the process goes on, its entry is writable and not copy-on-write, holds the bytes it held, and no other entry changes |
| CowService.FaultIsRefused | kernel/trap.c:68-71 | in all other cases the process is killed (or copyout fails) and nothing else changes |
| CowService.ForkIsComplete | kernel/vm.c:301-325 | fork run to its end when table pages suffice: both processes go on, the child has the parent's size and reads what the parent read at every page, and all others read as before |
| CowService.GrowIsComplete | kernel/vm.c:221-244 | growproc run to its end when pages suffice: the new size, and every new page reads as zeros |
| CowService.UnmapIsComplete | kernel/vm.c:166-187 | unmapping run to its end: exactly the remaining pages are mapped, or the process is gone with all entries, and a failed fork lets the parent go on |
| CowService.AllPagesReturn | kernel/kalloc.c:65-96 | no page is lost: with nothing mapped and no routine at work every page is on the free list |
| CowMemory.Kernel.constructor | kernel/kalloc.c:41-59 | freerange puts every page on the free list once |
| CowMemory.Kernel.Kalloc | kernel/kalloc.c:127-149 | takes the first free page with one reference; fails exactly when none is free; nobody reads anything different |
| CowMemory.Kernel.Kfree | kernel/kalloc.c:65-96 | one reference less; the last one fills the page with junk and frees it |
| CowMemory.Kernel.Krefinc | kernel/kalloc.c:98-110 | one reference more and nothing else |
| CowMemory.Kernel.Uvmunmap | kernel/vm.c:166-187 | exactly the given pages are gone, every other entry of every table reads as before, and the counts are right again |
| CowMemory.Kernel.SharePage | kernel/vm.c:309-323 | one page of uvmcopy: the child's entry reads what the parent's read; on failure the child has none; all others as before |
| CowMemory.Kernel.Uvmcopy | kernel/vm.c:301-330 | for every size: success leaves the child reading the parent's bytes at exactly the parent's pages; failure leaves the child empty; nobody else reads anything different; it fails exactly when mappages does |
| CowMemory.Kernel.Cowalloc | kernel/vm.c:334-365 | succeeds exactly for a user copy-on-write page that is sole or can be copied; then the entry is writable; nobody's bytes change; failure changes nothing |
| CowMemory.Kernel.Store | kernel/trap.c:68-71 | a store through the fault path changes exactly that byte of that address space, or kills and changes nothing; exactly when |
| CowMemory.Kernel.Copyout | kernel/vm.c:384-409 | the prefix that was copied reads as src at dstva across page boundaries, every other byte of every address space reads as before, and the copy stops only where the address is no user address or a copy finds no memory |
| CowMemory.Kernel.Copyin | kernel/vm.c:415-434 | returns the bytes at the addresses, exactly when all are user addresses below MAXVA |
| CowMemory.CopyRoundTrip | kernel/vm.c:384-434 | what copyout wrote, copyin reads |
| CowMemory.Kernel.Uvmalloc | kernel/vm.c:221-244 | zeroed user-writable pages for exactly the new range, or nothing changed; which one, exactly |
| CowMemory.Kernel.Uvmdealloc | kernel/vm.c:251-262 | exactly the pages that only the old size needs are gone |
| CowMemory.SoleOwner | kernel/kalloc.c:112-122 | a page of count one that an entry names is named by no other entry |
| Riscv.EntryRoundTrip | kernel/riscv.h:349-353 | an entry gives back the page address and flags it was made from |
| Riscv.FlagsKeepPage | kernel/riscv.h:349-353 | setting and clearing flags keeps the page address |
| Riscv.PxRebuild | kernel/riscv.h:356-358 | the three indices determine the page address below MAXVA |
| Riscv.PxOfPage | kernel/riscv.h:356-358 | the indices do not depend on the offset in the page |
| Riscv.PxInjective | kernel/riscv.h:356-364 | below MAXVA equal indices mean the same page |
| Riscv.RoundsDown | kernel/riscv.h:339 | PGROUNDDOWN is page-aligned, not above, and the offset completes it |
| Riscv.RoundsUp | kernel/riscv.h:338 | PGROUNDUP is the smallest multiple of the page size not below |
| PageTable.AddressSpace.Walk | kernel/vm.c:80-98 | finds or makes the lowest table; changes no translation; conserves pages; fails with alloc only without memory |
| PageTable.TableAdded | kernel/vm.c:88-95 | a new zeroed table changes no translation |
| PageTable.EntryChanged | kernel/vm.c:138-160 | writing one entry changes one translation |
| PageTable.AddressSpace.Mappages | kernel/vm.c:138-160 | maps exactly the pages of the range in order, as valid entries with the given flags; reports where and why it stopped; changes no other translation |
| PageTable.AddressSpace.Uvmunmap | kernel/vm.c:166-187 | clears exactly the range and gives its pages to kfree in order; reports each of the three panics exactly |
| PageTable.AddressSpace.Freewalk | kernel/vm.c:267-282 | with no leaf left below, frees every table below exactly once and touches nothing else |
| PageTable.AddressSpace.Uvmfree | kernel/vm.c:287-292 | frees all pages and all tables exactly once, without the leaf panic |
| LogDisk.CommitIsAtomic | kernel/log.c:178-203 | for a crash after any number of block writes of commit, and recoveries that crash any number of times, the final recovery yields exactly the old or exactly the new home blocks, by whether the header was written |
| LogDisk.RecoveryRestarts | kernel/log.c:117-123 | recovery crashed at any write and started again ends in the same home blocks |
| LogDisk.CrashingRecoveriesHarmless | kernel/log.c:117-123 | the same for any number of crashes |
| LogDisk.RecoverAt | kernel/log.c:68-83 | what recovery leaves at each home block: the last logged contents or the old |
| LogDisk.CommitTraceAt | kernel/log.c:194-203 | the disk after each write of commit is the one the crash theorem speaks of |
| Log.LogDevice.WriteLog | kernel/log.c:178-191 | each block of the transaction, as seen through the cache, is in the log, and every intermediate disk is recorded |
| Log.LogDevice.WriteHead | kernel/log.c:103-114 | the header on disk lists the blocks of the transaction |
| Log.LogDevice.ReadHead | kernel/log.c:86-97 | the list read is the list on disk |
| Log.LogDevice.InstallTrans | kernel/log.c:68-83 | the logged blocks are at home, unpinned, and the cache shows them |
| Log.LogDevice.Commit | kernel/log.c:193-203 | the disks on the way are those of the crash theorem, at the end the transaction is in place, the log empty, and reads see no change |
| Log.LogDevice.RecoverFromLog | kernel/log.c:116-123 | the disks on the way are those of recovery, and it ends in the recovered disk |
| Log.LogDevice.LogWrite | kernel/log.c:214-235 | absorbs a block already listed, otherwise lists and pins it; both panics exactly |
| GroupCommitStory.CrashLeavesWholeStory | kernel/log.c:126-235 | over every interleaving, a crash at any moment and recoveries that crash leave exactly the effect of a prefix of the writes made in the run, made of whole ended operations and containing all that is safe; told from the events |
| GroupCommitStory.RunTells | kernel/log.c:126-235 | the log's books of a run are the begins, writes and ends of its events, cut at crashes between whole operations |
| GroupCommitStory.WriteShows | kernel/log.c:214-235 | after log_write the block reads as the caller left it and every other block as before |
| GroupCommitStory.ReadsFollowStory | kernel/bio.c:92-103 | outside recovery every block reads as the writes of the run left it |
| GroupCommitProof.StepKeeps | kernel/log.c:126-235 | every step keeps the invariant |
| GroupCommitRuns.CrashLeavesWholeOperations | kernel/log.c:126-203 | the durable updates are whole ended operations and are what every recovery restores |
| GroupCommitRuns.QuietIsDurable | kernel/log.c:146-175 | with no operation outstanding and no commit running everything is durable, nothing listed or pinned |
| GroupCommitRuns.ReadReturnsLatestWrite | kernel/bio.c:92-103 | bread returns the latest update, and only pinned blocks differ from the disk |
| GroupCommitRuns.LoggedBlocksArePinned | kernel/log.c:224-233 | the pinned blocks are the listed ones, each listed once |
| GroupCommitRuns.SleepersAreWoken | kernel/log.c:126-175 | from every reachable state the ends of the outstanding operations and the writes of the commit wake every sleeper of begin_op |
| GroupCommitRuns.PromisedSpaceFits | kernel/log.c:126-142 | listed blocks and unused budgets never exceed LOGSIZE; an unused log is empty |
| GroupCommitRuns.SmallBudgetsNeverPanic | kernel/log.c:220-221 | small budgets never reach log_write's panic |
| GroupCommitRuns.LargeBudgetsPanic | kernel/log.c:220-221 | a run of operations within their budgets that reaches it otherwise |
| GroupCommitRuns.PanicExactlyWhen | kernel/log.c:126-142 | the panic is reachable if and only if MAXOPBLOCKS and two budgets reach the capacity |
| GroupCommitRuns.MkfsLogPanicsAtMaxOpBlocks | mkfs/mkfs.c:25 | for the log mkfs makes: exactly when operations may use MAXOPBLOCKS blocks |
| Bio.BufferCache.constructor | kernel/bio.c:36-53 | all buffers on a circular list, prev inverse to next |
| Bio.BufferCache.Get | kernel/bio.c:58-89 | the buffer of the block gets a reference; otherwise the least recently released unused buffer is recycled; fails exactly when all are in use; a block never has two buffers |
| Bio.BufferCache.Lookup | kernel/bio.c:66-73 | finds the block's buffer exactly when there is one |
| Bio.BufferCache.LeastRecent | kernel/bio.c:76-88 | the unused buffer nearest the end of the list, exactly when there is one |
| Bio.BufferCache.Bread | kernel/bio.c:92-103 | the locked buffer holds the latest contents of the block; buffers in use keep their identity |
| Bio.BufferCache.Fill | kernel/bio.c:97-100 | after the read the buffer holds the latest contents |
| Bio.BufferCache.Change | kernel/bio.c:106-112 | a change by the holder becomes the latest contents of that block only |
| Bio.BufferCache.Bwrite | kernel/bio.c:106-112 | the disk block is the buffer's data |
| Bio.BufferCache.Brelse | kernel/bio.c:116-137 | one reference less; an unused buffer moves to the front and the list stays a permutation of all buffers |
| Bio.BufferCache.Pin | kernel/bio.c:139-144 | one reference more, as a pin |
| Bio.BufferCache.Unpin | kernel/bio.c:146-151 | the pin's reference is gone |
| Bio.UnusedIsClean | kernel/bio.c:76-83 | a valid buffer without references equals the disk, so recycling it loses nothing |
| Bio.Unlinked | kernel/bio.c:128-129 | taking a buffer out keeps the rest a ring |
| Bio.Inserted | kernel/bio.c:130-133 | putting it behind the head keeps the ring |
| Fs.FileSystem.Balloc | kernel/fs.c:64-86 | the first block with a clear bit, marked and zeroed; fails exactly when all are used; what changed is logged |
| Fs.FileSystem.Bfree | kernel/fs.c:89-103 | clears exactly that bit and logs its bitmap block; a free block is reported |
| Fs.FileSystem.Bmap | kernel/fs.c:377-405 | the block of the file at that place, allocating what is missing; no file changes contents; everything changed is logged |
| Fs.FileSystem.Itrunc | kernel/fs.c:409-437 | the file is empty, each of its blocks is free again and all others owned as before; freeing a free block is unreachable; everything changed is logged |
| Fs.FileSystem.Iupdate | kernel/fs.c:221-237 | the inode is on disk and its block logged |
| Fs.FileSystem.Readi | kernel/fs.c:455-477 | returns the bytes of the file in the range, cut at its end; changes no file; fails exactly when a copy does |
| Fs.FileSystem.Writei | kernel/fs.c:486-517 | the contents of the file have the copied bytes spliced in, every other file reads as before, every changed data block, bitmap block and the inode's block are in the transaction, ownership is kept, hole-free files stay so, the transaction bound holds; refused exactly when |
| FsChanges.Placed | kernel/fs.c:377-405 | a zeroed block put in an empty slot changes no file's contents and keeps single ownership |
| FsChanges.Overwritten | kernel/fs.c:499-505 | overwriting bytes of an owned block changes those bytes of one file only |
| FsChanges.Truncated | kernel/fs.c:409-437 | after truncation bits and owners agree for the other files |
| FsDisk.UsedMarked | kernel/fs.c:74-75 | setting a bit marks one block |
| FsDisk.UsedCleared | kernel/fs.c:98-100 | clearing a bit frees one block |
| FileWrite.ChunkFitsTransaction | kernel/file.c:149-156 | for a file without holes a chunk at any offset logs at most MAXOPBLOCKS blocks, at most seven with one bitmap block |
| FileWrite.ChunkBoundIsTight | kernel/file.c:149-156 | the bound is reached |
| FileWrite.File.Write | kernel/file.c:149-174 | writes a prefix of src at the offset and moves it; all of src if the range fits, copies succeed and blocks suffice; returns -1 exactly otherwise; no transaction exceeds the bound |
| FileWrite.ReadsBack | kernel/fs.c:455-517 | what was written is read back from there |
| FileWrite.ReadsElsewhere | kernel/fs.c:455-517 | bytes elsewhere are the old ones |
| Mkfs.Builder.Ialloc | mkfs/mkfs.c:220-232 | the next inode, empty |
| Mkfs.Builder.Iappend | mkfs/mkfs.c:252-294 | the file's contents have the bytes appended, other files as before, no holes |
| Mkfs.Builder.FixRootSize | mkfs/mkfs.c:163-168 | the root's size is rounded up past its end |
| Mkfs.Builder.Balloc | mkfs/mkfs.c:234-248 | the bits are set exactly for metadata and owned blocks |
| Mkfs.Builder.Mount | mkfs/mkfs.c:220-294 | the image satisfies the kernel's invariant |
| Mkfs.RootHole | mkfs/mkfs.c:163-168 | the rounded root has a hole if and only if its size was a multiple of the block size |
| SleepLock.StepKeeps | kernel/proc.c:529-573 | every step keeps the invariant |
| SleepLock.NoLostWakeup | kernel/proc.c:529-573 | whenever the inner lock is free and the sleep lock open, nobody sleeps on it or is about to |
| SleepLock.ReturnMeansLock | kernel/sleeplock.c:21-41 | a process that has returned has the lock exactly when its last call was acquiresleep |
| SleepLock.MutualExclusion | kernel/sleeplock.c:21-41 | of the processes that called acquiresleep and not releasesleep at most one has returned |
| SleepLock.OpenLockIsTaken | kernel/sleeplock.c:21-31 | on an open lock acquiresleep returns with the lock |
| SleepLock.ReleaseIsComplete | kernel/sleeplock.c:33-41 | releasesleep opens the lock and makes every sleeper runnable |
| SleepLock.SleeperIsReached | kernel/proc.c:529-573 | a sleeper's lock is closed or a wakeup that has not passed it is under way |
| ExitWait.EventKeeps | kernel/proc.c:323-428 | every step keeps the invariant |
| ExitWait.NoForgottenZombie | kernel/proc.c:384-428 | whenever wait_lock is free no parent, init included, sleeps in wait with a zombie child |
| ExitWait.ParentsAreLive | kernel/proc.c:323-334 | no live process or zombie has a dead parent |
| ExitWait.ReportedOnce | kernel/proc.c:384-428 | a report is of an exit not reported before |
| ExitWait.ExitIsNotLost | kernel/proc.c:340-379 | an exit not reported is a zombie with a live parent |
| ExitWait.WaitGivesUp | kernel/proc.c:419-424 | wait gives up exactly when there is no child or the process is killed, and otherwise sleeps |
| ExitStatus.ReportsAreCalls | kernel/proc.c:340-428 | every status that wait reports is the one its process gave to exit in the run, and every call of exit was reported with its status or is still in the table with it |
| ExitStatus.ExitIsCalledOnce | kernel/proc.c:340-379 | no pid calls exit twice |
| ExitService.ForkIsComplete | kernel/proc.c:310-316 | fork leaves a runnable child of the caller |
| ExitService.WaitReaps | kernel/proc.c:390-414 | wait frees its first zombie child and returns its pid and status |
| ExitService.ExitGoesOn | kernel/proc.c:340-379 | every step of exit comes nearer to its end |
| Umalloc.Heap.Malloc | user/umalloc.c:63-90 | returns a new block of exactly the units for nbytes and its header; the heap stays tiled; asks for memory at most once and only if nothing fits; fails only without memory; terminates |
| Umalloc.Heap.Free | user/umalloc.c:24-44 | the block is free, joined with free neighbours, the list ordered with no two free blocks touching; the search terminates |
| Umalloc.Heap.Search | user/umalloc.c:30-32 | finds the place of the block in address order |
| Umalloc.Heap.Morecore | user/umalloc.c:46-61 | the new memory, never less than 4096 units, is free and the heap tiled |
| Umalloc.FreeBoth | user/umalloc.c:33-42 | joining on both sides keeps order, gaps and tiling |
| Umalloc.TakeWhole | user/umalloc.c:74-75 | unlinking a block of the exact size keeps the heap |
| Umalloc.TakeTail | user/umalloc.c:76-80 | cutting the tail off a larger block keeps the heap |
| Virtio.Disk.AllocDesc | kernel/virtio_disk.c:144-154 | the first free descriptor, or none is free |
| Virtio.Disk.FreeChain | kernel/virtio_disk.c:173-185 | the three descriptors of the request are free |
| Virtio.Disk.Alloc3 | kernel/virtio_disk.c:189-201 | three free descriptors, or fewer than three are free and all go back |
| Virtio.Disk.Submit | kernel/virtio_disk.c:204-269 | the request is queued with its own disjoint chain, no unconsumed slot overwritten; refused exactly with fewer than three free descriptors |
| Virtio.Disk.DeviceTake | kernel/virtio_disk.c:259-269 | the device takes requests in the order they were queued |
| Virtio.Disk.DeviceComplete | kernel/virtio_disk.c:226-253 | any taken request is carried out once on its own buffer and block |
| Virtio.Disk.Intr | kernel/virtio_disk.c:283-315 | every completed request is seen once and its buffer handed back |
| Virtio.Disk.Finish | kernel/virtio_disk.c:271-280 | the descriptors of the finished request are free and no others |
| Virtio.Pushed | kernel/virtio_disk.c:259-265 | the slot written is not in use, also when the 16-bit index wraps |
| Virtio.RingHasRoom | kernel/virtio_disk.c:259-265 | descriptors in use leave room in the ring |
| ShellGrammar.ParserIsExact | user/sh.c:345-446 | the parser accepts exactly the token sequences of the grammar whose commands fit, and each has one reading |
| ShellGrammar.LineSound | user/sh.c:345-359 | an accepted line has the tokens it was parsed from |
| ShellGrammar.LineComplete | user/sh.c:345-359 | every line of the grammar is accepted as itself |
| ShellGrammar.ShowLine | user/sh.c:345-372 | the tree written out left to right is the line: operators and words in order |
| Shell.LexKeepsAll | user/sh.c:266-308 | lexing drops blanks and nothing else |
| Shell.LexedWords | user/sh.c:289-293 | words are the longest runs of word characters |
| Shell.Parser.GetToken | user/sh.c:266-308 | returns the next token of the input and moves past it |
| Shell.Parser.Peek | user/sh.c:311-320 | tells whether the next token is one of those asked for, and takes nothing |
| Shell.Parser.ParseRedirs | user/sh.c:375-397 | agrees with the grammar on redirections |
| Shell.Parser.ParseExec | user/sh.c:416-446 | agrees with the grammar on commands, up to MAXARGS |
| Shell.Parser.ParseBlock | user/sh.c:400-413 | agrees with the grammar on blocks |
| Shell.Parser.ParsePipe | user/sh.c:362-372 | agrees with the grammar on pipelines |
| Shell.Parser.ParseLine | user/sh.c:345-359 | agrees with the grammar on lines |
| Shell.NulTerminate | user/sh.c:450-493 | writes NUL exactly at the ends of the tree's words |
| Shell.WordsSurvive | user/sh.c:450-493 | no word ends inside another, so each reads as it was written |
| Shell.ParseCmd | user/sh.c:328-342 | terminates; accepts exactly the lines of the language, all of the input; the words of the tree are those of the line, and each read up to its NUL is what was written |
| Grep.Match | user/grep.c:71-80 | true exactly when some suitably anchored part of the text is in the pattern's language |
| Grep.MatchHere | user/grep.c:83-94 | true exactly when the language matches from here |
| Grep.MatchStar | user/grep.c:97-104 | true exactly when some run of the character and then the rest match |

## Left out

- CowRuns.CowRefinesEager: page-table pages are not among the counted pages, because their own allocation and freeing is in PageTable; whether mappages finds one is free at each step.
- CowMemory.Kernel.Uvmcopy: one processor; the interleaved form is CowProtocol.  At which page mappages finds no table page is an input.
- CowMemory.Kernel.Copyout: addresses are unbounded numbers, so a length that wraps around 64 bits is not modelled.
- CowService.FaultIsServed: says where the process's own steps lead; that the scheduler lets it run is not claimed.
- PageTable.AddressSpace.Freewalk: a leaf left below is excluded by its precondition; Uvmfree shows that its caller meets it.
- Fs.FileSystem.Writei: a copy from the user is all or nothing; the partial copy that changes a buffer without logging it (kernel/fs.c:500-503) is not modelled.
- Fs.FileSystem.Readi: the copy to the user is all or nothing in the same way.
- FileWrite.File.Write: other processes' operations between two chunks are not modelled, nor pipes and devices.
- Mkfs.Builder.Iappend: byte order, inode types and link counts, and the records of directories are not modelled.
- Bio.BufferCache.Bread: for a buffer that nobody has locked; a process that has to wait takes the steps Get, Lock and Fill, and the waiting itself is in SleepLock.
- GroupCommitRuns.PanicExactlyWhen: how many blocks an operation may add is a parameter of the run; the bound for filewrite is in FileWrite.
- SleepLock.MutualExclusion: one sleep lock; other channels and the timer are left out.
- ExitService.ExitGoesOn: progress of exit's own steps; waiting for wait_lock is left to the scheduler.
- ExitWait.EventKeeps: a fork that fails and gives its slot back, kill of pid 0 and the panic of an exiting init are left out.
- Umalloc.Heap.Malloc: for sizes that fit sbrk's int argument; blocks are counted in header units, not bytes.
- Virtio.Disk.DeviceComplete: a device that reports an error, on which the driver panics, is left out; so are registers and fences.
- Shell.ParseCmd: tree nodes are values, so storing an argument rebuilds the chain above it; the panics are not told apart; malloc does not fail.
- Grep.Match: the line buffering of grep() around the matcher.
- Trap entry, context switches, TLB, fences, interrupts, UART, PLIC and start-up: hardware effects.
- System-call dispatch, exec, directories and path lookup, the inode cache, pipes and the console: simpler than the parts modelled, or needing external formats.
- uvmcreate, uvminit, uvmclear's callers, copyinstr, krefcount: only easy members.
