# xv6 kernel core in Dafny

A model of the parts of this xv6 that are hardest to get right, with proofs about every input, every
interleaving or every run:

- **Disk and log.** The buffer cache with its LRU list (`Bio.dfy`); the write-ahead log that works through it
  (`Log.dfy`); group commit by any number of interleaved operations, with crashes at any moment
  (`GroupCommit.dfy`); and the code of the first two as a refinement of the third, with power that may fail within
  any call (`Machine.dfy`).
- **File layer.** The free bit map, block mapping, reading, writing and truncating (`Fs.dfy`); directories and
  link counts (`Links.dfy`).
- **Processes.** Sleep and wakeup, sleep locks and the queue of `sleep1.p` for any number of processes
  (`SleepWakeup.dfy`); fork, exit, wait and kill (`ProcLife.dfy`); the three-level scheduler (`Sched.dfy`).
- **Memory.** Page tables, the page allocator, making, growing, shrinking, freeing and copying address spaces
  (`Vm.dfy`); the user-level allocator (`Heap.dfy`).
- **Pipes.** The ring buffer with wrapping counters and the processes that sleep on it (`Pipe.dfy`).

Code that updates state in place is a class whose methods follow the source's loops and branches; each method is
proved against a specification on values.  Code whose difficulty is interleaving is a state machine: an `Action`
datatype, a `Next` function that takes one step, an `Exec` function over lists of actions, and theorems about
`Exec` of every list.  A panic is an outcome of the model (`None`, `false`, `Panic`, `Panicked`, `Remap`, `Panics`)
wherever a caller could reach it; the panic of `kfree`, for an address that is no page of the allocator's, is a
precondition, since the ownership invariant rules it out at every call.  In the log, a panic is one of the places
where the machine stops, so crash atomicity covers it.  `Common.dfy` holds what several modules share.

`dafny verify dfyconfig.toml` checks the whole project.

Where a property one would expect does not hold, the model keeps the code's behaviour, a lemma shows the failing
case, and another gives the exact condition:

- If no operation calls `log_write` more than `MAXOPBLOCKS` times, the reservation made by `begin_op` keeps it from
  panicking if and only if the log has `LOGSIZE` blocks besides its header; `mkfs` gives it one fewer
  (`GroupCommit.ReservationSufficesIff`).  If only new blocks are counted, it panics on a log of any size once the
  list is full, even for a block already listed (`GroupCommit.FullLogPanics`, exact condition in
  `GroupCommit.PanicIff`).
- A commit is written out if and only if fewer than `NBUF` blocks are logged, since `write_log` needs a buffer
  besides the pinned ones (`LogMachine.Machine.EndOp`).  It always is if and only if the log has fewer than `NBUF`
  blocks besides its header (`LogMachine.NeverStuckIff`); as `NBUF` is `LOGSIZE`, no size of the log rules out both
  this panic and the one above (`LogMachine.NoSafeSize`).
- A buffer released by `brelse` leaves the cache coherent if and only if it is pinned, or the disk has what it holds
  (`Bio.BufferCache.BRelse`).
- `create` and `link` keep link counts exact if and only if the parent directory is still linked, or the name was
  there before (`LinkCounts.CreateKeepsIff`, `LinkCounts.LinkKeepsIff`; from every reachable state there is a run
  that breaks them, `LinkCounts.DeadParent`).
- `malloc`'s unit count is large enough if and only if the 32-bit rounding does not wrap
  (`UserHeap.EnoughBytesIff`), and `morecore` asks `sbrk` for the room it then uses if and only if that is below
  2^31 bytes (`UserHeap.SbrkRequestIff`).
- `setupkvm` succeeds if and only if 65 pages are free; when it fails, every page that was free is lost
  (`Vm.Vm.Setupkvm`).  `copyuvm` panics if and only if a page below the size is absent and memory lasts until the
  copy reaches it; when it fails after `setupkvm`, a page is lost if and only if the free pages run out between a
  page and its table (`Vm.Vm.Copyuvm`).
- The rounding of the root directory's size in `mkfs` leaves it without a hole if and only if its entries do not
  fill their last block (`FileSystem.MkfsRootHole`).
- The skip over a missing page table in `deallocuvm` passes over a page if and only if `Paging.Missed` says so
  (`Paging.VisitsIff`, failing case in `Vm.SkipMisses`); for the address spaces the kernel makes it never does.
- A child starts unmarked by `kill` as long as no kill comes to a free slot and no fork fails after its child was
  killed, and exactly then (`ProcLife.FreeUnmarkedIff`): only `wait` clears the mark, so after `kill(0)`, which finds a
  slot that was never used, the next child is killed from birth (`ProcLife.BornKilled`).
- A reader left asleep over a full pipe is possible after exactly one kind of step, a killed writer giving up
  (`PipeRuns.ReadersKeptIff`, failing run in `PipeRuns.KilledWriterLosesRead`).

## Model

| member | source | states |
|---|---|---|
| LruRing.Unlink | bio.c:132-133 | taking a buffer out of the circular doubly linked list leaves one consistent list, in both directions, of the others |
| LruRing.PushFront | bio.c:134-137 | linking a buffer in after the head leaves one consistent list with it in front |
| LruRing.Surgery | bio.c:132-137 | the six assignments together keep one circular list that holds every buffer exactly once |
| LruRing.FrontKeepsOrder | bio.c:130-138 | the list stays sorted by time of last release |
| Bio.OneBufferPerBlock | bio.c:58-60 | no block has two buffers |
| Bio.RecycleIsTransparent | bio.c:77-91 | recycling a clean unreferenced buffer changes no block's content, and what the buffer held is on the disk |
| Bio.BufferCache.constructor | bio.c:38-56 | a new cache is coherent with the disk image and its list holds every buffer |
| Bio.BufferCache.BInit | bio.c:38-56 | the initial list holds every buffer, in order |
| Bio.BufferCache.Find | bio.c:66-75 | the first loop finds the block's buffer if and only if there is one |
| Bio.BufferCache.Victim | bio.c:77-91 | the second loop finds the least recently released clean unreferenced buffer, or there is none |
| Bio.BufferCache.BGet | bio.c:61-93 | cached block, else recycled least recently released buffer, else panic; a dirty or referenced buffer is never taken |
| Bio.BufferCache.AcquireSleep | bio.c:72-73 | locking a buffer changes nothing else |
| Bio.BufferCache.Iderw | memide.c:37-59 | one atomic transfer in the right direction, or a panic exactly in the four cases the source checks for |
| Bio.BufferCache.BRead | bio.c:96-106 | the buffer returned is locked and holds the last content stored in the block, whatever was evicted; it panics exactly when the block is not cached and every buffer is referenced or dirty, or it has to be read and is no block of the disk; the caller waits exactly while another process has the block locked |
| Bio.ReadIff | bio.c:61-93 | with no buffer referenced, a block can be read if and only if it is pinned or fewer than NBUF blocks are |
| Bio.TwoReadIff | log.c:74-76 | with no buffer referenced, a block that is not pinned and another can both be read if and only if two buffers are not pinned, or one is not and the other block is |
| Bio.ReadBothIff | log.c:181-182 | whichever buffer the first of two reads takes, the second finds one if and only if there were two different buffers for the two blocks to begin with |
| Bio.BufferCache.Store | log.c:206-210 | the holder of the lock changes the block's content; every other block and flag is unchanged |
| Bio.BufferCache.Pin | log.c:229 | setting B_DIRTY keeps the block from being recycled and changes no content |
| Bio.BufferCache.BWrite | bio.c:109-116 | what the buffer holds reaches the disk in exactly one write; panic exactly when it is not locked or not a block of the disk |
| Bio.Unlock | bio.c:122-125 | unlocking a buffer loses sight of nothing if and only if it is pinned or the disk has what it holds |
| Bio.BufferCache.ReleaseSleep | bio.c:122-125 | the first half of brelse, under the sleep lock |
| Bio.BufferCache.Unref | bio.c:127-140 | the second half, under bcache.lock, whoever has locked the buffer by then; coherence is neither gained nor lost |
| Bio.BufferCache.BRelse | bio.c:120-141 | the buffer is unlocked, moves to the front on the last release only; panic exactly when it is not locked; the cache stays coherent if and only if a changed buffer was logged or written |
| Bio.BufferCache.MoveToFront | bio.c:130-138 | exactly this buffer moves to the front; the list stays whole and ordered by release |
| Bio.BufferCache.Settled | bio.c:77-91 | a block that is neither locked nor pinned has its content on the disk |
| LogSpec.HeadRoundTrip | log.c:85-113 | reading the header back gives the block list that was written |
| LogSpec.EmptyHead | log.c:120-121 | after the last write of a commit or a recovery the log is empty |
| LogSpec.RecoveryCutIsHarmless | log.c:115-122 | recovery stopped after any number of its writes leaves a disk that recovers to the same file system |
| LogSpec.RecoveryMayCrashRepeatedly | log.c:115-122 | so does recovery stopped any number of times in a row |
| LogSpec.BeforeHeader | log.c:175-188 | until the header write the disk recovers to the old file system |
| LogSpec.LogPhaseCommits | log.c:193-195 | once the header is written the disk recovers to the new contents |
| LogSpec.AfterHeader | log.c:195-198 | it still does after any number of the installing writes |
| LogSpec.CrashAtomicity | log.c:190-200 | commit stopped after any number of writes recovers to all old or all new, and to all new exactly from the header write on |
| LogSpec.CommitPlan | log.c:101-200 | the writes of a commit one by one: log block 1 + t gets block t of the list, the header its length and the list, the home blocks their contents, the header length 0 |
| LogSpec.RecoveryPlan | log.c:69-122 | the writes of a recovery one by one, read from the header and the log blocks on the disk |
| WriteAheadLog.CommitTrail | log.c:190-200 | every disk state that commit goes through recovers accordingly |
| WriteAheadLog.RecoveryTrail | log.c:115-122 | every disk state that recovery goes through recovers to the same file system |
| WriteAheadLog.Log.constructor | log.c:53-66 | a new log has nothing logged, nothing outstanding, no commit running |
| WriteAheadLog.Log.LogOne | log.c:181-186 | one round: the log block on disk gets the cached content, nothing else changes; it goes through exactly when there are buffers for both blocks |
| WriteAheadLog.Log.InstallOne | log.c:75-80 | one round: the home block on disk gets the log block's content, nothing else changes; it goes through exactly when there are buffers for both blocks |
| WriteAheadLog.Log.WriteLog | log.c:175-188 | the disk writes are the copies to the log in order; with no buffer held, all of them exactly when nothing is logged or a buffer is not pinned, and otherwise none |
| WriteAheadLog.Log.WriteHead | log.c:101-113 | one disk write puts the block list in the header, exactly when there is a buffer for it |
| WriteAheadLog.Log.ReadHead | log.c:85-96 | the list in memory becomes the one in the header, exactly when there is a buffer for it; the disk is not touched |
| WriteAheadLog.Log.InstallTrans | log.c:69-82 | the disk writes are the installs in order; with no buffer held, all of them exactly when there are two buffers that are not pinned, or one and the first block is pinned, and otherwise none; installed blocks are no longer pinned |
| WriteAheadLog.Log.Commit | log.c:190-200 | with no buffer held, the whole commit plan is written exactly when fewer than NBUF blocks are logged, and otherwise nothing; then every home block has the cached content; every disk on the way recovers to old or new as above |
| WriteAheadLog.Log.RecoverFromLog | log.c:115-122 | with no buffer held, as in a new cache, it completes with exactly the installs and the header write; every intermediate disk recovers to the same file system, which is then in place and the log empty |
| WriteAheadLog.Log.BeginOp | log.c:125-141 | an operation enters exactly when no commit runs and the list, with MAXOPBLOCKS for each operation and the new one, is within LOGSIZE |
| WriteAheadLog.Log.EndOp | log.c:145-161 | the last operation out, and only it, goes on to commit; panic exactly when a commit is running |
| WriteAheadLog.Log.LogWrite | log.c:211-231 | a block already listed leaves the list as it is, a new one is appended; its buffer is pinned; panic exactly in the cases the source checks for |
| GroupCommit.Recoverable | log.c:115-122 | in every state the disk recovers to exactly the groups whose header was written |
| GroupCommit.LogWriteKeeps | log.c:211-231 | log_write keeps the group commit invariant |
| GroupCommit.EndKeeps | log.c:145-172 | end_op keeps it |
| GroupCommit.CommitWriteKeeps | log.c:190-200 | each single disk write of a commit keeps it |
| GroupCommit.CommitCompletes | log.c:190-200 | a completed commit has emptied the log and put the cached contents at home |
| GroupCommit.CrashKeeps | log.c:115-122 | a crash, with recovery itself cut any number of times, keeps it |
| GroupCommit.OpsKeep | log.c:125-231 | no operation's writes ever fall in two groups, or partly in a group and partly lost |
| GroupCommit.EveryRun | log.c:125-231 | in every run with crashes the recoverable disk is the effect of the committed groups in order, every operation is wholly in or wholly out, and at rest nothing waits to become durable |
| GroupCommit.CrashNeverBlocks | log.c:115-122 | at any moment of any run a crash can be recovered from, to the committed groups |
| GroupCommit.BeginWaitsIff | log.c:125-141 | in every run begin_op waits if and only if a commit runs, or the list would pass LOGSIZE if every open operation and the new one each logged MAXOPBLOCKS more new blocks |
| GroupCommit.Reservation | log.c:125-141 | if every operation adds at most MAXOPBLOCKS blocks, logged blocks are distinct and, with the unspent budgets, fit in LOGSIZE |
| GroupCommit.PanicIff | log.c:216-217 | a log_write within its budget of new blocks panics if and only if the list has reached LOGSIZE or the size of the log; on a log of LOGSIZE blocks only for a block already listed |
| GroupCommit.ReservationSufficesIff | log.c:216-217 | runs in which no operation calls log_write more than MAXOPBLOCKS times never reach the panic "too big a transaction" if and only if the log has LOGSIZE blocks besides its header |
| GroupCommit.FullLogPanics | log.c:216-217 | counting only new blocks is not enough: on every log that large a run within that budget does reach it |
| GroupCommit.TooBig | mkfs.c:25 | with a smaller log, such as mkfs makes, a run of few calls does reach it |
| LogMachine.CommitRun | log.c:190-200 | every prefix of the writes of a commit is a run of the state machine |
| LogMachine.OneMoreCut | log.c:115-122 | a recovery cut short once more is one more cut of the same crash |
| LogMachine.Machine.constructor | log.c:53-66 | a machine booted from any disk whose log can be read is in step with a booted state machine on the recovered file system; every disk on the way is that of a recovery cut short |
| LogMachine.Machine.Boot | log.c:53-66 | a new cache and recover_from_log, on whatever a run and any number of recoveries cut short left, complete and are the step Crash with those cuts; every disk on the way is that of one more recovery cut short |
| LogMachine.Machine.BeginOp | log.c:125-141 | a try of begin_op is the step Begin, or is refused exactly when that step is blocked, which is exactly when the list with the reservations would pass LOGSIZE |
| LogMachine.Machine.WriteBlock | log.c:206-231 | bread, change, log_write and brelse through the cache are the step LogWrite, and panic exactly when that step does; the disk is not written |
| LogMachine.Machine.EndOp | log.c:145-172 | end_op, with the commit of the last operation, is a run of End, CommitWrite and CommitDone; it goes through exactly when other operations are open or fewer than NBUF blocks are logged, and a commit leaves the cached contents at home and the log empty; every disk on the way is that of the run so far, so a machine can be booted from it |
| LogMachine.FullGroup | param.h:11-12 | on every log of LOGSIZE blocks a run of few calls fills the cache with pinned blocks and comes to its last end_op |
| LogMachine.NeverStuckIff | log.c:175-188 | in runs of few calls a commit always finds its buffers if and only if the log has fewer than NBUF blocks besides its header |
| LogMachine.NoSafeSize | param.h:11-12 | no size of the log avoids both "too big a transaction" and "bget: no buffers" |
| FreeList.Conservation | umalloc.c:46-61 | block sizes add up to the units obtained from sbrk |
| FreeList.FreePlusLive | umalloc.c:24-90 | free units plus live units are the units obtained from sbrk |
| FreeList.BlocksDisjoint | umalloc.c:24-90 | no two blocks, live or free, have a unit in common |
| FreeList.NoOverlap | umalloc.c:24-44 | a block on the list ends before the next begins |
| FreeList.InsertCircular | umalloc.c:37-42 | linking a block in at its place keeps one circle in address order |
| FreeList.MergeBlocks | umalloc.c:33-41 | merging two adjacent blocks keeps the circle, the tiling and the gaps between the others |
| FreeList.FreeKeeps | umalloc.c:33-43 | free keeps the list circular, ordered, coalesced and exactly the blocks that are not live |
| UserHeap.EnoughBytesIff | umalloc.c:69 | the unit count covers the bytes asked for if and only if the 32-bit rounding does not wrap, and then one unit fewer would not |
| UserHeap.SbrkRequestIff | umalloc.c:52-54 | for which byte counts morecore asks sbrk for the room it then uses, the product and the conversion to int not wrapping |
| UserHeap.Heap.constructor | umalloc.c:21-22 | before the first malloc nothing is live |
| UserHeap.Heap.Place | umalloc.c:30-32 | free's search ends, from wherever freep is, at the entry after which the block belongs |
| UserHeap.Heap.Free | umalloc.c:24-44 | exactly this block leaves the live set; no other caller's data or header changes; its units can now be allocated |
| UserHeap.Heap.Morecore | umalloc.c:46-61 | sbrk's region becomes free, merged with its neighbours, and a block large enough is there |
| UserHeap.Heap.Start | umalloc.c:70-73 | the first malloc sets up a list of just the static header |
| UserHeap.Heap.TakeWhole | umalloc.c:76-77 | a block of the exact size goes to the caller whole |
| UserHeap.Heap.TakeTail | umalloc.c:78-82 | the tail of a larger block goes to the caller |
| UserHeap.Heap.Take | umalloc.c:75-85 | the caller gets a block of exactly the size asked for that was not live; nobody else's data changes |
| UserHeap.WalkedAround | umalloc.c:74-88 | when the walk is back at freep it has seen every entry |
| UserHeap.Heap.AllocUnits | umalloc.c:74-89 | the loop ends on every heap state with at most one sbrk call; null exactly when nothing fits and sbrk refuses; a block that fits is the first one after freep, and its last units go to the caller |
| UserHeap.Heap.Malloc | umalloc.c:63-90 | malloc on a byte count, including the first call |
| UserHeap.Heap.StoreData | umalloc.c:75-85 | what a caller writes into its own units does not disturb the allocator |
| Bitmap.BitOps | fs.c:66-68 | setting, clearing and testing one bit of a byte leave the others alone |
| Bitmap.UsedIs | fs.c:64-68 | the bit of block b is bit b mod 8 of byte b / 8, in the bitmap block b / 4096 |
| Bitmap.Alloc | fs.c:56-78 | the first clear bit below the size is set and no other bit changes; none exactly when all are set |
| Bitmap.OneLessClear | fs.c:56-78 | setting one clear bit leaves exactly one clear bit fewer |
| Bitmap.Release | fs.c:81-96 | exactly this bit is cleared; panic exactly when it was clear |
| Bitmap.MarkFirst | mkfs.c:237-251 | exactly the blocks in use are marked |
| Blocks.UsedIffOwned | fs.c:53-96 | between operations a bit is set if and only if the block is reserved or in some inode's slot |
| Blocks.OneSlotPerBlock | fs.c:346-382 | no block is in two slots |
| FileSystem.Fs.constructor | mkfs.c:92-118 | the disk mkfs lays out has its first blocks reserved, all others free, and no inode holds a block |
| FileSystem.Fs.Balloc | fs.c:56-78 | the block handed out was owned by nobody, is zeroed and marked; no file's contents change; panic exactly when no bit is clear |
| FileSystem.Fs.Bmap | fs.c:354-382 | the block that holds block bn of the file, allocated if missing; no contents change, and nothing at all if it was there; panic exactly when bn is beyond the largest file or the clear blocks are fewer than the missing ones of the block and its table |
| FileSystem.FlatFile | fs.c:354-382 | where byte k of a file is: in one of twelve blocks the inode lists, or else in one of those listed, lowest byte first, in the block it lists last |
| FileSystem.ToGoNext | fs.c:449-461 | what a transfer lacks is what bmap takes for its first block and what the rest then lacks, the table counted once |
| FileSystem.Fs.Readi | fs.c:432-463 | exactly the slice of the flat file; errors exactly in the cases the source checks for; panic exactly when the clear blocks are fewer than the range lacks; blocks are allocated if and only if one read was missing, and each ends up in a slot |
| FileSystem.Fs.Writei | fs.c:467-497 | the file is overlaid and grown, every other file is unchanged, every block allocated ends up in a slot, and the inode on disk stays equal to the one in memory though iupdate runs only on growth; errors exactly in the cases the source checks for; panic exactly when the clear blocks are fewer than the range lacks, its table included |
| FileSystem.Fs.DropBlock | fs.c:399-400 | the block of a slot is in use when itrunc frees it, so the panic "freeing free block" is not reached |
| FileSystem.Fs.DropDirect | fs.c:396-401 | the direct blocks are given back and their slots cleared |
| FileSystem.Fs.DropEntries | fs.c:405-409 | the blocks listed in the table are given back |
| FileSystem.Fs.Itrunc | fs.c:389-417 | exactly the inode's blocks become free, the file is empty, and nothing else changes owner |
| FileSystem.MkfsRootHole | mkfs.c:158-163 | when mkfs's rounding leaves the root directory with a missing block |
| Directory.Lookup | fs.c:510-534 | the first entry with that name, or none |
| Directory.DirLink | fs.c:537-564 | refused exactly when the name is present; otherwise the entry goes to the first empty slot or the end |
| Directory.IsDirEmpty | sysfile.c:167-180 | whether anything but the first two entries is in use |
| LinkCounts.PutKeeps | fs.c:319-334 | iput keeps the invariant, and frees an inode only when no live entry names it |
| LinkCounts.LinkKeeps | sysfile.c:117-164 | link keeps the invariant, never panics, and a failed link leaves the table as it was |
| LinkCounts.CreateKeeps | sysfile.c:240-283 | create in a linked directory keeps the invariant and panics exactly for want of an inode; an existing file is opened |
| LinkCounts.CreateRooted | sysfile.c:268-279 | a new directory is one step further from the root than its parent |
| LinkCounts.LastLink | sysfile.c:200-222 | an empty directory about to be removed has exactly one link, from its parent |
| LinkCounts.UnlinkKeeps | sysfile.c:183-238 | unlink keeps the invariant and the panic "unlink: nlink < 1" is not reached |
| LinkCounts.UnlinkTree | sysfile.c:208-224 | removing an empty directory cuts no other off from the root |
| LinkCounts.CreateKeepsIff | sysfile.c:240-283 | after create every link count is exact if and only if the parent's nlink is positive or the name was there |
| LinkCounts.LinkKeepsIff | sysfile.c:117-164 | the same for link |
| LinkCounts.DeadDirCount | sysfile.c:262-271 | a directory made in a removed one makes the link count of that one's parent wrong |
| LinkCounts.EveryRun | sysfile.c:116-283 | in every run from mkfs, nlink is the number of live entries, ".." leads from every linked directory to the root, free inodes are unnamed and unnamed ones are held |
| LinkCounts.NoCycle | sysfile.c:116-283 | in every such run no linked directory but the root is above itself |
| LinkCounts.RunStops | sysfile.c:116-283 | such a run stops only for want of an inode or by naming something in a removed directory |
| LinkCounts.OpenSurvives | fs.c:319-334 | an inode in use is freed exactly by the last close, and only without links |
| LinkCounts.DeadParent | sysfile.c:240-283 | in every reachable state, making a directory, removing it while in use and creating a file in it leaves a link count that is wrong |
| LinkCounts.DeadParentRun | sysfile.c:240-283 | such a run from mkfs, on every disk with room for two inodes |
| LinkCounts.InodeTable.Ialloc | fs.c:185-205 | the first free inode from 1 on, or none exactly when there is none |
| LinkCounts.InodeTable.Make | sysfile.c:240-283 | create succeeds exactly when it finds a file to open, or the name is new and an inode is free; the first free inode then gets its kind, one link and its dots, the parent an entry and, for a directory, a link; nothing else changes |
| LinkCounts.InodeTable.SysLink | sysfile.c:117-164 | link succeeds exactly when the inode is no directory and the parent is one without the name; the inode gets one link and the parent one entry, in the first empty slot or at the end; nothing else changes, and nothing at all on failure |
| LinkCounts.InodeTable.SysUnlink | sysfile.c:183-238 | unlink removes the first entry with the name, exactly when what it names may go; the entry becomes empty, the inode has one link fewer or is freed, the parent of a directory one link fewer, and nothing else changes |
| LinkCounts.UnlinkIff | sysfile.c:197-213 | where the invariant holds, unlink never panics, and succeeds if and only if the parent is a directory, the name is no dot name, an entry has it, and the inode named is no directory or holds only its dots |
| LinkCounts.CreatePanics | sysfile.c:249-261 | create panics if and only if the name is new and no inode is free, or its entry names no allocated inode |
| LinkCounts.OpenThenClose | fs.c:312-334 | opening an inode and closing it again restores the table |
| SleepWakeup.NextKeeps | proc.c:514-566 | every step of sleep, wakeup, acquire and release keeps the invariant |
| SleepWakeup.EveryRun | proc.c:514-566 | in every run each lock has one holder, and whoever sleeps while the condition holds has a wakeup coming |
| SleepWakeup.NoLostWakeup | proc.c:514-566 | a process asleep in any reachable state sleeps on a false condition or has a wakeup pending that will reach its slot |
| SleepWakeup.Progress | proc.c:514-546 | the two locks cannot deadlock: while some process is in mid-operation, some process can step |
| SleepWakeup.AtRest | sleep1.p:1-134 | once everything is at rest nobody sleeps on a condition that holds |
| SleepWakeup.WakeupReaches | proc.c:551-558 | a scan of the table makes every sleeper it has not passed runnable |
| SleepLocks.MutualExclusion | sleeplock.c:22-42 | at most one process has the lock and it is the one named in pid, though the test of locked, its setting and the setting of pid are three steps |
| SleepLocks.WaitsForHolder | sleeplock.c:22-42 | a process waiting for the lock waits for a holder or has a wakeup coming |
| ProducerConsumer.EveryQueueRun | sleep1.p:78-134 | the count is what was produced less what was consumed, for any number of producers and consumers, though each loads the count and stores it in two steps |
| ProducerConsumer.ConsumersDrain | sleep1.p:78-134 | at rest a consumer is still asleep only if everything produced was consumed |
| ProcTable.Ptable.Allocproc | proc.c:45-73 | the first unused slot becomes an embryo with the next pid; none exactly when no slot is unused, and then nothing changes |
| ProcTable.Ptable.Wakeup1 | proc.c:551-558 | exactly the sleepers on the channel become runnable |
| ProcTable.Ptable.Exit | proc.c:219-243 | the process is a zombie, its children are init's, exactly the sleepers on the parent, and on init if a child is a zombie, become runnable; pids, channels and marks are kept |
| ProcTable.Ptable.WaitScan | proc.c:255-287 | the first zombie child is reaped and its slot cleared, mark included; else no children or killed, else asleep on the own slot; each exactly in its case |
| ProcTable.Ptable.Kill | proc.c:571-588 | the first slot with the pid is marked, and runnable if it slept; its pid, parent and channel, and every other slot, are kept; failure exactly when no slot has the pid |
| ProcLife.ExitKeeps | proc.c:198-247 | exit keeps the invariant |
| ProcLife.WaitKeeps | proc.c:251-289 | a pass of wait keeps it |
| ProcLife.AllocKeeps | proc.c:45-73 | allocating a slot keeps it |
| ProcLife.ForkDoneKeeps | proc.c:186-190 | completing a fork keeps it |
| ProcLife.EveryRun | proc.c:45-289 | the whole invariant in every run of fork, exit, wait, kill, sleep, wakeup and scheduling |
| ProcLife.ReapedOnce | proc.c:251-289 | a forked child is reaped at most once, and is in the table exactly until then |
| ProcLife.LivingParent | proc.c:226-237 | every process but init, zombies included, has a living parent with a smaller pid |
| ProcLife.NoSleepOverZombie | proc.c:226-237 | no process sleeps in wait while it has a zombie child |
| ProcLife.WaitReaps | proc.c:257-278 | a parent with a zombie child reaps one that was never reaped before |
| ProcLife.ForkedChild | proc.c:153-192 | a child that fork returns is runnable, younger than the caller and its child, with a new pid, and nothing else in the table changes |
| ProcLife.WakeupWakes | proc.c:560-566 | wakeup leaves nobody asleep on the channel and touches nobody else |
| ProcLife.MarkedIff | proc.c:571-588 | in every run a slot is marked if and only if a kill has come to it since it was last reaped |
| ProcLife.StaysKilled | proc.c:571-588 | a process that has been killed stays marked, in its slot, until it is reaped |
| ProcLife.FreeUnmarkedIff | proc.c:58-81 | a step leaves every free slot unmarked if and only if it is no kill that comes to a free slot and no failure of a fork whose child was killed |
| ProcLife.StartsUnmarked | proc.c:58-73 | in runs without such steps every child starts unmarked |
| ProcLife.BornKilled | proc.c:571-588 | a run with kill(0), on every table with two slots, after which the next child is marked from birth |
| Scheduler.CheckForHigher | proc.c:302-313 | the flags are raised exactly when a process of that level is RUNNABLE or RUNNING, and never lowered |
| Scheduler.PickHigh | proc.c:329-357 | the first slot that has run the smallest part of its life among RUNNABLE processes of level HIGH, by run times multiplied crosswise with ages, or -1 exactly when there is none; a process of age 0 counts as having run nothing |
| Scheduler.EveryDispatch | proc.c:315-445 | every dispatch in every run picks the highest level that has a RUNNABLE process, and of level HIGH the first slot that has run the smallest part of its life, by the same comparison |
| Scheduler.EveryRoundRuns | proc.c:315-445 | a round that began with somebody RUNNABLE dispatches somebody |
| Scheduler.BoundedBypass | proc.c:375-442 | with no higher level ready, a RUNNABLE process of level LOW or MEDIUM waits for at most NPROC - 1 other dispatches |
| Scheduler.QuantumEnds | proc.c:473-490 | at most QUANTA + 1 timer interrupts count against one dispatch, and a process of level HIGH is never made to yield |
| Scheduler.TimerKeeps | trap.c:110-112 | a timer interrupt keeps the invariant |
| Scheduler.OtherKeeps | sysproc.c:141-158 | nice, fork and wakeups in mid-round keep it |
| Scheduler.ClocksCount | trap.c:50-58 | in every run ticks counts the timer interrupts, ctime is its value when fork last allocated the slot, and rtime counts the interrupts taken while the process ran since then, modulo 2^32 |
| Scheduler.ForkStartsHigh | proc.c:58-71 | a new process starts at the highest level with nothing run |
| Scheduler.NiceTurns | sysproc.c:141-158 | nice takes the running process one level down and from the lowest to the highest |
| Paging.NoSharing | vm.c:222-250 | no page backs two user pages, in one address space or in two |
| Paging.Conservation | kalloc.c:59-95 | free pages and owned pages add up to all pages |
| Paging.GiveStep | kalloc.c:59-77 | giving back a page nothing refers to keeps every page owned once and the free list a chain of the free pages |
| Paging.VisitsIff | vm.c:265-270 | exactly which pages the walk of deallocuvm comes to, with its skip over missing tables |
| Vm.ShrinkSized | vm.c:256-280 | the skip misses nothing when the present pages are a gapless stretch from 0 |
| Vm.SkipMisses | vm.c:265-270 | an address space in which it misses a page |
| Vm.Vm.constructor | kalloc.c:30-52 | after freerange every page is free and the free list is whole |
| Vm.Vm.Kalloc | kalloc.c:82-95 | the head of the free list, which was free, or null exactly when the list is empty |
| Vm.Vm.WalkPgdir | vm.c:44-64 | the table, made if asked for, with a directory entry that allows writing and user access; no address space looks different |
| Vm.Vm.MapPage | vm.c:69-89 | an absent user page gets the given page and flags; panic exactly when it is there already; failure exactly when its table is missing and no page is free, with nothing changed |
| Vm.Vm.Setupkvm | vm.c:127-143 | the new directory maps exactly the kernel's half, page by page with its frames and permissions, and takes 65 pages; it fails exactly when fewer are free, and then all of them are lost |
| Vm.KernelHalfIs | vm.c:114-124 | the kernel's half page by page: physical memory with the text read-only, nothing, then the devices; none of it open to user code |
| Vm.NoRemap | vm.c:69-89 | the regions of kmap never map a page twice |
| Vm.Abandoned | vm.c:138-141 | what setupkvm has taken when it fails stays taken, and no address space changes |
| Vm.KernelsGrown | vm.c:222-250 | every address space keeps the kernel's half when one grows |
| Vm.KernelsCleared | vm.c:256-280 | the same when one shrinks |
| Vm.KernelsFreed | vm.c:284-299 | the same when one is freed |
| Vm.KernelsCopied | vm.c:316-344 | a copy has it too |
| Vm.WhereItRunsOut | vm.c:323-338 | when the free pages run out within a copy, and when a page is lost then |
| Vm.Vm.Allocuvm | vm.c:222-250 | exactly the pages from the old size to the new appear, every word of them zero, writable and open to the user, in frames that were free, exactly when the free pages cover them and the tables missing in their range; otherwise every address space is as it was and only tables have been added |
| Vm.Vm.Deallocuvm | vm.c:256-280 | exactly the pages the walk comes to are given back and nothing else changes; on a gapless space exactly those above the new size, whose frames become free, and the others look as they did |
| Vm.Vm.Freevm | vm.c:284-299 | the directory, all its tables and all its user pages become free, and no other page or address space changes |
| Vm.Vm.Copyuvm | vm.c:316-344 | the child's pages equal the parent's in contents and flags, in frames that were free; no memory exactly when 65 pages, the copies up to the first absent page and their tables do not fit, panic exactly when they do and there is such a page; on failure every address space is as it was, and exactly when which pages are lost |
| PipeBuffer.Pipe.constructor | pipe.c:33-37 | a new pipe is empty and open at both ends |
| PipeBuffer.Pipe.WriteSome | pipe.c:78-98 | bytes are accepted in order, across the wrap of the counters, until all are or the buffer is full; with bytes left the call fails exactly when the reading end is closed or the process killed, and else sleeps |
| PipeBuffer.Pipe.ReadSome | pipe.c:100-121 | the oldest undelivered bytes are delivered in order, as many as asked for or until the buffer is empty; the call sleeps or fails exactly when the buffer is empty and the writing end open, and fails exactly if also killed |
| PipeBuffer.Pipe.Close | pipe.c:59-75 | one end is closed, buffered bytes stay, and the pipe is freed exactly when the other end was closed before |
| PipeBuffer.SamePosition | pipe.c:94 | positions survive the wrap of the counters because 512 divides 2^32 |
| PipeBuffer.FullIff | pipe.c:85 | the comparisons of wrapping counters for full and empty are exact |
| PipeRuns.Fifo | pipe.c:78-121 | in every interleaving the bytes read are a prefix of those accepted and the buffer holds the rest |
| PipeRuns.ReadReturns | pipe.c:100-121 | a reader that returns with fewer bytes than it asked for leaves an empty buffer; it returns exactly when there are bytes, the writing end is closed or it is killed, and wakes the writers unless it fails |
| PipeRuns.WriteReturns | pipe.c:78-98 | a writer returns exactly when all is written, the reading end is closed or it is killed, else it sleeps on a full buffer; unless it fails the readers are woken |
| PipeRuns.NeverBothAsleep | pipe.c:78-121 | an un-woken reader and an un-woken writer never sleep on the pipe together, even with kill |
| PipeRuns.ReadersKeptIff | pipe.c:85-92 | the one step after which a reader can be asleep with bytes in the buffer |
| PipeRuns.NoLostRead | pipe.c:78-121 | without kill, a reader asleep un-woken has nothing to read and an open writing end |
| PipeRuns.KilledWriterLosesRead | pipe.c:86-89 | a run with kill in which it has |

## Left out

- Vm.Vm.MapPage: maps one user page, which is all that allocuvm and copyuvm ask mappages for; the loop over a region is in setupkvm.
- Scheduler.PickHigh: compares shares as exact quotients; the rounding of the source's float is not modelled.
- Scheduler.EveryDispatch: one CPU and policy Q3; the other policies and sortProcessFIFO are not modelled, and slots for new processes may be any unused ones.
- ProcTable.Ptable.Allocproc: pids are unbounded; the wrap of nextpid after 2^31 forks is not modelled.
- ProcTable.Ptable.Exit: the per-child statistics and the closing of files are not modelled.
- Bio.BufferCache.BRead: a caller that waits goes on by AcquireSleep; the queue of waiting processes is the sleep lock model's subject.
- LogMachine.Machine.WriteBlock: callers take turns, and a buffer is held for one call only, so none is held across a commit.
- FileSystem.Fs.Writei: disk blocks are values held by the file layer; that log_write makes them durable is the log model's subject, and the two are not composed.
- LinkCounts.EveryRun: system calls are atomic and names are already cut to path elements; interleaving inside iput and link is not modelled.
- LinkCounts.InodeTable.Make: the directory that nameiparent finds is a parameter.
- SleepWakeup.EveryRun: one channel and its lock; spinlocks are atomic steps.
- SleepLocks.MutualExclusion: only the process that holds the lock releases it, as every caller of releasesleep sees to; sleeplock.c does not check that.
- UserHeap.Heap.Malloc: sbrk is a parameter that returns a region of the size needed, above the static header and not handed out before, or nothing; requests beyond the bound of SbrkRequestIff, for which it is asked for less or to shrink, are not modelled.
- UserHeap.Heap.Morecore: the same.
- PipeBuffer.Pipe.constructor: pipealloc's allocation of the page and the two files, and its failure path, are not modelled.
- PipeBuffer.Pipe.Close: the wakeups are steps of PipeRuns.
- FileSystem.Fs.constructor: the files that mkfs copies in are not modelled; creating them is writing.
- LogSpec.CrashAtomicity: a disk write of one block is atomic, as in memide.c.
- PipeRuns.NeverBothAsleep: an end is closed only when no process is in a call on it, as the file reference counts ensure.
- Boot code, device drivers, traps other than the timer, exec, system call argument fetching and user programs other than the allocator.
- Path resolution (namex, skipelem), the in-memory inode cache (iget, ilock) and file descriptors.
- The loading of programs (loaduvm, inituvm) and copying to user space (copyout).
