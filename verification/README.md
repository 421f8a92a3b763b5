# Verified models of the xv6 kernel, shell and heap

A Dafny model of the parts of this xv6 (x86, with a multi-level feedback queue scheduler) that hold
whole-run properties: the crash-safe storage stack, the scheduler and process life cycle, sleeplocks,
physical pages and page tables, pipes, the user heap, the shell parser and the matcher of `grep`.

`dafny verify dfyconfig.toml` checks everything.

## How the model is laid out

| files | what they model |
|---|---|
| `Common`, `Bytes`, `Counting`, `Updates` | what all parts share; blocks as bytes and little-endian words; distinctness and the pigeonhole principle; lists of block updates |
| `BufferCache` | `bio.c` over the memory disk of `memide.c`: the doubly linked list in arrays, `Bget`, `Bread`, `Bwrite`, `Brelse` |
| `LogDisk`, `Log` | `log.c`: the on-disk log as a value (every medium that commit and recovery leave, write by write) and the in-memory log that produces exactly those writes through the cache |
| `LogLimits` | two concrete runs, from boot, in which the commit finds no buffer |
| `CommitRuns`, `CommitLinks` | `commit` one bread, write or brelse at a time, among readers that come and go; the link to the in-place log and cache |
| `LogProtocol` | `begin_op`, the unlocked test and the locked append of `log_write`, and `end_op` as steps of any number of concurrent calls |
| `Bitmap`, `FsState`, `DInode`, `Files`, `LogSpace`, `FreeSpace`, `Truncate`, `FileSystem` | `fs.c` and `filewrite`: bitmap, block ownership, inodes on disk, file contents, what a write logs and allocates, truncation |
| `SpreadDisk`, `ChunkBound`, `TruncateBound` | a disk on which a chunk of `filewrite` logs all ten blocks it reserves, any longer write more, and a truncation more |
| `CrashFiles`, `FileCommit` | `fs.c` over `log.c`: which files a boot finds after a crash in the commit of a write or a truncation; `filewrite` run through the log, the cache and the disk |
| `ProcState`, `Aging`, `AgingOrder`, `ProcSteps`, `ExitWait`, `ProcRuns` | `proc.c` and the timer part of `trap.c`, MLFQ build: atomic steps, the order of the queues, the invariant over all runs |
| `ProcEffects`, `ProcProgress`, `ProcLaws`, `ProcKill` | what each step does to every process and queue, exactly; laws of whole runs: progress, time slices, the way down through the queues, who sleeps, who is marked killed |
| `RunQueues`, `ProcTable` | the same operations in place, on `ptable`, `qu` and `q_index`, proved equal to those steps |
| `SleepLock` | `sleeplock.c` with `sleep` and `wakeup`, one program point at a time, any number of processes and locks, any number of them held by a process while it takes another |
| `VmState`, `VmSpaces`, `VmCost`, `VmCopy`, `Vm` | `kalloc.c` and `vm.c`: the free list threaded through the pages, two-level tables, ownership of every page, how many pages an operation takes |
| `PipeRing`, `PipeRuns`, `PipeStory` | `pipe.c`: the ring with 32-bit counters, readers and writers that sleep, and where the bytes come from and go to |
| `Heap` | `umalloc.c`: the circular address-ordered free list in headers |
| `Shell`, `ShellPrint`, `ShellGrammar`, `ShellRoundTrip`, `ShellBuffer` | the tokenizer and parser of `sh.c`, the tokens and the grammar of a line, a printer for its trees, and `nulterminate` |
| `Grep` | `match`, `matchhere`, `matchstar` of `grep.c` against a denotation of patterns |

Code that works in place is a class whose methods are proved against functions of the state; the
properties are lemmas about those functions and about all runs of them. Panics are results
(`None`, `false`, `Panic`, `Stuck`), so the contracts say exactly when each panic happens, or that it
cannot happen.

## What was found

- `log_write` tests for a full log before it looks for the block in the log (`log.c:218`), so a call that only
  rewrites a block it has already logged can panic; the exact condition is `LogWritePanicsIff`.
- `mkfs.c:25` makes a log of LOGSIZE blocks that includes the header block, one fewer than `begin_op` reserves, so a
  call can panic within its reservation; the exact condition is `ShippedLogPanicsIff`.
- `log_write` tests `log.lh.n` before it takes `log.lock` (`log.c:218-223`). With a log of more than LOGSIZE blocks that
  is harmless (`SlotsInside`). With the log that mkfs makes, two calls that have both passed the test can list LOGSIZE
  blocks without a panic, and the commit would write a slot behind the log (`ShippedLogCanOverrun`). `OverrunIff` and
  `CrowdedIff` say exactly when: when the listed blocks and those in the hands of calls past the test fill the log.
- With no reader coming or going, a commit panics in `bget` exactly if something is listed and every buffer is listed or
  referred to by somebody when it begins, and then nothing has reached the disk (`Commit`, `NoSpareIff`). Two runs get
  there: 30 listed blocks, with a log of more than 31 blocks (`ThirtyListed`), and with the log that mkfs makes 29
  listed blocks and one process that reads a thirtieth outside any call, as `fileread` does (`TwentyNineAndReader`).
- A reader that comes between two rounds of `write_log` can take the last buffer, and the commit then panics with log
  blocks already written (`ReaderAfterOneRound`). Whatever readers do, the disk writes are those of the on-disk model in
  their order (`WritesAsPlanned`), so no crash or panic shows a part of the transaction; the panic comes exactly at a
  block of the log that is not cached while pinned and referenced buffers are all there are (`PanicIff`), and not at all
  while listed blocks and readers' buffers are fewer than the buffers (`RoomEnough`).
- `malloc` of more than 2^31 - 16 bytes gives `sbrk` an argument that is not positive as an int (`umalloc.c:54`);
  `sbrk` then grants nothing, and may even take memory back, but succeeds unless the new size is 0. One of more than
  2^32 - 8 bytes wraps (`umalloc.c:69`). `Malloc` says exactly when the bytes are delivered, when a pointer is
  returned, and when the header that `morecore` stores at the old break faults. With the page-aligned break that `exec`
  leaves it does fault (`FaultingRequest`); with a break inside a page that stays, a block is handed out that was never
  obtained (`UngrantedRequest`).
- `pipewrite` by a killed process, or with the read end closed, returns without waking readers (`pipe.c:86-89`);
  `ReadersExact` says which step leaves a reader asleep over waiting bytes, `StrandedReader` is a run from the start.
- `filewrite`'s chunk of 1536 bytes is the largest that fits ten log blocks: no chunk logs more (`ChunkReserved`), there
  is a disk on which one logs all ten (`TenLogged`), and for every larger size one on which a single write would log
  more (`MoreThanTen`). The bound relies on an unaligned first block being allocated already.
- `itrunc` logs the inode's block and one bitmap block for each that the file has blocks in (`Itrunc`), in one
  transaction. That fits exactly if these are fewer than ten (`TruncateFits`): always on the one bitmap block of the
  disk mkfs makes, but not on every disk (`TruncateTooBig`).
- `kill(0)` marks an unused slot (`proc.c:1031`), and `allocproc` does not clear the mark, so the next child can be born
  killed (`BornKilled`). `MarkedIff` says exactly when a process is marked, by a kill or by a fault of its own
  (`trap.c:113`), and `NewIsMarkedIff` when a new one is.
- The aging loop advances its index after it has taken a process out of the queue (`proc.c:733-785`), so it passes over
  the one behind: an aged process is promoted exactly if the one just before it in its queue is not (`MoveIff`).
- `>>` is read as a token of its own (`sh.c:290-293`) but opened like `>` (`sh.c:388-393`): the two parse to the same tree
  (`ParsesIff`).
- The aging limit is 25 ticks in the code (`proc.c:738`) and 40 in the documentation; the model follows the code.
- In the FCFS build the scan keeps the process with the largest creation time (`proc.c:634`), the documentation says
  the smallest. That build is not modelled.

## Model

| member | source | states |
|---|---|---|
| BufferCache.Cache.constructor | bio.c:39-56 | at boot the list is a ring through all buffers, none of them assigned to a block |
| BufferCache.Cache.Binit | bio.c:39-56 | `next` and `prev` thread the head and every buffer once, in both directions |
| BufferCache.Cache.FindCached | bio.c:69-76 | the walk from the front finds the buffer of a block exactly if the block has one |
| BufferCache.Cache.FindRecyclable | bio.c:81-91 | the walk from the back finds the least recently used clean unreferenced buffer, and none exactly if there is none |
| BufferCache.Cache.Bget | bio.c:62-93 | panics exactly if the block is not cached and every buffer is in use or dirty; otherwise the block has one buffer, no dirty buffer is recycled, and the newest contents of every block are unchanged |
| BufferCache.Cache.Bread | bio.c:97-106 | the locked buffer holds the newest contents of the block; no block's newest contents and no pin changes |
| BufferCache.Cache.Bwrite | memide.c:39-60 | one atomic write of the medium, recorded as a crash point; newest contents unchanged |
| BufferCache.Cache.Brelse | bio.c:121-141 | the last release moves the buffer, and only it, to the front of the list |
| BufferCache.Cache.CopyToFirst | log.c:178-190 | two breads, a copy, a write and two releases change exactly one block of the medium, or nothing if bget panics, whatever buffers others refer to or hold |
| BufferCache.Cache.CleanViewIsDisk | bio.c:97-106 | a block that is not dirty and not being changed by its holder reads as it is on the disk |
| LogDisk.InstallResumes | log.c:70-82 | installing is idempotent: from any partly installed medium the committed contents are the same |
| LogDisk.RecoverySurvivesCrashes | log.c:116-122 | however often and wherever recovery crashes, the boot that completes ends with the committed contents and an empty log |
| LogDisk.CommitAtomic | log.c:178-202 | after each single write of commit the medium holds the old contents before the header write, the whole transaction from it on |
| LogDisk.CrashAtomicity | log.c:70-202 | for every transaction, every crash point in commit and every number of crashes in recovery, the home blocks end exactly old or exactly new, and new exactly if the header write was reached |
| LogDisk.CommitFinishes | log.c:193-202 | a completed commit has applied the transaction and emptied the log |
| LogDisk.RecoveredIsCommitted | log.c:116-122 | an uninterrupted boot installs exactly what the header commits |
| Log.Log.WriteLog | log.c:178-190 | writes the newest contents of the listed blocks to the log area, one disk write each, while others refer to any buffers outside the log; panics exactly if a block is listed and no buffer can be recycled |
| Log.Log.WriteHead | log.c:102-113 | one disk write, of the header only; panics exactly if no buffer can be recycled |
| Log.Log.InstallTrans | log.c:70-82 | copies every logged block home, write by write, and unpins it |
| Log.Log.Commit | log.c:193-202 | produces exactly the sequence of media of the on-disk model; fails exactly if something is listed and every buffer is dirty or referred to, by anybody, and then has written nothing |
| Log.Log.RecoverFromLog | log.c:116-122 | leaves exactly the recovered medium, through exactly the writes of the on-disk model |
| Log.Log.ReadHead | log.c:86-96 | log.lh is what the header block says |
| Log.Log.BeginOp | log.c:126-141 | admits a call exactly if no commit runs and its reservation fits |
| Log.Log.LogWrite | log.c:214-233 | panics exactly under its own tests; otherwise the block is listed once, pinned, and no contents change |
| Log.Log.UpdateBlock | log.c:214-233 | a bread, an update, a log_write and a brelse change exactly that block of the newest contents and nothing on the disk |
| Log.Log.NoSpareIff | bio.c:81-92 | bget finds no buffer to recycle exactly if listed blocks and referenced clean buffers together are as many as there are buffers |
| Log.Log.SpareBuffer | bio.c:81-92 | fewer listed blocks and referenced buffers than buffers leave one for bget |
| Log.Log.ListedOnce | log.c:222-231 | however often a call writes its blocks, it lists each once |
| Log.Log.CommitSafely | log.c:193-202 | the disk catches up with the newest contents, and every crash point on the way recovers to the old or the new contents |
| Log.Log.EndOp | log.c:146-174 | with other calls open it only counts down; the last one commits safely; it panics exactly for a running commit or without a buffer for it |
| Log.Log.SystemCall | log.c:126-233 | begin_op, any number of updates of at most ten distinct blocks, end_op, while others refer to up to 19 buffers: all updates are on the disk, and a crash at any write shows none or all of them |
| LogLimits.ThirtyListed | log.c:178-190 | from boot, three calls that list 30 blocks in a log of more than 31: the last end_op panics in bget |
| CommitRuns.StepKeeps | log.c:178-202 | every step of commit and of any readers keeps: pinned blocks stay pinned with their new contents, clean buffers agree with the disk, and the media so far are those planned |
| CommitRuns.WritesAsPlanned | log.c:178-202 | in every run, whatever readers bread and brelse in between, the media commit leaves are a prefix of those of the on-disk model, all of them when it is done, and each recovers to the old or the new contents |
| CommitRuns.PanicIff | bio.c:81-92 | commit panics exactly before a block of the log that is not cached, with every buffer pinned or referred to; the home blocks it reads never make it panic |
| CommitRuns.RoomEnough | bio.c:81-92 | in every run it does not while listed blocks and readers' buffers are fewer than the buffers |
| CommitRuns.GoesOn | log.c:178-202 | a commit that does not panic can take its next step, unless a reader has locked the listed block it wants |
| CommitRuns.ReaderPanicIff | bio.c:81-92 | the same for the bget of a reader |
| CommitRuns.CommitMedia | log.c:178-202 | one transfer after the other gives the media of the on-disk model |
| CommitRuns.ReaderInBetween | log.c:178-190 | with one buffer to spare, any reader of a block that is not listed can make the commit panic after its first write |
| CommitLinks.Bget | bio.c:62-93 | the in-place bget takes the step of that model, and panics exactly where it does |
| CommitLinks.LockAndRead | bio.c:97-106 | the same for the rest of bread |
| CommitLinks.Brelse | bio.c:121-141 | the same for brelse |
| CommitLinks.FillAndWrite | memide.c:39-60 | the same for a copy and bwrite |
| CommitLinks.CommitBegins | log.c:193-202 | wherever the in-place log commits, with any readers, a run of that model begins |
| CommitLinks.ReaderAfterOneRound | file.c:96-114 | from boot with the log mkfs makes, 29 listed blocks and nobody about: a run in which a reader makes the commit panic with one block written |
| LogLimits.TwentyNineAndReader | file.c:96-114 | from boot with the log mkfs makes, 29 listed blocks and one reader outside any call: end_op panics in bget |
| LogProtocol.ReachableInvariant | log.c:125-233 | in every reachable state, with any number of calls between the test and the append of log_write, listed blocks plus unused reservations fit LOGSIZE, and sleepers have someone to wait for |
| LogProtocol.StepKeeps | log.c:125-233 | every step keeps that invariant, and only the unlocked test of log_write panics, exactly on a full log |
| LogProtocol.SlotsInside | log.c:178-190 | with a log larger than LOGSIZE every slot a commit will write, for listed blocks and those in the hands of calls past the test, lies inside the log |
| LogProtocol.OverrunIff | log.c:218-231 | for a log of any size, the list can outgrow it without another log_write exactly if listed blocks and those in hand are as many as its blocks |
| LogProtocol.CrowdedIff | log.c:218-223 | from a state with all slots inside, exactly a test that passes for a new block with no slot left puts one outside |
| LogProtocol.UncrowdedInside | log.c:125-233 | a run without such a step keeps every slot inside a log of any size |
| LogProtocol.ShippedLogCanOverrun | log.c:218-231 | with the log mkfs makes, a run without a panic to LOGSIZE listed blocks, whose last slot is the first block behind the log |
| LogProtocol.CommitExclusion | log.c:146-174 | while a commit runs no call is open, and no step changes the list it is writing |
| LogProtocol.SleepersHaveAWaker | log.c:126-174 | a process asleep in begin_op has an open call or a commit that will wake it |
| LogProtocol.AdmittedIff | log.c:126-141 | in every reachable state begin_op lets a call in exactly if no commit runs and the log has room for the listed blocks and the whole reservations of all open calls and this one; otherwise the caller sleeps, and nothing else changes |
| LogProtocol.EndWakes | log.c:146-174 | the end of a call wakes everybody who waits for room, or it is the last and starts the commit |
| LogProtocol.ListedExactly | log.c:214-233 | in every run log.lh lists exactly the blocks of the log_write calls that have returned since the last commit |
| LogProtocol.EndOpNeverPanics | log.c:152-153 | the panic of end_op is unreachable |
| LogProtocol.LogWritePanicsIff | log.c:214-233 | with a log larger than LOGSIZE, a call within its reservation panics exactly when the list is full, and then only in rewriting a listed block |
| LogProtocol.FewCallsNeverPanic | log.c:214-233 | a call that has called log_write fewer than ten times never panics in it |
| LogProtocol.AbsorbedWriteCanPanic | log.c:218-219 | a reachable state where rewriting a listed block panics |
| LogProtocol.ShippedLogCanPanic | mkfs.c:25 | with the log mkfs makes, a reachable state where a call panics within its reservation |
| LogProtocol.ShippedLogPanicsIff | log.c:218-219 | with that log, the test panics exactly when it finds LOGSIZE - 1 listed blocks or more, and there are never more than LOGSIZE |
| FsState.MarkKeeps | fs.c:64-70 | marking a free block keeps ownership, with that block in passage |
| FsState.UnmarkKeeps | fs.c:89-93 | a block in passage is marked, and clearing its bit keeps ownership |
| FsState.AssignEntry | fs.c:389-393 | entering a block in an indirect block gives it exactly one owner and moves no other slot |
| FsState.DetachKeeps | fs.c:408-435 | an inode that lets go of its slots puts exactly its own blocks in passage |
| FsState.NextRelease | fs.c:414-431 | slots of one inode never share a block, so each block is freed once |
| FsState.SameFileSameContent | fs.c:453-476 | a file whose inode, addresses and blocks are the same has the same content |
| FsState.PatchBytes | fs.c:500-502 | overwriting the block of one slot changes the bytes of that slot and no other file |
| FsState.CopyStep | fs.c:498-504 | one round of writei copies its piece to its place and leaves all other bytes, across the direct and indirect blocks |
| DInode.InodeRoundTrip | fs.c:221-236 | ilock reads back what iupdate wrote, and the other seven inodes of the block are untouched |
| DInode.InodeLayout | fs.h:29-36 | the sixty-four bytes iupdate writes are the fields of struct dinode in their places, and no other byte of the block changes |
| Files.UpdateSound | fs.c:221-236 | iupdate completes a change: every inode is up to date on disk and no content has changed |
| Files.WriteInPlace | fs.c:507-510 | a write that does not grow the file leaves the inode as it is, so it needs no iupdate |
| Files.WritesJoin | file.c:133-151 | two writes in a row are one write of both pieces |
| LogSpace.CountRound | fs.c:373-400 | one round of writei logs its block, and one bitmap block for each block it allocates |
| LogSpace.CountedTotal | fs.c:482-511 | a write logs at most its data and bitmap blocks, the indirect block with its bitmap block, and the inode |
| LogSpace.ChunkReserved | file.c:137-142 | a chunk in a transaction of its own logs at most ten distinct blocks |
| FreeSpace.FullIffOwned | fs.c:57-78 | every block is marked exactly if the owners are as many as the data blocks |
| FreeSpace.AllocatedAll | fs.c:373-400 | a completed write has allocated exactly the data blocks the file lacked, and the indirect block if it is new |
| FreeSpace.StopsShort | fs.c:77 | balloc panics in a write only if the disk had fewer free blocks than the file lacked |
| SpreadDisk.DiskSound | fs.c:57-78 | a sound disk whose free blocks lie in bitmap blocks of their own |
| ChunkBound.LogsAtLeast | file.c:127-135 | on such a disk a write that extends a file logs at least its data blocks, a bitmap block for each new one, two for a new indirect block, and the inode |
| ChunkBound.TenLogged | file.c:127-135 | a chunk of 1536 bytes, written by the model of writei, that logs exactly ten distinct blocks |
| ChunkBound.MoreThanTen | file.c:127-135 | for every larger size up to the largest file, a write that logs more than ten |
| Truncate.ReleaseSlot | fs.c:414-431 | each block itrunc frees is marked, so the panic of bfree is unreachable |
| Truncate.TruncateDone | fs.c:408-435 | after itrunc the file is empty, exactly its blocks have become free, and all other files are as they were |
| Truncate.TruncateFits | fs.c:408-435 | what itrunc logs fits in a transaction exactly if the file has blocks in fewer than ten bitmap blocks; it is never more than the inode's block and all bitmap blocks |
| TruncateBound.TruncateTooBig | fs.c:408-435 | twelve blocks written by filewrite on the spread disk, then truncated: more than ten blocks are logged |
| FileSystem.FileSystem.ScanBitmapBlock | fs.c:64-67 | finds the first clear bit of one bitmap block |
| FileSystem.FileSystem.FindFree | fs.c:62-77 | the search through all bitmap blocks finds the lowest block that is not marked, and none exactly if all are marked |
| FileSystem.FileSystem.Balloc | fs.c:57-78 | the lowest free block, marked and zeroed; panics exactly if every block is marked |
| FileSystem.FileSystem.Bfree | fs.c:82-95 | panics exactly if the block is free, and otherwise clears its bit only |
| FileSystem.FileSystem.Bmap | fs.c:373-400 | slot bn is filled, with a zeroed block if it was empty; all other slots and files are as they were; panics only out of range or with every block marked |
| FileSystem.FileSystem.WriteRound | fs.c:498-504 | one round of the loop keeps the copy and the count of logged blocks |
| FileSystem.FileSystem.CopyIn | fs.c:498-504 | the loop copies all of src, or stops with every block marked |
| FileSystem.FileSystem.Iupdate | fs.c:221-236 | the inode is stored in its place |
| FileSystem.FileSystem.WriteI | fs.c:482-511 | refuses exactly past the end or beyond the largest file, in spite of 32-bit wrap-around; otherwise the content is the old one with src spliced in, the type, device and link count of the file and every other file are as they were, no file has holes, every inode is up to date on disk, and the number of logged blocks is bounded; it panics out of blocks exactly if the disk has fewer free blocks than the file lacks |
| FileSystem.FileSystem.ReadI | fs.c:453-476 | returns exactly that slice of the content, and changes and allocates nothing |
| FileSystem.FileSystem.WriteThenRead | fs.c:453-511 | readi returns what writei wrote |
| FileSystem.FileSystem.Itrunc | fs.c:408-435 | empties the file, frees exactly its blocks, and never panics; it logs exactly the inode's block and the bitmap blocks of the file's blocks |
| FileSystem.FileSystem.ReleaseDirect | fs.c:414-419 | the direct slots are freed and cleared |
| FileSystem.FileSystem.ReleaseIndirect | fs.c:421-431 | the entries and then the indirect block itself are freed |
| FileSystem.FileSystem.WriteChunk | file.c:137-142 | one transaction of filewrite: what it gives to log_write, replayed, is the change it makes; the blocks lie above the log and are at most the ten reserved; it panics out of blocks exactly if the disk has fewer than it needs |
| FileSystem.FileSystem.FileWrite | file.c:118-156 | writes everything, or fails exactly for an offset past the end or a size beyond the largest file, after a whole number of chunks; it panics out of blocks exactly if the disk has fewer free blocks than the file lacks for all that can be written; the offset moves by what was written |
| CrashFiles.MountedSound | fs.c:286-316 | a disk that agrees with a sound file system from the inodes on is found by a boot with the same inodes, owners and file contents, whatever the log area holds |
| CrashFiles.RebootRestores | log.c:70-202 | stopped before the header write the boot ends with the old home blocks, from it on with the whole transaction applied |
| CrashFiles.TransactionFits | log.c:178-202 | the blocks a call logged within its reservation form a transaction that commit accepts |
| CrashFiles.FilesSurviveCrash | log.c:178-202 | any change between sound file systems whose changed blocks are logged is atomic: after a stop at any write of commit and any number of boots that stop in recovery, the files found are exactly the old ones or exactly the new ones, according to the header write |
| CrashFiles.FileWriteSurvivesCrash | file.c:127-152 | after a stop in any chunk of filewrite the file found holds exactly the chunks before it, or these and that chunk, and every other file is as it was |
| FileCommit.OldOrNewFinds | log.c:70-202 | a medium that recovers to the old or the new blocks leads a boot, after any crashes in recovery, to exactly the old or exactly the new files |
| FileCommit.EndCall | log.c:146-174 | what a call has given to log_write, put through log and cache: the disk holds the new files, and every medium on the way leads a boot to the old files or the new ones |
| FileCommit.CommitChunk | file.c:137-145 | one transaction of filewrite from writei to the disk: refused exactly as writei refuses; a crash after any of its disk writes shows the file without the chunk or with all of it |
| FileCommit.WriteThrough | file.c:127-152 | filewrite within the file, chunk by chunk to the disk: after a crash at any disk write and any crashes in recovery a boot finds exactly a whole number of chunks of the data written and every other file as it was; the panic out of blocks comes exactly if the disk has too few |
| FileCommit.WriteFile | file.c:118-156 | the same at any offset: past the end of the file nothing is written and every crash shows the old files |
| Heap.Canonical | umalloc.c:25-44 | two coalesced lists over the same free units are the same list |
| Heap.Insertion | umalloc.c:25-44 | free changes the headers it must and no others; the list stays ordered, with no two adjacent blocks |
| Heap.Removal | umalloc.c:76-77 | an exact fit leaves the list, and exactly its units leave the free units |
| Heap.Shrinking | umalloc.c:78-82 | a larger block keeps its head and loses exactly the tail handed out |
| Heap.GapIsUnique | umalloc.c:30-32 | the tests of free's search hold at the place of the block and nowhere else |
| Heap.Heap.FindPlace | umalloc.c:30-32 | the search ends at the node after which the block belongs |
| Heap.Heap.Free | umalloc.c:25-44 | exactly the block of that pointer becomes free; live blocks stay disjoint, and free and live units are the arena; the next search starts at the node before the block |
| Heap.Heap.Morecore | umalloc.c:47-61 | sbrk's argument is the product as a 32-bit int: the arena grows by the units asked for, at least 4096, if it is positive and granted, and not at all if it is zero or negative, though sbrk then succeeds unless the new size is 0; the header stored at the old break faults exactly if sbrk mapped nothing and the page of the break is not, or no longer, mapped |
| Heap.Heap.EndIsNotBase | umalloc.c:33 | where the store does not fault, the 32-bit end of the new block is not the address of the first node |
| Heap.Heap.Allocate | umalloc.c:72-88 | one walk of the list and at most one morecore; gives a pointer exactly if a block fits or sbrk succeeds and the header can be stored, with a new live block disjoint from all others; faults exactly if no block fits and the store does; it takes the end of the next block that fits, counted from where the last search ended |
| Heap.Heap.Search | umalloc.c:72-88 | the walk from freep finds the first node after it that is large enough, and none exactly if there is none |
| Heap.Heap.MallocUnits | umalloc.c:64-90 | the block handed out lies in memory that was obtained exactly if a block fits, or the request is less than 2^28 units and core is granted |
| Heap.Heap.Malloc | umalloc.c:64-90 | the caller gets the bytes exactly if the rounding does not wrap and a block fits, or the request is at most 2^31 - 16 bytes and core is granted; exactly when a pointer comes back, and when the process faults; a block that fits is the next one, and the end of it is handed out |
| Heap.Heap.NunitsRoom | umalloc.c:69 | the units leave room for the bytes exactly if the 32-bit rounding does not wrap |
| Heap.Heap.NunitsPositive | umalloc.c:54 | sbrk's argument is positive exactly for requests of at most 2^31 - 16 bytes |
| Heap.Heap.HugeRequests | umalloc.c:54-69 | 2^31 bytes: a negative argument; 2^32 - 8: zero; 2^32 - 1: one unit, and 32768 bytes of core |
| Heap.UngrantedRequest | umalloc.c:47-90 | for a break inside a page that stays, a run for every larger request that sbrk lets pass: malloc returns a block it does not have |
| Heap.FaultingRequest | umalloc.c:47-90 | for a page-aligned break, a run for every larger request that does not wrap: it faults, unless the new size would be 0 |
| Heap.Heap.MallocThenFree | umalloc.c:25-90 | free undoes malloc: the same list is back |
| Aging.AgeLevelHere | proc.c:733-785 | the skipping loop promotes an aged process or leaves it strictly nearer the front |
| Aging.AgeLevelElsewhere | proc.c:733-785 | a process in another queue stays where it is |
| Aging.AgeFromAt | proc.c:731-786 | all loops together promote a process by at most one level |
| Aging.PromoteBudget | proc.c:775-781 | promotion keeps the budgets |
| Aging.DispatchInv | proc.c:787-826 | a dispatch keeps membership and budgets, and happens whenever a process is runnable |
| Aging.PassAt | proc.c:731-826 | in one round every process that is aged or in queue 0 is dispatched, promoted by exactly one level, or strictly nearer the front |
| AgingOrder.MoveIff | proc.c:733-785 | an aged process is promoted exactly if the one just before it in its queue is not |
| AgingOrder.AgeLevelMoves | proc.c:733-785 | the loop over one queue, whose index skips: those it leaves keep their order, those it promotes go in their order to the end of the queue above, with a new qtime, and nothing else changes |
| AgingOrder.AgingMoves | proc.c:731-786 | all loops together, exactly: every queue is what stays of it and then what comes up from the one below |
| ProcState.MoveIn | proc.c:271-287 | appending a process that was not runnable keeps membership |
| ProcState.MoveOut | proc.c:803-819 | taking a process out of its queue keeps membership |
| ProcState.RoomInLine | proc.c:285-286 | a queue has a place to spare for a process outside it |
| ProcSteps.WakeupWakes | proc.c:981-1010 | wakes exactly the sleepers on the channel, each at the end of its own queue |
| ProcSteps.WakeupLines | proc.c:981-1010 | behind the queues as they were come those it wakes, in slot order, and nothing else |
| ProcSteps.YieldKeeps | proc.c:830-866 | a process that comes back runnable keeps the invariant: it is queued once, in the queue of its new level |
| ProcSteps.SliceKeeps | trap.c:124-137 | a timer interrupt charges the process or makes it yield, and keeps the invariant |
| ProcSteps.KillKeeps | proc.c:1025-1065 | kill keeps the invariant |
| ProcSteps.AllocKeeps | proc.c:89-110 | a new slot gets a pid no live or reaped process has |
| ProcSteps.AbandonKeeps | proc.c:113-116 | a failed fork gives the slot back |
| ProcSteps.ForkDoneKeeps | proc.c:267-293 | the child becomes runnable, queued once, with an active parent |
| ExitWait.WaitKeeps | proc.c:349-411 | wait reaps, fails or sleeps, and sleeps only without a zombie child |
| ExitWait.ReapKeeps | proc.c:363-400 | a reaped pid is never that of a live process again |
| ExitWait.ExitKeeps | proc.c:302-344 | no child is left with a dead parent, and whoever must reap is awake |
| ExitWait.AdoptZombie | proc.c:329-336 | a zombie child passed to init finds init awake |
| ProcRuns.StepKeeps | proc.c:89-1065 | every step of every process keeps the invariant |
| ProcRuns.QueuesExact | proc.c:269-293 | in every run a process is in a queue exactly if it is runnable, and then exactly once, in the queue of its level |
| ProcRuns.QueuesFit | proc.c:375-396 | in every run no queue index reaches NPROC and no queued pid is 0, so wait's removal finds nothing |
| ProcRuns.LevelsAreEarned | proc.c:797-866 | in every run a process at a level has used up its ticks at every level above, and one marked for demotion those of its own |
| ProcRuns.NoOrphansNoLostExits | proc.c:302-411 | in every run no parent is dead, no one sleeps in wait with a zombie child, live pids are distinct, and each zombie is reaped at most once |
| ProcProgress.StepSteady | proc.c:89-1065 | no step but a round of the scheduler moves a waiting process back or charges a running one |
| ProcProgress.WaitsAtMost | proc.c:731-826 | in every run a process at position k of queue 0, or aged at position k of another queue, is dispatched or promoted by one level within k + 1 rounds |
| ProcProgress.DispatchTicks | trap.c:124-137 | a dispatch with prior count q has max(1, limit - q) timer interrupts |
| ProcProgress.SliceIsBounded | trap.c:124-137 | in every run a process that keeps running takes fewer interrupts than that: at the last it yields |
| ProcKill.MarksExact | trap.c:101-113 | kill marks the first slot with that pid, a fault the process that faults, wait unmarks what it reaps, and no other step changes a mark |
| ProcEffects.YieldMoves | proc.c:830-866 | a process that yields is last in the queue below its own exactly if its budget there is used up and there is a queue below, else last in its own; nothing else changes |
| ProcEffects.SliceMoves | trap.c:124-137 | a timer interrupt costs a tick and lets the process run on exactly while its budget lasts; else it yields as above |
| ProcEffects.KillMoves | proc.c:1025-1065 | kill marks the first process with that pid; if it slept it is runnable and last in the queue of its level; every other process keeps its state and its place; without such a pid nothing changes |
| ProcEffects.ForkMoves | proc.c:267-293 | at the end of fork the child is runnable, last in queue 0, with an unspent budget, and nothing else changes |
| ProcEffects.AllocMoves | proc.c:89-110 | the first unused slot, and only it, becomes an embryo with a pid no live process has |
| ProcEffects.WaitMoves | proc.c:349-411 | wait reaps exactly if there is a zombie child, the first; fails exactly if there is none and it is killed or childless; and sleeps exactly otherwise |
| ProcEffects.ExitMoves | proc.c:302-344 | what exit does to every slot: the caller is a zombie, its children are init's, its parent and init are woken exactly if they sleep in wait() and have a zombie from this, and no other slot changes |
| ProcEffects.DispatchMoves | proc.c:787-826 | the front of the first queue that is not empty runs, charged one tick, and the rest of that queue moves up |
| ProcEffects.PassMovesTo | proc.c:730-826 | a round of the scheduler is the aging of all queues and then that dispatch, and nothing else |
| ProcEffects.PassPicks | proc.c:730-826 | one process starts to run exactly if any is runnable, and none that is left waiting has a higher priority |
| ProcLaws.SleepExact | proc.c:941-1065 | after a step a process sleeps exactly if it fell asleep in it, in sleep or in wait, or slept and was not woken, by a wakeup on its channel, a kill, or the exit it waits for |
| ProcLaws.AsleepIff | proc.c:941-1065 | in every run a process sleeps exactly if the last of these that happened to it was falling asleep |
| ProcLaws.KilledIsWoken | proc.c:1034-1056 | in every run a killed process that is asleep has gone to sleep since its last kill |
| ProcLaws.BudgetAccount | proc.c:797-866 | in every run what is left of the way of a process down to queue 4, its unspent ticks and the levels between, goes down by exactly the ticks it gives up and up by exactly one for each promotion |
| ProcLaws.ReachesLastQueue | proc.c:837-848 | so in every run a process that aging leaves alone is in queue 4 after as many timer interrupts as it had ticks and levels left |
| ProcLaws.NewReachesLastQueue | proc.c:837-848 | a new one after 34 |
| ProcKill.MarkedIff | proc.c:89-1065 | in every run whoever holds a slot is marked exactly if the last kill, fault or reaping of the slot was a kill or a fault, or there was none and it was marked at the start |
| ProcKill.NewHasNoFault | proc.c:363-400 | in every run a free slot, or one that fork is still filling, has been reaped since the last fault in it |
| ProcKill.NewIsMarkedIff | proc.c:89-110 | so in every run a new process is marked exactly if kill hit its slot since it was last reaped |
| ProcSteps.FaultKeeps | trap.c:101-113 | a fault in user mode keeps the invariant |
| ProcKill.BornKilled | proc.c:89-110 | kill(0) and then fork: the child is born killed, whenever the slot it takes has pid 0 |
| RunQueues.Queues.Append | proc.c:285-286 | appends to one row of the table and to no other |
| RunQueues.Queues.RemoveAt | proc.c:752-758 | the shifting loop removes exactly one entry of one row |
| RunQueues.Queues.Find | proc.c:743-751 | the search by pid finds the first entry that has it |
| ProcTable.Table.constructor | proc.c:155-208 | the state userinit leaves |
| ProcTable.Table.Wakeup1 | proc.c:981-1010 | the loop over the table is wakeup1's step |
| ProcTable.Table.KillPid | proc.c:1025-1065 | finds a process exactly if its pid is in the table, and does to it, in place, what KillMoves says; otherwise nothing changes |
| ProcTable.Table.UserFault | trap.c:101-113 | marks the running process, and nothing else changes |
| ProcTable.Table.YieldBack | proc.c:830-866 | settles the level and queues the process, in place: demoted exactly if its budget is used up |
| ProcTable.Table.TimerSlice | trap.c:124-137 | the timer step of the interrupted process, in place: a tick while there is budget, else the yield |
| ProcTable.Table.Sleep | proc.c:941-975 | the process sleeps on the channel, and nothing else changes |
| ProcTable.Table.PromoteAt | proc.c:742-783 | removal and append, both after a search by pid, move exactly that process |
| ProcTable.Table.AgeRow | proc.c:733-785 | the skipping loop over one queue, in place |
| ProcTable.Table.AgeAll | proc.c:731-786 | all aging loops |
| ProcTable.Table.Pick | proc.c:787-826 | chooses the front of the first queue that is not empty; none exactly if nothing is runnable |
| ProcTable.Table.SchedulerPass | proc.c:730-826 | one round of the scheduler up to swtch is the pass step; it chooses a process exactly if one is runnable, no other process changes its state, and none left waiting has a higher priority |
| ProcTable.Table.AllocSlot | proc.c:89-110 | the first unused slot; none exactly if there is none |
| ProcTable.Table.ForkEnd | proc.c:267-293 | the end of fork: the child is last in queue 0 with an unspent budget |
| ProcTable.Table.PrepareSlot | proc.c:140-148 | the child starts at level 0 with all of its budget |
| ProcTable.Table.AbandonSlot | proc.c:113-116 | a fork that gives up frees the slot and changes nothing else |
| ProcTable.Table.WaitOnce | proc.c:349-411 | once through wait's loop: reaps, fails or sleeps exactly when WaitMoves says; a pid it returns was never returned before |
| ProcTable.Table.ExitProc | proc.c:302-344 | exit up to sched, in place, with exactly the effect of ExitMoves |
| SleepLock.StepKeeps | sleeplock.c:22-42 | every step of every process keeps the invariant, holders of other sleeplocks included |
| SleepLock.TakeKeeps | sleeplock.c:26-31 | the lock is taken only by a process that found it free under the spinlock |
| SleepLock.ClearKeeps | sleeplock.c:35-42 | between clearing the lock and the wakeup the spinlock keeps everyone out |
| SleepLock.WakeKeeps | proc.c:981-1019 | after the wakeup no one sleeps, or is about to sleep, on the lock |
| SleepLock.MutualExclusion | sleeplock.c:22-42 | in every run, with processes that hold any number of sleeplocks, at most one process holds each, the one whose pid it records |
| SleepLock.SleepersHaveHolder | proc.c:941-975 | no lost wakeup: in every run, while its spinlock is free, a lock with a sleeper is held by some process, which may itself be asleep on another |
| SleepLock.HoldingSleepExact | sleeplock.c:45-53 | holdingsleep is true exactly for the holder, whatever else it holds |
| SleepLock.CallStep | sleeplock.c:22-42 | a step of anybody leaves a process inside its call, or the call returns: acquiresleep with that lock added to what it holds, releasesleep without |
| SleepLock.AcquireReturns | sleeplock.c:22-32 | in every run acquiresleep returns only with the lock held, and the caller's other locks as they were |
| SleepLock.RousedIff | proc.c:981-1065 | a process asleep on a lock is woken by exactly its own kill and the wakeup of a releasesleep of that lock |
| SleepLock.FreeIsTaken | sleeplock.c:22-32 | whoever comes for a free lock, or comes back to one after a wakeup, has it after three steps of its own |
| SleepLock.HeldIsFreed | sleeplock.c:35-42 | whoever lets a lock go is done after five: the lock is free and no one sleeps on it |
| VmState.TakeKeeps | kalloc.c:83-95 | every page stays on the free list once or owned by one slot |
| VmState.GiveKeeps | kalloc.c:60-77 | the same for kfree |
| VmState.NewTableKeeps | vm.c:42-53 | a new table changes no mapping |
| VmState.MapUserKeeps | vm.c:71-73 | a mapped page is owned by exactly that entry |
| VmState.EntryDecides | vm.c:49-52 | what the hardware lets through, which takes both levels, is decided by the entry of the page alone |
| VmState.UnmapKeeps | vm.c:268-275 | an unmapped page is owned by no entry |
| VmSpaces.FreeIsUnowned | kalloc.c:60-95 | the free list is, as a set, whatever is not owned |
| VmSpaces.DropOne | vm.c:291-296 | each table of the space is freed once |
| VmSpaces.FreedUndoes | vm.c:342-344 | freeing a space that was built since brings back the owners and the free pages |
| VmSpaces.GrowRolledBack | vm.c:234-245 | rolling back restores every mapping |
| Vm.Memory.Kalloc | kalloc.c:83-95 | takes the front of the list; none exactly if it is empty |
| Vm.Memory.Kfree | kalloc.c:60-77 | links the page in front |
| Vm.Memory.FreeRange | kalloc.c:47-53 | exactly the pages of the range become free |
| Vm.Memory.WalkAlloc | vm.c:36-55 | the table is there, every mapping as it was; fails exactly if the table is missing and no page is free, and then nothing has changed; a missing table costs one page |
| Vm.Memory.MapUser | vm.c:61-80 | exactly that page is mapped; fails exactly if its table is missing and no page is free, and then nothing has changed |
| Vm.Memory.DeallocUvm | vm.c:256-279 | exactly the pages of the range are unmapped and free, though the loop skips missing tables; the contents of all other user pages, in every space, are as they were |
| Vm.Memory.DeallocUvmSize | vm.c:256-279 | the same by size |
| Vm.Memory.FreeVm | vm.c:284-298 | every user page, every table and the directory are free, and nothing else has changed, page contents included |
| Vm.Memory.AllocUvm | vm.c:222-249 | all pages of the range are mapped, zeroed, writable and open to the user, exactly if there are free pages for them and for the tables they lack; otherwise every mapping of every space is as it was; user pages that were there keep their contents |
| Vm.Memory.AllocUvmSize | vm.c:222-249 | the same by size, with the limits of the address space and exactly when it returns the new size |
| Vm.Memory.SetupKvm | vm.c:119-136 | a space with exactly the kernel's mappings, never a remap, exactly if there are free pages for the directory and the tables of the kernel's ranges; otherwise owners, free pages, all spaces and the contents of all user pages as before |
| Vm.Memory.CopyUvm | vm.c:316-345 | a copy of every page with its flags in fresh pages, the parent untouched, exactly if all pages are mapped and there are free pages for the directory, all tables and the pages; it panics exactly if a page is missing and there are pages enough to get there; otherwise owners, free pages, all spaces and the contents of all user pages as before |
| Vm.NewPagesOpen | vm.c:241 | the pages allocuvm maps can be used and written by the user |
| Vm.Memory.ClearPteU | vm.c:303-311 | panics exactly without a table; else the user can no longer use the page, and no other mapping changes |
| VmCopy.KmapIsOk | vm.c:104-116 | the kernel's ranges are apart and above user memory |
| VmCopy.NeedIsCost | vm.c:316-345 | user pages and kernel ranges share no table, so the pages a copy needs are a directory, the two sets of tables and the pages |
| VmCopy.ShippedNeed | vm.c:104-116 | with the ranges of vm.c a copy of n pages needs 65 + n pages and one for each 1024 of them or part of it |
| VmCost.AtMost | vm.c:36-55 | a space that grows within some tables gains at most those it lacked, and all of them if it has them in the end |
| VmCost.PaidInFull | vm.c:222-345 | a space with all its tables has taken exactly a page for each page and each table it lacked |
| VmCost.ShortOfTable | vm.c:42-46 | a missing table and no free page mean there were too few pages from the start |
| VmCopy.NotRemapped | vm.c:71-72 | the panic of mappages is unreachable in setupkvm |
| PipeRing.Pipe.CountersInRange | pipe.c:85-108 | with 32-bit wrap-around, nwrite - nread is the number of waiting bytes, at most 512, and the tests for full and empty are exact |
| PipeRing.Pipe.PutByte | pipe.c:94 | the byte goes in behind all that wait |
| PipeRing.Pipe.TakeByte | pipe.c:115 | the byte that comes out is the next one that went in |
| PipeRing.Pipe.WriteOn | pipe.c:79-98 | how far a write gets before it sleeps, gives up or is done, and why |
| PipeRing.Pipe.ReadOn | pipe.c:101-121 | returns the next bytes, or sleeps or gives up exactly if the pipe is empty with the write end open |
| PipeRing.Pipe.Close | pipe.c:60-76 | closes one end, and frees the pipe exactly if both are closed |
| PipeRuns.StepKeeps | pipe.c:60-121 | every step keeps: a sleeping writer means a full pipe with the read end open, and no killed process sleeps |
| PipeRuns.RunsAreFifo | pipe.c:60-121 | in every run the delivered bytes are a prefix of the accepted ones, sleeping writers have a full pipe, and killed processes are awake |
| PipeStory.StepTold | pipe.c:79-121 | every step keeps: what each call has sent and what each read has returned are the bytes that went in and came out |
| PipeStory.WritersHeard | pipe.c:79-121 | in every run, with any number of writers and readers, the bytes accepted from a writer are those of its past calls in order and then exactly src[..i] of the current one; a call that returned its count has sent all its bytes, one that failed only some; the readers together have got exactly the delivered bytes, in order |
| PipeStory.OneWriter | pipe.c:79-98 | with one writer the accepted bytes are those of its completed calls and then that prefix |
| PipeStory.RunWriter | pipe.c:79-98 | the write on the ring in memory takes the step of that model, and ends where it does |
| PipeStory.RunReader | pipe.c:101-121 | the same for the read |
| PipeStory.CloseEnd | pipe.c:60-76 | the same for closing an end |
| PipeRuns.ReadersExact | pipe.c:85-92 | a step leaves a reader asleep over waiting bytes exactly if a killed writer, or one without readers, has more than fits |
| PipeRuns.StrandedReader | pipe.c:85-89 | a run from the start that takes such a step: a reader is left asleep over 512 waiting bytes |
| PipeRuns.WokenIff | pipe.c:60-99 | a sleeping reader is woken by exactly its own kill, the close of the write end, and a write that does not end in that return |
| PipeRuns.SleepsOn | pipe.c:60-121 | so in every run without one of these it stays asleep |
| PipeRuns.ReadersSafe | pipe.c:60-121 | a run without such a step never strands a reader |
| Shell.GetToken | sh.c:266-308 | a word token is a whole word of the line, and every token but the end consumes something |
| Shell.ScanToken | sh.c:266-308 | the loops compute that token |
| Shell.ParseLine | sh.c:345-359 | the mutual recursion of the parser ends, and the cursor only moves forward within the line |
| ShellPrint.TokenRead | sh.c:266-308 | gettoken reads the token that stands there: a longest word, a symbol, or >> with a tag of its own |
| ShellPrint.LexTotal | sh.c:262-308 | every line is a list of tokens with space between |
| ShellPrint.LexUnique | sh.c:262-308 | and of only one |
| ShellPrint.ShowLexes | sh.c:266-308 | the tokenizer reads back any sequence of legal tokens |
| ShellGrammar.FilesParse | sh.c:375-397 | redirections with <, > and >> are read in order, the last two alike |
| ShellGrammar.PlainParses | sh.c:416-446 | redirections before, between and behind at most nine words are read, words and redirections each in order |
| ShellGrammar.UnitParses | sh.c:400-446 | a block or simple command with its redirections is read |
| ShellGrammar.LineParses | sh.c:345-446 | every derivation of a line, in front of anything that may follow, parses to its tree |
| ShellGrammar.LineDerived | sh.c:345-446 | every line that parses has a derivation with that tree |
| ShellGrammar.ParsesIff | sh.c:328-446 | the parser accepts a line exactly if the grammar derives its tokens, and returns the tree of the derivation; all other lines panic |
| ShellGrammar.Unambiguous | sh.c:328-446 | no line has derivations with different trees |
| ShellRoundTrip.LineMeans | sh.c:328-446 | every legal tree has a derivation |
| ShellRoundTrip.RoundTrip | sh.c:328-446 | printing any command tree with legal words and at most nine arguments, then parsing, gives back the same tree |
| ShellBuffer.LineProper | sh.c:345-446 | every word of a parsed tree is a whole word of the line, and no command has more than nine |
| ShellBuffer.ParsedIsLegal | sh.c:328-446 | every tree that comes out of the parser is legal, so with the round trip the legal trees are exactly its range |
| ShellBuffer.Reprints | sh.c:328-446 | printing what was parsed from any line, and parsing again, gives the same tree |
| ShellBuffer.NulTerminate | sh.c:450-493 | exactly the ends of the words become NUL |
| ShellBuffer.WordReads | sh.c:450-493 | no end falls inside another word, so each word reads as exactly its token |
| ShellBuffer.ParseCommand | sh.c:328-342 | after parsecmd every argv and file string equals its token |
| Grep.PrefixStar | grep.c:99-106 | in the language of patterns, a star matches nothing or one character and itself again |
| Grep.PrefixCat | grep.c:93-94 | an ordinary character consumes exactly one character |
| Grep.MatchHere | grep.c:85-96 | true exactly if a prefix of the text lies in the language of the pattern |
| Grep.MatchStar | grep.c:99-106 | true exactly if a prefix lies in the language of the starred pattern |
| Grep.Match | grep.c:73-82 | true exactly if some substring does, at the start if the pattern is anchored |

## Left out

- FileSystem.FileSystem.WriteI: does not model device inodes, whose reads and writes go to a driver.
- FileSystem.FileSystem.ReadI: the same.
- FileSystem.FileSystem.FileWrite: the file type and permission checks, and the pipe branch, which is PipeRing.
- CrashFiles.FileWriteSurvivesCrash: takes the chunk and its transaction as given; the method that makes them is FileCommit.WriteThrough.
- FileCommit.CommitChunk: one call per transaction, and its blocks go through the cache when the call ends, not as each is changed; a panic out of blocks comes before any disk write.
- Log.Log.SystemCall: one call at a time; that concurrent calls never disturb a commit is LogProtocol.
- Log.Log.Commit: readers that come or go while a commit runs, which are CommitRuns; those it finds may refer to any buffers outside the log.
- Log.Log.WriteLog: the same.
- Log.Log.InstallTrans: the same.
- Log.Log.CommitSafely: the same.
- Log.Log.EndOp: the same.
- CommitRuns.StepKeeps: readers of blocks outside the log; bget recycles any unused buffer, of which the least recently used is one.
- Directories, path names, inode reference counts, ialloc and iput: they compose the operations above.
- Heap.Heap.Malloc: whether the kernel has the pages for a positive sbrk request is a parameter.
- ProcRuns.StepKeeps: pids are unbounded, so the overflow of nextpid is not modelled; tick totals, names, open files and the trap frame are left out.
- The RR, FCFS and PBS builds, set_priority, getps and waitx's output values.
- swtch, interrupts and the memory order of spinlocks: acquire and release are atomic, and swtch is the boundary between steps.
- ProcTable.Table.WaitOnce: one turn of wait's loop; sleeping and waking between turns are steps of the run.
- PipeRuns.StepKeeps: what happens to a pipe after both ends are closed and it is freed.
- Vm.Memory.AllocUvm: growproc with n equal to minus the whole size, which frees the pages and then reports failure.
- Vm.Memory.MapUser: mappages is modelled page by page; user calls map one page each.
- Vm.Memory.ClearPteU: of user pages, which is how exec uses it.
- Reading and writing user memory through page tables (copyout, uva2ka, loaduvm), and switchuvm.
- SleepLock.StepKeeps: the order in which woken processes get the lock, and that a process is scheduled at all.
- Shell.ParseLine: its contract bounds the cursor; which tree it gives is ShellGrammar.ParsesIff. Running the commands and reading the line are left out.
- Drivers, boot code, exec, the system call layer, and the user programs other than sh, grep and malloc.
