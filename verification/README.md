# xv6 in Dafny

A model of the hard core of the xv6 teaching kernel for RISC-V, of its file-system builder and of
three of its user programs, with proofs about them. `dafny verify dfyconfig.toml` checks all of it.

| part | files |
|---|---|
| redo log, crash recovery, buffer cache | LogDisk, Log, LogRuns, LogPanic, Bcache, CacheSimulation, CacheRuns |
| blocks, inodes, file contents, the image mkfs builds | Bytes, FsModel, FileContents, FileSystem, FileWrite, Mkfs, RootHole |
| names, directories, link counts | Names, Directory, DirectoryRuns, Paths, Sysfile |
| physical pages, Sv39 page tables, fork, growproc, exec | Sv39, VmModel, Vm, VmImage, VmProc |
| scheduler, sleep and wakeup, sleep locks, fork, exit, wait, kill | Kernel, KernelSafety, KernelTheorems, KernelCalls, KernelProgress |
| virtio disk queue | VirtioQueue, VirtioProtocol, VirtioRuns |
| pipes | Pipe, PipeRuns, PipeCalls |
| malloc and free, the shell's parser, grep | Umalloc, ShellTokens, Shell, ShellRoundTrip, Grep |
| shared facts | Common |

Code that changes things in place is modelled as classes with the same fields and loops. Each method
is proved against functions and predicates on values, and the main theorems are about those.
Concurrent code is a machine whose steps are what a thread does under a lock; theorems range over
every run of the machine. The queue is that of VIRTIO 1.1, whose section 5.2 describes the block
device; the allocator is that of section 8.7 of The C Programming Language, second edition.

## Findings

Properties one might expect that the code does not have, each with the exact condition under which it
holds, and an input or a run at which it fails.

- log_write can panic although every operation keeps to its reservation (kernel/log.c:220). For a
  block new to the log this can happen exactly when the log area has at most LOGSIZE blocks, as in the
  images mkfs builds. For a block already in the log it can happen in every layout with room to log
  anything, because the test for a full log comes before the search for the block. An operation that
  logs at most nine blocks is safe when the log area has more than LOGSIZE blocks (LogPanic.NewBlockPanics,
  LogPanic.KnownBlockPanics, LogPanic.MkfsLayoutPanics).
- A reader can stay asleep with bytes in the pipe: a writer that is killed after putting bytes in returns
  without a wakeup (kernel/pipe.c:84-87). This is the only step that does so (PipeRuns.ReadersStep,
  PipeRuns.ReaderLeftAsleep).
- A byte is lost when the copy of a byte to the user fails in piperead (kernel/pipe.c:123-125), and only
  then (Pipe.Pipe.Read, PipeRuns.ByteLost).
- Link counts go wrong when a name is created in a directory that has been removed but is still some
  process's working directory, and only then (DirectoryRuns.CountsStayRight,
  DirectoryRuns.NameInRemovedDirectory).
- A path through the parent of a removed working directory can meet an inode that is not in use, and
  ilock panics. create does so exactly when the path climbs, through removed directories, to a freed one
  (Sysfile.Tree.Create, Sysfile.ParentFreed).
- The root directory mkfs writes has a hole exactly when its entries fill their last block
  (mkfs/mkfs.c:168). A read of it then allocates, outside any transaction, and log_write panics unless
  another operation happens to be outstanding (Mkfs.Make, RootHole.ReadRoot, RootHole.SixtyTwoFiles).
- malloc of more than 0x7FFF_FFE0 bytes, when it needs memory, has its size cut to an int on the way to
  sbrk, and records a block the process does not have; up to that size it never does
  (Umalloc.Allocator.Malloc, Umalloc.HugeRequest).
- grep stops without a message at a line of 1023 bytes or more, or with a NUL; it writes all matching
  lines, for every pattern, exactly when there is no such line (Grep.WritesAllIffOrdinary,
  Grep.LongLineHidesMatch).
- The shell's parser refuses a tree exactly when some command has ten arguments or more
  (ShellRoundTrip.RoundTrip, ShellRoundTrip.TenArguments).
- exec with exactly MAXARG arguments stores a null pointer behind its array. sys_exec never passes so
  many (kernel/sysfile.c:446-458; VmProc.Proc.Exec, VmProc.ThirtyTwoArguments).

## Model

| member | source | states |
|---|---|---|
| `LogDisk.CrashAtomicity` | xv6-riscv/kernel/log.c:68-123 | for every layout, disk and set of logged blocks: cut commit after any number of its block writes, then cut recovery any number of times; a recovery that completes leaves all home blocks old if the header write had not reached the disk and all new if it had, and an empty log |
| `LogDisk.RecoveryIsIdempotent` | xv6-riscv/kernel/log.c:68-123 | however often recovery is cut short, a recovery that completes leaves the same home blocks |
| `LogDisk.CommitPrefix` | xv6-riscv/kernel/log.c:178-203 | what every prefix of a commit leaves on the disk and what recovery makes of it; the header write is the commit point |
| `LogDisk.RecoverInstalls` | xv6-riscv/kernel/log.c:116-123 | recovery installs exactly what the header lists and leaves an empty log |
| `Log.Log.Bread` | xv6-riscv/kernel/bio.c:92-103 | returns the block as the kernel sees it through the cache; the view does not change |
| `Log.Log.Bwrite` | xv6-riscv/kernel/bio.c:106-112 | the block is written through, and the write is the next one on the trace |
| `Log.Log.WriteLog` | xv6-riscv/kernel/log.c:178-191 | the block writes issued are exactly the copies of the logged blocks, in order |
| `Log.Log.WriteHead` | xv6-riscv/kernel/log.c:102-114 | one block write, of the header with the logged addresses |
| `Log.Log.EraseLog` | xv6-riscv/kernel/log.c:200-201 | one block write, of an empty header |
| `Log.Log.InstallTrans` | xv6-riscv/kernel/log.c:68-83 | the block writes issued are exactly the logged copies to their homes, in order; pins go unless recovering |
| `Log.Log.Commit` | xv6-riscv/kernel/log.c:193-203 | the disk goes through exactly the writes that crash atomicity is about, and the view of home blocks does not change |
| `Log.Log.ReadHead` | xv6-riscv/kernel/log.c:86-97 | the list in memory is the list in the header block |
| `Log.Log.RecoverFromLog` | xv6-riscv/kernel/log.c:116-122 | the disk goes through exactly the writes of a recovery and ends recovered, cache and disk equal |
| `Log.Log.TryBeginOp` | xv6-riscv/kernel/log.c:126-143 | an operation is admitted exactly when no commit is under way and its reservation fits |
| `Log.Log.EndOp` | xv6-riscv/kernel/log.c:145-175 | the last operation out commits; the others leave the disk alone |
| `Log.Log.Record` | xv6-riscv/kernel/log.c:225-233 | the list gets the block if it is not there, and at most once |
| `Log.Log.LogWrite` | xv6-riscv/kernel/log.c:214-235 | panics exactly when the log is full or no operation is outstanding; otherwise the block is in the log, once, and pinned |
| `Log.Log.UpdateBlock` | xv6-riscv/kernel/log.c:205-235 | the idiom bread, change, log_write: the view has the new contents and the block is in the log once; it fails exactly when log_write panics |
| `LogRuns.RunsRefineAtomicDisk` | xv6-riscv/kernel/log.c:126-235 | every run of operations, buffer loads and evictions, updates, commit writes and crashes is matched step by step by a disk that operations update at once and that becomes durable in whole operations (operations are told apart by distinct names); whenever no operation is outstanding and no commit is going on, all that ended is durable |
| `LogRuns.EndedIsDurable` | xv6-riscv/kernel/log.c:146-179 | what had ended in a state with no operation outstanding is durable from then on, whatever follows, crashes included |
| `LogRuns.DurableStays` | xv6-riscv/kernel/log.c:68-123 | a durable operation is never lost: what is kept only grows, and its first part never changes |
| `LogRuns.SettledAt` | xv6-riscv/kernel/log.c:146-202 | in every state an operation that ended is durable, or waits for others to end or for the commit that is going on |
| `LogRuns.CommitGoesOn` | xv6-riscv/kernel/log.c:189-202 | a commit always has a next disk write, until it is over |
| `LogRuns.CommitEnds` | xv6-riscv/kernel/log.c:146-202 | from any state in a commit, its own disk writes alone lead to a state at rest |
| `LogRuns.AtomicKeepsWhole` | xv6-riscv/kernel/log.c:145-175 | on the atomic disk, what is durable is the result of whole operations in order, after every step |
| `LogRuns.BreadReturnsLatest` | xv6-riscv/kernel/bio.c:92-103 | in every such state bread returns the latest logged contents of a home block |
| `LogRuns.HomeBlocksHoldCommitted` | xv6-riscv/kernel/log.c:178-203 | a home block on disk holds durable contents, or contents a commit past its commit point is about to replace |
| `LogRuns.LogSpace` | xv6-riscv/kernel/log.c:126-175 | in every run, logged blocks plus what outstanding operations may still add fit LOGSIZE, and no operation is outstanding during a commit |
| `LogPanic.NewBlockPanics` | xv6-riscv/kernel/log.c:215-235 | some run reaches a log_write of a new block, within its reservation, that finds the log full, if and only if the log area has at most LOGSIZE blocks |
| `LogPanic.KnownBlockPanics` | xv6-riscv/kernel/log.c:215-235 | some run reaches a log_write of a block already in the log that finds the log full, if and only if the log area has at least two blocks |
| `LogPanic.OneSpareBlockIsEnough` | xv6-riscv/kernel/log.c:126-143 | with more than LOGSIZE blocks of log area, no log_write of an operation that has logged fewer than MAXOPBLOCKS blocks panics, in any run |
| `LogPanic.PanicEndsTheRun` | xv6-riscv/kernel/log.c:220-221 | a call within the reservation goes on exactly when the test does not panic |
| `LogPanic.NewBlockFits` | xv6-riscv/kernel/log.c:133-135 | while an operation still has a new block to log, the log holds fewer than LOGSIZE blocks |
| `LogPanic.FullMeansUsedUp` | xv6-riscv/kernel/log.c:133-135 | a full log means every outstanding operation has logged all it may |
| `LogPanic.MkfsLayoutPanics` | xv6-riscv/mkfs/mkfs.c:25-25 | on the layout mkfs writes, the run in which the tenth block of the third operation finds 29 blocks logged and panics |
| `CacheSimulation.Buffers.Bread` | xv6-riscv/kernel/bio.c:92-103 | on the linked buffers, bread returns what the log says the block holds; the map the log is proved over loses at most one block, not pinned, and gains this one |
| `CacheSimulation.MissSimulates` | xv6-riscv/kernel/bio.c:75-87 | recycling a buffer is an eviction the log allows |
| `CacheSimulation.HitSimulates` | xv6-riscv/kernel/bio.c:65-73 | a hit changes neither map nor pins, and a valid buffer holds what the map says |
| `CacheSimulation.EvictThenLoad` | xv6-riscv/kernel/bio.c:75-101 | a miss is two steps of the log, an eviction and a load |
| `CacheSimulation.Buffers.constructor` | xv6-riscv/kernel/bio.c:36-53 | after binit nothing is cached and nothing pinned |
| `CacheSimulation.FillSimulates` | xv6-riscv/kernel/bio.c:98-101 | the disk read of bread is the load of the log |
| `CacheSimulation.WriteSimulates` | xv6-riscv/kernel/log.c:205-213 | a change to a held buffer is the same change to the map |
| `CacheSimulation.PinSimulates` | xv6-riscv/kernel/bio.c:139-144 | bpin adds the pin the log counts |
| `CacheSimulation.UnpinSimulates` | xv6-riscv/kernel/bio.c:146-151 | bunpin takes away the pin the log counts |
| `CacheSimulation.ReleaseSimulates` | xv6-riscv/kernel/bio.c:116-137 | brelse changes neither map nor pins |
| `CacheRuns.BuffersRefineAtomicDisk` | xv6-riscv/kernel/log.c:126-235 | every run of bget, bread, brelse and the log over the NBUF buffers, with crashes, is a run of the log over a map, and so is matched by the atomic disk, state by state; at rest everything that ended is durable |
| `CacheRuns.RunsAreLogRuns` | xv6-riscv/kernel/bio.c:58-151 | each state of such a run stands for a state of a run of the log, whichever unused buffer is recycled |
| `CacheRuns.BufferIsLatest` | xv6-riscv/kernel/bio.c:92-103 | in every such state a valid buffer of a home block holds the latest logged contents of the block |
| `CacheRuns.StepFollows` | xv6-riscv/kernel/bio.c:58-151 | a step on the buffers is one step of the log or none that the log can see; an installed block is still pinned when it is unpinned |
| `CacheRuns.Get` | xv6-riscv/kernel/bio.c:58-89 | bget of the linked buffers takes such a step, or finds no buffer and changes nothing |
| `CacheRuns.Fill` | xv6-riscv/kernel/bio.c:92-103 | the disk read of bread takes such a step |
| `CacheRuns.Release` | xv6-riscv/kernel/bio.c:116-137 | brelse takes such a step |
| `CacheRuns.Change` | xv6-riscv/kernel/log.c:205-235 | a change by the holder and the bpin of log_write take such a step |
| `Bcache.Cache.constructor` | xv6-riscv/kernel/bio.c:36-53 | the ring holds every buffer once, as if they had been released in the order of the array |
| `Bcache.Cache.Bget` | xv6-riscv/kernel/bio.c:58-89 | a cached block gets one more reference; otherwise the least recently released buffer without references is taken over; fails exactly when neither exists; one buffer per block for devices other than 0 |
| `Bcache.Cache.Lookup` | xv6-riscv/kernel/bio.c:65-73 | found exactly when some buffer has the block, the most recent one |
| `Bcache.Cache.Victim` | xv6-riscv/kernel/bio.c:75-87 | found exactly when some buffer has no references, the least recently released one |
| `Bcache.Cache.MarkValid` | xv6-riscv/kernel/bio.c:98-101 | the buffer read from disk is valid; ring, order and counts are kept |
| `Bcache.Cache.Brelse` | xv6-riscv/kernel/bio.c:116-137 | one reference fewer; at zero the buffer moves to the front of the order of release, and only links change |
| `Bcache.Cache.Bpin` | xv6-riscv/kernel/bio.c:139-144 | one more reference and pin |
| `Bcache.Cache.Bunpin` | xv6-riscv/kernel/bio.c:146-151 | one reference and pin fewer; the order stays |
| `Bcache.UnlinkRing` | xv6-riscv/kernel/bio.c:128-129 | taking a buffer out by its neighbours leaves one ring of the others, from any place in the list |
| `Bcache.PushRing` | xv6-riscv/kernel/bio.c:130-133 | the four assignments put a buffer first in the ring |
| `Bcache.PushRecent` | xv6-riscv/kernel/bio.c:125-134 | a buffer released and put first keeps the ring in order of release |
| `Bcache.RunningOut` | xv6-riscv/kernel/bio.c:88-88 | bget runs out only when references and pins together number at least NBUF |
| `FsModel.OwnershipMeaning` | xv6-riscv/kernel/fs.c:65-105 | the set bits of the bitmap are exactly the metadata blocks and the blocks slots hold, and no two slots hold the same block |
| `FileSystem.FileSystem.Balloc` | xv6-riscv/kernel/fs.c:65-88 | the lowest free block, zeroed and marked; 0 only when every block is in use |
| `FileSystem.FileSystem.Bfree` | xv6-riscv/kernel/fs.c:91-105 | clears one bit; panics exactly on a block that is free |
| `FileSystem.FileSystem.Bmap` | xv6-riscv/kernel/fs.c:382-421 | the block of a file position, allocated exactly if there was none and the disk is not full; ownership kept, no file changed, no slot in use changed |
| `FileSystem.FileSystem.Itrunc` | xv6-riscv/kernel/fs.c:425-453 | exactly the blocks of the inode are freed, none twice; every other file is the same |
| `FileSystem.FileSystem.Readi` | xv6-riscv/kernel/fs.c:471-497 | the slice of the contents clipped to the file; it allocates, and logs the bitmap block, if and only if a block in the range read is missing and the disk is not full, and otherwise changes nothing |
| `FileSystem.FileSystem.Writei` | xv6-riscv/kernel/fs.c:505-539 | contents become old[..off] + data[..tot] + old[off+tot..]; short only when the disk is full; no new holes; other files the same; only blocks of this write logged |
| `FileContents.FlatPatched` | xv6-riscv/kernel/fs.c:518-526 | overwriting part of one block overwrites the same bytes of the file and no others |
| `FileWrite.File.WriteChunk` | xv6-riscv/kernel/file.c:156-167 | one chunk is one transaction and logs at most seven blocks |
| `FileWrite.File.Read` | xv6-riscv/kernel/file.c:106-130 | the bytes at the offset, which moves over them; log_write panics if and only if the read has to allocate and the log is full or no operation is outstanding |
| `FileWrite.LogsWhenFilling` | xv6-riscv/kernel/fs.c:471-497 | a read calls log_write exactly when it has to allocate |
| `FileWrite.File.Write` | xv6-riscv/kernel/file.c:134-181 | the bytes the offset moves over are the first bytes of data; all of them, or -1 for a reason named, a negative count among them; every transaction logs at most seven blocks |
| `FileWrite.ChunkFitsReservation` | xv6-riscv/kernel/file.c:149-155 | with one bitmap block, a chunk at any offset logs at most seven distinct blocks |
| `FileWrite.WriteLogsFew` | xv6-riscv/kernel/fs.c:505-539 | with one bitmap block, a write of any length logs at most three blocks besides the file blocks it touches |
| `Mkfs.Image.Iappend` | xv6-riscv/mkfs/mkfs.c:254-296 | a file becomes its contents followed by the data and no other file changes; it dies exactly when the file would be too long or the blocks it needs, the indirect one included, are not there |
| `Mkfs.Image.constructor` | xv6-riscv/mkfs/mkfs.c:93-118 | an empty image |
| `Mkfs.Image.BlockOf` | xv6-riscv/mkfs/mkfs.c:268-285 | the block of a file position, handed out if there was none, with the indirect block if that was missing; 0 exactly when that is more than the image has; no file changes |
| `Mkfs.Image.Ialloc` | xv6-riscv/mkfs/mkfs.c:222-234 | the next inode, empty |
| `Mkfs.Image.AddFile` | xv6-riscv/mkfs/mkfs.c:130-163 | one more entry in the root and the contents of one file; no other file changes; dies exactly when a length or the blocks needed do not fit |
| `Mkfs.Image.MarkUsed` | xv6-riscv/mkfs/mkfs.c:236-250 | the bitmap marks exactly the blocks handed out, which makes the image a file system |
| `Mkfs.RoundedHoles` | xv6-riscv/mkfs/mkfs.c:165-170 | rounding up the size of the root leaves a hole if and only if its entries filled its last block |
| `Mkfs.Finish` | xv6-riscv/mkfs/mkfs.c:165-172 | rounding the root and writing the bitmap turns what was built into what mkfs promises |
| `Mkfs.Make` | xv6-riscv/mkfs/mkfs.c:68-175 | succeeds exactly when each file fits MAXBYTES and all files and the root fit the image; then the image satisfies the file-system invariant, holds every file given, names them in the root, and has no holes except that the root has one if and only if the number of entries is a multiple of 64 |
| `Mkfs.DirentReads` | xv6-riscv/mkfs/mkfs.c:153-156 | the kernel reads back the inode number and the name put into a directory entry |
| `Mkfs.RootListing` | xv6-riscv/mkfs/mkfs.c:118-163 | what it reads at each entry of the root: . and .. and then the files in order with inodes 2, 3 and so on |
| `RootHole.RootNeeds` | xv6-riscv/mkfs/mkfs.c:165-170 | reading all of the root has to allocate exactly when mkfs left a hole and a block is free |
| `RootHole.ReadRoot` | xv6-riscv/kernel/file.c:106-130 | on the image mkfs makes of any files, a read of the root panics if and only if there is a hole, a block is free, and the log is full or idle |
| `RootHole.SixtyTwoFiles` | xv6-riscv/mkfs/mkfs.c:165-170 | sixty-two empty files are such an input, on an idle system |
| `Mkfs.ChunkBlocks` | xv6-riscv/mkfs/mkfs.c:266-285 | a chunk takes as many new blocks as the block counts of the file before and after differ by |
| `Names.Strncmp` | xv6-riscv/kernel/string.c:60-68 | 0 exactly when the two buffers hold the same string as far as n characters go; otherwise the difference at the first place where they differ |
| `Names.Strncpy` | xv6-riscv/kernel/string.c:70-81 | the same string, and NULs behind it |
| `Names.Skipelem` | xv6-riscv/kernel/fs.c:622-645 | the first path element cut to its first DIRSIZ characters, and a path with the other elements |
| `Sysfile.Tree.Namex` | xv6-riscv/kernel/fs.c:651-684 | from the root for a path that begins with a slash, and from the working directory otherwise: found exactly when a row of directory entries with the names of the path leads there, or to the directory before the last name, which is returned |
| `Paths.FoundIff` | xv6-riscv/kernel/fs.c:651-684 | following a path ends at an inode if and only if there is a row of inodes from the start to it, each a directory whose first entry in use of the next name leads to the next |
| `Paths.ParentFoundIff` | xv6-riscv/kernel/fs.c:668-672 | the parent of a path is a directory reached so by all names but the last, and nothing else |
| `Paths.LeadsToIff` | xv6-riscv/kernel/fs.c:552-577 | looking a name up gives i if and only if the first entry in use with that name leads to i |
| `Paths.LastStep` | xv6-riscv/kernel/fs.c:673-677 | once the parent is found, the last name decides |
| `Paths.AddKeepsPaths` | xv6-riscv/kernel/sysfile.c:245-302 | every path that led somewhere before create or link leads there afterwards |
| `Paths.AddedIsFound` | xv6-riscv/kernel/fs.c:580-606 | the path whose last name was added leads to the inode added |
| `Paths.RemovedNames` | xv6-riscv/kernel/sysfile.c:222-237 | after unlink exactly the other names lead where they led, but for those in a directory freed with it |
| `Paths.RemovedIsGone` | xv6-riscv/kernel/sysfile.c:188-243 | the path whose last name was removed leads nowhere |
| `Sysfile.WalkInTree` | xv6-riscv/kernel/fs.c:651-684 | a path followed from a linked directory never meets an inode that is not in use, and ends in the tree |
| `Sysfile.LostIff` | xv6-riscv/kernel/fs.c:651-684 | from any inode, a path meets one that is not in use if and only if before its last name it climbs, through removed directories, to one |
| `Sysfile.MeetsFreeIff` | xv6-riscv/kernel/sysfile.c:245-302 | the same for all of a path, as create follows it |
| `Sysfile.ParentFreed` | xv6-riscv/kernel/sysfile.c:188-243 | a run after which the working directory and its parent are removed and .. leads to a free inode |
| `Sysfile.WalkIgnoresLinks` | xv6-riscv/kernel/fs.c:651-684 | looking names up does not depend on link counts, so the second walk of sys_link sees the same tree |
| `Sysfile.Tree.Dirlookup` | xv6-riscv/kernel/fs.c:551-576 | the inode a name leads to and its position, 0 exactly when the name is not there |
| `Sysfile.Tree.Dirlink` | xv6-riscv/kernel/fs.c:579-606 | an entry in the first unused position; fails exactly when the name is taken or the directory cannot grow, and then changes nothing |
| `Sysfile.Tree.IsDirEmpty` | xv6-riscv/kernel/sysfile.c:173-186 | exactly when nothing but . and .. is in use |
| `Sysfile.Tree.Ialloc` | xv6-riscv/kernel/fs.c:198-219 | the first inode not in use |
| `Sysfile.Tree.Create` | xv6-riscv/kernel/sysfile.c:245-302 | from the root or the working directory, by what the path leads to: the existing file, a new file or directory exactly when there is an inode and room, or a failure that leaves the tree as it was; the path then leads to the inode returned; a panic if and only if the path climbs from a removed directory to an inode not in use; from a linked directory link counts stay right |
| `Sysfile.Tree.AddInode` | xv6-riscv/kernel/sysfile.c:264-301 | succeeds exactly when there is an inode, the new directory takes its entries and its parent the name; every failure on the way restores inodes and directories |
| `Sysfile.Tree.RemoveEntry` | xv6-riscv/kernel/sysfile.c:221-234 | the entry goes, with the right counts in both inodes, and an inode nothing refers to is free |
| `Sysfile.Tree.constructor` | xv6-riscv/mkfs/mkfs.c:117-128 | the bare root is a valid tree |
| `Sysfile.Tree.Link` | xv6-riscv/kernel/sysfile.c:123-169 | exactly when the old path leads to a file and the new name is free and fits, and then both paths lead to it; otherwise nothing is changed |
| `Sysfile.Tree.Unlink` | xv6-riscv/kernel/sysfile.c:188-243 | exactly the named entry goes, and the path leads nowhere; . and .. and directories in use stay; it fails exactly for those or a missing name, and link counts and unique names always stay right |
| `Sysfile.Tree.Close` | xv6-riscv/kernel/fs.c:336-362 | an inode without links goes with the last reference to it |
| `DirectoryRuns.CountsStayRight` | xv6-riscv/kernel/sysfile.c:123-302 | after any change the system calls make, every link count equals the number of entries other than "." naming the inode in linked directories, if and only if no name was added in a removed directory |
| `DirectoryRuns.ChangeKeeps` | xv6-riscv/kernel/sysfile.c:123-302 | every change in a linked directory keeps the whole invariant of the tree |
| `DirectoryRuns.RunsCountLinks` | xv6-riscv/kernel/sysfile.c:123-302 | in every run from the bare root: link counts as above, unique names, and every name leads to an inode in use |
| `DirectoryRuns.RootOnlyInv` | xv6-riscv/mkfs/mkfs.c:117-128 | the root as mkfs makes it, one link for its own "..", is a right start |
| `DirectoryRuns.NameInRemovedDirectory` | xv6-riscv/kernel/sysfile.c:245-302 | the run that ends in a wrong count: a directory is made, entered, removed, and a file created in it |
| `Directory.EmptyDirLinks` | xv6-riscv/kernel/sysfile.c:188-243 | an empty directory has exactly one link, and its parent one besides the one from it |
| `Directory.FileNamed` | xv6-riscv/kernel/sysfile.c:145-152 | a name for a file, and one link more, keep the invariant |
| `Directory.DirNamed` | xv6-riscv/kernel/sysfile.c:276-288 | a new directory with its two entries, one link, and one more for its parent, keeps it |
| `Directory.FileUnnamed` | xv6-riscv/kernel/sysfile.c:222-233 | a name of a file gone, and one link less, keep it |
| `Directory.DirUnnamed` | xv6-riscv/kernel/sysfile.c:222-233 | an empty directory unnamed, and one link less for its parent, keep it |
| `Directory.HeldInv` | xv6-riscv/kernel/fs.c:243-273 | a new reference to an inode in use keeps it |
| `Directory.ReleasedInv` | xv6-riscv/kernel/fs.c:336-361 | the last reference given up, and an inode without links freed, keep it |
| `Directory.InvNames` | xv6-riscv/kernel/fs.c:579-606 | names in a directory are unique and lead to inodes in use |
| `Directory.InvCounts` | xv6-riscv/kernel/sysfile.c:123-302 | the invariant every change keeps gives the link counts as they are stated |
| `Sv39.PteRoundTrip` | xv6-riscv/kernel/riscv.h:367-371 | PA2PTE and PTE2PA are inverse on page addresses and keep the flags apart |
| `Sv39.IndexInjective` | xv6-riscv/kernel/riscv.h:373-376 | the three indices determine the page |
| `Sv39.IndexCompose` | xv6-riscv/kernel/riscv.h:373-376 | every triple of indices is that of one page |
| `Sv39.StoreLeaf` | xv6-riscv/kernel/vm.c:143-168 | in any forest of tables, writing a leaf entry changes the map at that page of that root and nowhere else |
| `Sv39.AddTable` | xv6-riscv/kernel/vm.c:85-103 | hanging a zeroed table in an invalid entry of any tree changes no map |
| `Sv39.AddRoot` | xv6-riscv/kernel/vm.c:203-213 | a zeroed root maps nothing and changes no other map |
| `Sv39.PrunedTrees` | xv6-riscv/kernel/vm.c:278-294 | a subtree freed and its entry cleared leave a forest |
| `Sv39.EmptyMap` | xv6-riscv/kernel/vm.c:278-294 | a tree whose map is empty holds no leaf for freewalk to panic on |
| `Vm.Vm.Kinit` | xv6-riscv/kernel/kalloc.c:26-42 | every page of RAM from the end of the kernel on is free |
| `Vm.Vm.Kalloc` | xv6-riscv/kernel/kalloc.c:68-82 | the first free page, or 0 when none is; free and held pages still partition RAM |
| `Vm.Vm.Kfree` | xv6-riscv/kernel/kalloc.c:46-63 | the page is free and held no more; free and held pages still partition RAM |
| `Vm.Vm.Walk` | xv6-riscv/kernel/vm.c:85-103 | the bottom table of a page, made if need be; the map does not change; fails only when pages ran out |
| `Vm.Vm.Walkaddr` | xv6-riscv/kernel/vm.c:108-126 | a page exactly when the user may read the address |
| `Vm.Vm.Mappages` | xv6-riscv/kernel/vm.c:143-168 | exactly the first k pages are mapped, all of them unless memory ran out; nothing else changes |
| `Vm.Vm.Uvmunmap` | xv6-riscv/kernel/vm.c:177-199 | exactly the pages asked for are unmapped, and freed if asked |
| `Vm.Vm.Uvmcreate` | xv6-riscv/kernel/vm.c:203-213 | an empty address space beside all others |
| `Vm.Vm.Uvmalloc` | xv6-riscv/kernel/vm.c:232-257 | grown by exactly the pages asked for, zeroed, or every page taken is free again except tables of this tree; never fails with three free pages for each page asked for |
| `Vm.Vm.Uvmdealloc` | xv6-riscv/kernel/vm.c:262-274 | exactly the pages above the new size go |
| `Vm.Vm.Freewalk` | xv6-riscv/kernel/vm.c:278-294 | exactly the tables of the tree are freed, each once; the panic on a leaf is not reached |
| `Vm.Vm.Uvmfree` | xv6-riscv/kernel/vm.c:298-304 | all pages and tables of the address space are free, all others as they were |
| `Vm.Vm.Uvmcopy` | xv6-riscv/kernel/vm.c:312-340 | an own copy of every page with the same flags, or every page taken is free again except tables of this tree; never fails with three free pages for each page |
| `Vm.Vm.Uvmclear` | xv6-riscv/kernel/vm.c:344-353 | one page leaves the reach of the user; nothing else changes |
| `Vm.Vm.Copyout` | xv6-riscv/kernel/vm.c:358-384 | writes exactly the bytes before the first one the user may not write, wherever the map puts them, and no other byte |
| `Vm.Vm.Copyin` | xv6-riscv/kernel/vm.c:388-409 | exactly the bytes before the first one the user may not read |
| `Vm.Vm.Copyinstr` | xv6-riscv/kernel/vm.c:414-451 | succeeds exactly when a string shorter than max can be read there, and returns it |
| `Vm.Vm.Scan` | xv6-riscv/kernel/vm.c:430-442 | how far to the first NUL in a page |
| `VmModel.ReadBack` | xv6-riscv/kernel/vm.c:358-409 | a byte copied out is readable and is the byte copied |
| `VmModel.SizedBound` | xv6-riscv/kernel/vm.c:232-257 | no address space comes near the trapframe, since RAM has far fewer pages |
| `Vm.Vm.ProcPagetable` | xv6-riscv/kernel/proc.c:176-207 | no user pages, trampoline and trapframe mapped; on failure every page taken is free again |
| `Vm.Vm.ProcFreepagetable` | xv6-riscv/kernel/proc.c:210-216 | every table and user page is freed, each once, without reaching a panic |
| `VmProc.Proc.AllocProc` | xv6-riscv/kernel/proc.c:109-150 | a trapframe and an address space, or neither; never fails with six free pages |
| `VmProc.Proc.Growproc` | xv6-riscv/kernel/proc.c:259-276 | user memory is exactly the pages up to the new size, new ones zeroed and writable, exactly those above the new size freed; a failure changes no mapping and no data and does not happen with three free pages for each new one |
| `VmProc.Proc.Fork` | xv6-riscv/kernel/proc.c:279-327 | the child has its own copy of every page; bytes 112 to 119 of its trapframe page, the register a0, are 0 and every other byte is the parent's; it can itself fork; or nothing has changed but the order of the free list, which does not happen with three free pages for each page and six more |
| `VmProc.Proc.Loadseg` | xv6-riscv/kernel/exec.c:147-167 | the bytes of the segment are in place, as far as the file holds |
| `VmProc.Proc.LoadProgram` | xv6-riscv/kernel/exec.c:53-70 | all pages up to the size of the program hold exactly the bytes of its segments, the last one winning, and zeroes elsewhere; the pages a segment added are valid, readable and the user's, executable if and only if bit 0 of its flags is set, writable if and only if bit 1 is; fails exactly for a header it cannot accept, or for want of pages |
| `VmProc.SegmentBits` | xv6-riscv/kernel/exec.c:12-20 | an entry with the bits made of a header's flags is readable, executable and writable as those flags say |
| `VmImage.PermittedMore` | xv6-riscv/kernel/exec.c:53-70 | loading one more segment gives its pages its permissions and leaves those of the others |
| `VmProc.Proc.Push` | xv6-riscv/kernel/exec.c:94-99 | the bytes are readable at the next multiple of 16 below, nothing below the stack base changed; on a stack with room it fails only when that would be below the base, whatever wraps around |
| `VmProc.Proc.PushArgs` | xv6-riscv/kernel/exec.c:91-110 | at the stack pointer lies argv, ended by 0, and at each of its pointers the string; the stack pointer is as far down as the arguments need; on a stack with room it fails only when they do not fit, and stores behind its array exactly for MAXARG strings that fit |
| `VmImage.ArgvHolds` | xv6-riscv/kernel/exec.c:91-110 | the user reads, from the stack pointer on, eight bytes for each argument whose value is the address of its string, and then a null pointer |
| `VmImage.Word64Value` | xv6-riscv/kernel/exec.c:100-100 | the eight bytes of a word, weighted by powers of 256, add up to the number stored |
| `VmProc.Proc.BuildImage` | xv6-riscv/kernel/exec.c:53-110 | program, guard page and stack as stated for exec, or a failure for a reason named, and nothing outside this address space changed |
| `VmProc.Proc.Exec` | xv6-riscv/kernel/exec.c:22-143 | on success the new address space holds exactly the program, each page with the permissions of the segment that added it, an unreachable guard page and a stack that is writable and not executable with argv and its strings, and all pages of the old one are free; on failure nothing has changed but the order of the free list; given the pages, it succeeds exactly when the headers are acceptable and the arguments fit the stack, and runs over its array exactly for MAXARG arguments |
| `VmProc.ThirtyTwoArguments` | xv6-riscv/kernel/exec.c:91-102 | thirty-two empty strings make exec store behind its array |
| `VmImage.ShowsMore` | xv6-riscv/kernel/exec.c:53-70 | one more segment, over pages that were there and new zeroed ones, adds exactly its bytes to the program in memory |
| `VmImage.GrewBytes` | xv6-riscv/kernel/vm.c:232-256 | after growing, old addresses read as before and new ones as zero |
| `VmImage.StringsMore` | xv6-riscv/kernel/exec.c:91-102 | pushing one more string leaves those pushed before readable where they were |
| `VmImage.ReadsKept` | xv6-riscv/kernel/vm.c:358-383 | a copyout leaves readable what lies above it |
| `VmImage.GoneSame` | xv6-riscv/kernel/exec.c:123-129 | freeing the old address space changes no byte and no entry of the new one |
| `KernelTheorems.RunsAreSafe` | xv6-riscv/kernel/proc.c:279-592 | in every state of every interleaving, with preemption wherever no spin lock is held: one CPU per process; nobody left asleep by a finished wakeup on any channel; sleep locks exclusive and free ones without sleepers; a slot is reclaimed off its stack; parents alive; no parent asleep past an exit |
| `KernelTheorems.NoLostWakeup` | xv6-riscv/kernel/proc.c:547-592 | when wakeup has gone through all processes, no other process is asleep on the channel, be it of a sleep lock, of wait, or of a client with a lock and conditions of its own |
| `KernelTheorems.SleepLockExclusive` | xv6-riscv/kernel/sleeplock.c:21-41 | at most one process has a sleep lock |
| `KernelTheorems.FreeLockHasNoSleepers` | xv6-riscv/kernel/sleeplock.c:21-41 | nobody sleeps for a lock that is free |
| `KernelTheorems.NoDeadParents` | xv6-riscv/kernel/proc.c:330-384 | no parent pointer names an unused or exited slot |
| `KernelTheorems.NobodyWaitsInVain` | xv6-riscv/kernel/proc.c:346-435 | with wait_lock free, no parent is asleep in wait while a child has exited |
| `KernelCalls.RunsKeepCalls` | xv6-riscv/kernel/proc.c:279-435 | in every state a wait knows exactly whether it has gone past a child, the process it has locked is one, the process a fork makes is its own, and a locked sleep lock has an owner |
| `KernelCalls.WaitSleeps` | xv6-riscv/kernel/proc.c:391-435 | at the end of its scan wait goes to sleep if and only if it has a child and was not killed, and otherwise returns |
| `KernelCalls.WaitReturns` | xv6-riscv/kernel/proc.c:391-435 | wait returns only with a child collected, or when it has none, or killed |
| `KernelCalls.WaitGivesUp` | xv6-riscv/kernel/proc.c:391-435 | wait gives up its scan only without children or killed |
| `KernelCalls.WaitCollects` | xv6-riscv/kernel/proc.c:401-420 | what wait collects is a child of its own that has exited; its slot is free and its number collected, unless the status could not be copied, and then nothing changes |
| `KernelCalls.ForkReturns` | xv6-riscv/kernel/proc.c:279-327 | when fork returns, the child is another process, runnable, with the caller as its parent, a number nobody else has or had, and about to run for the first time |
| `KernelCalls.ForkFails` | xv6-riscv/kernel/proc.c:279-327 | a fork that fails gives its slot back |
| `KernelCalls.KillWakes` | xv6-riscv/kernel/proc.c:598-618 | a process killed is not asleep afterwards, and changes in no other way |
| `KernelCalls.SleepsUntilWoken` | xv6-riscv/kernel/proc.c:548-592 | a sleeping process becomes runnable only by a wakeup on its own channel or by kill |
| `KernelCalls.RunsRunnable` | xv6-riscv/kernel/proc.c:445-482 | a process starts to run only from runnable, on the CPU that holds its lock |
| `KernelCalls.LockedIffOwned` | xv6-riscv/kernel/sleeplock.c:22-42 | in every state a sleep lock is locked if and only if a process has it |
| `KernelProgress.SleepLocksReturn` | xv6-riscv/kernel/sleeplock.c:22-42 | acquiresleep returns with the lock, which is locked and nobody else's; releasesleep returns without it |
| `KernelProgress.RunsKeepLockDone` | xv6-riscv/kernel/sleeplock.c:22-42 | in every state a thread at the end of acquiresleep has the lock, and one past the release in releasesleep has not |
| `KernelProgress.SleepsFirst` | xv6-riscv/kernel/proc.c:548-575 | in every run a process that calls sleep is asleep on the channel before it gets any further, so that it returns only after a wakeup or kill |
| `KernelProgress.ThreadGoes` | xv6-riscv/kernel/proc.c:279-618 | a thread in the kernel takes a step if and only if it is not at an acquire of a lock that somebody has |
| `KernelProgress.SpinsForAnother` | xv6-riscv/kernel/spinlock.c:21-44 | a thread never spins for a lock that its own CPU has, which acquire would panic of |
| `KernelProgress.NoDeadlock` | xv6-riscv/kernel/proc.c:279-618 | in every state of every run a CPU that spins waits for another that goes on, or for one that waits for a third that goes on |
| `KernelProgress.ProcLockLast` | xv6-riscv/kernel/proc.c:279-618 | a thread that has a process's lock wants no other |
| `KernelProgress.SchedulerRuns` | xv6-riscv/kernel/proc.c:455-475 | a scheduler that has a process's lock runs it if and only if it is runnable, keeping the lock, and otherwise lets go of it |
| `KernelTheorems.ReclaimedOffStack` | xv6-riscv/kernel/proc.c:390-420 | a slot is freed by wait only when its process is off every CPU and its stack |
| `KernelTheorems.OneCpu` | xv6-riscv/kernel/proc.c:444-519 | a process runs on at most one CPU, through the hand-over of its lock |
| `KernelTheorems.RunsCollectOnce` | xv6-riscv/kernel/proc.c:390-420 | in every run no exit status is collected twice |
| `KernelTheorems.RunsCollectTheStatus` | xv6-riscv/kernel/proc.c:346-420 | the status waiting to be collected is the one recorded at exit, whenever that was |
| `KernelTheorems.StepKeeps` | xv6-riscv/kernel/proc.c:279-592 | every step of every thread and scheduler keeps all of the invariants |
| `Kernel.PreemptBase` | xv6-riscv/kernel/trap.c:153-155 | an interrupt at a point where no spin lock is held, in the kernel too, keeps locks with their holders and threads where they are |
| `Kernel.MonitorBase` | xv6-riscv/kernel/proc.c:547-592 | so does every step of a client that sleeps and wakes under a spin lock of its own |
| `KernelTheorems.RunsKeep` | xv6-riscv/kernel/proc.c:279-592 | all of the invariants hold in every state of every run |
| `KernelTheorems.OneHolder` | xv6-riscv/kernel/proc.c:444-519 | two threads do not hold one lock, though locks are handed over |
| `KernelTheorems.CollectedOnce` | xv6-riscv/kernel/proc.c:390-420 | the status collected is the one recorded at exit and was not collected before |
| `KernelTheorems.RecordsLast` | xv6-riscv/kernel/proc.c:346-420 | what was recorded at exit and what was collected never changes later in a run |
| `Umalloc.Allocator.Free` | xv6-riscv/user/umalloc.c:24-44 | the block joins the free blocks it touches, in address order, never leaving two that touch; other blocks and the memory obtained are the same |
| `Umalloc.Allocator.constructor` | xv6-riscv/user/umalloc.c:21-22 | an empty heap |
| `Umalloc.Allocator.Init` | xv6-riscv/user/umalloc.c:70-73 | a ring of base alone |
| `Umalloc.Allocator.Allocate` | xv6-riscv/user/umalloc.c:75-85 | all of a free block or its tail, of the size asked for; every block in use is the same |
| `Umalloc.Allocator.FindPlace` | xv6-riscv/user/umalloc.c:29-32 | the search ends, at the one free block the freed one belongs after |
| `Umalloc.Allocator.Morecore` | xv6-riscv/user/umalloc.c:46-60 | the block freed is as large as was asked for, the process ends where sbrk of the truncated size puts it; nothing changes when sbrk fails |
| `Umalloc.Allocator.Malloc` | xv6-riscv/user/umalloc.c:63-90 | a block of the size asked for that was not in use; memory is obtained at most once and exactly when nothing fits; 0 exactly when sbrk then fails; afterwards the heap is within the process if and only if no memory was needed or at most 0x7FFF_FFE0 bytes were asked for |
| `Umalloc.WithinIff` | xv6-riscv/user/umalloc.c:46-60 | a heap that has just obtained memory is within the process if and only if the request was at most 0x7FFF_FFE0 bytes |
| `Umalloc.ArgIsRight` | xv6-riscv/user/umalloc.c:54-54 | the argument of sbrk is the size needed if and only if the request was at most that |
| `Umalloc.HugeRequest` | xv6-riscv/user/umalloc.c:63-90 | a first request of 0xFFFF_FFFF bytes is given the very end of a process that grew by one header |
| `Umalloc.Allocator.Search` | xv6-riscv/user/umalloc.c:73-89 | a free block that is large enough if there is one, or in memory obtained exactly once when none is |
| `Umalloc.Disjoint` | xv6-riscv/user/umalloc.c:24-90 | blocks in use and free blocks never overlap |
| `Umalloc.Conservation` | xv6-riscv/user/umalloc.c:24-90 | blocks in use and free blocks add up to the memory obtained |
| `VirtioQueue.Queue.AllocDesc` | xv6-riscv/kernel/virtio_disk.c:156-166 | the lowest free descriptor |
| `VirtioQueue.Queue.Alloc3Desc` | xv6-riscv/kernel/virtio_disk.c:201-213 | three different free descriptors, or none taken, exactly when fewer than three are free |
| `VirtioQueue.Queue.FreeChain` | xv6-riscv/kernel/virtio_disk.c:185-197 | exactly the descriptors of the chain are freed |
| `VirtioQueue.Queue.constructor` | xv6-riscv/kernel/virtio_disk.c:144-146 | every descriptor is free |
| `VirtioQueue.Queue.Rollback` | xv6-riscv/kernel/virtio_disk.c:206-210 | what had been got is free again |
| `VirtioRuns.RunsPartition` | xv6-riscv/kernel/virtio_disk.c:215-327 | in every run a descriptor is free or part of the chain of exactly one request in flight |
| `VirtioRuns.ChainIsNotReused` | xv6-riscv/kernel/virtio_disk.c:215-292 | until its request is finished no step touches a descriptor of its chain |
| `VirtioRuns.AvailIsNotReused` | xv6-riscv/kernel/virtio_disk.c:271-277 | no slot of the avail ring is rewritten before the device has read it, indices wrapping |
| `VirtioRuns.UsedIsNotReused` | xv6-riscv/kernel/virtio_disk.c:312-324 | no slot of the used ring is rewritten before the driver has read it |
| `VirtioRuns.RunsDoNotPanic` | xv6-riscv/kernel/virtio_disk.c:294-327 | the device always finds a whole chain, and the handler panics if and only if the device failed the request it reads |
| `VirtioRuns.RightBuffer` | xv6-riscv/kernel/virtio_disk.c:312-324 | a completion releases the buffer of the request that completed, which was waiting, and no other |
| `VirtioRuns.ReleasedOnce` | xv6-riscv/kernel/virtio_disk.c:312-324 | a request is released at most once |
| `VirtioRuns.FinishedWasReleased` | xv6-riscv/kernel/virtio_disk.c:283-289 | a request that is finished has been released since it was made |
| `VirtioRuns.RequestLife` | xv6-riscv/kernel/virtio_disk.c:215-327 | a request goes through its phases one at a time: taken in the order of publication, seen in the order of completion, rings wrapping, and gone exactly when finished |
| `VirtioRuns.RequestMoves` | xv6-riscv/kernel/virtio_disk.c:215-327 | each step moves exactly the request it is about |
| `VirtioRuns.PrepareTakes` | xv6-riscv/kernel/virtio_disk.c:201-213 | a new request takes exactly its three descriptors, which were free |
| `VirtioRuns.FinishFrees` | xv6-riscv/kernel/virtio_disk.c:286-291 | finishing one frees exactly its three descriptors, which were in use |
| `VirtioProtocol.StepKeeps` | xv6-riscv/kernel/virtio_disk.c:215-327 | every step of driver, device and handler keeps the protocol invariant |
| `VirtioRuns.RunsKeep` | xv6-riscv/kernel/virtio_disk.c:61-327 | the invariant holds in every state of every run from initialisation on |
| `VirtioProtocol.AvailRoom` | xv6-riscv/kernel/virtio_disk.c:271-277 | while a descriptor is free, the avail ring has a slot the device has read |
| `VirtioProtocol.UsedRoom` | xv6-riscv/kernel/virtio_disk.c:312-324 | while the device has a request, the used ring has a slot the driver has read |
| `VirtioProtocol.PostedBound` | xv6-riscv/kernel/virtio_disk.c:271-277 | at most NUM entries are unread, so comparing wrapped indices is right |
| `VirtioProtocol.DoneBound` | xv6-riscv/kernel/virtio_disk.c:312-324 | the same for the used ring |
| `VirtioProtocol.NoPanics` | xv6-riscv/kernel/virtio_disk.c:312-324 | in every state of the invariant the device does not get stuck, and the handler exactly of a failed request |
| `VirtioProtocol.InterruptReleases` | xv6-riscv/kernel/virtio_disk.c:312-324 | the entry the handler reads names a completed request with status 0 and a waiting buffer |
| `VirtioProtocol.FinishedIsSeen` | xv6-riscv/kernel/virtio_disk.c:283-289 | a request whose buffer is idle again is one the handler has dealt with, its chain whole |
| `Pipe.Pipe.Write` | xv6-riscv/kernel/pipe.c:76-102 | one turn with the lock puts in exactly a run of the source and stops for the reason named |
| `Pipe.Pipe.Read` | xv6-riscv/kernel/pipe.c:105-130 | delivers the oldest bytes; one more is taken and lost exactly when a copy to the user fails |
| `Pipe.Pipe.constructor` | xv6-riscv/kernel/pipe.c:22-47 | an open and empty pipe |
| `Pipe.TestsAreRight` | xv6-riscv/kernel/pipe.c:88-88 | the tests on wrapped counters say exactly whether the ring is full or empty |
| `Pipe.PutKeeps` | xv6-riscv/kernel/pipe.c:95-95 | a byte goes in behind those waiting and overwrites none |
| `Pipe.TakeKeeps` | xv6-riscv/kernel/pipe.c:123-123 | the byte that comes out is the oldest |
| `PipeRuns.RunsAreFifo` | xv6-riscv/kernel/pipe.c:76-130 | over every interleaving the bytes taken are a prefix of the bytes put in, and at most PIPESIZE wait, counters wrapping |
| `PipeRuns.RunsKeep` | xv6-riscv/kernel/pipe.c:58-130 | every state satisfies the invariant: each call has put in the first bytes of its source in order, or delivered what it took but for a failed copy, kill waking sleepers at any time; readers are told of every byte unless some step was such a leave |
| `PipeRuns.FifoStep` | xv6-riscv/kernel/pipe.c:76-130 | a step keeps the order of bytes |
| `PipeRuns.WroteStep` | xv6-riscv/kernel/pipe.c:76-102 | a step keeps that each writer has put in the first bytes of its source |
| `PipeRuns.ReadStep` | xv6-riscv/kernel/pipe.c:105-130 | a step keeps that each reader has delivered what it took but for a failed copy |
| `PipeRuns.StepKeeps` | xv6-riscv/kernel/pipe.c:58-130 | a step keeps the whole invariant |
| `PipeRuns.WritersAreWoken` | xv6-riscv/kernel/pipe.c:76-130 | with the lock free, a sleeping writer has a full pipe |
| `PipeRuns.ReadersStep` | xv6-riscv/kernel/pipe.c:84-87 | a step lets a reader sleep on with bytes in the pipe if and only if it is a killed writer leaving with bytes put in since its last wakeup |
| `PipeRuns.ReaderLeftAsleep` | xv6-riscv/kernel/pipe.c:84-87 | a run that ends so |
| `PipeRuns.ByteLost` | xv6-riscv/kernel/pipe.c:123-125 | a run in which a byte is taken out and the copy to the user fails |
| `PipeRuns.ClosedIsIdle` | xv6-riscv/kernel/pipe.c:58-73 | once both ends are closed no thread is in a call |
| `PipeCalls.WriteReturns` | xv6-riscv/kernel/pipe.c:76-102 | in every run a write returns with all its bytes in, in order, and no reader left asleep; or it gave up; or a byte could not be fetched, though there was room and a reader |
| `PipeCalls.ReadReturns` | xv6-riscv/kernel/pipe.c:105-130 | a read returns what it took, but for a byte that could not be copied, and has all it asked for or left the pipe empty, and no writer left asleep; it returns nothing only at the end of the file; killed, it has taken nothing |
| `PipeCalls.RunsEof` | xv6-riscv/kernel/pipe.c:112-122 | a reader past its wait that has taken nothing finds the pipe empty only when nobody can write |
| `PipeCalls.WriterTurns` | xv6-riscv/kernel/pipe.c:83-98 | a writer with bytes left sleeps exactly when the pipe is full, with every reader awake, and otherwise puts in its next byte |
| `PipeCalls.ReaderTurns` | xv6-riscv/kernel/pipe.c:112-119 | a reader sleeps exactly when the pipe is empty and open for writing |
| `PipeCalls.ReaderWakes` | xv6-riscv/kernel/pipe.c:59-130 | a sleeping reader wakes exactly when a writer filled the pipe or is done, writing ends, or it is killed |
| `PipeCalls.WriterWakes` | xv6-riscv/kernel/pipe.c:59-130 | a sleeping writer wakes exactly when a reader is done, reading ends, or it is killed |
| `ShellTokens.GetToken` | xv6-riscv/user/sh.c:266-308 | the next token and the place behind it |
| `ShellTokens.Peek` | xv6-riscv/user/sh.c:311-320 | whether the next token starts with one of the characters |
| `ShellTokens.TokensOfRender` | xv6-riscv/user/sh.c:266-308 | tokens written out are read back |
| `Shell.TakeLine` | xv6-riscv/user/sh.c:345-359 | the cursor parser computes what the token parser says, on every line, and ends |
| `Shell.TakePipe` | xv6-riscv/user/sh.c:362-372 | the same for a pipeline |
| `Shell.TakeExec` | xv6-riscv/user/sh.c:416-447 | the same for a command |
| `Shell.TakeBlock` | xv6-riscv/user/sh.c:400-413 | the same for a block |
| `Shell.TakeRedirs` | xv6-riscv/user/sh.c:375-397 | the same for redirections |
| `Shell.ParseCommand` | xv6-riscv/user/sh.c:328-342 | the tree of a line, refused exactly when the parser fails or something is left over |
| `ShellRoundTrip.RoundTrip` | xv6-riscv/user/sh.c:328-447 | a tree of ordinary words is read back from its printed line if and only if every command has fewer than MAXARGS arguments, and the line is refused if and only if some command has more |
| `ShellRoundTrip.TenArguments` | xv6-riscv/user/sh.c:416-447 | a command of ten arguments is refused |
| `ShellRoundTrip.LineFails` | xv6-riscv/user/sh.c:345-447 | one command of too many arguments, anywhere in the tree, makes the parser fail |
| `ShellRoundTrip.Canonical` | xv6-riscv/user/sh.c:328-447 | the tree of any accepted line survives printing and parsing |
| `ShellRoundTrip.LineGood` | xv6-riscv/user/sh.c:345-447 | every word of a parsed tree is a whole word of the line |
| `ShellRoundTrip.NulTerminate` | xv6-riscv/user/sh.c:449-494 | only delimiters are overwritten, and every word of the tree is ended |
| `ShellRoundTrip.WordSurvives` | xv6-riscv/user/sh.c:449-494 | each word, read as a C string afterwards, is the word parsed |
| `ShellRoundTrip.ParseAndCut` | xv6-riscv/user/sh.c:328-342 | the tree, and a line in which each of its words stands alone |
| `Grep.HereMeans` | xv6-riscv/user/grep.c:84-106 | the backtracking matcher accepts exactly the texts some start of which is in the language of the pattern, to the end for a final $ |
| `Grep.StarMeans` | xv6-riscv/user/grep.c:98-106 | the same for a starred character |
| `Grep.Match` | xv6-riscv/user/grep.c:72-81 | found exactly when some substring, or a prefix after ^, is in the language |
| `Grep.GrepFile` | xv6-riscv/user/grep.c:11-34 | whatever each read returns, what is written is the matching lines up to the first that does not fit the buffer |
| `Grep.OrdinaryLines` | xv6-riscv/user/grep.c:11-34 | for lines that fit, exactly the matching lines in order, an unfinished last line never |
| `Grep.WritesAllIffOrdinary` | xv6-riscv/user/grep.c:11-34 | all matching lines of a file are written, for every pattern, if and only if each line is shorter than 1023 bytes and has no NUL |
| `Grep.LostLines` | xv6-riscv/user/grep.c:11-34 | with its first such line at i, a file gives the matching lines before i; so nothing is lost if and only if no line from i on matches |
| `Grep.StopsAt` | xv6-riscv/user/grep.c:11-34 | grep stops before a line that is too long or has a NUL, whatever follows |
| `Grep.LongLineHidesMatch` | xv6-riscv/user/grep.c:11-34 | a line of 1023 bytes hides a matching line behind it |
| `Grep.FindNewline` | xv6-riscv/user/grep.c:22-22 | the end of the first whole line in the buffer, if there is one |
| `Grep.WriteLines` | xv6-riscv/user/grep.c:22-29 | what the buffer holds of whole lines is written if it matches, and the rest remains |

## Left out

Deliberately weaker than the code's behaviour:

- FileSystem.FileSystem.Writei: the copy from the user always succeeds; a failing copy leaves a changed buffer that is not logged (kernel/fs.c:522-524), which is outside the cache-agreement property.
- FileSystem.FileSystem.Bmap: the inode in memory and its copy on disk are one; iupdate is the record that the inode block joins the transaction.
- Log.Log.LogWrite: the block is not one of the log's own, which no caller passes.
- Mkfs.Make: at most 198 files, since ialloc of mkfs does not check the inode number against the inode blocks; the Makefile passes it 17 (xv6-riscv/Makefile:125-144). mkfs dies of a full image at its next read, beyond the end. The super block and the bytes of inode blocks are not modelled.
- Sysfile.Tree.Create: one system call at a time; major and minor numbers and the 16-bit width of link counts are not modelled, and whether a directory can grow is a parameter.
- Sysfile.Tree.Namex: reference counts of the inodes passed on the way are not modelled.
- DirectoryRuns.RunsCountLinks: the unused entries that the rounded size of the root stands for are not in the model.
- VmProc.Proc.Exec: what the code does after a store behind its array is not modelled. The registers exec sets and the process name are not either, but for the stack pointer it returns; the ELF header is a flag and each program header a value.
- Vm.Vm.Kalloc: the free list threaded through the pages is a sequence, and a page holds either a table or data.
- LogRuns.RunsRefineAtomicDisk: the cache is a map without a capacity; CacheRuns carries the result over to the linked buffers.
- FileWrite.File.Read: the copy to the user always succeeds, and only the first log_write of a read is considered.
- Umalloc.Allocator.Malloc: addresses are multiples of a header, as they are while nothing else calls sbrk with other sizes; when sbrk has not grown the process, the store to the new header may fault first, which is not modelled.
- KernelTheorems.RunsAreSafe: a process exits holding no sleep lock, which is so for every call that can end in exit; the killed flag, the outcome of copyout in wait and whether a fork finds memory are left open as choices of the environment; priorities and fairness are not modelled, so that somebody can always go on is proved, and not that everybody does.
- VirtioRuns.RunsPartition: sleeping for descriptors and the wakeup in free_desc are not modelled; a request simply cannot be prepared until three are free.
- Pipe.Pipe.Read: the wait for an empty pipe is in PipeRuns; the method is the copying loop.
- Shell.TakeExec: the command under construction is put together at the end instead of through a pointer shared with its redirections.
- Grep.GrepFile: read returns nothing only at the end of the file or without room; errors are not modelled.

Not modelled:

- Assembly, traps, boot and device registers; swtch is a hand-over of control.
- Memory ordering: steps are atomic and in one order.
- Interrupt nesting in spinlock.c, the uart, the console and printf.
- iget and the inode table, file descriptors, syscall dispatch and argument fetching.
- Locks among file-system calls: they run one after another here, except in the log and cache.
- Running parsed commands in the shell, and the user programs that are loops of system calls.
- Bit operations are written as arithmetic; panics are preconditions or failure results, shown unreachable where the table says so.
