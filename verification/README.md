# xv6 in Dafny

A model of the parts of the x86 xv6 kernel and its user programs that carry hard properties, and proofs of those
properties. `dafny verify dfyconfig.toml` checks the whole project.

| files | what they model |
|---|---|
| `LogMachine`, `LogGuard`, `Commit`, `Pins`, `Log`, `Bio` | the redo log over the buffer cache: a transition system of all interleavings and crashes, and the code of `log.c` and `bio.c` as methods whose stores and disk writes are steps of that system |
| `Bitmap`, `Inodes`, `FileBytes`, `Files`, `Mkfs` | the block allocator and files as byte sequences (`fs.c`, `file.c`), and the image that `mkfs.c` builds |
| `Atomic` | operations of `Files` carried out through `Log`: a crash leaves the file system of before or of after |
| `Calls`, `Syscalls` | link, create and unlink on the bytes, as changes of the tree of names that fit into one operation of the log, and as transactions |
| `Dirs`, `Paths`, `Icache`, `Links`, `Naming`, `Removed`, `Trees` | directories as maps, path names, the inode cache, link counts and the calls that change names (`fs.c`, `sysfile.c`), and how the bytes of directories make up the tree of names |
| `Paging`, `Spaces`, `Vm` | the page allocator and page tables (`kalloc.c`, `vm.c`) |
| `Heap` | the user-level allocator (`umalloc.c`), that of section 8.7 of Kernighan and Ritchie, *The C Programming Language*, 2nd edition |
| `Proc`, `SleepLock`, `Pipe` | process life cycle, sleep and wakeup, sleep locks, pipes (`proc.c`, `sleeplock.c`, `pipe.c`) |
| `Grammar`, `Shell`, `Regex` | the shell's parser (`sh.c`) and the matcher of `grep.c` |
| `Blocks`, `Wrappers` | bytes, words and blocks; the optional value |

## Conventions

- A `panic`, and an exit or a failed assertion of a user program, is a result: `None`, `false`, or a value named
  `Stop...`, `...Panic` or `Syntax`. Nothing is claimed about the state after it, unless the contract says so.
- The disk is a sequence of blocks with atomic writes of one block, which is what `memide.c` gives `iderw`. A method that
  writes blocks keeps the history of the disk, so that a crash after any of the writes can be spoken of.
- Code that runs under a spinlock is one method; every sequence of calls is then an interleaving. What `log_write` tests
  without the lock is a method, and a step, of its own. A method that would sleep returns, and the caller calls again
  when it has been woken. `LogMachine` and `SleepLock` are finer: there each disk write, and each acquire, release and
  assignment, is a step of its own.
- Ownership is kept in a ghost map beside memory (`owner` for blocks, `use` for pages, `blocks` for the heap,
  `stacks` and `spaces` for processes); the invariants say that the map and the real data tell the same.
- Pointers into a table are indices; pointers into memory are frame numbers, heap units or positions in a line.

## Where the code falls short of what one would like

- Log space, the test. `mkfs.c` makes the log 30 blocks long, `log_write` stops at 29 entries and also refuses a block that
  is already in the log, while `begin_op` reserves for 30. `LogGuard.ReservationFails` is a run that stops in this way with
  any log of at most LOGSIZE blocks. A longer log does not rule the panic out: `LogGuard.AbsorbedFails` is a run in which
  an operation that has used its reservation cannot log one of its own blocks again. `LogMachine.ReservationHolds` says
  exactly when the test fails; with a log longer than LOGSIZE it never fails an operation with reservation left.
- Log space, the lock. `log_write` makes that test before it takes the lock, so two operations can both pass it with room
  for one entry. `LogGuard.Spills` is a run in which the commit then overwrites the block behind the log, and
  `LogGuard.SpillsExactly` says with which sizes of log, device and cache operations within MAXOPBLOCKS can do that. In
  this kernel they cannot: NBUF is not larger than the log, so such a commit finds no buffer and panics before its first
  write (`LogGuard.InThisKernel`). All theorems about runs hold for such a cache whatever operations do, and for every
  other geometry that cannot spill when operations keep to MAXOPBLOCKS.
- Root directory. `mkfs.c` adds a block to the size of the root directory even if it is a multiple of the block size, and that
  block is not backed. `Mkfs.Builder.Finish` says that the image is free of holes exactly otherwise, and
  `Mkfs.UnbackedRoot` builds an image that is not.
- Names in a new image. `mkfs.c` does not check that the names it is given differ when cut to DIRSIZ and are not `.` or
  `..`. `Trees.MkfsTree` says that the image is a tree with right link counts exactly if that is so, and
  `Trees.FileReached` that a file is reached by a path exactly if no entry before it has its name and the name is not
  empty. `Trees.NamesakeImage` makes an image that is no tree and in which no path leads to one of the two files.
- Pipes. A killed writer can fill a pipe and return without waking a reader. `Pipe.KilledWriter` does so, and the contract
  of `Pipe.Pipe.Write` has the exact condition.
- Removed directories. The `..` of a directory that has been removed but is still someone's current directory can lead to
  a freed inode, on which `ilock` panics. `Removed.Stops` gets there by a sequence of calls, and so does
  `Removed.StopsCreate`, where `create` is given the name `..`; `Naming.StopsExactly` says from which inodes some path
  does; and from the root, or from a directory that has not been removed, none does
  (`Naming.ResolveNamed`). A file made or linked in a removed directory makes a link count wrong: `Removed.Miscounts`
  does so, and `Links.CreatedCounts` and `Links.FileLinkedCounts` say that this is the only way.
- The shell opens the file of `>>` with the mode of `>`; the two give the same command.

## Model

| member | source | states |
|---|---|---|
| `LogMachine.InvStep` | log.c:126-233 | every step of every process, of the committer and of recovery, and every crash keeps the log invariant, if it stays within the header's array and the log region: distinct logged block numbers outside the log region, a header on disk that names only such blocks, and commit only with no operation active; the test of log_write and the recording under the lock are two steps |
| `LogMachine.StepImage` | log.c:193-202 | the write of a non-empty header is the only step that changes what recovery would restore, and it changes it to the cache contents of a moment with no operation active |
| `LogMachine.SafeRun` | log.c:178-233 | no step of a run records beyond the header's array or copies beyond the log region, if the cache has no more buffers than either, or if operations keep to MAXOPBLOCKS and the geometry is not one of those that can spill |
| `LogMachine.WriteAhead` | log.c:70-113 | in such runs a block changes on disk only during commit or recovery, and is then in the log region or already named by the header on disk |
| `LogMachine.RunInv` | log.c:126-233 | the invariant in every state of every such run, for any number of processes |
| `LogMachine.CrashAtomicity` | log.c:70-122 | such runs refine an ideal device with atomic commits: with crashes anywhere, also inside recovery, recovery restores its durable contents, and operations see its current contents |
| `LogMachine.Settled` | log.c:116-202 | when commit or recovery is over, cache and disk both show the durable contents |
| `LogMachine.ReservationHolds` | log.c:126-141 | in runs whose operations log at most MAXOPBLOCKS blocks, the test of log_write fails exactly when the log region is full, or the header is full and every operation has used its reservation; with log.size > LOGSIZE an operation with reservation left never fails it |
| `LogGuard.ReservationFails` | log.c:214-219 | with any log of at most LOGSIZE blocks, and as many buffers, there is a run in which an operation within its budget cannot log a new block |
| `LogGuard.AbsorbedFails` | log.c:214-230 | with any longer log there is a run in which an operation cannot log one of its own blocks again |
| `LogGuard.SpillsExactly` | log.c:214-233 | operations within MAXOPBLOCKS can make a commit write a home block that no header names exactly with the geometries of CanSpill |
| `LogGuard.Spills` | log.c:218-230 | the run that does it: two operations pass the unlocked test with room for one entry |
| `LogGuard.InThisKernel` | log.c:178-190 | with the log of mkfs and NBUF buffers the same two operations leave a commit that finds no buffer and writes nothing |
| `Commit.CommitCrash` | log.c:178-202 | after any number k of the disk writes of a commit, recovery restores the state before if the header is not written, and the committed cache contents otherwise |
| `Commit.RecoverCrash` | log.c:116-122 | after any number of the writes of a recovery, what recovery would restore is the same |
| `Commit.RecoveryIsIdempotent` | log.c:116-122 | and so after any number of recoveries, each cut anywhere |
| `Commit.RecoveryCompletes` | log.c:116-122 | an uncut recovery leaves that image on disk and in the cache, with an empty log |
| `Commit.CanWrite` | log.c:193-202 | a commit or recovery always has its next write, until the log is clear |
| `Bio.BufferCache.constructor` | bio.c:39-56 | the buffers form a circular doubly linked list with the head, and cache, disk and latest contents agree |
| `Bio.BufferCache.Lookup` | bio.c:68-76 | the walk along next finds a buffer of the block exactly when there is one |
| `Bio.BufferCache.FindVictim` | bio.c:78-91 | the walk along prev finds the least recently released buffer that is unreferenced and clean, or none when there is none |
| `Bio.BufferCache.Bget` | bio.c:62-93 | one more reference to the buffer of the block, or the recycled victim when the block has none; still at most one buffer per block; None is the panic, met exactly when the block has no buffer and every buffer is referred to or dirty |
| `Bio.BufferCache.Fill` | bio.c:97-106 | the locked buffer holds the latest contents stored for its block, read from disk if it was not valid; fails exactly for a block that the device does not have |
| `Bio.BufferCache.Bread` | bio.c:97-106 | the caller holds the only buffer of the block, with the latest contents stored, and no other buffer has changed; None exactly for a block that the device does not have, or when bget panics |
| `Bio.BufferCache.Store` | fs.c:520-522 | changing a held buffer makes its contents the latest ones and keeps the invariant |
| `Bio.BufferCache.Pin` | log.c:231-231 | a pinned buffer keeps the invariant that unwritten contents are cached |
| `Bio.BufferCache.Bwrite` | bio.c:110-116 | exactly the buffer's block changes on disk, in one write; refused without the lock |
| `Bio.BufferCache.Brelse` | bio.c:121-141 | lock and reference are given back, and the last reference moves the buffer to the front of a list that stays circular and ordered by release time |
| `Pins.PinsFit` | bio.c:78-91 | the blocks that are logged or changed and not yet logged have buffers of their own, so they are no more than NBUF |
| `Pins.MayDrop` | bio.c:121-141 | a held buffer whose block is not waiting to be logged is dirty or equal to the disk, so brelse loses nothing |
| `Pins.SpareLeft` | bio.c:78-91 | with more buffers than logged blocks, nobody referring to a buffer and only logged blocks dirty, bget finds a victim |
| `Log.Log.CopyBlock` | log.c:74-81 | one block is copied between its place in the log and its home, by one disk write, and no buffer stays locked; no panic if there are buffers for both |
| `Log.Log.WriteLog` | log.c:178-190 | the disk goes through the writes of the machine's copy steps, to the last unless a panic cuts them, which does not happen when nobody refers to a buffer and there are more buffers than logged blocks |
| `Log.Log.InstallTrans` | log.c:70-82 | the same for the install steps, which does not happen either, the logged blocks being in the cache or two buffers free |
| `Log.Log.WriteHead` | log.c:102-113 | the header block on disk spells out the in-memory header and no other block changes |
| `Log.Log.ReadHead` | log.c:86-96 | the in-memory header is the one that the block on disk spells out |
| `Log.Log.Commit` | log.c:193-202 | the disk history of a commit is a trail of the log machine, so the crash lemmas apply to it; at the end the log is empty; when nobody refers to a buffer it gets through exactly if nothing is logged or the logged blocks are fewer than the buffers |
| `Log.Log.RecoverFromLog` | log.c:116-122 | the same for recovery, from the header it reads; it gets through if there are two buffers or more and none is in use, however long the log is |
| `Log.Log.Init` | log.c:54-66 | after boot and recovery the log is idle and empty, and cache and disk show what recovery restores; it gets through as recovery does |
| `Log.Log.BeginOp` | log.c:126-141 | enters exactly when no commit is under way and the reservation fits, as a machine step |
| `Log.Log.Read` | bio.c:97-106 | reading a block changes nothing of the log's state and recycles no pinned buffer; None exactly as bread |
| `Log.Log.Change` | log.c:209-213 | a store into a held buffer inside an operation is the machine's step Modify, and the pinned blocks still fit the cache |
| `Log.Log.TestRoom` | log.c:218-221 | the test without the lock, as a machine step; fails exactly when the guard does or no operation is active |
| `Log.Log.Record` | log.c:223-232 | the part under the lock, as a machine step: the block is recorded once, within the array, and its buffer pinned |
| `Log.Log.LogWrite` | log.c:214-233 | both in a row |
| `Log.Log.Drop` | bio.c:121-141 | releasing a buffer that is pinned or unchanged takes one reference and changes nothing of the log's state |
| `Log.Log.EndOp` | log.c:146-174 | a machine step; the last one out commits, and the state after it is idle with an empty log; it gets through as commit does |
| `Log.Log.Operation` | log.c:126-233 | an operation from begin_op to end_op that stores any list of blocks: after any of its disk writes recovery restores all of the stores or none, and at the end cache and disk show them; when nobody else refers to a buffer it gets through exactly if every store finds room in the log and all the blocks leave a buffer, and leaves the cache ready for the next one |
| `Log.DistinctFeasible` | log.c:214-221 | in this kernel an operation that stores no block twice gets through exactly with fewer blocks than buffers |
| `Log.WithinFeasible` | log.c:126-141 | an operation of at most MAXOPBLOCKS different blocks, stored in any order and any number of times, gets through with more buffers than that and two blocks more of log, so with the log of mkfs and NBUF buffers |
| `Bitmap.SetOne` | fs.c:67-68 | or-ing in the bit of one block sets that bit and changes no other |
| `Bitmap.ClearOne` | fs.c:90-92 | masking out the bit of one block clears that bit and changes no other |
| `Bitmap.Bits.FindFree` | fs.c:62-72 | the lowest clear bit below the size, or none when all are set |
| `Bitmap.Bits.SetBit` | fs.c:68-69 | the set that the bytes spell out gains exactly one block |
| `Bitmap.Bits.ClearBit` | fs.c:88-94 | and loses exactly one |
| `Inodes.NoSharing` | fs.c:393-420 | two places of inodes or indirect blocks that refer to the same data block are the same place |
| `Inodes.AllocFill` | fs.c:399-416 | filling an empty place with a fresh zeroed block keeps ownership and changes the bytes of no file |
| `Inodes.TruncateOwned` | fs.c:428-455 | an inode without its blocks leaves the ownership of all others as it was |
| `FileBytes.WriteChunk` | fs.c:517-523 | copying one chunk into its block extends the written range by exactly those bytes, in one file |
| `FileBytes.OthersContent` | fs.c:502-531 | the contents of every other file are the same after a write |
| `FileBytes.ChunkFits` | file.c:127-135 | a chunk of filewrite logs at most MAXOPBLOCKS blocks, wherever it starts and however the allocated blocks spread over the bit map |
| `Files.FileSystem.Balloc` | fs.c:57-78 | the lowest free block, marked, zeroed and logged; None exactly when all are in use |
| `Files.FileSystem.Bfree` | fs.c:82-95 | the block is free again; the panic for a free block is told apart exactly |
| `Files.FileSystem.Bmap` | fs.c:393-420 | the block of the inode, allocated if missing; no byte of any file and no other place changes, and the logged blocks are bounded |
| `Files.FileSystem.Ilock` | fs.c:308-332 | the inode is in memory as it is on disk, and nothing else changes; refused exactly for a free inode |
| `Files.FileSystem.Readi` | fs.c:473-496 | the slice of the file cut at its end, with nothing allocated, logged or changed; -1 exactly for a bad range |
| `Files.FileSystem.Writei` | fs.c:502-531 | the file is spliced, all other files and the freedom from holes are kept, the inode is written back, every changed block is logged and their number is bounded, more sharply without the inode's block and below the indirect block; -1 exactly for a bad range, and a panic only on a full disk |
| `Files.FileSystem.WriteThenRead` | fs.c:473-531 | writei and then readi, of the same file or another and anywhere: what was written, and otherwise what was there; what was just written reads back |
| `Files.FileSystem.Iupdate` | fs.c:221-236 | the inode on disk is the in-memory one and no other inode changes |
| `Files.FileSystem.Relabel` | sysfile.c:158-159 | new links or device numbers, with iupdate, keep ownership, the contents of all files and the fields within their sixteen bits |
| `Files.FileSystem.Itrunc` | fs.c:428-455 | exactly the blocks of the inode are given back, the panic of bfree is never met, and exactly their bit map blocks and the inode's block are logged |
| `Files.FileSystem.FreeInode` | fs.c:359-365 | an inode without links becomes free, its blocks are nobody's, every other inode is as before; it logs at most one block more than there are bit map blocks, which fits MAXOPBLOCKS on a disk of fewer than 36864 blocks |
| `Files.FileSystem.Ialloc` | fs.c:195-214 | the lowest free inode, zeroed and of the given kind; None exactly when none is free |
| `Files.FileSystem.Filewrite` | file.c:118-156 | the file is spliced with all bytes or with the chunks before a rejected one, the other files are as before, and no transaction logs more than MAXOPBLOCKS blocks |
| `Files.FileSystem.WriteOp` | file.c:127-145 | one transaction of it: every block that differs from the disk of before is logged, and these are at most MAXOPBLOCKS |
| `Files.CoverBit` | fs.c:67-69 | changing a bit, an inode or a data block and logging its block keeps the property that every changed block is logged |
| `Atomic.Unlogged` | fs.c:207-413 | a block of the disk image that an operation has not logged is the same after it |
| `Atomic.StoresAddUp` | log.c:209-213 | storing the logged blocks turns the image of the file system before an operation into that after it |
| `Atomic.Perform` | log.c:126-202 | any operation of the file system carried out through the log: after any of the disk writes recovery gives the image of the file system before or, from the write of the header on, after the operation; when nobody else refers to a buffer it gets through exactly if it has logged nothing or fewer blocks than there are buffers |
| `Atomic.WriteChunk` | file.c:127-145 | so for a chunk of filewrite, which splices the file; with more than MAXOPBLOCKS buffers, none referred to, it fails only for want of a disk block |
| `Atomic.FreeFile` | fs.c:352-372 | and for freeing an inode, which gets through with two buffers more than bit map blocks |
| `Atomic.InodeReadsBack` | fs.c:221-236 | an inode reads back from its block, word by word |
| `Atomic.SoundInFields` | fs.c:221-236 | in every state that the operations keep, each inode fits the fields of its place on disk |
| `Atomic.ImageDetermines` | fs.c:308-332 | two file systems with the same blocks behind the log have the same inodes, bit map and data |
| `Atomic.OneOrTheOther` | log.c:116-122 | so whatever file system recovery restores after a cut operation is that of before or that of after, up to the write of the header and from it on |
| `Mkfs.Builder.Iappend` | mkfs.c:264-305 | the file grows by exactly the given bytes across the direct and indirect boundary, no other file changes, blocks come in order and are owned once; fails exactly when the file would be too large or the blocks it needs are not there |
| `Mkfs.Builder.Ialloc` | mkfs.c:232-243 | the next inode, of the kind, with one link and no contents |
| `Mkfs.Builder.Build` | mkfs.c:119-156 | the image lists and holds exactly the given files; fails exactly when the blocks they take, counted exactly, are not there or something is too large for an inode |
| `Mkfs.Builder.Balloc` | mkfs.c:246-259 | the bit map is set exactly on the blocks handed out; fails exactly beyond one bit map block |
| `Mkfs.Builder.Finish` | mkfs.c:158-167 | the image satisfies block ownership and holds every file; it is free of holes if and only if the root directory does not end on a block boundary before its size is rounded up |
| `Mkfs.BuildAndRead` | mkfs.c:119-167 | mkfs, then ilock and readi: any part of any file reads back as it was given, in every image |
| `Mkfs.UnbackedRoot` | mkfs.c:158-163 | with thirty empty files the image has a hole |
| `Mkfs.RootEntries` | mkfs.c:119-155 | the bytes of the root directory decode to its two dots and one entry for each file |
| `Dirs.DecodeEncode` | fs.c:592-593 | an entry written to disk reads back |
| `Dirs.WriteEntry` | fs.c:594-595 | writing an entry changes that entry, or adds one at the end, and no other |
| `Dirs.LinkBinding` | fs.c:572-598 | linking a new name adds it to the directory's map, keeps names unique and changes no other name |
| `Dirs.UnlinkBinding` | sysfile.c:236-238 | clearing an entry takes its name off the map and changes no other name |
| `Dirs.Dirlookup` | fs.c:545-568 | over the bytes that readi delivers: the first entry in use with the name and its offset, none, or a panic, and nothing changes |
| `Dirs.Dirlink` | fs.c:572-598 | an error exactly when the name is there; otherwise the entry is stored in the first free place and no other file changes; panics only for a bad directory or when it or the disk is full |
| `Dirs.IsDirEmpty` | sysfile.c:187-199 | whether no entry beyond the first two is in use |
| `Paths.SplitFirst` | fs.c:616-638 | the components of a path without a leading slash: its first part, cut to DIRSIZ, and those of the rest |
| `Paths.Skipelem` | fs.c:616-638 | the first non-empty part between slashes, cut to DIRSIZ, and a rest with the remaining components and no leading slash; none exactly when there are no components |
| `Icache.SlotHasAll` | fs.c:242-272 | the count in a slot in use is the number of all references to its inode |
| `Icache.InodeCache.Iget` | fs.c:242-272 | one more reference to the inode and no inode in two slots; None exactly when it is not cached and no slot is free |
| `Icache.InodeCache.Idup` | fs.c:277-283 | one more reference to the inode of the slot |
| `Icache.InodeCache.Iput` | fs.c:354-372 | one reference less; the count of one that iput reads means that it is the last to the inode |
| `Links.EmptyHasOneLink` | sysfile.c:229-234 | in a tree with right counts, an empty directory has exactly one link, from its parent |
| `Links.NamedIsLinked` | sysfile.c:229-230 | what a linked directory names is in use and has a link, so the panic for nlink < 1 is not met |
| `Links.FileLinkedOk` | sysfile.c:137-183 | one more entry and one more link for a file keep every link count equal to the number of entries, and the tree |
| `Links.FileLinkedCounts` | sysfile.c:137-183 | a new link keeps every count equal to the number of entries exactly if its directory has not been removed |
| `Links.CreatedOk` | sysfile.c:260-301 | a new inode, its dots and the parent's extra link keep them |
| `Links.CreatedCounts` | sysfile.c:260-301 | and so does a new inode |
| `Links.UnlinkedOk` | sysfile.c:203-257 | removing an entry, of a file or of an empty directory, keeps them |
| `Links.FreedOk` | fs.c:352-372 | freeing an inode without links keeps them: no linked directory names it |
| `Trees.StoredTree` | fs.c:572-598 | what dirlink stores in the bytes is one entry more in the tree of names, and nothing else |
| `Trees.ErasedTree` | sysfile.c:236-238 | what unlink stores takes one entry off the tree, and nothing else |
| `Trees.MkfsTree` | mkfs.c:119-167 | the image is a tree with right link counts exactly if no two names are equal when cut and none is a dot |
| `Trees.FileReached` | mkfs.c:130-155 | a path leads from the root to a file of the image exactly if its name is not empty and no entry before it has the same name when cut |
| `Trees.NamesakeImage` | mkfs.c:130-155 | an image of two files whose names differ behind DIRSIZ bytes: no tree, and no path leads to the second file, whose contents are there |
| `Calls.Enter` | fs.c:572-598 | dirlink as a change of the tree: one entry more, with the blocks logged bounded as by writei; an error exactly when the name is there, and then nothing has changed |
| `Calls.LinkFile` | sysfile.c:158-182 | on the bytes, the change of the tree of `Links.FileLinked`, with every changed block logged and at most MAXOPBLOCKS of them; if the name is there, the tree and the inode in memory are as before |
| `Calls.CreateNode` | sysfile.c:278-300 | on the bytes, the change of the tree of `Links.Created` with the lowest free inode, at most MAXOPBLOCKS blocks logged also for a directory with its dots; panics only without a free inode, without a free block, or for a damaged or full directory |
| `Calls.UnlinkFile` | sysfile.c:229-249 | on the bytes, the change of the tree of `Links.Unlinked`, and the inode is freed when nothing is left of it; at most MAXOPBLOCKS blocks logged on a disk of fewer than 12288 blocks; a directory with entries is refused and nothing has changed |
| `Syscalls.LinkCall` | sysfile.c:145-182 | link as a transaction: a crash at any disk write leaves the file system of before or of after; gets through with more than MAXOPBLOCKS buffers, none referred to |
| `Syscalls.CreateCall` | sysfile.c:278-300 | create as a transaction, likewise |
| `Syscalls.UnlinkCall` | sysfile.c:229-249 | unlink as a transaction, likewise |
| `Naming.FileTree.constructor` | mkfs.c:119-131 | the tree of an empty image has right counts, the root being its own parent |
| `Naming.ResolveNamed` | fs.c:645-677 | a path from the root, or from a directory that has not been removed, meets no freed inode and leads to a linked one |
| `Naming.StopsExactly` | fs.c:656-672 | some path from an inode meets a freed one exactly if the entries .. lead there through removed directories |
| `Naming.FileTree.Iput` | fs.c:352-372 | an inode is freed exactly when its links are gone and this is its last reference |
| `Naming.FileTree.Namex` | fs.c:645-677 | the fold of directory lookup over the components, or all but the last; one more reference on the result and none elsewhere; the tree is unchanged |
| `Naming.FileTree.SysLink` | sysfile.c:137-183 | succeeds exactly when the file and the new directory exist, it is no directory, the name is new and the directory is not full; stops exactly when a path meets a freed inode or the directory is full; counts are right afterwards exactly if that directory has not been removed; on failure counts, entries and references are as before; with anchored paths it stops only at a full directory |
| `Naming.FileTree.SysUnlink` | sysfile.c:203-257 | succeeds exactly when the name is no dot, exists and is no directory with entries; the inode is freed exactly when nothing is left of it; references are as before; with an anchored path it never stops |
| `Naming.FileTree.Ialloc` | fs.c:195-214 | the lowest free inode with one reference |
| `Naming.FileTree.Create` | sysfile.c:260-301 | a new named inode, the lowest free one, with one reference, or the existing file; stops exactly when the path or the name leads to a freed inode, or when the name is new and no inode is left or the directory is full; from an anchored path only for the last two; counts are right afterwards exactly if the directory has not been removed; nothing changes on failure |
| `Removed.Stops` | fs.c:656-672 | a sequence of calls after which a path from a current directory meets a freed inode, with right counts |
| `Removed.StopsCreate` | sysfile.c:269-271 | and create with a name that leads to a freed inode stops |
| `Removed.Miscounts` | sysfile.c:260-301 | and one after which a file has a wrong link count |
| `Paging.OnFreeList` | kalloc.c:61-96 | a page is on the free list, once, exactly when its use says so |
| `Paging.NoSharing` | vm.c:222-249 | two mapped user pages never share a frame, within an address space or across |
| `Paging.LookupUser` | vm.c:36-55 | the frame of a mapped user page has that page as its one use |
| `Spaces.OtherSpace` | vm.c:222-345 | an operation confined to one address space leaves mapping and contents of every other as they were |
| `Spaces.MadeAndReleased` | vm.c:284-298 | an address space made and freed leaves every page as it was, free pages free |
| `Vm.Memory.constructor` | kalloc.c:32-44 | at first every managed page is in use and the free list is empty |
| `Vm.Memory.Kalloc` | kalloc.c:84-96 | the head of the free list, None exactly when it is empty; all other pages unchanged |
| `Vm.Memory.Kfree` | kalloc.c:61-78 | the page is junk and the new head; refused exactly outside the managed pages |
| `Vm.Memory.FreeRange` | kalloc.c:47-54 | exactly the whole pages in the range are freed; fails exactly for a bad range |
| `Vm.Memory.Walk` | vm.c:36-55 | the table of the page, with a new empty one if asked for; nothing that is mapped changes; None only when absent and no page is left or none may be made |
| `Vm.Memory.MapPages` | vm.c:61-80 | exactly the given pages are mapped to consecutive frames; on failure there are new tables and, of a kernel range, pages that are mapped already, but no user page and no page below the range has changed, and memory was short |
| `Vm.Memory.SetupKvm` | vm.c:119-136 | a directory that maps exactly what kmap says, or, when memory runs out, every page as before |
| `Vm.Memory.DeallocUvm` | vm.c:256-279 | exactly the pages between the sizes are unmapped and freed, as one by one, although absent tables are skipped |
| `Vm.Memory.AllocUvm` | vm.c:222-249 | exactly the new pages are mapped, zeroed, on frames that were free; or the mapping is unchanged and all pages but empty tables are given back; fails only when memory is short |
| `Vm.Memory.FreeVm` | vm.c:284-298 | exactly the user pages, tables and directory of the address space become free, and no other page changes |
| `Vm.Memory.CopyUvm` | vm.c:316-345 | equal contents and flags on frames that were free, the source unchanged; or every page as before when memory runs out; or a panic, only when a page below the size is not mapped |
| `Heap.Partition` | umalloc.c:25-90 | every unit from sbrk is in exactly one block, free or allocated |
| `Heap.InsertedList` | umalloc.c:31-43 | freeing keeps the list circular, in address order with one wrap, and without touching members |
| `Heap.FreedOk` | umalloc.c:25-44 | and the partition, with the sizes of all other allocated blocks |
| `Heap.UnitsFor` | umalloc.c:69-69 | the units for a request: enough, and no more than one header and rounding beyond it |
| `Heap.Allocator.FindSpot` | umalloc.c:30-32 | the search ends at the member that the block comes after |
| `Heap.Allocator.Free` | umalloc.c:25-44 | the block is free, merged with its free neighbours, everything else as before |
| `Heap.Allocator.Morecore` | umalloc.c:47-61 | at least the units asked for and at least 4096 join the free list; None exactly when sbrk fails |
| `Heap.Allocator.Malloc` | umalloc.c:64-90 | a block of the size, disjoint from all others, which are unchanged; None only when no free block is large enough and sbrk fails; the search ends, also after morecore |
| `SleepLock.InvStep` | sleeplock.c:23-53 | every step of every process keeps the lock discipline and that a process on its way to sleep on the lock finds it held or is about to be woken |
| `SleepLock.NoLostWakeup` | proc.c:471-527 | in every run of any number of processes, with both spinlocks free, a process asleep on the sleep lock means that it is held |
| `SleepLock.MutualExclusion` | sleeplock.c:23-53 | where only holders release, at most one process has the lock, and holdingsleep tells whether the caller does |
| `Proc.ParentsReady` | proc.c:275-359 | in every valid state a parent is alive, and not asleep in wait when its child is a zombie |
| `Proc.OneOwner` | proc.c:226-359 | the allocated kernel stacks and page tables are those of the processes, each with exactly one |
| `Proc.Table.constructor` | proc.c:164-199 | the state after userinit is valid |
| `Proc.Table.AllocSlot` | proc.c:116-134 | the lowest unused slot becomes an embryo with a new pid; None exactly when there is none |
| `Proc.Table.AllocStack` | proc.c:136-140 | the embryo gets a stack of its own, or the slot is unused again; parents, waiters and owners stay as `ParentsReady` and `OneOwner` say |
| `Proc.Table.CopyMemory` | proc.c:238-243 | the embryo gets a page table of its own, or its stack and slot are given back, with the same invariants |
| `Proc.Table.SetParent` | proc.c:245-245 | the store of the parent, made without the lock, keeps the invariants: the forking process is alive |
| `Proc.Table.MakeRunnable` | proc.c:260-266 | the child becomes runnable and belongs to the forking process |
| `Proc.Table.Sleep` | proc.c:471-505 | sleeping outside wait keeps the invariants and changes no other process |
| `Proc.Table.Wakeup1` | proc.c:511-518 | exactly the processes asleep on the channel become runnable |
| `Proc.Table.Kill` | proc.c:533-550 | the first slot with the pid is marked and woken, the only one for a pid other than 0; fails exactly when there is none |
| `Proc.Table.Exit` | proc.c:275-315 | the process is a zombie, its children are init's, whoever waits for one of the zombies is runnable, all else is as before; refused exactly for init |
| `Proc.Table.WaitOnce` | proc.c:320-359 | a zombie child is reaped with its stack and page table, allocated until then; or there is none, and the process returns -1 or sleeps with no zombie child |
| `Pipe.CountersTell` | pipe.c:85-114 | the tests on the wrapped 32-bit counters tell an empty and a full pipe exactly |
| `Pipe.Pipe.Write` | pipe.c:79-98 | the bytes go into the stream in order; returns, fails or sleeps exactly as the source; no sleeper is forgotten if and only if it is not a killed writer with more than 512 bytes left before a sleeping reader |
| `Pipe.Pipe.Read` | pipe.c:101-121 | the next bytes of the stream, as many as asked for and there; none only when the write end is closed and all is read; no sleeper is forgotten |
| `Pipe.Pipe.Close` | pipe.c:60-75 | everyone at the other end is woken; the pipe is freed exactly when both ends are closed |
| `Pipe.KilledWriter` | pipe.c:85-92 | a killed writer leaves a reader asleep before a full pipe |
| `Grammar.RoundTrip` | sh.c:328-342 | for every command with plain words and fewer than MAXARGS arguments, the parenthesised printing parses to the command |
| `Grammar.AcceptedRoundTrip` | sh.c:328-342 | every line that the shell accepts denotes a command whose printing it reads as the same command |
| `Grammar.AcceptedExactly` | sh.c:345-446 | the commands that some line denotes are exactly those with plain words, fewer than MAXARGS arguments and the two kinds of redirection |
| `Grammar.LexShow` | sh.c:266-308 | tokens printed with spaces between them are read back |
| `Grammar.LineRound` | sh.c:345-446 | and their sequence parses to the command, in front of the end of a line or a block |
| `Shell.Peek` | sh.c:311-320 | whether the next token begins with one of the characters |
| `Shell.GetToken` | sh.c:266-308 | the next token, its place in the line and what follows |
| `Shell.ParseRedirs` | sh.c:375-397 | the redirections that the grammar reads from here, or an error exactly when it has one |
| `Shell.ParseBlock` | sh.c:400-413 | a block as the grammar reads it |
| `Shell.ParseExec` | sh.c:416-446 | a simple command as the grammar reads it, with fewer than MAXARGS words |
| `Shell.ParsePipe` | sh.c:362-372 | a pipeline as the grammar reads it |
| `Shell.ParseLine` | sh.c:345-359 | a line as the grammar reads it; the mutual recursion ends on every input |
| `Shell.NulTerminate` | sh.c:450-493 | a NUL at the end of every word of the command and no other change of the buffer |
| `Shell.WordIsString` | sh.c:450-493 | the string at the beginning of each word is then exactly the word |
| `Shell.ParseCmd` | sh.c:328-342 | the command that the line denotes, or an error exactly when it denotes none, with every word a string of its own |
| `Regex.MatchHere` | grep.c:85-96 | some beginning of the text is in the language of the pattern, and the end if it is anchored |
| `Regex.MatchStar` | grep.c:99-106 | some number of characters that c stands for, and then the pattern |
| `Regex.Match` | grep.c:73-82 | true exactly when some substring, placed as ^ and $ demand, is in the language of the pattern |

## Left out

- `ide.c`, the other devices, booting, traps, assembly, `swtch`, interrupt flags and memory barriers: hardware; spinlocks are atomic steps.
- Scheduler priorities, `nice` and `ps`: no intended result to prove.
- `exec.c`, system call arguments, `console.c`, `printf.c`, `string.c` and the other user programs: they would only add easy members.
- `filealloc`, `filedup`, `fileclose` and `fileread`: plain counters and one call of `readi`.
- `flock` and `funlock`: uses of the sleep lock of `SleepLock`.
- `inituvm`, `loaduvm`, `clearpteu`, `copyout`, `growproc`: loops over the operations of `Vm`; `growproc` to size 0 reports failure.
- The read loop of `grep.c`: it drops a chunk without a newline.
- Files.FileSystem.Readi: not for device inodes, as the device switch is not part of this model; the file has no hole, which only the root directory of some new images has.
- Files.FileSystem.Writei: not for device inodes, and for file systems without holes.
- Concurrent use of the inode layer: `Files`, `Dirs` and `Naming` run one operation at a time, with inode locks left out; which buffers are locked is part of `Bio` and `Log`.
- Log.Log.constructor: the cache has no more buffers than the log has blocks and the header has entries, as here; `LogMachine` has the other geometries.
- Log.Log.Commit: no other process holds a buffer at that time; a reader that holds one would make `bread` wait.
- Log.Log.EndOp: as for `Commit`, when it is the last one out.
- Log.Log.RecoverFromLog: no other process holds a buffer at that time; a reader that holds one would make `bread` wait.
- Bio.BufferCache.Bread: called when the buffer's sleep lock is free, since waiting for it is what `SleepLock` models.
- Atomic.Perform: the stores are made when the operation is over, with the last contents of each block; how operations interleave is part of `LogMachine`.
- Mkfs.Builder.Ialloc: no more inodes than the superblock says; `mkfs.c` does not check that and would write beyond the inode blocks.
- Mkfs.Builder.Build: for no more files than there are inodes, for the same reason.
- Icache.InodeCache.Iput: reading the count and dropping it are one step, two sections of the lock in the source.
- Naming.FileTree.Iput: the two sections are one step too, and the `valid` flag is left out; it is set whenever an inode without links is put, as `unlink` has locked it.
- Naming.FileTree.Namex: the panic of `iget` when all cache slots are in use is in `Icache` only.
- Naming.FileTree.SysLink: works on the tree of names, where a disk is never full; `Calls` has the same steps on the bytes.
- Naming.FileTree.Create: as for `SysLink`.
- Naming.FileTree.SysUnlink: as for `SysLink`.
- Calls.LinkFile: both inodes are in memory; what `iput` logs when a removed directory along a path goes away is not counted.
- Calls.CreateNode: as for `LinkFile`; the tree is that of `Links.Created` if there are at most 65536 inodes and the parent's link count does not wrap.
- Calls.UnlinkFile: as for `LinkFile`, for directories of whole entries, and the entry is not one of the directory itself.
- Syscalls.LinkCall: the stores are made when the call is over, as for `Atomic.Perform`.
- Syscalls.CreateCall: as for `LinkCall`.
- Syscalls.UnlinkCall: as for `LinkCall`.
- Trees.MkfsTree: for images whose root directory does not end on a block boundary, as the last block of the others is not backed and has no contents.
- Trees.FileReached: as for `MkfsTree`.
- Mkfs.BuildAndRead: for no more files than there are inodes, as for `Build`.
- Files.FileSystem.WriteThenRead: as for `Readi` and `Writei`.
- Log.Log.Read: called when the buffer's sleep lock is free, as for `Bread`.
- Vm.Memory.Kfree: the page must not be free already; `kalloc.c` would put it on the list twice.
- Vm.Memory.MapPages: the pages must not be mapped yet, which the source demands by its panic; a user page is mapped one at a time, as all callers do.
- Vm.Memory.AllocUvm: the pages between the sizes must not be mapped yet, or `mappages` panics.
- Heap.Allocator.Malloc: requests whose size wraps in 32 bits are not modelled, as addresses and sizes are unbounded units.
- Proc.Table.AllocSlot: pids do not wrap.
- Proc.Table.CopyMemory: the three stores of `fork` when it gives up, made without the lock, are one step.
- Shell.ParseExec: the commands are values, so the filling in place of the argument array inside a redirection is a list that is wrapped at the end.
- Pipe.Pipe.Write: sleeping gives up the pipe's lock in one step with respect to wakeup, which `SleepLock` proves of the same primitives.
- Pipe.Pipe.Read: sleeping gives up the pipe's lock in one step with respect to wakeup, which `SleepLock` proves of the same primitives.
