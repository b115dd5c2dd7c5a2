# TieZhu_OS: a verified model of the kernel's logic

TieZhu_OS is a small x86 kernel. Its files, directories, scheduler, heap, processes and pipes are C code that
updates shared structures step by step and relies on invariants that no single function states. This project models
that code in Dafny and proves the invariants, and where the code does not do what its comments promise it proves
exactly when it does.

`dafny verify dfyconfig.toml` verifies everything.

## How it is built

| files | what they hold |
|---|---|
| `Volume`, `FileData`, `FileSession`, `FileLaws` | Sectors, the block bitmap and inodes with twelve direct blocks and one table; `file_write`, `file_read`, `inode_release`; whole runs of reads and writes against plain byte sequences, and what their users rely on. |
| `DirCells`, `Directory`, `DirTree`, `DirSession` | Entries in sectors; search, insert, delete, reading, mkdir, rmdir; runs against a finite map. |
| `Paths`, `Resolve` | Parsing and washing paths as text; resolving them on disk; chdir and getcwd. |
| `FileSystem`, `PathCalls`, `PathLaws` | The tree of directories and the files as one abstract file system; mkdir, rmdir, create, unlink and write by path, whole runs of them, and what their users rely on. |
| `Common` | An optional value and sequences without repeats. |
| `Sched`, `Turns`, `Cpu` | Threads, ready list, semaphores and re-entrant locks as a step system; the laws of the time slices, of the ready list and of the waiters; the kernel's variables that refine it. |
| `Bitmap`, `ListLinks` | The two low-level containers: bytes searched and masked, and nodes relinked in place. |
| `Paging`, `Heap`, `HeapOrder` | Virtual and physical bitmaps with the page tables; arenas and free lists on top of them; the order in which blocks are reused. |
| `Process`, `Records` | Fork, exit, wait and the pid pool over the list of all threads; what each call moves in it. |
| `Descriptors`, `Routes`, `Ring` | Pipe counts over fork, close, exit and redirect; where reads and writes lead, and a pipeline of the shell; the ring buffer as a queue. |

Code that changes things in place is a class with the source's fields and methods with its loops. Each method is proved
against a function of the old state, and the laws are proved about those functions and about every run of them. A
section that runs with interrupts off is one step; lock_acquire and lock_release are cut between their statements, and
ticks and wake-ups by interrupt handlers can come at every cut.
Widths are explicit where they matter: disk words, file positions, the bitmap's 8-bit counter, the signed byte of an
exit status, the unsigned count of a pipe.

Fields the kernel does not have, kept only to state history: `depth` and `pc` of a thread in `Sched` (its nesting and
its place in the lock code), `uid`, `maker`, `exited`, `reaped` and `lost` in `Process`, `live` in `Heap`, `others` in
`Paging`, `reserved` in `Volume`.

Where the code and its comments disagree the model follows the code:

- `bitMap_scan` reports failure as 255, not -1, and does not see a run that ends on the last bit (`Bitmap.MeetsContract`).
- `sys_wait` never returns -1, because its test for children compares the wrong field (`Process.WaitReaps`).
- Adoption by init does not wake it (`Process.StuckExactly`).
- `pipe_write` says it avoids blocking but blocks when the ring would fill (`Ring.IoQueue.PipeWrite`).
- `get_child_dir_name` looks only at the first block of a directory (`Resolve.GetChildDirName`).
- `wash_path` accepts paths through directories that do not exist (`Resolve.ResolvesAsTyped` says exactly which).
- `sys_rmdir` of a path ending in a dot destroys the directory and leaves its entry (`PathCalls.SysRmdir`).
- `sys_unlink` ignores what follows a regular file in the path (`PathCalls.SysUnlink`).
- `sys_lseek` refuses the first byte of a file, so of what is written to an empty file only the last byte can be read back through the same descriptor (`FileLaws.WriteReadBack`).
- Standard output redirected to a regular file still goes to the console (`Routes.RedirectOutput`).
- A child that exits closes the regular files it shares with its parent (`Routes.ForkThenExit`).
- Redirects are not counted, so closing descriptor 2 on a pipe, or a redirect that puts a pipe on a descriptor from 3 up or takes one off it, breaks the pipe's count (`Descriptors.PipeLawExact`).

## Model

| member | source | states |
|---|---|---|
| Volume.TableRoundTrip | fs/fs.c:645-713 | The 128 little-endian words of an indirect table written to a sector are the words read back. |
| Volume.TableLayout | fs/fs.c:645-713 | On disk the words of a table follow each other, each with its least byte first. |
| Volume.FreeCountSet | fs/file.c:61-70 | Setting one clear bit lowers the number of free blocks by exactly one. |
| Volume.Rebalance | fs/fs.c:565-714 | The conservation law: if one inode gains blocks that were free and gives up blocks it owned, and the bitmap records exactly that, then again no block has two owners and the set bits are exactly the owned and reserved blocks. |
| Volume.OthersOwn | fs/fs.c:528-756 | A change to one inode leaves every other inode's addresses, read through its table on disk, as they were. |
| Volume.Partition.BlockBitmapAlloc | fs/file.c:61-76 | Takes the first block whose bit was clear, zeroes its sector and nothing else; fails exactly when no bit is clear, changing nothing. |
| FileData.RefsGrow | fs/fs.c:565-714 | Whichever way a file grows, all addresses it refers to, its table included, stay distinct and the new ones are exactly the blocks taken. |
| FileData.GrowDirect | fs/fs.c:615-642 | Growth within the direct blocks: either exactly the missing blocks are added in order, or the bitmap is full. |
| FileData.GrowCross | fs/fs.c:645-686 | Growth across block 12: the missing blocks plus one for the new table, which on disk holds the blocks past the twelfth. |
| FileData.GrowIndirect | fs/fs.c:688-713 | Growth within the table: the stored table keeps its old words and gains the new blocks. |
| FileData.Grow | fs/fs.c:601-713 | Over the four branches: the blocks of the file from the old count to the new one are the blocks taken, each the first free one at its time and in that order, the table before them; a growth that runs out keeps bitmap and owners in agreement exactly in the cases below. |
| FileData.DirectStuck | fs/fs.c:615-642 | A growth within the direct blocks that runs out keeps bitmap and owners in agreement. |
| FileData.CrossStuck | fs/fs.c:645-686 | A growth across block 12 that runs out keeps them in agreement if and only if no more was free than the table and the direct blocks. |
| FileData.IndirectStuck | fs/fs.c:688-713 | A growth within the table that runs out keeps them in agreement if and only if nothing was free. |
| FileData.ExtendedContent | fs/fs.c:565-714 | Adding blocks changes no byte of any file. |
| FileData.FileWrite | fs/fs.c:528-756 | In all four cases the file's bytes become the old bytes followed by the buffer, every other inode keeps its blocks and bytes, exactly the needed blocks leave the bitmap (one more when crossing block 12), the position is the last byte, and the new blocks are the first free ones, in the order of the file. The result is -1 if and only if the file would pass 140 blocks or there are fewer free blocks than needed; then no byte of any file and no position has changed, and the bitmap still matches the owners if and only if the growth was direct, or left no block for the table's entries. |
| FileData.FileRead | fs/fs.c:925-1047 | From any position, direct, indirect or both: returns exactly the slice of the file's bytes from the position, up to the count or the end, and moves by its length; -1 exactly at the end of the file. |
| FileData.InodeRelease | fs/fs.c:1149-1196 | The bits cleared are exactly those of the blocks the inode owned, its table included; the volume invariant and every other inode are kept. |
| FileSession.WriteCall | fs/fs.c:763-787 | One sys_write on one of many descriptors, some sharing a file, does to the bytes of the files and the positions exactly what appending does; it is refused exactly when there is no room, and then nothing that can be seen has changed. |
| FileSession.ReadCall | fs/fs.c:1053-1082 | One sys_read returns the next bytes of the file as the session has them, or -1 at the end, and moves only that descriptor. |
| FileSession.SeekCall | fs/fs.c:1088-1122 | One sys_lseek moves only that descriptor, to any byte of the file but the first, and is -1 otherwise. |
| FileSession.Session | fs/fs.c:528-1122 | Any run of writes, reads and seeks over any descriptors, up to the first refused call, leaves the map of files and positions that the abstract append-and-slice specification computes and returns exactly the results and bytes it computes. |
| FileLaws.FilesGrow | fs/fs.c:763-1122 | After any run of calls a file holds what it held, then every buffer written to it, in order, through whichever descriptor. |
| FileLaws.OthersStay | fs/fs.c:763-1122 | A descriptor that no call of a run names keeps its position. |
| FileLaws.SeekRule | fs/fs.c:1099-1122 | From the start the target is the offset, from the position their sum, from the end the size and the offset; it is reached and returned unless it is the first byte or outside the file, and then nothing moves. |
| FileLaws.WriteReadBack | fs/fs.c:763-1122 | Seeking to where a written buffer begins and reading its length returns it if the file was not empty; else the seek is refused and only its last byte comes back. |
| FileLaws.ReadsJoin | fs/fs.c:1053-1082 | Two reads in a row return what one read of both counts returns. |
| DirCells.EncodeDecode | fs/dir.c:109-116 | A directory entry stored in 24 bytes is the entry read back. |
| DirCells.EntryLayout | fs/fs.h:40-44 | The 24 bytes of an entry are the name, zeros to the sixteenth byte, the inode and the type, least byte first. |
| DirCells.PutGet | fs/dir.c:146-226 | Storing one entry of a sector changes that entry and no other of the 21. |
| DirCells.FillCell | fs/dir.c:124-231 | Filling a free slot with a new name adds exactly one binding to the directory read as a finite map. |
| DirCells.ClearCell | fs/dir.c:237-366 | Clearing a live slot removes exactly its binding. |
| Directory.SearchDirEntry | fs/dir.c:37-90 | Finds a name if and only if the finite map binds it, and returns the inode and type it is bound to. |
| Directory.SyncDirEntry | fs/dir.c:124-231 | Adds exactly one binding in the first free slot, taking a block, the first free one, only when that slot has none; fails, changing nothing, exactly when a block is due and none is free. |
| Directory.DeleteDirEntry | fs/dir.c:237-366 | Removes exactly the entry of the inode and frees its block precisely when it was the only live entry of a block other than the first; fails, changing nothing, exactly when no entry but the dots has the inode. |
| Directory.LonelyCount | fs/dir.c:259-300 | The count of entries that delete_dir_entry makes is 1 exactly when the entry is alone in its block. |
| DirTree.DirRead | fs/dir.c:372-415 | Returns the next live entry in slot order, or nothing at the end; the scan stops with the block index in range. |
| DirTree.ReadAll | fs/dir.c:372-415 | Reading from position 0 to the end returns each live entry exactly once, in slot order. |
| DirTree.EmptyAgree | fs/fs.c:1448-1469 | The size is that of two entries if and only if only the dots are live, and then no block past the first is allocated, so the two emptiness tests agree. |
| DirTree.DirIsEmpty | fs/fs.c:1448-1453 | True exactly when only the dots are live. |
| DirTree.DirRemove | fs/fs.c:1459-1481 | Never rejects a directory that holds only the dots; the child's entry, inode and blocks go and nothing else. |
| DirTree.Rmdir | fs/fs.c:1448-1481 | Below path lookup: succeeds if and only if the directory holds only the dots; otherwise nothing changes. PathCalls.SysRmdir is the whole call. |
| DirTree.MkDir | fs/fs.c:1296-1381 | Below path lookup: the child has its own block with the two dots and one new binding in the parent, and the blocks taken are the first free ones. It succeeds if and only if enough blocks are free (one, or two when the parent needs a block), and a failure gives back what it took. PathCalls.SysMkdir is the whole call. |
| DirSession.Session | fs/dir.c:37-366 | Any run of inserts of new names and deletes, until blocks run out, leaves the directory as the finite map the same operations leave. |
| Paths.RenderParse | fs/fs.c:278-291 | A path rendered from clean components parses back to exactly those components. |
| Paths.ComponentsSplit | fs/fs.c:278-311 | Parsing splits at slashes: what comes before and after one is parsed independently. |
| Paths.PathParse | fs/fs.c:278-291 | Takes exactly the first component off a path, whatever the number of slashes; the empty path gives NULL. |
| Paths.WashPath | shell/buildin_cmd.c:16-49 | The buffer built and cut in place is the rendering of the components after every dot and double dot was resolved. |
| Paths.WashIdempotent | shell/buildin_cmd.c:16-49 | Washing twice is washing once, and the result has no dot component. |
| Paths.NormalizeClean | shell/buildin_cmd.c:16-49 | The washed path has no "." or ".." component and no component the original did not have. |
| Paths.MakeClearAbsPath | shell/buildin_cmd.c:54-68 | A relative path is taken from the current directory and then washed; an absolute one is only washed. |
| Paths.ReversePath | fs/fs.c:1613-1619 | The loop that cuts at the last slash turns "/cn/.../c1" into exactly "/c1/.../cn". |
| Resolve.NormalizeKeepsMeaning | shell/buildin_cmd.c:16-49 | If the original components resolve through the "." and ".." entries on disk, the washed ones resolve from the root to the same inode. |
| Resolve.ResolvesAsTyped | shell/buildin_cmd.c:16-49 | Exactly when washing does not forgive: a path resolves as typed if and only if its washed form does and every dot component in it stands behind a directory; equally, if and only if every prefix washes to a path that resolves, to a directory unless it is the whole path. |
| Resolve.NormalizeForgives | shell/buildin_cmd.c:16-49 | A path that fails as typed and resolves when washed: "/x/.." with no x. |
| Resolve.ScanAgrees | fs/fs.c:317-379 | A path resolves exactly when search_file finds something after consuming every component, which is the depth comparison its callers make. |
| Resolve.SearchFile | fs/fs.c:317-379 | The loop over on-disk directories returns what the walk over the tree of dictionaries returns, including where it stops at a file or a missing name. |
| Resolve.PathUnique | fs/fs.c:1581-1622 | A directory is reached by one path of plain names only. |
| Resolve.NoLoop | fs/fs.c:1581-1622 | Climbing the double dots never meets a directory that is its own parent or grandparent, the root apart. |
| Resolve.GetChildDirName | fs/fs.c:1539-1572 | Finds the name of a child if and only if its entry is in the first block of the parent: the slot index is not reset between blocks. |
| Resolve.GetCwd | fs/fs.c:1581-1622 | For a directory reached by c1..cn the climb ends and yields exactly "/c1/.../cn", if and only if every entry is in the first block of its directory. |
| Resolve.CwdFails | fs/fs.c:1539-1572 | getcwd fails if and only if some component's entry is in cell 21 or later of its directory. |
| Resolve.CrowdedCwd | fs/fs.c:1539-1572 | An input that fails: below a root with twenty directories the last one's path is lost to getcwd. |
| Resolve.ChDir | fs/fs.c:1629-1646 | The working directory moves exactly when the path resolves to a directory, and then to that directory. |
| Resolve.CdPwd | shell/buildin_cmd.c:54-107 | For absolute and relative paths: a path that resolves as typed, from the root or the working directory, leads to the same directory, and pwd prints exactly the washed path unless an entry of it lies past a first block. It stops on an assertion exactly when the path is relative and getcwd fails. |
| FileSystem.AddDirOk | fs/fs.c:1296-1381 | Entering a fresh directory under a new name keeps the tree in order: dots, parents, one entry for each directory and each file. |
| FileSystem.LeafChildless | fs/fs.c:1448-1453 | A directory that binds only the dots is nobody's parent. |
| FileSystem.DropDirOk | fs/fs.c:1459-1481 | Taking out a directory that binds only the dots keeps the tree in order. |
| FileSystem.AddFileOk | fs/fs.c:385-475 | Entering a fresh file under a new name keeps the tree in order. |
| FileSystem.DropFileOk | fs/fs.c:1240-1252 | Taking out the one entry of a file keeps the tree in order. |
| PathCalls.FormattedSound | fs/fs.c:79-222 | A formatted volume spells the file system of an empty root. |
| PathCalls.ScanMissing | fs/fs.c:317-379 | search_file that finds nothing stopped at a name its last directory does not have. |
| PathCalls.PathNames | fs/fs.c:296-311 | The depth of a path is its number of components, and the name for a new entry the last of them. |
| PathCalls.InodeAlloc | fs/file.c:48-54 | The least free inode number under the declared contract of the search; fails exactly when all are taken. |
| PathCalls.SysMkdir | fs/fs.c:1260-1382 | By path: succeeds if and only if only the last name is missing, an inode is free and there are blocks; then the volume spells the tree with that one directory more, and otherwise the same tree as before. |
| PathCalls.SysCreate | fs/fs.c:798-877 | Creating a file by path: succeeds if and only if the path does not end in a slash, only its last name is missing, an inode is free and a due block is free; then the volume spells the tree with that one empty file more, and otherwise nothing changes. |
| PathCalls.SysUnlink | fs/fs.c:1202-1253 | By path: succeeds if and only if search_file ends at a regular file that is not open, whatever follows it in the path; then exactly that entry and file are gone. |
| PathCalls.SysRmdir | fs/fs.c:1488-1512 | By path: declines if and only if the path does not lead to a directory of only the dots. If the path ends in a plain name exactly that directory is gone. If it ends in a dot the inode goes and the entry stays, and the volume then spells no file system at all; on the root an assertion stops the kernel. |
| PathCalls.NoFileSystem | fs/fs.c:1459-1481 | After an rmdir by a path ending in a dot there is no tree and no map of files that the volume could spell. |
| PathCalls.LeafParent | fs/fs.c:317-379 | search_file reports a leaf directory as its own parent exactly when the path does not end in a plain name. |
| PathCalls.SpelledMkdir | fs/fs.c:1296-1381 | What mkdir does to blocks and inodes is adding one directory to the abstract tree; every file and every other directory is spelled as before. |
| PathCalls.SpelledRmdir | fs/fs.c:1459-1481 | What rmdir does to them is taking one directory out. |
| PathCalls.SpelledUnlink | fs/fs.c:1240-1252 | What unlink does to them is taking one file out. |
| PathCalls.WriteTo | fs/fs.c:528-756 | A write on a file of the tree appends to that file alone; it fails only for the size or for lack of blocks. |
| PathCalls.Session | fs/fs.c:385-1512 | Any run of mkdir, rmdir, create, unlink and write calls by path, up to a write that runs out of blocks, keeps bitmap and owners in agreement and every file and directory in order, and the volume spells a file system that the abstract calls lead to. |
| PathLaws.MadeResolves | fs/fs.c:1260-1381 | After mkdir or create the path leads to what was made, and every path that led somewhere leads there still. |
| PathLaws.MkdirRmdir | fs/fs.c:1260-1531 | rmdir accepts the path that mkdir just made, and the file system is then exactly what it was. |
| PathLaws.CreateUnlink | fs/fs.c:798-1253 | unlink accepts the path of a file just created if and only if it is not open, and the file system is then exactly what it was. |
| PathLaws.RmdirTakes | fs/fs.c:1488-1531 | After rmdir the path leads nowhere; every other path of plain names leads where it led, and no path is new. |
| PathLaws.UnlinkTakes | fs/fs.c:1202-1253 | After unlink no path leads to the file and every other path leads where it led. |
| Sched.StepKeeps | thread/thread.c:232-384 | Every atomic section of every thread (tick, block, unlock, yield, start, exit, reap, and each statement of the lock code), and a wake-up by an interrupt handler between any two of them, keeps the whole invariant of lists, locks and wakeups. |
| Sched.RunSafe | thread/sync.c:26-94 | The invariant holds after every interleaving of any number of threads and interrupts over any number of locks. |
| Sched.BootSafe | thread/thread.c:50-63 | The state after boot satisfies the invariant. |
| Sched.MutualExclusion | thread/sync.c:65-94 | In every reachable state at most one thread is inside a lock; the holder field names it, the value is 0 and holder_repeat_nm is its nesting depth (one more while a nested release is under way). |
| Sched.NoLostWakeup | thread/sync.c:26-59 | In every reachable state, if the value is 1 and the waiters are not empty, a thread already popped from them is runnable and will test the value again, even if others barge in. |
| Sched.ChecksHold | thread/sync.c:26-94 | In every reachable state the assertions on the value in sema_down and sema_up and on the holder in lock_release hold, and the running thread is RUNNING and off the ready list. |
| Sched.WaiterCanWake | thread/thread.c:246-254 | In every reachable state the first waiter is BLOCKED and off the ready list, so the assertions of thread_unlock hold when sema_up wakes it. |
| Sched.TagsApart | thread/thread.c:232-384 | In every reachable state a thread's tag is on at most one of the ready list and the waiters of the semaphores, at most once; the running thread's is on none; the ready list has no duplicates. |
| Sched.DispatchKeeps | thread/thread.c:355-384 | From the state between the halves of schedule, waking the idle thread if needed and running the first of the list keeps the invariant. |
| Sched.IdleWaits | thread/thread.c:40-48 | When the current thread blocks and nobody is ready, the idle thread is BLOCKED, on no list, and runs next. |
| Sched.AcquireKeeps | thread/sync.c:65-76 | lock_acquire finds the caller in the holder field exactly when it is inside the lock already. |
| Sched.UpKeeps | thread/sync.c:48-59 | sema_up finds the value 0, wakes the first waiter and leaves no wakeup lost. |
| Sched.DownBlocksKeeps | thread/sync.c:26-42 | A thread that finds the value 0 is not among the waiters, joins exactly one queue and blocks. |
| Sched.RoundRobin | device/timer.c:11-23 | With timer interrupts alone, the thread at position k of the ready list first runs at exactly tick (cur.ticks+1) plus the sum of (ticks+1) of those ahead of it, for any list and any priorities. |
| Sched.NextTurn | thread/thread.c:355-384 | When a slice is over the head of the list runs with the slice it has, the others move up, and the old thread goes to the back with a full slice. |
| Sched.TurnsTaken | device/timer.c:11-23 | After k turns the order has rotated by k, and exactly the threads that had their turn have a full slice again. |
| Sched.FullRound | device/timer.c:11-23 | After as many ticks as all slices together the same thread runs, the queue is in the same order and every slice is full, so each later round gives each thread priority + 1 ticks. |
| Sched.HandOver | thread/sync.c:48-59 | When the thread that raised a semaphore yields, the first waiter runs next, and the other waiters keep their order. |
| Turns.OrderStep | thread/thread.c:215-384 | After any one call, who runs and in which order the others follow: who blocks or ends gives way to the queue or to idle, who is at the end of a slice or yields goes last, who is woken goes next, who is new goes last. |
| Turns.SliceStep | thread/thread.c:177-384 | After any one call priorities and slices are as before, but for the slice that a tick counts down or renews; a new thread gets its priority as its first slice. |
| Turns.StatusStep | thread/thread.c:232-384 | After any one call the thread on the processor is RUNNING, the one that left it has the status of its reason, one that was woken is RUNNING in the list, and no other status moved. |
| Turns.CodeStep | thread/thread.c:232-384 | A call moves no other thread in its code and changes no other depth; a sleeper that is woken leaves its sleep. |
| Turns.ThreadsStep | thread/thread.c:215-384 | Only spawn adds a thread, and only exit and reap take one away. |
| Turns.WaitersStep | thread/sync.c:26-61 | Only a thread that finds the value 0 joins the waiters of that lock, behind the others; only sema_up takes one, from the front; the waiters of every other lock stay. |
| Turns.FirstComeFirstServed | thread/sync.c:26-61 | After any run the waiters of a lock are those of before followed by the arrivals in order, less as many from the front as there were raises. |
| Turns.WaitsItsTurn | thread/sync.c:26-61 | A waiter with k others before it stays blocked through k raises, and the next raise puts it next to run. |
| Turns.CallsBalance | thread/sync.c:67-94 | Over any run, the calls of lock_acquire by a thread on a lock equal its calls of lock_release and what it still holds or is acquiring. |
| Turns.TakeAndGive | thread/sync.c:67-94 | On a lock that is free and not wanted, acquire takes it in three more statements and release gives it back in three, leaving the state as it was. |
| Cpu.Kernel.ThreadUnlock | thread/thread.c:246-254 | Puts a sleeping thread that is off the list at its front, with status RUNNING although it is only queued. |
| Cpu.Kernel.Reschedule | thread/thread.c:355-384 | The variables go exactly through both halves of schedule; the list is not empty when it is popped. |
| Cpu.Kernel.TimerTick | device/timer.c:11-23 | Counts the slice down or reschedules, and keeps the invariant. |
| Cpu.Kernel.ThreadBlock | thread/thread.c:232-242 | Blocks the current thread as the step system says and keeps the invariant. |
| Cpu.Kernel.ThreadYield | thread/thread.c:259-266 | The current thread goes to the back of the list with its slice as it is, and the invariant is kept. |
| Cpu.Kernel.SemaDownPass | thread/sync.c:26-42 | One pass of the loop: takes the value, which its assertion then finds 0, or joins the waiters of that lock behind the others and blocks; the other locks do not move. |
| Cpu.Kernel.SemaRaise | thread/sync.c:48-59 | Finds the value 0, wakes the first waiter and raises the value, keeping the invariant. |
| Cpu.Kernel.LockAcquire | thread/sync.c:65-76 | Takes the nested branch exactly when the caller is inside the lock. |
| Cpu.Kernel.LockRelease | thread/sync.c:82-94 | The holder assertion holds, and only the outermost release goes on to raise the semaphore. |
| Cpu.Kernel.LockStatement | thread/sync.c:65-94 | Each later statement of acquire and release, with interrupts possible in between, keeps the invariant. |
| Cpu.Kernel.ThreadStart | thread/thread.c:215-228 | The new thread is not on the list, goes to its back, and the invariant is kept. |
| Cpu.Kernel.ThreadExit | thread/thread.c:86-109 | A thread that holds no lock leaves every list and schedules, and the invariant is kept. |
| Bitmap.BitMap.Scan | kernel/bitmap.c:14-43 | With its 8-bit counter and result: the least run of clear bits that ends before the last bit, modulo 256, or 255 if there is none or the count exceeds 255. |
| Bitmap.SmallSearch | kernel/bitmap.c:14-43 | On at most 31 bytes: the least i such that bits [i, i+cnt) are clear and i+cnt is below the bit length, and 255 exactly when there is none. |
| Bitmap.MeetsContract | lib/kernel/bitmap.h:14-15 | The search meets its declared contract if and only if a clear run starts at 255 or one that it can see starts below 256. |
| Bitmap.ContractBroken | lib/kernel/bitmap.h:14-15 | A bitmap whose one clear bit is the last: the search answers 255 although bit 7 is free. |
| Bitmap.BitMap.Set | kernel/bitmap.c:44-54 | Changes one byte, and for the values 0 and 1 exactly one bit; any other value is shifted in whole. |
| Bitmap.BitMap.SetEx | kernel/bitmap.c:55-63 | Exactly the bits of the range take the value. |
| Bitmap.BitMap.TakeAndRelease | kernel/bitmap.c:14-63 | On a small bitmap with a run it can see, search, set and clear again restores every byte. |
| Paging.Memory.VaddrGet | kernel/memory.c:126-149 | Sets exactly the bits of the first clear run and returns its first page; fails exactly when no run is clear. |
| Paging.Memory.Palloc | kernel/memory.c:188-196 | Takes the first frame of the pool whose bit was clear; fails exactly when none is. |
| Paging.Memory.PageTableAdd | kernel/memory.c:200-232 | Maps a page that was not mapped, taking a kernel frame for the table exactly when there is none; with no frame left the table entry is installed with frame 0. |
| Paging.MapOneKeeps | kernel/memory.c:200-260 | Mapping a page, with or without a new table, keeps the invariant: no frame of the pools has two entries, and pool bits are exactly the frames in use. |
| Paging.MissingCounts | kernel/memory.c:200-232 | The number of page tables an allocation needs is the number of directory entries its pages touch that are absent. |
| Paging.TableSpan | lib/kernel/memory.h:16-17 | A page lies in the 4 MB of its directory entry, the top ten bits of its address, and its place in the table is its distance from their start. |
| Paging.SharedTable | lib/kernel/memory.h:16-17 | Two pages share a table if and only if no boundary of 4 MB lies between their addresses. |
| Paging.SelfMap | kernel/memory.c:170-183 | Read as an address, the pointer to a page's entry goes through the last directory entry to the page's table and to its four bytes there; no two pages have the same pointer, and the pointers of one table fill one page. |
| Paging.TablesMet | kernel/memory.c:200-232 | The tables of a run of pages are exactly those whose 4 MB its bytes meet. |
| Paging.FreshTables | kernel/memory.c:200-232 | Without tables, a run of pages needs one for each 4 MB from its first byte to its last. |
| Paging.EnoughStep | kernel/memory.c:237-260 | Mapping one page uses up exactly what it should of the frames the rest needs. |
| Paging.Memory.MallocPage | kernel/memory.c:237-260 | On success every page of the first run whose bits were clear is mapped to a different frame whose pool bit was clear, a table is added for each 4 MB that the bytes of the run meet and that had none, and nothing else changes; the frames taken are the first free ones of each pool. It succeeds with every new table in a frame of its own if and only if there is a run and there are enough frames for pages and tables. What was mapped stays mapped, and the invariant holds even after a failure. If every virtual bit belonged to a mapped page before, that is so afterwards if and only if it succeeds. |
| Paging.AllocatedNow | kernel/memory.c:237-260 | From the invariant before and after: new frames are distinct, were free, differ from every table, and the pool bits that changed are exactly theirs. |
| Paging.Memory.Pfree | kernel/memory.c:457-471 | Clears exactly the pool bit of a frame; frames below the pools are left alone. |
| Paging.Memory.MfreePage | kernel/memory.c:502-533 | Unmaps exactly the pages of the range, clears exactly their virtual and pool bits and keeps the invariant; a first page without a frame of the pools is refused. |
| Paging.AllocateRelease | kernel/memory.c:237-533 | Allocating and freeing the same pages restores the virtual bitmap and every leaf mapping; only the frames of page tables that were added stay taken. |
| Paging.AllocatedTight | kernel/memory.c:237-260 | A successful allocation leaves no virtual bit without a mapped page. |
| Paging.ReleasedTight | kernel/memory.c:502-533 | Nor does freeing. |
| Heap.BlockPlace | kernel/memory.c:353-361 | block2arena inverts arena2block, and a block lies within its page and behind the header. |
| Heap.LiveApart | kernel/memory.c:366-453 | Two live blocks never overlap, whatever their sizes. |
| Heap.HeadersClear | kernel/memory.c:366-453 | No live block touches the header of any arena. |
| Heap.FullArena | kernel/memory.c:567-580 | The counter of an arena is at most its number of blocks and reaches it exactly when every block is free. |
| Heap.NewArenaKeeps | kernel/memory.c:417-441 | Cutting a new page into blocks and appending them keeps each block of every arena either live or exactly once on its list. |
| Heap.TakeKeeps | kernel/memory.c:442-452 | Popping a block hands out one that was not live and keeps the invariant, the counters included. |
| Heap.GiveKeeps | kernel/memory.c:562-567 | Appending a freed block, which was on no list, keeps each block live or free and counted. |
| Heap.DropArenaKeeps | kernel/memory.c:567-580 | An arena whose counter is full has every block on the list and none live; unlinking removes exactly its blocks and keeps the invariant. |
| Heap.ApplyKeeps | kernel/memory.c:366-586 | Each thing malloc and free can do keeps the heap invariant, and what is handed out was not live. |
| Heap.RunKeeps | kernel/memory.c:366-586 | The invariant holds after every run of them. |
| Heap.LiveBlocksSafe | kernel/memory.c:366-586 | After any run from an empty heap live blocks are disjoint and clear of every header. |
| Heap.PickLeast | kernel/memory.c:412-416 | The descriptor chosen is the smallest block size that is enough. |
| Heap.PagesEnough | kernel/memory.c:394-396 | A large request gets the least number of pages that holds it and the header. |
| HeapOrder.SizesDouble | kernel/memory.c:339-350 | The block sizes double from 16 to 1024, and as many blocks are cut as fit behind the header of a page. |
| HeapOrder.CutInOrder | kernel/memory.c:353-355 | The blocks of an arena lie one size apart from the end of the header on. |
| HeapOrder.OrderKept | kernel/memory.c:366-657 | Whatever malloc or free does, two blocks that stay on a free list keep their order there. |
| HeapOrder.QueueEnds | kernel/memory.c:366-657 | First freed, first reused: the block handed out stood before every other of its size, and a block given back stands behind all of them. |
| Heap.Allocator.constructor | kernel/memory.c:339-349 | Seven empty free lists and no arena. |
| Heap.Allocator.Cut | kernel/memory.c:432-440 | The free list becomes the blocks of the page in order; none is on it before it is appended. |
| Heap.Allocator.MallocSmall | kernel/memory.c:410-452 | Hands out the first free block of the right size, or the first of a page mapped for it; keeps heap and page-table invariants together. |
| Heap.Allocator.MallocLarge | kernel/memory.c:394-409 | Maps the pages and hands out the bytes behind the header. |
| Heap.Allocator.SysMalloc | kernel/memory.c:366-453 | The result is the front of the right free list, the first block of a new arena, or whole pages; it was not live, has room for the request, and every block live before keeps its size. NULL changes nothing of the heap, and comes only from a request above the pool size or from pages that cannot be mapped. |
| Heap.Allocator.Unlink | kernel/memory.c:569-577 | Removes exactly the blocks of the arena from the list and keeps the order of the others. |
| Heap.Allocator.SysFree | kernel/memory.c:539-586 | The block is no longer live, every other live block keeps its size, and pages are unmapped exactly when the arena has no live block left. |
| ListLinks.List.InsertBefore | kernel/list.c:15-23 | The links spell the old sequence with the node inserted before the given one; no other node is touched than the two neighbours. |
| ListLinks.List.Push | kernel/list.c:25-27 | The node becomes the first. |
| ListLinks.List.Append | kernel/list.c:29-31 | The node becomes the last. |
| ListLinks.List.Remove | kernel/list.c:34-39 | The links spell the old sequence without the node. |
| ListLinks.List.Pop | kernel/list.c:41-45 | Returns the first node and leaves the rest in order. |
| ListLinks.List.Find | kernel/list.c:47-60 | True exactly when the node is in the sequence. |
| ListLinks.List.IsEmpty | kernel/list.c:73-75 | True exactly when the sequence is empty. |
| ListLinks.List.Traverse | kernel/list.c:80-93 | The first node in order that the callback accepts, or null when it accepts none. |
| Process.StepKeeps | userprog/wait_exit.c:104-156 | Fork, start, exit, wait and the end of a kernel thread each keep pids, parents, init, waiting and history in order. |
| Process.RunSafe | userprog/wait_exit.c:81-156 | The invariant holds after every run. |
| Process.BootSafe | thread/thread.c:50-63 | It holds with init as the only process. |
| Process.ReapedOnce | userprog/wait_exit.c:133-156 | In every run a process is reaped at most once, and only after it exited. |
| Process.ParentAlive | userprog/fork.c:18-31 | In every reachable state pids are distinct, and a record's parent is -1 or names a process that has not exited: the one that forked it, or init. |
| Process.NewPidFresh | userprog/fork.c:167-192 | A new process gets a pid that nobody has and nobody names as parent, so a reused pid inherits no children. |
| Process.FreePidChildless | thread/thread.c:67-81 | No record names a free pid as its parent. |
| Process.NoChildForgotten | userprog/wait_exit.c:104-156 | In every reachable state no process but init waits while one of its children hangs. |
| Process.StuckExactly | userprog/wait_exit.c:93-121 | The exception, exactly: init comes to wait beside a hanging child if and only if, while it waits, a process exits that has a hanging child and whose parent is not init; no other call gets there. |
| Process.StuckRun | userprog/wait_exit.c:104-156 | A run from boot that gets there: init, A, B and C fork in turn, C exits, init waits, B exits. |
| Process.WaitReaps | userprog/wait_exit.c:133-156 | What wait reaps is a child that the caller itself forked, unless the caller is init; the test for children finds the caller itself, so -1 is never returned. |
| Process.StatusDelivered | userprog/wait_exit.c:104-156 | However much later wait reaps a process, it reports that process's pid and the one number from -128 to 127 that differs from the exit status by a multiple of 256: the status itself if it is in that range. |
| Records.ListStep | userprog/wait_exit.c:104-156 | The list of all threads keeps its order; a call takes at most one record out of it and puts at most one at its end. |
| Records.RecordStep | userprog/wait_exit.c:93-156 | Field by field, what a call does to a record that stays: exit moves the parent of the caller's children to init, the status of a parent that waits and the caller's own; wait without a hanging child moves the caller's status; nothing else moves. |
| Records.ComingAndGoing | userprog/wait_exit.c:133-156 | wait takes out the first hanging child, if there is one; a new record is live, has the least free pid and names its forker. |
| Process.ExitKeeps | userprog/wait_exit.c:104-121 | Exit hands all children to init, wakes a waiting parent and keeps the invariant. |
| Process.ReapKeeps | userprog/wait_exit.c:138-149 | Reaping removes one hanging process and its pid, which was nobody's parent. |
| Process.ThreadList.AllocatePid | thread/thread.c:67-74 | Takes the least free pid and sets only its bit. |
| Process.ThreadList.Pid2Thread | thread/thread.c:125-130 | The first thread in the list with the pid, or none. |
| Process.ThreadList.InitAdopt | userprog/wait_exit.c:93-99 | Exactly the children of the pid get init as parent. |
| Process.ThreadList.ThreadExit | thread/thread.c:86-109 | The thread leaves the list, the others keep their order, and its pid is free. |
| Process.ThreadList.SysFork | userprog/fork.c:133-192 | The child is last in the list with a pid that was free and the caller as parent; -1 exactly when memory runs out. |
| Process.ThreadList.SysExit | userprog/wait_exit.c:104-121 | The list after adoption, wake-up and suspension, with the invariant kept. |
| Process.ThreadList.SysWait | userprog/wait_exit.c:133-156 | Reaps the first hanging child in list order with its status, or blocks; never the failure result. |
| Descriptors.LawExact | shell/pipe.c:31-127 | Law, the strengthening that carries itself from call to call, also asks for exactly one descriptor for each open regular file. A call keeps it if and only if a condition that can be checked before it holds: a free descriptor and no denial for open, two free ones for pipe, no regular file for fork, not descriptor 2 on an open slot for close, a target below 3 or an equal entry for redirect, always for exit. |
| Descriptors.PipeLawExact | shell/pipe.c:31-127 | For each call after such a run, every pipe in use counts exactly its descriptors from 3 up and no freed pipe has one, if and only if: two descriptors were free for a pipe; a close was not of descriptor 2 on an open pipe; a redirect was onto a descriptor below 3, of an equal entry, or touched no pipe; open, fork and exit always. |
| Descriptors.RedirectedClose | shell/pipe.c:118-127 | A run from boot to a miscount: a pipe, its read end redirected onto descriptor 2, and descriptor 2 closed. |
| Descriptors.StaleDescriptor | fs/fs.c:513-521 | Why regular files are in Law: after open, fork, close and a new pipe, each of which leaves pipes counted right until the last, a descriptor left behind by the fork names the pipe as well. |
| Descriptors.LawHolds | shell/pipe.c:31-127 | Law holds after every run whose calls meet its conditions. |
| Descriptors.BootLaw | fs/file.c:7 | The law holds for the empty table. |
| Descriptors.LastCloseFrees | fs/fs.c:892-919 | In a safe run closing a descriptor frees the slot exactly when no process has another descriptor from 3 up for it. |
| Descriptors.PipeExact | shell/pipe.c:31-56 | A new pipe is counted right if and only if both descriptors could be installed. |
| Descriptors.CloseExact | fs/fs.c:892-919 | Closing keeps the law if and only if it is not descriptor 2 redirected to an open slot. |
| Descriptors.ForkExact | userprog/fork.c:112-127 | A fork keeps Law if and only if the parent has no regular file from 3 up; pipes it always counts right. |
| Descriptors.RedirectExact | shell/pipe.c:118-127 | A redirect keeps Law if and only if it overwrites a descriptor below 3 or writes what is there. |
| Descriptors.ExitKeeps | userprog/wait_exit.c:55-63 | Closing everything from 3 up at exit keeps the law. |
| Descriptors.OpenExact | fs/fs.c:481-507 | Opening a regular file keeps Law if and only if no other writer denies it and a descriptor is free; pipes it always leaves counted right. |
| Routes.RedirectNames | shell/pipe.c:117-126 | After a redirect the descriptor, one below 3 too, names the slot that the new one named; no other descriptor and no slot moved; where the new one led to a pipe, reads and writes on the old one go to that pipe. |
| Routes.RedirectOutput | fs/fs.c:763-787 | Standard output redirected leads to a pipe or back to the console, never to a regular file. |
| Routes.ForkRoutes | userprog/fork.c:112-128 | Every descriptor of a child leads where its parent's leads, and everybody else's lead where they did. |
| Routes.OthersTables | shell/pipe.c:31-126 | A call touches only the descriptors of its caller. |
| Routes.OwnTable | shell/pipe.c:31-126 | Of its own descriptors a call fills empty ones from 3 up, empties the one it closes, or redirects the one it is given. |
| Routes.SlotMoves | shell/pipe.c:31-126 | A slot moves only if it was free and is taken, or is named by a descriptor of the caller. |
| Routes.ForkThenExit | userprog/fork.c:112-128 | A child that only forks and exits leaves all tables and counts as they were if and only if it shared no regular file. |
| Routes.Pipeline | shell/shell.c:189-236 | A whole pipeline of two commands in the shell: the first command writes to the pipe, the second reads that pipe and writes to the console, each leaves no trace when it exits, and at the end the shell's descriptors are what they were and the pipe is free. |
| Descriptors.Tables.GetFreeSlot | fs/file.c:15-23 | The first slot from 3 up that is not in use. |
| Descriptors.Tables.PcbFdInstall | fs/file.c:29-42 | The first free descriptor from 3 up now names the slot; -1 exactly when there is none. |
| Descriptors.Tables.SysPipe | shell/pipe.c:31-56 | Two different descriptors for one new slot with count 2; the law holds afterwards exactly when neither is -1. |
| Descriptors.Tables.SysClose | fs/fs.c:892-919 | Counts down and frees at 0; refuses the first two descriptors; Law and the count of pipes exactly under their conditions for close. |
| Descriptors.Tables.ExitDescriptors | userprog/wait_exit.c:55-63 | The loop closes every descriptor from 3 up, and the law holds for the processes left. |
| Descriptors.Tables.ForkDescriptors | userprog/fork.c:112-127 | Raises the count of a pipe once for each descriptor copied, so pipes are counted right; Law exactly under its condition for fork. |
| Descriptors.Tables.SysFdRedirect | shell/pipe.c:118-127 | The descriptor names the slot that the new one named, or the standard slot of its number; the law and the count of pipes hold exactly under their conditions. |
| Ring.IoQueue.Counts | device/ioqueue.c:18-32 | ioq_length is the exact number of bytes through wrap-around, at most 63; full and empty are exactly 63 and 0. |
| Ring.PutMore | device/ioqueue.c:76-93 | A byte stored at the head is the last byte, around the end of the buffer too. |
| Ring.GetOne | device/ioqueue.c:55-72 | The byte at the tail is the first byte, and the others keep their order. |
| Ring.IoQueue.PutChar | device/ioqueue.c:76-93 | Appends one byte, or sleeps exactly when there are 63. |
| Ring.IoQueue.GetChar | device/ioqueue.c:55-72 | Takes the first byte, or sleeps exactly when there is none. |
| Ring.IoQueue.PipeRead | shell/pipe.c:62-85 | Takes the first bytes, at most count and at most what is there, without ever sleeping; the unsigned -1 when there are none. |
| Ring.IoQueue.PipeWrite | shell/pipe.c:91-112 | Appends the whole buffer, or fills the ring and sleeps, which happens if and only if the count exceeds 63 minus the length; a writer that sleeps has one byte left to store. |
| Ring.IoQueue.PutBytes | shell/pipe.c:106-111 | The loop, from its start or from where the writer slept: it stores the next bytes in order until it is done or the ring is full. |
| Ring.WokenWriter | shell/pipe.c:91-112 | A woken writer that finds room stores that one byte and returns 64 less the length it first saw. |
| Ring.FirstInFirstOut | shell/pipe.c:62-112 | Over every run of reads, writes and wake-ups of sleeping writers, the bytes read are a prefix of the bytes written, and the rest is in the pipe. |
| Ring.Session | shell/pipe.c:62-112 | The ring driven through pipe_read and pipe_write by any number of callers goes through exactly those states. |

## Left out

- FileData.FileWrite: a size of exactly 140 blocks is excluded, since an assertion stops the kernel there (fs/fs.c:588).
- FileData.FileRead: a read that ends past block 138 is excluded, as its assertion on the block number stops the kernel.
- FileData.InodeRelease: the first data block is excluded, as in the code's own assertion that the bit index is positive.
- DirTree.Rmdir: path lookup is in PathCalls.SysRmdir; it starts from the parent and child that lookup returned.
- DirTree.MkDir: path lookup and the choice of the inode are in PathCalls.SysMkdir.
- PathCalls.SysMkdir: the new name fits an entry and the parent is not full, as for Directory.SyncDirEntry; the same for PathCalls.SysCreate, which leaves the descriptor and the second lookup of sys_open out.
- PathCalls.Session: a write that runs out of blocks ends the run, since the file's unused entries no longer match its size; rmdir by a path ending in a dot is excluded from runs because it ends in no file system.
- Directory.SearchDirEntry: the empty name is excluded; it would match a free slot.
- Directory.SyncDirEntry: fewer than 252 live entries, so the table of a directory is never used; search and insert never load it (fs/dir.c:49, fs/dir.c:138-143).
- DirSession.Session: the same bound on inserts.
- Resolve.SearchFile: a path without components stands for the root; the code leaves its result unset there (fs/fs.c:319-323, 377). Buffers for names (16 bytes) and paths (512 bytes) are unbounded sequences.
- Cpu.Kernel.ThreadExit: the pid lock that thread_exit takes while interrupts are off is left out; the pid pool is in Process.
- Sched.StepKeeps: threads hold no lock when they end, and only release locks they acquired, as lock_release asserts.
- Paging.Memory.MallocPage: when frames run out in the middle nothing is undone, as in the code; the invariant is still proved, without the part that every virtual bit belongs to a mapped page. A table entry with frame 0 is recorded as such, but what sharing that memory does is not modelled.
- Heap.Allocator.SysFree: pointers that malloc did not return are excluded, as its comment demands. The heap after a fork is left out: copied arenas still name the parent's descriptors.
- Heap.Allocator.SysMalloc: the pool's lock, the bytes of the blocks and 32-bit sums are left out; the bound by the pool size keeps the sums small.
- Process.ThreadList.SysFork: copying memory and stacks is left out; how far memory reaches is a parameter.
- Process.ThreadList.SysExit: giving back pages and descriptors between adoption and wake-up is left out; the descriptors are in Descriptors.Tables.ExitDescriptors.
- Bitmap.BitMap.Scan: a count of 0 is left out, no caller asks for it, and the byte read just past the map, before its bound is compared, is not modelled (kernel/bitmap.c:16).
- Bitmap.Search: the block, pid, page and frame allocators use a search that meets the declared contract, not the 8-bit one.
- Descriptors.Tables.ForkDescriptors: open counts of inodes are left out; descriptors of regular files shared by a fork are exactly the case that breaks the law.
- Ring.IoQueue.PutChar: sleeping and waking are a result, not a schedule; ioq_wait sleeps while it holds the queue's lock (device/ioqueue.c:59-64).
- ListLinks.List.Find: that it leaves interrupts off when it finds the node (kernel/list.c:47-60) is left out; so are list_len and list_each.
- Hardware and boot: assembler, interrupt tables, the disk port protocol, TLB and CR3. A disk is a map from sector to bytes; switching is choosing the current thread.
- Keyboard, console, shell I/O, formatted printing, ps, the user programs and ELF loading: I/O, or members that would be easy.
- Formatting, mounting and partition scanning: a volume starts well-formed.
- The place of inodes in the inode table, where offsets and numbers are cut to 8 bits (fs/inode.h:24, fs/inode.c:44): inodes are a map from number to record, in memory and on disk at once.
- sys_open beyond creation, and the flags of open files: descriptors are in Descriptors, the bytes in FileSession.
- get_a_page and the other single-page mappers: MallocPage is the harder case.
- Liveness: no property says that a thread eventually runs, apart from the exact ticks of the round robin.
