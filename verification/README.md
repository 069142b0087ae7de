# xv6 with the SJF/CFS scheduler: a verified model

xv6 is a small Unix kernel for RISC-V; this variant replaces its round-robin scheduler
by a ready heap with two policies, shortest job first and a completely fair one. This
project models seven of its parts in Dafny and proves what they are for. Everything
stated here is proved by the Dafny verifier.

    dafny verify dfyconfig.toml

- **Log and buffer cache** (`Block`, `Bio`, `CacheProtocol`, `Recovery`, `Log`,
  `LogProtocol`, `LogFull`, `LogRuns`). Classes with the kernel's fields and loops for the
  cache and the log, each method proved against a flat map of blocks; two state machines
  for every interleaving of processes; and crashes between any two disk writes. Each method
  of a class is also a step, or a sequence of steps, of its state machine.
- **Processes and scheduler** (`Scheduler`, `Processes`, `ProcessCalls`, `HeapRoom`,
  `HeapBound`, `ReadyHeap`). Any number of CPUs, the kernel threads of all processes,
  spinlocks and interrupt handlers as one state machine whose step is one acquire, one
  release or the code between two of them; what each system call comes to in every run;
  and the ready heap with its sift loops on an array.
- **Files** (`BlockMap`, `Fs`, `File`). Bitmap, inodes, direct and indirect blocks on the
  bytes of the disk, with reads and writes proved to be slices and splices of one byte
  sequence per file.
- **Virtual memory** (`PageTree`, `Vm`). Three-level page tables and the free list of
  pages, proved to be a flat map from pages to frames, with every frame accounted for.
- **User heap** (`Umalloc`), **shell** (`Shell`, `ShellText`, `ShellRoundTrip`,
  `ShellGrammar`) and **pipes** (`Pipe`, `PipeProtocol`, `PipeWakeups`). The shell's parser is proved
  sound and complete for a grammar of command lines and its meaning.
- `Budget` counts what a series of allocations takes, and says when it runs out: of blocks
  in `Fs`, of pages in `Vm`. `Common` holds what several modules share.

A class that models code with state keeps a ghost abstraction (the flat map of the
cache, the ownership map of blocks and pages, the ring of free blocks), and `Valid()`
ties the two. Theorems about runs quantify over every sequence of enabled steps from
every initial state.

## Assumptions

- A disk write of one block is atomic, and so is one step of a state machine; memory is
  sequentially consistent.
- The log area has more than `LOGSIZE` blocks, the device number is not zero, and blocks
  passed to `log_write` lie outside the log.
- Callers of the cache follow a change of a buffer with `log_write` or `bwrite` before
  `brelse`, and after `bunpin` the block is on disk before `brelse`.
  `Fs.FileSystem.Writei` states exactly when `writei` breaks this.
- Integers are unbounded except where a width is written out: the words of disk blocks,
  file offsets, pipe counters, the argument of `sbrk`.
- A live block of the user heap keeps its header: programs do not write before or behind
  the memory that `malloc` gave them.

## Findings

Properties that one would expect and that the code does not have. Each is stated with an
input that breaks it and with the exact condition under which it holds.

- **The ready heap overflows.** `yield` puts a process into the heap and `scheduler` puts
  it again, and `put` does not check for room. While processes in use plus yields so far
  are at most `NPROC` every `put` has room (`HeapRoom.RoomForPut`). One more is too many:
  for every number u of processes from 1 to `NPROC` there is a run with u in use and
  `NPROC + 1 - u` yields to a `put` behind the array (`HeapBound.HeapOverflows`).
- **`heapify_up` does not keep heap order.** It starts at `curr / 2` instead of the parent
  `(curr - 1) / 2`. `ReadyHeap.HeapOrderLost` is a heap of five it breaks;
  `ReadyHeap.HeapOrderAfterUp` says for all heaps when order survives.
- **`heapify_down` does not keep heap order either.** It takes the left child if that is
  smaller than the moved entry, even if the right child is smaller still, and it compares
  the right child by the burst estimate under both policies.
  `ReadyHeap.ShortestPassedOver` and `ReadyHeap.LeastRunPassedOver` are heaps of three it
  breaks, one for each policy. `ReadyHeap.SjfOrderAfterDown` says on the keys before the
  call when order survives under shortest job first, `ReadyHeap.HeapOrderAfterDown` under
  either policy.
- **The fair policy forgets how long a process has run.** `yield` puts a RUNNING process,
  which adds to its run time; `scheduler` puts it once more, now RUNNABLE, which sets the
  run time to 0 (`ReadyHeap.RunTimeForgotten`). `ReadyHeap.ReadyQueue.Put` says when the
  run time is kept: exactly if the process put is RUNNING.
- **The burst estimate depends on process 0.** `put` looks at the state of the first process
  of the table, not of the one put, to decide whether to average.
  `ReadyHeap.AverageSkipped` puts the same burst twice, with two results;
  `ReadyHeap.ReadyQueue.Put` gives the condition: no average exactly while process 0 runs.
- **A full log panics in `commit`.** `LOGSIZE` equals `NBUF`, so three operations that keep
  to their budgets can pin every buffer, and `write_log` then finds none
  (`LogFull.FullCommit`). `Log.Log.EndOp` says exactly when `end_op` succeeds: fewer than
  `NBUF` blocks are pinned or held.
- **`writei` can change a buffer that it does not log.** When a copy from user memory fails
  inside a block, the bytes copied so far are in the buffer and `log_write` is not called.
  `Fs.UnloggedWrite` is such a call. `Fs.FileSystem.Writei` gives the exact condition, in what
  is known before the call, and what the file holds if the buffer is recycled: the bytes
  before that block, and no others.
- **The burst estimate leaves its range** for a weight outside 0..100, which `change_sched`
  accepts when `algo` is 1. With weight 200 a burst of 100 becomes an estimate of 200
  (`ReadyHeap.EstimateLeaves`). For weights in 0..100, and no others, it stays
  (`ReadyHeap.EstimateInRange`), also over any sequence of calls from boot on
  (`ReadyHeap.EstimatesTamed`).
- **`malloc` hands out memory the process does not have, or ends it** for requests above
  2^31 - 32 bytes, because the size is truncated to an `int` for `sbrk`. `malloc(2^32 - 1)`
  gives a block of more than 2^32 bytes after `sbrk(16)` (`Umalloc.UnbackedBlock`);
  `malloc(2^31)` at a page boundary stores the block's header behind the last page, and the
  process is killed (`Umalloc.FaultingRequest`). `Umalloc.Allocator.Malloc` says for all
  requests when each happens, and `Umalloc.Session` that neither does below the limit
  (`Umalloc.RequestLimit`).
- **`piperead` loses a byte** when the copy to user memory fails: the byte has left the
  pipe and is not counted. `PipeProtocol.LostByte` is a run that loses one;
  `PipeProtocol.LosesByte` says exactly when a call does.
- **A reader can sleep beside data.** A writer that is killed between two bytes returns -1
  without a wakeup, although it has stored some. `PipeWakeups.Overslept` is such a run. It
  happens after such a step (`PipeWakeups.SilentStrands`) and after no other
  (`PipeWakeups.OversleepsAfterKill`); writers never oversleep
  (`PipeWakeups.WritersSleepForCause`).

## Model

| member | source | states |
|---|---|---|
| Bio.Binit | kernel/bio.c:37-53 | the list of all NBUF buffers, linked by the loop, is one circle in which each buffer occurs once |
| Bio.UnlinkRing | kernel/bio.c:126-127 | taking a buffer out of the circle leaves a circle of the others in the same order |
| Bio.PushRing | kernel/bio.c:128-131 | inserting a buffer behind the head gives a circle with it in front |
| Bio.PromoteStamps | kernel/bio.c:117-137 | moving a buffer to the front keeps the circle in the order of the last moves |
| Bio.Bcache.constructor | kernel/bio.c:37-53 | an empty cache shows the disk |
| Bio.Bcache.Lookup | kernel/bio.c:66-73 | the scan from the front finds the buffer of a block, if there is one |
| Bio.Bcache.LeastRecent | kernel/bio.c:77-87 | the scan from the back finds, among the unused buffers, the one moved to the front longest ago, and fails only if none is unused |
| Bio.Bcache.Bget | kernel/bio.c:59-89 | a hit takes the block's own buffer, a miss recycles the unused buffer moved longest ago, the panic comes exactly if neither exists; the flat map is unchanged |
| Bio.Bcache.Bread | kernel/bio.c:93-103 | the buffer shows the latest contents of the block; fails exactly if no buffer is free and the block is neither pinned nor held; which steps of CacheProtocol it takes |
| Bio.Bcache.Bwrite | kernel/bio.c:107-112 | the disk gets the block's contents, by one recorded disk write, and nothing else changes |
| Bio.Bcache.Brelse | kernel/bio.c:117-137 | a change that is pinned or on disk survives the release; an unpinned buffer becomes the most recently used |
| Bio.Bcache.Bpin | kernel/bio.c:140-144 | one more pin of the block and nothing else |
| Bio.Bcache.Bunpin | kernel/bio.c:147-151 | one pin less of the block and nothing else |
| Bio.Bcache.AwaitHolder | kernel/sleeplock.c:21-31 | a locked pinned buffer is taken only after its holder's brelse, which changes nothing but the lock |
| Bio.CallsAreRun | kernel/bio.c:58-151 | the steps of any calls of the cache's methods, from an empty cache on, are a run of CacheProtocol, and what the cache shows of each block is the last change of that run |
| Bio.GotMoves | kernel/bio.c:59-103 | bread is a hit or a recycling, the lock, and a disk read unless the buffer is valid |
| Bio.ReleasedMoves | kernel/bio.c:117-137 | brelse is the release of the lock and of the count, both possible |
| Bio.FreeIff | kernel/bio.c:75-88 | some buffer is free exactly if fewer than NBUF blocks are pinned or held |
| Bio.Clean | kernel/bio.c:59-89 | a block that is neither pinned nor held is on disk as the cache shows it, so recycling loses no update |
| CacheProtocol.NextKeeps | kernel/bio.c:58-151 | every step of every user of the cache keeps reference counts exact, locks exclusive and unpinned data on disk |
| CacheProtocol.FlatMap | kernel/bio.c:58-151 | in every run each block reads as its last change, through whichever buffer holds it |
| CacheProtocol.PinnedStays | kernel/bio.c:140-151 | in every run, from pin to unpin the block keeps its buffer, which holds what the flat map holds |
| Recovery.CommitCrash | kernel/log.c:194-203 | a crash after any number of commit's writes leaves an image that restores to all old or all new blocks, all new once the header is written |
| Recovery.RecoveryCrash | kernel/log.c:117-123 | a crash after any number of recovery's writes changes nothing of what recovery would restore |
| Recovery.CrashAtomicity | kernel/log.c:68-123 | a commit cut anywhere, any number of recoveries cut anywhere, then a whole one: home blocks all old or all new, by whether the header was written, and the header empty |
| Log.CommitOnDisk | kernel/log.c:178-203 | the byte-level disk after any prefix of commit's writes is the image that the crash theorems speak of |
| Log.RecoveryOnDisk | kernel/log.c:68-123 | the same for any prefix of recovery's writes |
| Log.DiskCrashAtomicity | kernel/log.c:68-123 | crash atomicity on the bytes of the disk, with the header decoded from its block at each restart |
| Log.Log.WriteLog | kernel/log.c:179-191 | the logged blocks go to the log area in order, or the cache had no free buffer and nothing happened |
| Log.Log.WriteHead | kernel/log.c:103-114 | one disk write makes the header block list exactly the logged blocks |
| Log.Log.ReadHead | kernel/log.c:87-97 | the list in memory is the one encoded in the header block |
| Log.Log.InstallTrans | kernel/log.c:69-83 | each logged block is copied to its home and unpinned unless recovering |
| Log.Log.Commit | kernel/log.c:194-203 | the disk writes of a commit in order, the blocks at home, the log empty, and when it fails for lack of buffers |
| Log.Log.RecoverFromLog | kernel/log.c:117-123 | recovery plays the install writes of the header it finds and erases the header, on any disk that decodes |
| Log.Log.BeginOp | kernel/log.c:127-142 | an operation is admitted exactly if no commit runs and the log has room for MAXOPBLOCKS more of every operation |
| Log.Log.LogWrite | kernel/log.c:215-235 | fails exactly on the two panics; else the block is in the list once and pinned, and the list grows only if it was absent |
| Log.Log.EndOp | kernel/log.c:147-175 | the last operation commits all logged blocks and unpins them, after readers that hold one of them have released it; succeeds exactly if no commit was running and, when there is something to commit, fewer than NBUF blocks are pinned or held |
| LogProtocol.Booted | kernel/log.c:55-65 | any blocks that the log fits on, with an empty header, are an initial state |
| LogProtocol.NextKeeps | kernel/log.c:126-235 | every step of every interleaving, crashes included, keeps the reservation and the log consistent |
| LogProtocol.Refines | kernel/log.c:126-235 | every step is a step of an atomic disk that changes only at commit |
| LogProtocol.WholeOperations | kernel/log.c:126-235 | at any point of any run, a crash restores what memory held at the last committing header write before, a moment with no operation active |
| LogProtocol.DurableOnceWritten | kernel/log.c:194-203 | in every run, from write_head to the end of the commit, a crash loses nothing |
| LogProtocol.NoPanic | kernel/log.c:126-235 | in every run, logged blocks plus unused budgets fit the log, no commit runs beside an operation, and a log_write within its budget does not panic |
| LogProtocol.CommitCompletes | kernel/log.c:147-203 | in every run, a commit without a crash ends after at most 2k+3 steps for k logged blocks: the log empty, every block at home, and any process may begin an operation |
| LogProtocol.RecoveryCompletes | kernel/log.c:117-123 | in every run, recovery without another crash ends within LOGSIZE+2 steps, and the system runs on exactly what was to be restored |
| LogRuns.Begin | kernel/log.c:127-142 | begin_op of the class admits an operation exactly where the state machine does, and is that step of it |
| LogRuns.Write | kernel/log.c:215-235 | log_write of the class panics exactly where the state machine says, and else is that step of it |
| LogRuns.End | kernel/log.c:147-175 | end_op of the class is that step of the state machine, and the last one also a whole commit, ending at the same disk and the same home blocks |
| LogRuns.Recover | kernel/log.c:117-123 | recover_from_log of the class is the recovery of the state machine, from the crash to the running system |
| LogRuns.CommitImages | kernel/log.c:178-203 | after any k steps of a commit the disk is what the first k writes of the crash theorems make of it |
| LogFull.FullCommit | kernel/log.c:178-191 | a run of three operations within their budgets reaches a commit at which no buffer is free |
| Scheduler.Booted | kernel/proc.c:239-262 | the state after userinit is an initial state, for any number of process slots and CPUs |
| Scheduler.StepKeeps | kernel/proc.c:287-633 | every step of every CPU, thread and interrupt handler keeps the lock, state and program-point invariant |
| Scheduler.SingleExecution | kernel/proc.c:484-537 | in every run no two CPUs have the same current process, however often it is in the ready heap |
| Scheduler.SwitchSafe | kernel/proc.c:508-525 | in every run sched is entered with exactly the process's own lock held and the process not RUNNING, so its panics cannot happen |
| Scheduler.LockSafe | kernel/proc.c:287-633 | in every run a thread never acquires a lock its CPU holds and releases only locks it holds |
| Scheduler.IrqLockSafe | kernel/proc.c:594-608 | the same for wakeup called by an interrupt handler |
| Scheduler.HolderSteps | kernel/proc.c:287-633 | in a state that keeps the invariant, a CPU that holds the lock of a process waits for no lock, and itself goes on unless the heap is full |
| Scheduler.WaitHolderSteps | kernel/proc.c:357-445 | there the holder of wait_lock itself goes on, or waits for the lock of a process whose holder does |
| Processes.NothingRunnableLost | kernel/proc.c:484-633 | in every run a RUNNABLE process is in the ready heap or in the hand of a CPU between get and its state test |
| Processes.NoOrphans | kernel/proc.c:341-396 | in every run every process in use but init has a parent, other than itself and neither unused nor a zombie |
| Processes.NoLostChild | kernel/proc.c:341-445 | in every run a process asleep in wait has a zombie child only while wait_lock is held and init is about to be woken |
| Processes.Progress | kernel/proc.c:287-633 | in every run each CPU that is not idle with an empty heap goes on with what it is at, or waits for a lock whose holder does, or for a holder that waits for such a one, unless the heap is full: no deadlock on the locks |
| Processes.NoCircle | kernel/proc.c:287-633 | in every run a CPU that is waited for and waits itself holds wait_lock and waits for the lock of a process, whose holder waits for nobody |
| HeapRoom.HeapBounded | kernel/proc.c:484-537 | in every run the heap holds at most one entry per RUNNABLE process and per yield |
| HeapRoom.RoomForPut | kernel/proc.c:753-786 | while processes in use and yields so far are at most NPROC together, put has room |
| HeapRoom.RoomWithoutYield | kernel/proc.c:753-786 | in a run without yield put always has room |
| HeapBound.HeapOverflows | kernel/proc.c:484-537 | for every u from 1 to NPROC a run with u processes in use and NPROC + 1 - u yields calls put on a full heap |
| HeapBound.ForksUpTo | kernel/proc.c:287-338 | one process can fork until any number of slots is in use, each child once in the heap |
| ProcessCalls.WaitReaps | kernel/proc.c:400-445 | in every run, when wait has found child z and copyout worked, z was a ZOMBIE child of the caller just before and is now UNUSED and nobody's child |
| ProcessCalls.ReapedStays | kernel/proc.c:418-430 | in every run it is still so when wait lets go of its lock |
| ProcessCalls.ReapedOnce | kernel/proc.c:400-445 | in every run, between two successful waits for one slot there is an allocation of the slot |
| ProcessCalls.WaitGivesUp | kernel/proc.c:432-438 | in every run wait returns without a child only if the caller has none or was killed, or copyout failed |
| ProcessCalls.WakeupWakes | kernel/proc.c:594-608 | in every run, at the end of a wakeup every process but the caller was, at some moment of it, not asleep on the channel: no sleeper is missed |
| ProcessCalls.IrqWakesAll | kernel/proc.c:594-608 | the same for the wakeup of an interrupt handler |
| ProcessCalls.WokenForCause | kernel/proc.c:594-633 | in every run a sleeper becomes RUNNABLE only by a wakeup on its channel or a kill |
| ProcessCalls.SleepsOnChannel | kernel/proc.c:563-590 | in every run sleep puts the process to sleep on the channel it was called with |
| ProcessCalls.ChanInSleep | kernel/proc.c:563-590 | in every run chan is set only between the two ends of a sleep, and is 0 again when sleep returns |
| ProcessCalls.KillWakes | kernel/proc.c:613-633 | in every run kill leaves its target not SLEEPING; a sleeper is RUNNABLE and in the heap |
| ProcessCalls.ForkGives | kernel/proc.c:287-338 | in every run fork ends with a RUNNABLE child of the caller, in the heap, at its first instruction |
| ProcessCalls.ForkFails | kernel/proc.c:287-304 | in every run a fork that fails after allocproc leaves the slot UNUSED and queues nothing |
| ProcessCalls.ExitLeaves | kernel/proc.c:357-396 | in every run exit leaves a ZOMBIE with a parent and without children |
| ProcessCalls.CallEnds | kernel/proc.c:287-633 | in every run a call takes at most (n+2)(3n+2)+8 steps, for n processes, before it returns, gives up the CPU or ends, whatever the others do |
| ProcessCalls.HandlerEnds | kernel/proc.c:594-608 | in every run the wakeup of an interrupt handler takes at most 3n+1 steps |
| ReadyHeap.EstimateIs | kernel/proc.c:765-767 | the weighted average, with C's division, lies between the old estimate and the burst for weights 0..100 |
| ReadyHeap.EstimateInRange | kernel/proc.c:765-767 | the estimate stays between burst and old estimate, for all of them, exactly if the weight is a percentage |
| ReadyHeap.EstimateLeaves | kernel/proc.c:765-767 | a weight of 200 makes an estimate of 200 of a burst of 100 |
| ReadyHeap.EstimateMoves | kernel/proc.c:765-767 | an update moves toward the burst, and not at all exactly at a settled estimate |
| ReadyHeap.EstimateSettles | kernel/proc.c:765-767 | a constant burst is approached strictly in one direction to a fixed point x with 0 <= w*(b-x) < 100, in at most as many updates as the distance |
| ReadyHeap.EstimateHistory | kernel/proc.c:765-767 | after any history of weights in 0..100 and bursts the estimate is between 0 and the largest burst |
| ReadyHeap.EstimatesTamed | kernel/proc.c:753-863 | from boot on, after any sequence of put, get, timer ticks, policy changes with weights 0..100 and state changes, every estimate is between 0 and the largest burst so far |
| ReadyHeap.HeapifyUp | kernel/proc.c:696-715 | the last of n entries moves along its way, from slot to half the slot while its key is smaller, each entry it passes moves one slot down the way, and no other entry moves |
| ReadyHeap.HeapOrderAfterUp | kernel/proc.c:696-715 | heap order after heapify_up holds if and only if the real parent's key is not above the larger of the new key and the one it was compared with |
| ReadyHeap.HeapOrderLost | kernel/proc.c:700 | a heap of five keys that heapify_up leaves out of order |
| ReadyHeap.HeapifyDown | kernel/proc.c:722-751 | the entry at slot i moves down its way: to the left child exactly if that is smaller by the policy, else to the right child exactly if that has the smaller burst estimate, until neither holds; each entry it passes moves one slot up the way, and no other moves |
| ReadyHeap.OneWay | kernel/proc.c:722-751 | the way of the entry and the array after the call are determined by the array before |
| ReadyHeap.HeapOrderAfterDown | kernel/proc.c:722-751 | under either policy, heap order after a sift from the root holds if and only if no slot on the way has a smaller sibling and the entry settles above its children |
| ReadyHeap.SjfOrderAfterDown | kernel/proc.c:722-751 | under shortest job first, if and only if the way turns left only where the left child is not larger than the right |
| ReadyHeap.ShortestPassedOver | kernel/proc.c:731-742 | a heap of three that the sift leaves with a shorter job below the root |
| ReadyHeap.LeastRunPassedOver | kernel/proc.c:731-742 | three entries that the sift leaves with one that has run less below the root |
| ReadyHeap.RearrangeHeap | kernel/proc.c:813-819 | one such sift from each inner slot, from the last to the root |
| ReadyHeap.ReadyQueue.constructor | kernel/proc.c:50-60 | an empty heap |
| ReadyHeap.ReadyQueue.Put | kernel/proc.c:753-786 | one more entry for the process, which has risen along its way from the last slot; estimate, run time, timestamp and state as the states of the process and of process 0 say; no other process changes |
| ReadyHeap.ReadyQueue.Get | kernel/proc.c:788-809 | the entry at the root, with its burst 0 and, under the fair policy, its time slice set; the last entry goes to the root and sinks along its way; null exactly if the heap is empty |
| ReadyHeap.TimesliceIs | kernel/proc.c:801-805 | the time slice is the time since put, shared equally with the processes left in the heap, and at least one tick |
| ReadyHeap.RunTimeForgotten | kernel/proc.c:753-786 | the second put of yield and scheduler sets the run time to 0 that the first has counted |
| ReadyHeap.AverageSkipped | kernel/proc.c:765-767 | the same burst is averaged or not, by the state of process 0 |
| ReadyHeap.ReadyQueue.TimerRoutine | kernel/proc.c:854-863 | counts the tick and yields exactly if the slice is used up or preemptive SJF runs |
| ReadyHeap.ReadyQueue.ChangeSched | kernel/proc.c:836-849 | refuses exactly what the code refuses, else sets the policy and sifts from each inner slot by the new policy |
| BlockMap.ReferencedOnce | kernel/fs.c:65-103 | a bitmap bit is set exactly if the block is reserved or held by a slot, and no block is held by two slots |
| BlockMap.AssignOwns | kernel/fs.c:378-405 | giving a free block to an empty slot keeps this |
| BlockMap.ClearOwns | kernel/fs.c:90-103 | and so does taking a block from a slot |
| BlockMap.FreesOwn | kernel/fs.c:410-437 | an inode that gives up all its slots frees exactly its own blocks |
| Fs.FileSystem.constructor | kernel/fs.h:8-22 | a disk with no files is consistent: exactly the blocks before the data blocks are in use, and every inode is on disk |
| Fs.FileSystem.Balloc | kernel/fs.c:65-86 | the first free block, marked in the bitmap and zeroed; fails exactly if all are used |
| Fs.FileSystem.Bmap | kernel/fs.c:378-405 | the block of a file position, allocated with its indirect block if missing, with every byte of every file unchanged; a block that is there is returned without any change; fails exactly past MAXFILE or if too few blocks are free for the missing ones |
| Fs.FileSystem.Readi | kernel/fs.c:456-477 | the slice of the file at off, cut at its size, across blocks and the indirect block; nothing changes |
| Fs.FileSystem.Writei | kernel/fs.c:487-517 | the splice of the file at off, other files unchanged, ownership kept, the blocks passed to the log listed; panics exactly if too few blocks are free for the missing ones; for a failed copy where it stops, exactly when a changed block is not in the log, and what the file holds without that change |
| Fs.StopsIs | kernel/fs.c:497-509 | where a write stops is determined by its offset, length and the readable bytes |
| Fs.UnloggedWrite | kernel/fs.c:500-503 | a call of writei that returns 0, changes the file and leaves the change out of the log |
| Fs.FileSystem.Iupdate | kernel/fs.c:222-237 | the inode's words go to its place on disk, other inodes and all file bytes unchanged |
| Fs.FileSystem.Ilock | kernel/fs.c:289-313 | what iupdate wrote reads back |
| Fs.SavedFields | kernel/fs.h:32-39 | the words of an inode on disk: type to nlink, the size, the block addresses, in this order |
| Fs.FileSystem.Bfree | kernel/fs.c:90-103 | clears the bit of a block that a slot holds; the panic for a free block cannot happen |
| Fs.FileSystem.Itrunc | kernel/fs.c:410-437 | the file is empty, exactly its blocks are free, and no other file changes |
| File.TransactionBound | kernel/file.c:155-175 | with one bitmap block, a chunk logs at most 7 blocks, fewer than MAXOPBLOCKS |
| File.SpliceThen | kernel/file.c:155-175 | two writes one after the other are one write |
| File.WriteOp | kernel/file.c:161-167 | one transaction of filewrite: at most 7 logged blocks, the splice or what a failed copy leaves, the panic exactly if the missing blocks are more than the free ones, and every change in the log if the chunk was written whole or refused |
| File.OpenFile.Filewrite | kernel/file.c:149-175 | the chunked write succeeds exactly if one big write would, and is that write; else the file holds the whole chunks before the one that failed and what writei leaves of that; panics exactly if the blocks missing up to there are more than the free ones |
| PageTree.AddOk | kernel/vm.c:81-98 | a page linked below an existing node keeps every page owned by exactly one node |
| PageTree.RemoveOk | kernel/vm.c:166-187 | and so does taking out a node without children |
| Vm.PteParts | kernel/vm.c:88-96 | page number and flags come back from a page-table entry |
| Vm.PathSpells | kernel/vm.c:72-79 | the three indexes of a page spell its number |
| Vm.UpIs | kernel/riscv.h:338 | the pages up to PGROUNDUP(x) are exactly those with one of the first x bytes |
| Vm.Memory.constructor | kernel/kalloc.c:27-31 | before freerange no page is free and none is mapped |
| Vm.Memory.Kinit | kernel/kalloc.c:27-40 | freerange's loop makes exactly the pages of the range free |
| Vm.Memory.Kalloc | kernel/kalloc.c:69-82 | the first free page, filled with junk, or 0 exactly if there is none |
| Vm.Memory.Kfree | kernel/kalloc.c:47-63 | a page in use is free again; its panics cannot happen |
| Vm.PageConservation | kernel/kalloc.c:34-82 | every page of the range is on the free list once, held, reserved, or named by exactly one node of one page table |
| Vm.Memory.Uvmcreate | kernel/vm.c:192-200 | a new empty root table, or 0 exactly if no page is free |
| Vm.Memory.Walk | kernel/vm.c:81-98 | the bottom table of the address; new interior tables change no mapping; without alloc fails exactly if a table is missing, with it exactly if more are missing than pages are free |
| Vm.Memory.Mappages | kernel/vm.c:138-160 | the named pages, and no others, become mapped to consecutive frames with the permissions; on failure, exactly if the missing tables are more than the free pages, a prefix of them |
| Vm.Memory.Uvmunmap | kernel/vm.c:166-187 | the named pages, and no others, are unmapped, and their frames freed if asked |
| Vm.Memory.Uvmalloc | kernel/vm.c:221-244 | every address of the new range is the user's, reads as 0 and may be read, written and executed; no other address of any table changes; on failure, exactly if its pages and missing tables are more than the free pages, all leaf mappings and frames as before |
| Vm.GrownUsable | kernel/vm.c:221-244 | copyin from memory that uvmalloc has just added gives zeros, and copyout to any part of it succeeds and is read back |
| Vm.Memory.Uvmdealloc | kernel/vm.c:251-262 | exactly the pages above the new size are unmapped and freed |
| Vm.Memory.Uvmcopy | kernel/vm.c:301-328 | every user byte of the parent below sz is that byte of the child, with the same flags; no other address of any table changes; on failure, exactly if the copies and missing tables are more than the free pages, all leaf mappings and frames as before |
| Vm.Memory.Freewalk | kernel/vm.c:267-282 | every table page of a subtree without leaves is freed and no other page changes hands |
| Vm.Memory.Uvmfree | kernel/vm.c:287-292 | every page of the table is free, no other table changes |
| Vm.Memory.Walkaddr | kernel/vm.c:104-121 | the frame of a page mapped with PTE_U, 0 exactly otherwise |
| Vm.Memory.Copyout | kernel/vm.c:347-366 | the bytes go to the user range and no other user byte changes; fails exactly at the first address without a user page |
| Vm.Memory.Copyin | kernel/vm.c:372-391 | the bytes of the user range, all of them user memory; fails exactly at the first address without a user page |
| Vm.RoundTrip | kernel/vm.c:347-391 | copyin after copyout of the same range gives the bytes back, and both succeed exactly if the range is user memory |
| Umalloc.FreedOk | user/umalloc.c:25-44 | freeing a block keeps the list sorted and fully merged |
| Umalloc.FreedLinked | user/umalloc.c:33-42 | the two merges of free relink the headers into the circle of the new list |
| Umalloc.FreedHeap | user/umalloc.c:25-44 | after free exactly the block's bytes have become free, and free and live blocks are apart |
| Umalloc.CutHeap | user/umalloc.c:75-85 | after malloc exactly the bytes cut off have become live |
| Umalloc.Conservation | user/umalloc.c:25-90 | free units plus live units are the units of the heap |
| Umalloc.RequestLimit | user/umalloc.c:53-69 | the largest request whose size survives the conversion to int |
| Umalloc.GrowsBy | user/umalloc.c:47-56 | morecore moves the break by the units asked for, and by 64 KiB at least |
| Umalloc.Allocator.FindPlace | user/umalloc.c:30-32 | free's circular search ends, at the place where the block belongs |
| Umalloc.Allocator.Free | user/umalloc.c:25-44 | the block is no longer live and joins its neighbours at its place in the list, where the next search starts; the heap's bytes are the same, the list is valid |
| Umalloc.Allocator.constructor | user/umalloc.c:21-22 | before the first call nothing is free, live or granted |
| Umalloc.Allocator.Morecore | user/umalloc.c:47-61 | sbrk refuses, the header store faults, or the list has a block of the size asked for, each exactly when |
| Umalloc.Allocator.Search | user/umalloc.c:74-89 | malloc's circular search ends, after at most one morecore, at a block that is large enough; refused or killed exactly if none is and morecore is |
| Umalloc.Allocator.Malloc | user/umalloc.c:64-90 | next fit: the end of the first block after the place of the last search that is large enough; the process is killed exactly if no free block fits, sbrk does not refuse and the header store faults; 0 exactly if no free block fits and sbrk refuses; else a new live block apart from all others with room for nbytes and less than a unit to spare; and it is memory of the process exactly if a free block fitted or the size is below 2^31 |
| Umalloc.UnbackedBlock | user/umalloc.c:53-69 | malloc(2^32 - 1) gives a block that is not memory of the process |
| Umalloc.FaultingRequest | user/umalloc.c:53-58 | malloc(2^31) at a page boundary ends the process |
| Umalloc.Session | user/umalloc.c:25-90 | any sequence of requests below the limit, of frees and of sbrk by the program, from the first call on: the heap stays valid and memory of the process, and free plus live units are all of it |
| Shell.TokenAt | user/sh.c:266-308 | the cursor never moves back or past the end, and moves on at every token but the end |
| Shell.LineOf | user/sh.c:345-446 | the mutual recursion of the parser ends on every line, within it |
| ShellText.Gettoken | user/sh.c:266-308 | the loops of gettoken compute the token |
| ShellText.Peek | user/sh.c:311-320 | the cursor skips blanks, and the test of the next character |
| ShellText.Parseredirs | user/sh.c:375-397 | the redirection loop computes the parsed redirections |
| ShellText.Parseexec | user/sh.c:416-446 | the loop over words and redirections, with the panic at MAXARGS, computes the simple command; what that is: ShellGrammar |
| ShellText.Parsecmd | user/sh.c:328-342 | the recursive methods compute the parse of the line, with a syntax error for leftovers |
| ShellText.LineWords | user/sh.c:345-446 | every word of a parsed command is a whole word of the line |
| ShellText.Nulterminate | user/sh.c:450-493 | NULs exactly behind the words of the command |
| ShellText.WordsTerminated | user/sh.c:450-493 | after nulterminate every word of the command is a C string: exactly the word of the line |
| ShellText.ParseInPlace | user/sh.c:328-342 | parsecmd on a buffer: the parse, and every argument and file name a C string in place |
| ShellRoundTrip.LineParse | user/sh.c:345-446 | the printed form of any command, at any place where a command may end, parses to that command |
| ShellRoundTrip.RoundTrip | user/sh.c:328-446 | parsing the fully parenthesised form of any command tree with valid words and fewer than MAXARGS arguments gives the tree back |
| ShellGrammar.Accepted | user/sh.c:328-446 | soundness: every line that parsecmd accepts has exactly the tokens of a sentence of the grammar, and is parsed as that sentence means: words in order, the first redirection innermost, pipes and lists to the right, & around what stands before it |
| ShellGrammar.Accepts | user/sh.c:328-446 | completeness: every line with the tokens of a sentence is accepted and parsed as what it means |
| ShellGrammar.SpellToks | user/sh.c:262-308 | any text of tokens, with any blanks between tokens that would else cling together, is read back as these tokens |
| ShellGrammar.AnySpelling | user/sh.c:262-446 | every spelling of a sentence is parsed as what the sentence means |
| Pipe.Wrapped | kernel/pipe.c:88-96 | 32-bit counters tell full and empty, and name the same places, as counters that do not wrap |
| Pipe.Pipe.constructor | kernel/pipe.c:23-46 | an empty pipe with both ends open |
| Pipe.Pipe.Store | kernel/pipe.c:95 | the byte is at the end of the queue and no buffered byte is overwritten, also where the counter wraps |
| Pipe.Pipe.Take | kernel/pipe.c:123 | the oldest byte leaves the queue |
| Pipe.Pipe.WriteSection | kernel/pipe.c:77-103 | a section of pipewrite appends exactly the bytes that fit and can be read; it fails, sleeps or returns as WriteMeans says |
| Pipe.Pipe.ReadSection | kernel/pipe.c:106-130 | a section of piperead sleeps exactly on an empty pipe that is open for writing, unless killed, and then returns -1; otherwise it hands over the oldest bytes, 0 of them at the end of the file |
| Pipe.ReadMeans | kernel/pipe.c:106-130 | on the queue and the flags alone: when a read sleeps, fails, or returns how many bytes, and the only reasons for 0 |
| Pipe.WriteMeans | kernel/pipe.c:77-103 | how far a write gets, and that it fails, sleeps or returns by what stands in the way of the next byte: no reader or a kill, a full pipe, unreadable memory |
| Pipe.Pipe.Close | kernel/pipe.c:59-74 | the queue is unchanged, and the page is freed exactly when both ends are closed |
| PipeProtocol.Fifo | kernel/pipe.c:57-130 | in every interleaving of readers and writers: the bytes taken, then the buffered ones, are the bytes stored, in order; at most PIPESIZE are buffered; every writer stored what it returns and every reader got what it returns |
| PipeProtocol.EndOfFile | kernel/pipe.c:106-130 | in every run, after the write end is closed no read sleeps: it returns what is left, and 0 once nothing is |
| PipeProtocol.BrokenPipe | kernel/pipe.c:77-103 | in every run, after the read end is closed no write stores a byte or sleeps: it returns -1 |
| PipeProtocol.SleepsForCause | kernel/pipe.c:77-130 | in every run a reader sleeps only on an empty pipe and a writer only on a full one, with the other end open |
| PipeProtocol.LosesByte | kernel/pipe.c:120-126 | a reader loses a byte exactly if the copy fails at a place where there was a byte to take |
| PipeProtocol.LostByte | kernel/pipe.c:120-126 | a run in which two bytes are written and a reader, with nothing returned, takes the first away |
| PipeWakeups.WritersSleepForCause | kernel/pipe.c:57-130 | in every run a call asleep has not returned, and a writer sleeps, unwoken, only while the pipe is full and the read end open |
| PipeWakeups.OversleepsAfterKill | kernel/pipe.c:57-130 | in every run a reader asleep beside bytes, or with the write end closed, has slept through a step in which a writer stored bytes and was then killed |
| PipeWakeups.SilentStrands | kernel/pipe.c:84-87 | every such step leaves every sleeping reader asleep beside a byte |
| PipeWakeups.Overslept | kernel/pipe.c:84-87 | a run in which a reader sleeps on beside the byte of a killed writer |

## Left out

- Bio.Bcache.Bunpin: only the holder of the buffer unpins it, as install_trans does.
- Log.Log.EndOp: other processes may hold buffers during the commit, but not those of the log area, which only the log uses; readers of logged blocks release them before the commit's first write, not between its writes.
- Log.Log.RecoverFromLog: on a cache that nobody uses yet, as at boot.
- Scheduler.StepKeeps: kill and allocproc go straight to the slot they are after; the scan of the process table before it takes locks one at a time and changes nothing.
- Processes.NoLostChild: init's own wakeup after reparent is the window that the statement names.
- ReadyHeap.ReadyQueue.Get: the entry at the root, which need not have the smallest key; the findings on the sift loops say when it has.
- Vm.Memory.Uvmunmap: the entry is cleared before the frame is freed; between the two lines of the source nobody else looks.
- Vm.Memory.Kalloc: a page holds table entries, bytes or a list link, and reading it as another of these is not modelled.
- pipewrite and piperead with a negative length, which move nothing, are the case of length zero.
- The order of stores inside a step, fences, and anything weaker than sequential consistency.
- Directories, path names, link counts, inode allocation and the file table.
- exec, system-call argument fetching, trap entry and return, context-switch assembly and boot.
- Device drivers; the disk is a store of blocks.
- Sleep locks and spinlocks below acquire and release as single steps.
- The shell's execution of commands, and the user programs.
