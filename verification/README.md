# xv6-pdx in Dafny

A model of the hard parts of xv6-pdx, a small x86 Unix kernel with its user library, in the
Project 4 configuration (`PDX_XV6` and `CS333_P1` to `CS333_P4` defined), and proofs about that model.
Code that changes state in place is modelled by classes whose methods loop as the source does and are
proved against functions on values; protocols are state machines over their steps, with theorems about
every run.

| files | what they model |
|---|---|
| `LogProtocol`, `LogProofs`, `LogRuns`, `LogBuffers`, `LogOverrun`, `LogCode` | the write-ahead log: group commit, crashes between any two block writes, recovery, processes racing through log_write, and the buffers the log pins and commit needs |
| `LogSleep` | waiting in begin_op under fine-grained interleaving |
| `ProcSpec`, `ProcLists`, `ProcInv`, `ProcFamily`, `ProcExit`, `ProcRuns`, `ProcBoot`, `ProcWake`, `ProcPids`, `ProcLaws`, `ProcHistory`, `ProcLinks`, `ProcWalk`, `ProcCode` | the process table: state lists and ready lists linked through `next`, MLFQ scheduling, fork, exit, wait, pids; what each step does to the table, and what runs make of a process |
| `FsBits`, `FsModel`, `FsCode`, `FileCode` | free map, block mapping, truncation, byte-level reads and writes, chunked file writes |
| `DirModel`, `DirCode`, `PathCode` | directories as finite maps, path elements |
| `BioRing`, `BioSteps`, `BioFull`, `BioCode` | the buffer cache: LRU ring, reference counts, pinning, coherence under interleaving, running out of buffers |
| `VmModel`, `VmProofs`, `VmCount`, `VmCode` | page tables over a pool of frames, and how many frames each call takes |
| `Umalloc` | the user-level allocator |
| `SleepLock` | sleep locks under fine-grained interleaving |
| `ShellSyntax`, `ShellTrees`, `ShellWords`, `ShellCode` | the shell's parser |
| `Pipe`, `PipeSleep` | the pipe ring buffer; waiting in it |
| `Grep` | the pattern matcher |
| `Common` | what they share |

Conventions. A panic is a `None`, a failure value or a `panics` result, never a precondition, unless
the theorem is that it cannot happen. Ghost fields named `own` say who holds each block, frame or heap
unit; since every holder names its unit and every unit its holder, they give disjointness, "exactly
one owner" and conservation at once. Processes, buffers and frames are numbers, lists of them are
sequences, and links are sequences of numbers indexed by them. Machine integers are written out where
they wrap: 32-bit budgets, offsets, request sizes, pipe counters, page-table entries.

Where code and comments disagree the model follows the code, and says exactly when the comment holds.

- `wakeup1` promises to wake every sleeper and wakes the first. `ProcBoot.WakesAllIff` gives the exact
  condition and `ProcWake.WakeupMissesOne` a run from boot. Nobody is stranded in `begin_op` for it
  (`LogSleep.NoneStranded`), but a process may sleep on although there is room
  (`LogSleep.Oversleeps`, `LogSleep.WakeFirstSnugIff`). In a pipe a reader is stranded exactly when two
  sleep as the write end is closed (`PipeSleep.ReaderStrandedIff`).
- The log promises that a system call is never partly on the disk. `log_write` reads `log.lh.n` without
  `log.lock`, so processes can race past its guard and log more blocks than the log area holds, at mkfs's
  size of `LOGSIZE` blocks, header included, too (`LogOverrun.OverrunsIff`). The promise holds all the same
  with a log area of `NBUF` blocks or more, whatever the callers do (`LogBuffers.SystemCallAtomicity`):
  the logged blocks then pin every buffer, and commit panics before its first write
  (`LogBuffers.OverrunHarmless`). In a shorter area write_log runs on into the first block of inodes
  (`LogOverrun.AtomicityFails`). So mkfs's size is the smallest at which the log keeps its promise, but for
  a log without log blocks (`LogOverrun.AtomicIff`).
- `begin_op` reserves log space so that `log_write` need not panic. At mkfs's size `log_write` can refuse a
  block that was reserved (`LogOverrun.ReservedWritePanics`). With a longer log it cannot, as long as some
  outstanding operation has part of its reservation left (`LogRuns.ReservedWriteFits`); once all are spent
  it refuses even a block that is logged already, however long the log (`LogOverrun.AbsorbedWritePanics`).
  In every run it panics exactly when the log is full (`LogRuns.WritePanicsIff`).
- The cache has as many buffers as the log may pin, and commit reads the log through it. Commit gets a buffer
  for its first log block exactly when fewer than `NBUF` blocks are logged or in use
  (`LogBuffers.CommitFindsIff`). Operations inside their reservations can take all of them exactly from size
  `NBUF - 1` on (`LogOverrun.StarvesIff`), and one reader beside 29 logged blocks is enough at mkfs's size
  (`BioFull.CommitFindsNone`).
- `copyuvm` gives everything back when it fails, except that it loses one frame when a page table for the
  child cannot be had. `VmCode.Memory.Copyuvm` says for which numbers of free frames that happens, and
  `VmCode.LeakRun` makes it happen.
- The shell opens `>>` exactly as it opens `>`.

## Model

| member | source | states |
|---|---|---|
| `LogRuns.CrashAtomicity` | src/log.c:69-202 | For every run of one group commit, with power failing between any two block writes of commit and any number of further times inside recovery, the home blocks at the next quiet moment are all as before the transaction or all as after it, the latter exactly when the first header write was done. |
| `LogBuffers.SystemCallAtomicity` | src/log.c:125-233 | For every interleaving of begin_op, the unlocked guard of log_write, its append, end_op, cache traffic in NBUF buffers and crashes, whatever the callers do, with a log area of NBUF blocks or more (as mkfs makes it): what recovery yields is the contents at a moment with no operation outstanding, never older than a quiet moment already passed, so no operation is partly present and no finished commit is lost. With a shorter area the same as long as the log has not overrun it. |
| `LogOverrun.AtomicIff` | src/log.c:177-233 | In every run from boot recovery yields the contents at a moment with no operation outstanding, exactly when the log area has NBUF blocks or more, header included, or no log block; the same condition for any callers and for operations that keep within their reservations. |
| `LogOverrun.AtomicityFails` | src/log.c:177-190 | For every log area of 2 to NBUF - 1 blocks, a run from boot, with every operation inside its reservation, in which write_log runs past the area into the first block of inodes: what recovery then yields is not what the operations saw at any moment. |
| `LogBuffers.OverrunHarmless` | src/log.c:177-202 | In every run with a log area of NBUF blocks, mkfs's size, whatever the callers do: once the log has overrun its area, and until power fails, the logged blocks pin every buffer, the disk stays as it is with an empty header, and commit panics for want of a buffer before its first write. |
| `LogBuffers.NeverOverruns` | src/log.c:213-233 | With a log area longer than NBUF blocks every append finds a log block and the log invariant holds in every run, whatever the callers do and however they race between guard and append. |
| `LogBuffers.FrugalNeverOverruns` | src/log.c:125-141 | The same by the reservations alone, for operations that keep within them and a log area longer than LOGSIZE blocks. |
| `LogOverrun.OverrunsIff` | src/log.c:213-233 | The log can be taken past its area, by any callers or by operations that keep within their reservations, exactly when the area is 2 to LOGSIZE blocks long. |
| `LogOverrun.Overrun` | src/log.c:217-229 | For each of these sizes a run from boot that logs as many blocks as the area has, header included: one too many. |
| `LogBuffers.OverrunBound` | src/log.c:125-229 | Whatever the callers do, at most three operations are outstanding, and the log gets at most two blocks past what the guard allows and never holds more than NBUF blocks. |
| `LogOverrun.LogsIff` | src/log.c:213-233 | Which numbers of logged blocks occur in runs from boot, at each size of the log area, with any callers or within reservations: exactly those up to that bound (none without log blocks), so the array in the header is never overrun. |
| `LogBuffers.RunPins` | src/log.c:177-233 | In every run, overrun or not and whatever the callers do, no more than NBUF buffers are pinned or in use, a process past the guard has its block in use, and while operations run the pinned buffers are exactly those of the logged blocks. |
| `LogBuffers.CommitFindsIff` | src/log.c:182-184 | In every run, overrun or not: commit gets a buffer for its first log block exactly when fewer than NBUF blocks are logged or in use; with nobody else in the cache, exactly when fewer than NBUF are logged. |
| `LogOverrun.StarvesIff` | src/log.c:177-190 | In some run from boot the logged blocks alone leave commit without a buffer, exactly when the log area has NBUF - 1 blocks or more; the same for any callers and within reservations. |
| `LogProofs.StepInv` | src/log.c:69-233 | Every step of the protocol, crash and recovery included, and every append that has a log block to go to, keeps the log invariant: clean buffers equal their home blocks, dirty buffers are the logged ones, and header, log blocks and home blocks agree as far as the phase says. |
| `LogProofs.StepRecovered` | src/log.c:99-122 | Only the header write of commit changes what recovery would yield, and it changes it to what the operations saw. |
| `LogProofs.HeadCommits` | src/log.c:192-198 | The header write makes recovery yield the logical contents of the moment. |
| `LogProofs.StepLogical` | src/log.c:69-233 | Commit, eviction, and the bookkeeping of begin_op, end_op and log_write leave what the file system sees unchanged. |
| `LogProofs.QuietDurable` | src/log.c:192-202 | With no operation and no commit in progress the cache holds nothing that recovery would not. |
| `LogRuns.EndOpNeverPanics` | src/log.c:144-174 | In every run, overrun or not, while an operation is outstanding no commit is running, so the panic of end_op is unreachable for a call that was begun. |
| `LogRuns.LogSpace` | src/log.c:125-141 | In every run in which each operation adds at most MAXOPBLOCKS blocks, whatever the size of the log area, logged blocks plus unspent reservations never exceed LOGSIZE. |
| `LogRuns.ReservedWriteFits` | src/log.c:213-233 | If the log area is longer than LOGSIZE blocks, header included, and operations keep within their reservations, log_write panics on no write, new or absorbed, while some outstanding operation has part of its reservation left; it panics exactly when LOGSIZE blocks are logged, and then every reservation is used up. |
| `LogOverrun.ReservedWritePanics` | src/log.c:217-221 | If the log area is at most LOGSIZE blocks long (as mkfs makes it), some run from boot, with every operation inside its reservation, makes log_write panic on a block that was reserved. |
| `LogOverrun.AbsorbedWritePanics` | src/log.c:217-227 | However long the log area, some run from boot, with every operation inside its reservation, makes log_write panic on a block that is logged already and would add nothing. |
| `LogRuns.WritePanicsIff` | src/log.c:217-221 | In every run, whatever the callers do, log_write by an outstanding operation panics exactly when the logged blocks number min(LOGSIZE, size - 1) or more. |
| `LogSleep.StepInv` | src/log.c:125-174 | Every step of every process inside begin_op and end_op, with log.lock and ptable.lock taken and dropped one by one, wakeup moving the first sleeper or all, and kill, keeps the invariant: locks held by one process, outstanding operations counted, no commit beside an operation, an empty log when nothing is under way. |
| `LogSleep.NoneStranded` | src/log.c:125-174 | In every run, while a process sleeps in begin_op, an operation is outstanding, a commit is under way, or another process is awake on its way to the test or about to call wakeup: no wakeup is lost although each wakes one sleeper only. |
| `LogSleep.EndNeverPanics` | src/log.c:146-152 | In every run the panic of end_op is unreachable. |
| `LogSleep.WakeAllIsSnug` | src/log.c:125-174 | In every run in which wakeup wakes all sleepers, nobody sleeps in begin_op while there is room, unless a waker is on its way. |
| `LogSleep.WakeFirstSnugIff` | src/log.c:156-161 | Waking the first sleeper alone keeps that exactly when there is no room or no other sleeper. |
| `LogSleep.Oversleeps` | src/log.c:125-174 | A run from boot in which a process sleeps in begin_op although there is room for it and nobody is on the way to wake it. |
| `LogCode.Log.constructor` | src/log.c:53-66 | A booting system knows nothing but its disk; any well-formed disk is a start of a run. |
| `LogCode.Log.WriteLog` | src/log.c:177-190 | Copies every logged block into the log one block write at a time, each a protocol step, without changing what the file system sees; panics exactly when there is something to copy and every buffer is pinned or in use, with nothing written. |
| `LogCode.Log.WriteHead` | src/log.c:99-113 | One block write puts the in-memory header on disk. |
| `LogCode.Log.InstallTrans` | src/log.c:69-82 | Copies the logged blocks home one write at a time; recovery would yield the same at each point, and at the end the home blocks are what it yields. |
| `LogCode.Log.Commit` | src/log.c:192-202 | Afterwards the home blocks are exactly what the operations of the transaction saw, and the log is empty; panics exactly when blocks are logged and every buffer is pinned or in use, with the disk untouched, and past the first log block it wants for no buffer. |
| `LogCode.Log.ReadHead` | src/log.c:85-96 | The header on disk becomes the in-memory one. |
| `LogCode.Log.RecoverFromLog` | src/log.c:115-122 | From any state a crash can leave, the home blocks become what the committed log names, and the log is erased. |
| `LogCode.Log.BeginOp` | src/log.c:125-141 | Goes ahead exactly when no commit is running and a full reservation fits; the count of outstanding operations is exact. |
| `LogCode.Log.CheckRoom` | src/log.c:217-221 | The guard, read without log.lock: panics exactly when it says so, and otherwise lets the caller pass, a step of its own. |
| `LogCode.Log.Append` | src/log.c:223-232 | Records the block once, absorbing repeats, and pins its buffer, whatever others have appended since; the log keeps its invariant exactly when the block was logged already or a log block is left. |
| `LogCode.Log.LogWrite` | src/log.c:213-233 | With nobody in between: panics exactly when the guard says so; otherwise records the block once, absorbing repeats, and pins its buffer. |
| `LogCode.Log.LeaveOp` | src/log.c:146-163 | Ends one operation; asks for a commit exactly when it was the last; the panic cannot fire. |
| `LogCode.Log.EndOp` | src/log.c:144-174 | When the last operation ends, everything the operations saw is at its home location on return; panics exactly when it is the last, blocks are logged and every buffer is pinned or in use, with the disk untouched. |
| `LogCode.Log.Bread` | src/bio.c:57-105 | Gives the caller the buffer with the contents the file system sees; panics exactly when the block and those pinned or in use are more than there are buffers, with nothing changed. |
| `LogCode.Log.Brelse` | src/bio.c:117-140 | Gives a buffer back once its changes have been logged; nothing the file system sees changes. |
| `LogCode.Log.PowerFail` | src/log.c:9-24 | A crash keeps the disk and nothing else; the state it leaves is again a state of the protocol. |
| `ProcRuns.AlwaysListed` | src/proc.c:1733-1843 | In every reachable table each process not in flight in fork is on exactly the list of its state and priority and on no other, and one in flight is an EMBRYO on none: no not-found panic and no assertState panic is reachable. |
| `ProcRuns.After` | src/proc.c:113-864 | Every table reachable by legal steps keeps the whole invariant: lists, priorities and budgets in range, RUNNING processes matched with CPUs one to one, family and fork bookkeeping. |
| `ProcExit.StepInv` | src/proc.c:113-1300 | Every critical section under ptable.lock keeps the process-table invariant. |
| `ProcRuns.NoLostChild` | src/proc.c:361-628 | In every reachable state a process asleep in wait has a child and no zombie child, and every process that fork has completed has a parent that is neither UNUSED nor ZOMBIE. |
| `ProcRuns.PromotionPass` | src/proc.c:761-810 | One promotion pass joins the two top ready lists, moves every lower list up by one, empties the lowest and keeps the order of all; every SLEEPING, RUNNABLE or RUNNING process below the top gains one priority and a full budget; no other process, list or CPU changes. |
| `ProcRuns.StepWaits` | src/proc.c:738-864 | No step makes a waiting process lose ground in (priority, position) unless it dispatches it or calls setpriority on it; a promotion pass lifts it, and at the top a dispatch brings it one nearer. |
| `ProcRuns.WaitsWithoutLosing` | src/proc.c:738-864 | Over a whole run (MAXPRIO - priority, position) of a waiting process never rises lexicographically, and every promotion pass counts until the top. |
| `ProcRuns.TopRunsSoon` | src/proc.c:813-854 | A process at the top priority with k others ahead is dispatched within k + 1 dispatches. |
| `ProcRuns.NoStarvation` | src/proc.c:738-864 | A runnable process that nobody calls setpriority on is dispatched once MAXPRIO - priority promotion passes and then NPROC dispatches have happened, whatever else happens in between. |
| `ProcHistory.StepFares` | src/proc.c:738-1137 | Priority and budget of a live process after any step: a promotion pass raises it by one against a full budget, below the top; setpriority with its pid sets it, against a full budget if that is a change; giving up the CPU after as many ticks as its budget costs one priority, not below 0, against a full budget, and after fewer these ticks; every other step leaves both, its pid, and the channel of a sleeper alone. |
| `ProcHistory.PriorityLaw` | src/proc.c:738-1137 | Over every run the priority of a live process is what promotions, setpriority calls with its pid and spent budgets make of it, one after the other. |
| `ProcHistory.Demotion` | src/proc.c:1025-1035 | In every run without promotions and setpriority on it, a live process that spends n budgets has its priority less n, down to 0. |
| `ProcHistory.BudgetLaw` | src/proc.c:1025-1035 | Until a budget is spent, over every such run, it has fallen by exactly the ticks the process was charged for. |
| `ProcHistory.NeverSleepsPastZombie` | src/proc.c:558-628 | In every run that begins with a wait that puts its caller to sleep, and at every later moment up to which it has slept on: it has a child and no zombie child. |
| `ProcHistory.ExitEndsWait` | src/proc.c:361-447 | At every such moment, the exit of a child makes it RUNNABLE. |
| `ProcHistory.ForkedBy` | src/proc.c:113-355 | Whatever happens between allocproc and the end of fork: the child made ready has the pid that was next when fork was called, the caller of fork as its parent, the default priority and a full budget. |
| `ProcInv.ChargeInRange` | src/proc.c:1025-1035 | Charging the time slice keeps priority and budget in range and is plain subtraction when fewer than 2^31 ticks have passed. |
| `ProcInv.SpendIntExact` | src/proc.c:1025-1035 | Exactly which elapsed tick counts keep the budget in range, given that the source computes in 32 bits and stores in a signed int. |
| `ProcLaws.ChargeLaw` | src/proc.c:1025-1035 | With b ticks of budget, e ticks on the CPU leave b - e and the priority if e < b, and otherwise a full budget and one priority less, not below 0. |
| `ProcLaws.YieldLaw` | src/proc.c:1010-1039 | After yield the process is charged, RUNNABLE, off its CPU, and last on the ready list of its new priority; no other process, list or CPU changes. |
| `ProcLaws.SleepLaw` | src/proc.c:1095-1137 | After sleep the process is charged, SLEEPING on the channel given, off its CPU and last on the SLEEPING list; no other process, list or CPU changes. |
| `ProcLaws.DispatchLaw` | src/proc.c:813-855 | The scheduler takes the first of the highest ready list that is not empty, and changes nothing when all are. |
| `ProcLaws.WakeupLaw` | src/proc.c:1189-1206 | wakeup moves the first sleeper on the channel, in list order, to the end of its ready list, and nothing else; nothing at all without a sleeper on the channel. |
| `ProcLaws.KillLaw` | src/proc.c:1251-1300 | kill sets the killed flag of the one process with the pid, moves it to the end of its ready list if it slept, and changes nothing else. |
| `ProcLaws.KillMisses` | src/proc.c:1251-1300 | kill with a pid nobody on a list has changes nothing. |
| `ProcLaws.PrioFinds` | src/proc.c:1941-2011 | setpriority finds a process exactly when one that is SLEEPING, RUNNABLE or RUNNING has the pid, and it is that process. |
| `ProcLaws.SetPriorityLaw` | src/proc.c:1941-2011 | Afterwards that process has the priority asked for; if that is a change it has a full budget, and if it is RUNNABLE it is last on the ready list of its new priority; nothing else changes, and nothing at all if the priority was the same. |
| `ProcLaws.SetPriorityMisses` | src/proc.c:1941-2011 | With a pid no such process has, setpriority changes nothing. |
| `ProcLaws.AllocLaw` | src/proc.c:119-153 | allocproc makes the head of the UNUSED list an EMBRYO with the next pid, last on the EMBRYO list, and counts nextpid up; nothing else changes, and nothing at all if the list is empty. |
| `ProcLaws.AllocFailLaw` | src/proc.c:155-171 | Without a kernel stack the slot goes back to the end of the UNUSED list, and nothing else changes. |
| `ProcLaws.AllocDoneLaw` | src/proc.c:172-204 | The new process gets the default priority and a full budget, and nothing else changes. |
| `ProcLaws.TakeLaw` | src/proc.c:304-312 | fork drops its child from the EMBRYO list, and nothing else changes. |
| `ProcLaws.ForkFailLaw` | src/proc.c:314-326 | A child whose memory cannot be copied is UNUSED and last on the UNUSED list, and nothing else changes. |
| `ProcLaws.ForkDoneLaw` | src/proc.c:327-355 | The child is RUNNABLE, last on the ready list of its priority, with the caller of fork as its parent, and nothing else changes. |
| `ProcLaws.WaitReaps` | src/proc.c:558-600 | With a zombie child, wait returns the pid of the first one in list order, which is UNUSED afterwards, last on the UNUSED list, without pid, parent or killed flag; nothing else changes. |
| `ProcLaws.WaitSleeps` | src/proc.c:601-628 | Without a zombie child wait returns -1 and changes nothing if the caller has no child or was killed; otherwise the caller is charged and sleeps on its own proc, and nothing else changes. |
| `ProcLaws.ExitLaw` | src/proc.c:361-447 | After exit the caller is charged, a ZOMBIE, last on the ZOMBIE list and off its CPU; its children are init's; RUNNABLE now are its parent, if that was asleep in wait, and init, if that was and a zombie comes to it; no other process changes, and nobody on a ready list loses a place. |
| `ProcBoot.BootIs` | src/proc.c:207-265 | The table userinit leaves, field by field: pid 1 ready at the default priority with a full budget, all other slots on the UNUSED list in table order, every CPU idle. |
| `ProcBoot.BootInv` | src/proc.c:207-265 | The table userinit leaves satisfies the invariant. |
| `ProcBoot.WakesAllIff` | src/proc.c:1187-1206 | wakeup1 wakes everybody asleep on the channel, as its comment says, exactly when at most one process sleeps on it. |
| `ProcWake.WakeupMissesOne` | src/proc.c:1189-1206 | With any number of CPUs, a run from boot in which init forks a child, both go to sleep on one channel, and wakeup1 wakes init only. |
| `ProcPids.StepPids` | src/proc.c:113-1300 | Every step keeps the pids in use distinct, positive and below nextpid. |
| `ProcPids.DistinctPids` | src/proc.c:113-1300 | Whatever steps are taken, no two processes in use get the same pid. |
| `ProcPids.DistinctFromBoot` | src/proc.c:113-1300 | In every run from boot no two processes in use have the same pid. |
| `ProcPids.KillFinds` | src/proc.c:1251-1300 | kill finds a process exactly when one in use has the pid and is on a list, and it is that process; it finds none exactly when there is none. |
| `ProcSpec.Find` | src/proc.c:1258-1297 | The search along the lists yields a process with the pid that is on one of them, or -1 exactly when no process on them has it. |
| `ProcSpec.ServedIs` | src/proc.c:816-819 | The queue the scheduler serves is the highest non-empty ready list. |
| `ProcSpec.FirstSleeper` | src/proc.c:1193-1204 | The first sleeper on the channel in list order. |
| `ProcSpec.FirstZombie` | src/proc.c:577-581 | The first zombie child in list order. |
| `ProcLinks.LinksAdd` | src/proc.c:1733-1745 | Adding at the tail keeps every list a chain through next with the right head and tail, and appends the process. |
| `ProcLinks.LinksRemove` | src/proc.c:1749-1795 | Unlinking a process keeps every list a chain with the right head and tail, and drops exactly that process. |
| `ProcCode.ProcTable.constructor` | src/proc.c:1799-1827 | The linked lists after boot hold exactly the boot table. |
| `ProcCode.ProcTable.InitFreeList` | src/proc.c:1818-1827 | Every slot goes to the UNUSED list in table order. |
| `ProcCode.ProcTable.UserInit` | src/proc.c:207-265 | From the empty table, the first process is ready on the list of its priority and everything else unused. |
| `ProcCode.ProcTable.StateListAdd` | src/proc.c:1733-1745 | The process is appended to that list and no other list changes. |
| `ProcCode.ProcTable.StateListRemove` | src/proc.c:1749-1795 | Returns 0 and drops the process exactly when it is on the list; returns -1 and changes nothing otherwise. |
| `ProcCode.ProcTable.Promote` | src/proc.c:758-811 | The nested walks over linked lists perform exactly one promotion pass. |
| `ProcCode.ProcTable.Dispatch` | src/proc.c:813-855 | The head of the highest non-empty ready list goes to the CPU; idle exactly when there is none. |
| `ProcCode.ProcTable.Yield` | src/proc.c:1010-1039 | The running process is charged and queued, as ProcLaws.YieldLaw says of the step: last on the ready list of its new priority. |
| `ProcCode.ProcTable.Sleep` | src/proc.c:1095-1137 | The running process is charged, goes to the SLEEPING list on that channel, and leaves its CPU, as ProcLaws.SleepLaw says of the step. |
| `ProcCode.ProcTable.Wakeup1` | src/proc.c:1189-1206 | The walk that follows next after relinking moves the first sleeper on the channel and nobody else. |
| `ProcCode.ProcTable.FindAlong` | src/proc.c:1258-1297 | The walk finds what ProcSpec.Find says: the process with the pid that comes first along the lists searched, -1 if there is none. |
| `ProcCode.ProcTable.Kill` | src/proc.c:1251-1300 | Marks the first process with the pid, moves it to its ready list if it slept, and returns 0 exactly when there was one. What that makes of the table is ProcLaws.KillLaw and KillMisses. |
| `ProcCode.ProcTable.SetPriority` | src/proc.c:1941-2011 | Does to the table what ProcLaws.SetPriorityLaw and SetPriorityMisses say of the step; returns 0 exactly when a process was found, which ProcLaws.PrioFinds says when. |
| `ProcCode.ProcTable.SysSetPriority` | src/sysproc.c:183-196 | Refuses priorities outside 0 to MAXPRIO with nothing changed; otherwise does what setpriority does, and returns 0 exactly when the process was found. |
| `ProcCode.ProcTable.AllocProc` | src/proc.c:119-153 | Takes the head of the UNUSED list as an EMBRYO with the next pid, or reports that there is none. |
| `ProcCode.ProcTable.AllocFail` | src/proc.c:155-171 | The slot goes back to the UNUSED list. |
| `ProcCode.ProcTable.AllocDone` | src/proc.c:172-204 | The new process has default priority and a full budget. |
| `ProcCode.ProcTable.TakeChild` | src/proc.c:304-312 | The child leaves the EMBRYO list and is on no list. |
| `ProcCode.ProcTable.ForkFail` | src/proc.c:314-326 | A child whose memory cannot be copied goes back to the UNUSED list. |
| `ProcCode.ProcTable.ForkDone` | src/proc.c:327-355 | The child becomes RUNNABLE with its parent set and is queued. |
| `ProcCode.ProcTable.LeaveChildren` | src/proc.c:387-419 | Walking all state and ready lists, every child goes to init, and init is woken exactly when there is a zombie among them. |
| `ProcCode.ProcTable.Exit` | src/proc.c:361-447 | The caller wakes its parent, hands its children to init, and becomes a ZOMBIE off its CPU. What that makes of the table is ProcLaws.ExitLaw. |
| `ProcCode.ProcTable.Scan` | src/proc.c:567-614 | Finds the first zombie child, and without one says exactly whether there is any child. |
| `ProcCode.ProcTable.Wait` | src/proc.c:558-628 | Does to the table and returns what ProcLaws.WaitReaps and WaitSleeps say of the step: reaps the first zombie child and returns its pid, returns -1 without children or when killed, or goes to sleep on its own proc. |
| `Umalloc.PayloadFitsIff` | src/umalloc.c:69 | The payload holds nbytes bytes exactly when rounding up to units does not wrap in 32 bits, and one unit less would not hold them. |
| `Umalloc.FindPlace` | src/umalloc.c:29-32 | In an address-ordered list there is exactly the gap that free looks for. |
| `Umalloc.FreedOrdered` | src/umalloc.c:33-43 | After free the list is still address-ordered and fully coalesced. |
| `Umalloc.FreedCircular` | src/umalloc.c:33-43 | After free the list is still circular. |
| `Umalloc.FreedOwned` | src/umalloc.c:33-43 | After free every unit still lies in exactly one block, live or free, and none is lost. |
| `Umalloc.TakeTail` | src/umalloc.c:78-82 | Cutting the tail off a free block keeps order, disjointness and all units. |
| `Umalloc.Allocator.constructor` | src/umalloc.c:20-22 | The empty heap before the first malloc. |
| `Umalloc.Allocator.FindSlot` | src/umalloc.c:29-32 | The circular search of free ends, at the free block right below the one freed. |
| `Umalloc.Allocator.Free` | src/umalloc.c:24-44 | The block leaves the live set and joins its free neighbours; every invariant is kept, no other live block changes, no unit is lost, and a free block at least as large remains. |
| `Umalloc.Allocator.Search` | src/umalloc.c:73-86 | One trip round the list from freep: the first block in that order that is large enough, or proof that none is. |
| `Umalloc.Allocator.Morecore` | src/umalloc.c:46-61 | New units from sbrk become free memory. |
| `Umalloc.Allocator.Take` | src/umalloc.c:74-84 | Carves the request from the block found, or takes all of it, keeping every invariant. |
| `Umalloc.Allocator.Malloc` | src/umalloc.c:63-90 | Returns a new block of at least nbytes disjoint from all live blocks; fails exactly when sbrk refuses and no free block is large enough; the heap gains exactly the units of one sbrk call, and only when no free block was large enough; no unit is lost. |
| `FsBits.SetBitAt` | src/fs.c:66-68 | Setting a bit of the free map changes that bit alone. |
| `FsBits.ClearBitAt` | src/fs.c:89-93 | Clearing a bit of the free map changes that bit alone. |
| `FsBits.PutEntryAt` | src/fs.c:389-393 | Storing a block number in an indirect block changes that entry alone. |
| `FsModel.Conserved` | src/fs.c:56-96 | In every valid state each data block is free in the map or held by exactly one slot of one inode, and free plus owned is the number of data blocks. |
| `FsCode.LacksShare` | src/fs.c:371-399 | What bmap must allocate for the next block of a transfer is that block's share of what the whole range needed at the start. |
| `FsCode.NeedJoin` | src/fs.c:371-399 | The blocks two transfers in a row need, the second starting in or right after the last block of the first, are what the joined range needs. |
| `FsCode.InodeSameIff` | src/fs.c:371-399 | Filling in the blocks of a range changes the inode itself exactly when a direct address of the range, or that of the indirect block it needs, was missing. |
| `FsModel.TakenInv` | src/fs.c:56-78 | balloc keeps the ownership invariant; the block it takes had no owner. |
| `FsModel.FreedInv` | src/fs.c:80-96 | bfree of a block nobody holds keeps the invariant, and its panic condition is false. |
| `FsModel.AttachAddr` | src/fs.c:377-387 | Hanging a fresh block into a direct or indirect slot gives it exactly that owner. |
| `FsModel.AttachEntry` | src/fs.c:388-394 | Hanging a fresh block into an indirect entry gives it exactly that owner. |
| `FsModel.DataBytes` | src/fs.c:495-501 | Writing a data block changes the bytes of that block of that inode and of nothing else. |
| `FsCode.FileSystem.constructor` | src/mkfs.c:93-111 | A fresh image with empty files satisfies the invariant and is dense. |
| `FsCode.FileSystem.MarkMeta` | src/mkfs.c:237-252 | Marks exactly the blocks in front of the data blocks as in use. |
| `FsCode.FileSystem.Balloc` | src/fs.c:56-78 | The first free block in order, marked and zeroed; fails exactly when no block is free. Every block it changes, the map block of every bit and the block of every on-disk inode it changes, is logged. |
| `FsCode.FileSystem.Bfree` | src/fs.c:80-96 | Panics exactly when the block is already free; otherwise frees it alone. Every block it changes, the map block of every bit and the block of every on-disk inode it changes, is logged. |
| `FsCode.FileSystem.Bmap` | src/fs.c:371-399 | Returns the block of the slot, allocating data block and indirect block as needed without changing any byte of any file or any other slot; panics exactly when the block number is out of range or fewer blocks are free than it lacks (0, 1 or 2), and the free map shrinks by exactly these; it logs only the blocks named. Every block it changes, the map block of every bit and the block of every on-disk inode it changes, is logged. |
| `FsCode.FileSystem.Itrunc` | src/fs.c:401-434 | Every block of the inode, listed entries and indirect block included, goes back to the free map, the freeing panic cannot fire, and no other file changes. Every block it changes, the map block of every bit and the block of every on-disk inode it changes, is logged. |
| `FsCode.FileSystem.Iupdate` | src/fs.c:217-236 | The on-disk inode becomes the cached one. Every block it changes, the map block of every bit and the block of every on-disk inode it changes, is logged. |
| `FsCode.FileSystem.Readi` | src/fs.c:448-474 | Returns exactly the slice of the file's contents, or -1 exactly for a start past the end or a wrapping range; panics exactly when the holes in the range need more blocks than are free; on a dense file it changes and logs nothing; an inode that was as on disk stays so exactly when no address it goes through was missing. Every block it changes, the map block of every bit and the block of every on-disk inode it changes, is logged. |
| `FsCode.FileSystem.Writei` | src/fs.c:476-508 | Splices the bytes into the contents across direct and indirect blocks, leaves every other file alone, keeps a dense file dense and its on-disk inode equal to the cached one, and logs only the blocks named; -1 exactly for a start past the end or a file too large, with nothing changed; panics exactly when the blocks missing in the range, the indirect block included, are more than are free, so never inside a dense file; the free map shrinks by exactly what was missing; an inode that was as on disk stays so exactly when the file grew or no address it goes through was missing. Whatever it returns, every block that changed, the map block of every bit that changed and the block of every on-disk inode that changed is logged. |
| `FileCode.File.Filewrite` | src/file.c:115-155 | The chunks splice src into the file and advance the offset; -1 exactly when the write starts past the end or would pass the largest file, after exactly the whole chunks that fit; panics exactly when the blocks missing for these chunks are more than are free; each chunk logs at most MAXOPBLOCKS - 3 distinct blocks when the free map is one block. Each transaction logs every block in which the disk at its end differs from that at its start, map blocks and inode blocks included. |
| `FileCode.File.WriteOnce` | src/file.c:137-143 | One transaction of filewrite: the bytes are spliced in, or refused as writei refuses them, or it panics exactly for want of free blocks. Whatever it returns, every changed block, and the block of every changed map bit and on-disk inode, is logged in it; with a free map of one block at most MAXOPBLOCKS - 3 blocks are. |
| `FileCode.LogBound` | src/file.c:126-132 | A chunk touches at most four data blocks, one block of the free map, the indirect block and the inode's block, at any offset. |
| `FileCode.WroteJoin` | src/file.c:134-150 | Writing two chunks in a row is writing their concatenation. |
| `DirModel.LookupIs` | src/fs.c:518-544 | The search finds a name exactly when the directory's map has it, with the inode number the map gives. |
| `DirModel.LinkMap` | src/fs.c:546-574 | Filling the first empty entry (or a new one) with an absent name inserts that name alone and keeps names unique; an inode number whose low 16 bits are 0 inserts nothing. |
| `DirModel.ClearMap` | src/sysfile.c:217-219 | Zeroing a live entry removes its name alone. |
| `DirModel.PackRoundTrip` | src/fs.h:52-57 | An entry packed from an inode number and a name reads back as that name and the number cut to 16 bits. |
| `DirCode.NameCmp` | src/string.c:58-66 | Returns 0 exactly when the two buffers hold the same name, cut to DIRSIZ bytes. |
| `DirCode.CopyName` | src/string.c:68-79 | The name cut to DIRSIZ bytes and padded with NULs. |
| `DirCode.Dirlookup` | src/fs.c:518-544 | The first live entry with the name and its offset, or absence; panics exactly when the last entry is cut short and the name is not before it, or when filling the holes up to the entry found needs more blocks than are free; on a directory without holes it changes nothing. Every block it changes, map and inode blocks included, is logged. |
| `DirCode.FindFree` | src/fs.c:561-566 | The offset of the first empty entry, or the end; panics exactly when the last entry is cut short and none is empty, or when filling the holes on the way needs more blocks than are free. Every block it changes, map and inode blocks included, is logged. |
| `DirCode.Dirlink` | src/fs.c:546-574 | Refuses exactly a name that is there; otherwise the map gains exactly that name, and no other file changes. Panics exactly when the directory is stuck (the last entry cut short, or the largest size with every entry in use) or the bytes it gets to need more blocks than are free; on whole entries without holes exactly when the name is absent, every entry is in use, and the directory has the largest size or there is no block for another entry. Every block it changes, map and inode blocks included, is logged. |
| `DirCode.Unlink` | src/sysfile.c:202-219 | Refuses . and .. and missing names; otherwise the map loses exactly that name, the size stays, and no other file changes. Panics exactly when dirlookup does, so never on whole entries without holes; its own panic cannot fire. Every block it changes, map and inode blocks included, is logged. |
| `DirCode.LinkPlace` | src/fs.c:561-571 | After dirlookup has read the whole directory in vain it has no holes, so the second scan cannot panic and dirlink fails exactly for want of room. |
| `PathCode.Skipelem` | src/fs.c:578-613 | Yields the first element of the path cut to DIRSIZ bytes and a position from which the remaining elements are the rest; at the end of the string exactly when it was the last; nothing exactly when there is no element. |
| `BioRing.PushRing` | src/bio.c:46-54 | Linking a buffer behind the head keeps the list circular and doubly linked, with that buffer first. |
| `BioRing.DropRing` | src/bio.c:131-132 | Unlinking a buffer keeps the list circular and doubly linked, without that buffer. |
| `BioSteps.StepOk` | src/bio.c:57-140 | Every step of every process keeps tags unique, references counted and the cache coherent, and leaves what other processes refer to and hold as it was. |
| `BioCode.BufferCache.constructor` | src/bio.c:38-55 | An empty cache: every buffer on the list, tagged (0, 0). |
| `BioCode.BufferCache.FindCached` | src/bio.c:67-75 | A buffer with the tag, or none exactly when there is none. |
| `BioCode.BufferCache.FindVictim` | src/bio.c:77-91 | The least recently released of the unreferenced clean buffers, or none exactly when there is none. |
| `BioCode.BufferCache.Bget` | src/bio.c:57-92 | A reference to the one buffer of the block, or to the least recently released idle buffer retagged; panics exactly when the block is not cached and no buffer is idle; other processes' buffers keep their tags. |
| `BioCode.BufferCache.Lock` | src/bio.c:72-73 | Takes the buffer's sleep lock and changes nothing else. |
| `BioCode.BufferCache.Fill` | src/bio.c:94-105 | After it the buffer holds the latest contents of its block. |
| `BioCode.BufferCache.LogWrite` | src/log.c:228-231 | Pins the buffer; its data is now the latest contents of the block. |
| `BioCode.BufferCache.Bwrite` | src/bio.c:107-115 | Writes the data to disk and drops the pin. |
| `BioCode.BufferCache.Unlock` | src/bio.c:117-126 | Drops the sleep lock of a buffer whose changes have been handed over, as a step of the interleaved cache. |
| `BioCode.BufferCache.Drop` | src/bio.c:127-139 | Drops a reference; with the last one the buffer becomes the most recently released. |
| `BioCode.BufferCache.ToFront` | src/bio.c:129-137 | Unlinks the buffer and links it behind the head: the list stays a ring of all buffers ordered by release. |
| `BioSteps.BreadLatest` | src/bio.c:57-105 | In every run, once a process got a buffer with bget and bread filled it, and until it releases it, whatever steps it and others take, the buffer is the one buffer of the block asked for, valid, and unless changed and not yet handed over it holds the latest contents given to log_write or bwrite, which are on the disk unless the buffer is pinned. |
| `BioSteps.OthersSteady` | src/bio.c:57-140 | In every run, any number of steps of other processes leave a process's buffers tagged as they were and its locked buffer untouched. |
| `BioFull.FindsIff` | src/bio.c:57-92 | bget finds a buffer exactly when the block is cached or fewer than NBUF buffers are pinned or referred to. |
| `BioFull.FindsByBlock` | src/bio.c:57-92 | In terms of blocks: bget finds a buffer exactly when the block asked for and those pinned or referred to are at most NBUF. |
| `BioFull.CommitFindsNone` | src/log.c:177-190 | From boot, for any disk: NBUF - 1 blocks logged and released, one more block in use, and the read of a log block by commit makes bget panic. |
| `VmProofs.FramesConserved` | src/kalloc.c:46-94 | In every valid state free frames and used frames add up to the pool. |
| `VmCount.CostNext` | src/vm.c:219-249 | One page more costs one frame, and a second one exactly when its region has no page table yet. |
| `VmCount.KRegionsAll` | src/vm.c:104-136 | The kernel half takes 64 page tables wherever the data section starts: 56 below PHYSTOP and 8 for the devices. |
| `VmCount.StopsBetween` | src/vm.c:325-335 | A copy that has a frame for a page and none for its table has run out at the first page of a region, with 1025 k + 1 frames at the start. |
| `VmCount.NoLeak` | src/vm.c:325-335 | The number of frames at which a copy stops for want of a page is never one at which it loses a frame. |
| `VmModel.AddTable` | src/vm.c:43-53 | A blank frame becomes a page table; no page of any directory is mapped or unmapped by that. |
| `VmModel.SetEntry` | src/vm.c:68-80 | Writing an entry changes the mapping of one page of one directory. |
| `VmProofs.KernelHalf` | src/vm.c:104-136 | The four rows of kmap amount to physical memory at KERNBASE with the kernel text read-only, devices in place, and nothing else. |
| `VmProofs.RightsAre` | src/vm.c:43-53 | In every address space, whose directory entries walkpgdir sets to P, W and U, a page is writable, and usable from user mode, by both levels exactly when its own entry says so. |
| `VmProofs.KernelRights` | src/vm.c:104-136 | With the kernel half that setupkvm maps, no page of it is usable from user mode, and it is writable exactly outside the kernel text. |
| `VmProofs.UserAt` | src/vm.c:35-55 | A frame is a user page of a directory exactly when the directory maps some page below KERNBASE to it. |
| `VmProofs.UndoAdded` | src/vm.c:221-249 | Adding pages and then deallocuvm of the range restores every translation, every use of a frame and every word. |
| `VmProofs.OldOutside` | src/vm.c:281-298 | No frame in use before belongs to a directory added since. |
| `VmCode.Memory.constructor` | src/kalloc.c:46-53 | freerange over the pool leaves every frame free. |
| `VmCode.Memory.Kalloc` | src/kalloc.c:79-94 | The head of the free list, None exactly when it is empty. |
| `VmCode.Memory.Kfree` | src/kalloc.c:55-76 | Panics exactly outside the pool; otherwise the frame is overwritten and heads the free list. |
| `VmCode.Memory.Walk` | src/vm.c:32-55 | The table holding the entry of va, added on request; fails exactly when it is missing and may not or cannot be added; takes a frame exactly when it adds one; no mapping of any directory changes. |
| `VmCode.Memory.Mappages` | src/vm.c:57-80 | Maps exactly the pages of the range to consecutive frames and changes no other mapping, taking exactly a frame for each table that was missing; says how far it got when no frame was left for a table or a page was mapped already. |
| `VmCode.Memory.Setupkvm` | src/vm.c:117-136 | A new directory that maps the kernel half and nothing else, in exactly 65 frames; fails exactly when fewer are free, and then every frame is given back; no panic on remapping. |
| `VmCode.Memory.Allocuvm` | src/vm.c:219-249 | Grows with zeroed writable user pages in fresh frames and changes nothing else; below KERNBASE it fails exactly when fewer frames are free than there are pages to add and page tables missing for them, and takes exactly these otherwise; on failure every translation is as before and only page tables stay taken. |
| `VmCode.Memory.Deallocuvm` | src/vm.c:251-279 | Unmaps and frees exactly the mapped pages of the range; with the jumps over missing tables the free list is the one page-by-page freeing gives; no panic. |
| `VmCode.Memory.Freevm` | src/vm.c:281-298 | Gives back every frame of the address space exactly once and no other; other address spaces keep their mappings and words. |
| `VmCode.Memory.Copyuvm` | src/vm.c:313-343 | On success the child has equal flags and words in fresh frames and the kernel half, and every frame taken is the child's; on kalloc failure every frame is given back; on page-table failure all but the one page just allocated. With stop the first page the parent lacks (or the size) and n free frames beside the 65 of setupkvm: it copies or panics on the missing page exactly when n is at least stop plus a table for every 1024 pages, and loses a frame exactly when n is 1025 k + 1 for some k with 1024 k below stop. |
| `VmCode.LeakRun` | src/vm.c:313-343 | From boot, with a pool that fits below PHYSTOP, for every parent size and every k with page 1024 k inside it, a memory in which copyuvm loses a frame. |
| `SleepLock.StepInv` | src/sleeplock.c:22-42 | Every step of every process, with wakeup moving the first sleeper or all, and kill, keeps the lock invariant. |
| `SleepLock.MutualExclusion` | src/sleeplock.c:22-42 | In every run at most one process is between acquiresleep and the end of releasesleep, and it is the one recorded in the lock. |
| `SleepLock.NoLostWakeup` | src/sleeplock.c:22-42 | In every run, while the lock is free and a process sleeps on it, another process is awake on its way to the lock or a releaser is about to call wakeup. |
| `SleepLock.NoDeadlock` | src/proc.c:1095-1149 | In every run, while a process is inside the lock's code, some process that is in it or holds ptable.lock can take its next step. |
| `ShellSyntax.ParsesExactly` | src/sh.c:429-531 | The parser accepts a token sequence exactly when the grammar has a tree for it, and builds that tree. |
| `ShellSyntax.LineSound` | src/sh.c:429-444 | Every tree the parser builds is a tree of the grammar for the tokens it used. |
| `ShellSyntax.LineComplete` | src/sh.c:429-444 | Every tree of the grammar is found, whatever may follow a line. |
| `ShellTrees.LineTells` | src/sh.c:459-482 | In the tree of a line, the redirections, of a command from the innermost out and of commands from left to right, are exactly the operators and files of the line in its order: < as (file, 0, 0), > and >> as (file, O_WRONLY or O_CREATE, 1); and its arguments are the other words, in order. |
| `ShellTrees.ExecTells` | src/sh.c:500-531 | The same of a simple command or a block. |
| `ShellTrees.RoundTrip` | src/sh.c:429-531 | Every tree the shell can run, written out with parentheses where they are needed and parsed, comes back. |
| `ShellTrees.BuildsIff` | src/sh.c:429-531 | The trees the parser builds are exactly those whose commands have fewer than MAXARGS words and whose redirections are (0, 0) or (O_WRONLY or O_CREATE, 1). |
| `ShellWords.LineWords` | src/sh.c:429-531 | The arguments and file names of a tree are exactly the words of the line. |
| `ShellWords.LexWords` | src/sh.c:350-393 | Every word token is a maximal run of characters that are neither white space nor symbols. |
| `ShellWords.LexText` | src/sh.c:350-393 | The tokens, written one after the other, are the text without its white space: no character is lost, made up or read twice. |
| `ShellWords.WordReads` | src/sh.c:533-578 | With a NUL written at the end of every word, each word reads as a C string of its own: no NUL falls inside another word. |
| `ShellCode.Parser.Gettoken` | src/sh.c:350-393 | Returns the next token and leaves exactly the tokens behind it. |
| `ShellCode.Parser.Peek` | src/sh.c:395-405 | Says whether the next token starts with one of the symbols, and loses no token. |
| `ShellCode.Parser.ParseRedirs` | src/sh.c:459-482 | Parses exactly the redirections in front, or fails for a missing file name. |
| `ShellCode.Parser.ParseExec` | src/sh.c:500-531 | Terminates and does what the parser on tokens does, failures included. |
| `ShellCode.Parser.ParseBlock` | src/sh.c:484-498 | The same for a parenthesised line. |
| `ShellCode.Parser.ParsePipe` | src/sh.c:446-457 | The same for a pipeline. |
| `ShellCode.Parser.ParseLine` | src/sh.c:429-444 | The same for a line. |
| `ShellCode.Nulterminate` | src/sh.c:533-578 | Writes a NUL at the end of every word of the tree and nowhere else. |
| `ShellCode.ParseCmd` | src/sh.c:412-427 | Succeeds exactly when the grammar has a tree for the line, returns it, and afterwards the C string at every argument and file name is exactly the word lexed; the redirections of the tree, with file, mode and descriptor, and its arguments are those of the line, in order. |
| `Pipe.RingPipe.constructor` | src/pipe.c:22-56 | An empty pipe, both ends open. |
| `Pipe.RingPipe.Write` | src/pipe.c:76-96 | Appends bytes of src in order until done, or sleeps or fails only on a full pipe; fails exactly when the read end is closed or the caller is killed. |
| `Pipe.RingPipe.ReadSome` | src/pipe.c:98-119 | Returns the next bytes written, as many as there are up to n; returns 0 of a positive n only when the pipe is drained and the write end closed. |
| `Pipe.RingPipe.Close` | src/pipe.c:58-74 | Closes one end; the pipe is freed exactly when both are closed. |
| `PipeSleep.WakeAllJustified` | src/pipe.c:58-119 | In every run in which wakeup wakes all sleepers and no killed writer fails while a reader sleeps, a reader sleeps only on an empty pipe whose write end is open, and a writer only on a full one whose read end is open. |
| `PipeSleep.FailJustifiedIff` | src/pipe.c:83-87 | A killed writer that fills the pipe and fails keeps that exactly when no reader sleeps. |
| `PipeSleep.KilledWriterStrands` | src/pipe.c:83-87 | A run in which a writer is killed, fills the pipe and fails, and leaves readers asleep beside a full pipe, whatever wakeup does. |
| `PipeSleep.CloseStrandsIff` | src/pipe.c:58-74 | Closing an end wakes one sleeper of the other; one is left asleep exactly when there were two. |
| `PipeSleep.StrandedForGood` | src/pipe.c:58-119 | In every run, once the write end is closed, nothing but kill moves a sleeping reader. |
| `PipeSleep.ReaderStrandedIff` | src/pipe.c:58-119 | In every run with wakeups that wake one, unless a sleeping reader is killed, a reader sleeps on after the write end was closed exactly when two slept at the close. |
| `PipeSleep.ReaderStranded` | src/pipe.c:58-119 | A run in which the writer closes its end, the reader it wakes leaves, and another sleeps for good. |
| `PipeSleep.ReaderOversleeps` | src/pipe.c:76-119 | A run in which a reader sleeps on although there is a byte to read. |
| `Pipe.Full` | src/pipe.c:83 | The wrapped 32-bit counters are PIPESIZE apart exactly when PIPESIZE bytes are in transit. |
| `Pipe.Slot` | src/pipe.c:91-112 | A wrapped counter picks the same slot of the ring as the true count. |
| `Grep.Match` | src/grep.c:72-82 | Returns true exactly when some substring, tied to the ends as ^ and $ require, is in the language of the pattern. |
| `Grep.MatchHere` | src/grep.c:84-96 | Returns true exactly when a prefix of the text is in the language, all of it if the pattern ends in $; terminates. |
| `Grep.MatchStar` | src/grep.c:98-106 | Returns true exactly when some number of copies of c is followed by a match of the rest. |

## Left out

What the model does not cover:

- Device drivers, boot code, traps and context switches. A disk block is read or written in one step.
- Clocks and ticks: elapsed times and the moment of a promotion are parameters of the steps.
- Memory, files and names of a process, CPU time totals, user and group ids, getprocs and the dumps.
- The inode cache: iget, iput, ilock, reference counts, types, device numbers and link counts; ialloc.
- namex, exec, system-call argument checks, and file descriptors.
- inituvm, loaduvm, clearpteu, uva2ka and copyout; TLBs and the paging hardware.
- Running parsed commands, the shell's built-ins, and the read loops of the shell and of grep.
- The variants of the process code for other project configurations.

Where a contract is weaker than the code could be asked for, or narrower:

- LogCode.Log.EndOp: runs commit with no step of another process in between, and asks that nobody holds a logged block meanwhile (bread would wait); the interleavings are those of LogProtocol, whose theorems cover them.
- LogRuns.LogSpace: for runs in which each operation adds at most MAXOPBLOCKS blocks, which begin_op assumes and nothing checks; LogBuffers.OverrunBound says what holds without it.
- LogCode.Log.WriteHead: the header block is a sequence of block numbers, not bytes; asks for a buffer to spare, which Commit and RecoverFromLog show there is.
- LogCode.Log.InstallTrans: asks for a buffer to spare, as WriteHead does.
- LogCode.Log.Append: once a log area of NBUF blocks has overrun, the class is no longer Valid; what the code does from there on is stated on the protocol, by LogBuffers.OverrunHarmless.
- LogBuffers.SystemCallAtomicity: a buffer counts as in use while it is pinned or locked; one that a process only waits for counts as free, which allows more runs than the code has.
- ProcCode.ProcTable.Yield: the time slice is under 2^31 ticks; ProcInv.SpendIntExact says what happens beyond.
- ProcCode.ProcTable.Sleep: the time slice is under 2^31 ticks, as for Yield.
- ProcCode.ProcTable.Wait: the time slice is under 2^31 ticks, as for Yield.
- ProcCode.ProcTable.Promote: the timer that triggers a pass is not modelled, a pass may come at any time.
- ProcCode.ProcTable.ForkDone: sets the parent together with the state; the source sets it a little earlier, while the child is on no list and nobody can see it.
- ProcCode.ProcTable.SetPriority: takes priorities 0 to MAXPRIO; SysSetPriority is the check in front of it.
- ProcCode.ProcTable.Exit: for a caller other than init, whose exit panics, and a time slice under 2^31 ticks, as for Yield.
- ProcPids.DistinctPids: nextpid does not wrap; the source counts in a 32-bit int.
- Umalloc.Allocator.Malloc: requests below 0x7FFFFFF0 bytes; sbrk is a parameter that hands out unused memory above the base header or refuses.
- Umalloc.Allocator.Free: for blocks malloc returned and that are still live.
- FsCode.FileSystem.Writei: after a panic for want of blocks only that none is free is said; the device branch is left out.
- FsCode.FileSystem.Readi: the device branch is left out.
- FsCode.FileSystem.Iupdate: on-disk inodes are records, not bytes.
- FsCode.FileSystem.constructor: an image with empty files; the root directory and files mkfs adds are not built.
- FileCode.File.Filewrite: for open, writable inodes; pipes and the permission check are left out.
- DirCode.Dirlookup: the caller passes a directory, otherwise the source panics; taking a reference to the inode found is left out.
- DirCode.Unlink: link counts and the check that a directory is empty are left out.
- BioCode.BufferCache.Bget: uniqueness and coherence are for devices other than 0, since every buffer starts with the tag (0, 0).
- BioCode.BufferCache.Unlock: callers hand a changed buffer to log_write or bwrite before they release it.
- BioCode.BufferCache.Fill: blocks exist on the disk; the holder of the lock calls it.
- VmCode.Memory.Allocuvm: no page between the two sizes is mapped yet, as for every caller growing a process from its own size.
- VmCode.Memory.Deallocuvm: oldsz is at most KERNBASE, as for every caller; above that the address could wrap.
- VmCode.Memory.Mappages: a non-empty range that does not pass the end of the address space; user pages are mapped to frames just allocated.
- VmCode.Memory.Copyuvm: sz is at most KERNBASE; words of a page stand for its bytes.
- SleepLock.StepInv: spinlocks are taken in one step; a process inside the lock's code does not exit.
- LogSleep.StepInv: spinlocks are taken in one step; commit is one step, which LogProtocol takes apart into its block writes, and of log_write only the part under log.lock is a step, since its guard changes nothing here.
- LogOverrun.AtomicityFails: the model follows an overrun up to the block write that spills over, not through the rest of that commit.
- ShellCode.Parser.ParseExec: the command node that later arguments are added to through a pointer is built once all its arguments and redirections are known.
- Pipe.RingPipe.Write: covers one stretch under the lock; sleeping and waking are the subject of PipeSleep.
- Pipe.RingPipe.Close: the wakeup is the subject of PipeSleep.
- PipeSleep.WakeAllJustified: a stretch under p->lock is one step, sleep and wakeup included; a process inside piperead or pipewrite keeps its end open.
