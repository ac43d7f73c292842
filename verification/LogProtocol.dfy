/**
The write-ahead log of src/log.c as a protocol: every interleaving of system calls,
cache reads and evictions, the block writes of commit(), power failures, and the block
writes of recover_from_log(). A step is one critical section, one disk block write, or the guard
of log_write, which reads log.lh.n without a lock: a Crash step can fall between any two block writes,
and other log_writes between the guard of one and its append.
*/
module LogProtocol {
  import opened Common

  type Block = seq<bv8>
  type Home = map<nat, Block>
  type Tid = nat

  /** Where mkfs puts the log: its header, then its log blocks, then the blocks of the inodes. */
  const LOGSTART: nat := 2

  /** The persistent state: the log header block, the log data blocks behind it, and the
      file-system blocks at their home locations. */
  datatype Disk = Disk(header: seq<nat>, slot: seq<Block>, home: Home)

  /** Where the committing (or booting) thread stands. Running is every moment outside
      commit() and recover_from_log(). */
  datatype Phase =
    | Running
    | WriteLog(tail: nat) | WriteHead | InstallTrans(tail: nat) | ClearHead | EndCommit
    | Boot | RecoverInstall(tail: nat) | RecoverClear

  /** cache, dirty (B_DIRTY) and held (buffer sleep locks) are the buffer cache; unlogged are
      buffers modified since their last log_write; ops gives, per system call in progress, how
      many blocks it has added to the log; passed gives, per process that has passed the guard of
      log_write and not yet appended, the block it is about to log. */
  datatype State = State(
    disk: Disk, size: nat,
    cache: map<nat, Block>, dirty: set<nat>, held: map<nat, Tid>, unlogged: set<nat>,
    lh: seq<nat>, ops: map<Tid, nat>, passed: map<Tid, nat>,
    outstanding: int, committing: bool, phase: Phase)

  datatype Step =
    | Begin(t: Tid) | Bread(t: Tid, b: nat) | Modify(t: Tid, b: nat, v: Block)
    | Check(t: Tid, b: nat) | Append(t: Tid, b: nat) | Brelse(t: Tid, b: nat) | Evict(b: nat) | End(t: Tid)
    | PutSlot | SlotsDone | PutHead | PutHome | HomesDone | PutClear | Finish
    | Crash | ReadHead | RecoverPut | RecoverDone | RecoverErase

  // ---------- contents ----------

  function Install(home: Home, hdr: seq<nat>, slot: seq<Block>, k: nat): Home
    requires k <= |hdr| <= |slot|
  {
    if k == 0 then home else Install(home, hdr, slot, k - 1)[hdr[k - 1] := slot[k - 1]]
  }

  /** What a complete, uninterrupted recovery would leave at the home locations. */
  function Recovered(d: Disk): Home
    requires |d.header| <= |d.slot|
  {
    Install(d.home, d.header, d.slot, |d.header|)
  }

  /** What the file-system code sees: the cached copy of a block, else the one on disk. */
  function Logical(s: State): Home {
    Overlay(s.disk.home, s.cache)
  }

  function Overlay(home: Home, cache: map<nat, Block>): Home {
    map b | b in home :: if b in cache then cache[b] else home[b]
  }

  predicate Recovering(p: Phase) {
    p.Boot? || p.RecoverInstall? || p.RecoverClear?
  }

  predicate Committing(p: Phase) {
    p.WriteLog? || p.WriteHead? || p.InstallTrans? || p.ClearHead? || p.EndCommit?
  }

  // ---------- transitions ----------

  /** The guard of log_write: "too big a transaction". */
  predicate LogWritePanics(s: State) {
    |s.lh| >= LOGSIZE || |s.lh| >= s.size - 1 || s.outstanding < 1
  }

  /** begin_op goes ahead (it sleeps otherwise). */
  predicate MayBegin(s: State) {
    !s.committing && |s.lh| + (s.outstanding + 1) * MAXOPBLOCKS <= LOGSIZE
  }

  /** bget finds buffers for the blocks bs and for `logs` blocks of the log beside those that are pinned
      or in use (src/bio.c:77-91); BioFull.FindsByBlock is where this comes from. */
  predicate Room(s: State, bs: set<nat>, logs: nat) {
    |s.dirty + s.held.Keys + bs| + logs <= NBUF
  }

  /** A step is enabled when the code would take it without sleeping or panicking, by callers
      that keep the discipline of src/log.c: buffers are modified inside an operation and
      logged before they are released. A process inside log_write does nothing else. bget panics when it
      finds no buffer, so a step that reads a block needs one; a buffer that a process only waits for
      counts as free here, which allows more runs than the code has. */
  predicate Enabled(s: State, step: Step) {
    match step
    case Begin(t) => !Recovering(s.phase) && t !in s.ops && MayBegin(s)
    case Bread(t, b) => !Recovering(s.phase) && b in s.disk.home && b !in s.held && t !in s.passed && Room(s, {b}, 0)
    case Modify(t, b, v) => t in s.ops && b in s.held && s.held[b] == t && t !in s.passed
    case Check(t, b) => t in s.ops && b in s.held && s.held[b] == t && t !in s.passed && !LogWritePanics(s)
    case Append(t, b) => t in s.ops && t in s.passed && s.passed[t] == b
    case Brelse(t, b) => b in s.held && s.held[b] == t && b !in s.unlogged && t !in s.passed
    case Evict(b) => b in s.cache && b !in s.held && b !in s.dirty
    case End(t) => t in s.ops && t !in s.passed && (forall b :: b in s.held ==> s.held[b] != t)
    case PutSlot =>
      && s.phase.WriteLog? && s.phase.tail < |s.lh|
      && s.lh[s.phase.tail] in s.cache && s.lh[s.phase.tail] !in s.held
      && var to := LOGSTART + 1 + s.phase.tail;
      && if s.phase.tail < |s.disk.slot| then Room(s, {s.lh[s.phase.tail]}, 1)
         else to in s.disk.home && to !in s.held && Room(s, {s.lh[s.phase.tail], to}, 0)
    case SlotsDone => s.phase == WriteLog(|s.lh|)
    case PutHead => s.phase.WriteHead? && Room(s, {}, 1)
    case PutHome =>
      && s.phase.InstallTrans? && s.phase.tail < |s.lh| && s.phase.tail < |s.disk.slot|
      && s.lh[s.phase.tail] !in s.held && Room(s, {s.lh[s.phase.tail]}, 1)
    case HomesDone => s.phase == InstallTrans(|s.lh|)
    case PutClear => s.phase.ClearHead? && Room(s, {}, 1)
    case Finish => s.phase.EndCommit?
    case Crash => true
    case ReadHead => s.phase.Boot? && Room(s, {}, 1)
    case RecoverPut =>
      && s.phase.RecoverInstall? && s.phase.tail < |s.lh| && s.phase.tail < |s.disk.slot|
      && Room(s, {s.lh[s.phase.tail]}, 1)
    case RecoverDone => s.phase == RecoverInstall(|s.lh|)
    case RecoverErase => s.phase.RecoverClear? && Room(s, {}, 1)
  }

  function Apply(s: State, step: Step): State
    requires Enabled(s, step)
  {
    match step
    case Begin(t) => s.(ops := s.ops[t := 0], outstanding := s.outstanding + 1)
    case Bread(t, b) =>
      s.(cache := s.cache[b := if b in s.cache then s.cache[b] else s.disk.home[b]],
         held := s.held[b := t])
    case Modify(t, b, v) => s.(cache := s.cache[b := v], unlogged := s.unlogged + {b})
    case Check(t, b) => s.(passed := s.passed[t := b])
    case Append(t, b) =>
      var s' := s.(dirty := s.dirty + {b}, unlogged := s.unlogged - {b}, passed := s.passed - {t});
      if b in s.lh then s' else s'.(lh := s.lh + [b], ops := s.ops[t := s.ops[t] + 1])
    case Brelse(t, b) => s.(held := s.held - {b})
    case Evict(b) => s.(cache := s.cache - {b})
    case End(t) =>
      var s' := s.(ops := s.ops - {t}, outstanding := s.outstanding - 1);
      if s'.outstanding == 0 then s'.(committing := true, phase := WriteLog(0)) else s'
    case PutSlot =>
      var k := s.phase.tail;
      var v := s.cache[s.lh[k]];
      if k < |s.disk.slot| then s.(disk := s.disk.(slot := s.disk.slot[k := v]), phase := WriteLog(k + 1))
      else Spill(s, LOGSTART + 1 + k, v).(phase := WriteLog(k + 1))
    case SlotsDone => s.(phase := if |s.lh| > 0 then WriteHead else EndCommit)
    case PutHead => s.(disk := s.disk.(header := s.lh), phase := InstallTrans(0))
    case PutHome => CopyHome(s).(phase := InstallTrans(s.phase.tail + 1))
    case HomesDone => s.(lh := [], phase := ClearHead)
    case PutClear => s.(disk := s.disk.(header := s.lh), phase := EndCommit)
    case Finish => s.(committing := false, phase := Running)
    case Crash =>
      s.(cache := map[], dirty := {}, held := map[], unlogged := {}, lh := [], ops := map[],
         passed := map[], outstanding := 0, committing := false, phase := Boot)
    case ReadHead => s.(lh := s.disk.header, phase := RecoverInstall(0))
    case RecoverPut => CopyHome(s).(phase := RecoverInstall(s.phase.tail + 1))
    case RecoverDone => s.(lh := [], phase := RecoverClear)
    case RecoverErase => s.(disk := s.disk.(header := s.lh), phase := Running)
  }

  /** write_log past the end of the log area: it reads the block behind into the cache like any other,
      overwrites it and writes it back. */
  function Spill(s: State, to: nat, v: Block): State {
    s.(disk := s.disk.(home := s.disk.home[to := v]), cache := s.cache[to := v], dirty := s.dirty - {to})
  }

  /** One iteration of install_trans: log block `tail` is copied into the cached destination
      buffer, which is written to its home location and is clean afterwards. */
  function CopyHome(s: State): State
    requires s.phase.InstallTrans? || s.phase.RecoverInstall?
    requires s.phase.tail < |s.lh| && s.phase.tail < |s.disk.slot|
  {
    var b, v := s.lh[s.phase.tail], s.disk.slot[s.phase.tail];
    s.(disk := s.disk.(home := s.disk.home[b := v]), cache := s.cache[b := v], dirty := s.dirty - {b})
  }

  /** The append of a new block has a log block to go to. */
  predicate Fits(s: State, step: Step) {
    step.Append? && step.b !in s.lh ==> |s.lh| < |s.disk.slot|
  }

  // ---------- invariant ----------

  ghost predicate WellFormed(s: State) {
    && |s.disk.slot| == s.size - 1
    && |s.disk.header| <= |s.disk.slot| && |s.lh| <= |s.disk.slot|
    && Distinct(s.disk.header) && Distinct(s.lh)
    && (forall b :: b in s.disk.header ==> b in s.disk.home)
    && (forall b :: b in s.lh ==> b in s.disk.home)
    && s.cache.Keys <= s.disk.home.Keys
    && s.held.Keys <= s.cache.Keys && s.unlogged <= s.held.Keys && s.dirty <= s.cache.Keys
    && (forall b :: b in s.unlogged ==> s.held[b] in s.ops)
    && s.passed.Keys <= s.ops.Keys && (forall t :: t in s.passed ==> s.passed[t] in s.held && s.held[s.passed[t]] == t)
    && s.outstanding == |s.ops|
    && s.committing == Committing(s.phase)
    && (!s.phase.Running? ==> s.ops == map[]) && (Recovering(s.phase) ==> s.held == map[])
  }

  /** Every clean buffer equals its home block. */
  ghost predicate CleanIsHome(s: State) {
    forall b :: b in s.cache && b in s.disk.home && b !in s.dirty && b !in s.unlogged ==>
      s.cache[b] == s.disk.home[b]
  }

  ghost predicate Installed(d: Disk, hdr: seq<nat>, k: nat)
    requires k <= |hdr| <= |d.slot|
  {
    forall i :: 0 <= i < k ==> hdr[i] in d.home && d.home[hdr[i]] == d.slot[i]
  }

  ghost predicate Copied(s: State, from: nat, to: nat)
    requires from <= to <= |s.lh| <= |s.disk.slot|
  {
    forall i :: from <= i < to ==> s.lh[i] in s.cache && s.cache[s.lh[i]] == s.disk.slot[i]
  }

  ghost function Logged(lh: seq<nat>, from: nat): set<nat> {
    set i | from <= i < |lh| :: lh[i]
  }

  ghost predicate Pinned(s: State, from: nat) {
    s.dirty == Logged(s.lh, from)
  }

  ghost predicate PhaseInv(s: State)
    requires WellFormed(s)
  {
    match s.phase
    case Running => s.disk.header == [] && Pinned(s, 0) && (s.ops == map[] ==> s.lh == [])
    case WriteLog(k) => s.disk.header == [] && Pinned(s, 0) && k <= |s.lh| && Copied(s, 0, k)
    case WriteHead => s.disk.header == [] && Pinned(s, 0) && Copied(s, 0, |s.lh|)
    case InstallTrans(k) =>
      && s.disk.header == s.lh && k <= |s.lh|
      && Pinned(s, k) && Copied(s, k, |s.lh|) && Installed(s.disk, s.lh, k)
    case ClearHead => s.lh == [] && s.dirty == {} && Installed(s.disk, s.disk.header, |s.disk.header|)
    case EndCommit => s.lh == [] && s.dirty == {} && s.disk.header == []
    case Boot => s.lh == [] && s.dirty == {} && s.cache == map[]
    case RecoverInstall(k) =>
      s.lh == s.disk.header && s.dirty == {} && k <= |s.lh| && Installed(s.disk, s.lh, k)
    case RecoverClear =>
      s.lh == [] && s.dirty == {} && Installed(s.disk, s.disk.header, |s.disk.header|)
  }

  ghost predicate Inv(s: State) {
    WellFormed(s) && CleanIsHome(s) && PhaseInv(s)
  }

  /** No system call is in progress and no commit or recovery is under way. */
  predicate Quiet(s: State) {
    s.phase.Running? && s.ops == map[]
  }
}
