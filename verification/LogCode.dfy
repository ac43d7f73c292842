/**
The code of src/log.c: the global `log`, the buffer cache in front of it and the disk
behind it as one mutable object. Every method performs its block writes one at a time and
records each of them; what it leaves in `run` is a run of the protocol, so the theorems of
LogRuns and LogBuffers hold at each point where power can fail.
*/
module LogCode {
  import opened Common
  import opened LogProtocol
  import opened LogProofs
  import opened LogRuns

  class Log {
    const size: nat
    var disk: Disk
    var cache: map<nat, Block>
    var dirty: set<nat>
    var held: map<nat, Tid>
    var lh: seq<nat>
    var outstanding: int
    var committing: bool
    // Bookkeeping for the proof only.
    ghost var unlogged: set<nat>
    ghost var ops: map<Tid, nat>
    ghost var passed: map<Tid, nat>
    ghost var phase: Phase
    ghost var run: seq<State>
    ghost var steps: seq<Step>

    ghost function Now(): State
      reads this
    {
      State(disk, size, cache, dirty, held, unlogged, lh, ops, passed, outstanding, committing, phase)
    }

    ghost predicate Valid()
      reads this
    {
      IsRun(run, steps) && run[|run| - 1] == Now() && Inv(Now())
    }

    /** Notes that the assignments since the last note, when the state was s, amount to one protocol step. */
    ghost method Note(s: State, step: Step)
      requires IsRun(run, steps) && run[|run| - 1] == s && Inv(s)
      requires Enabled(s, step) && (step.Append? ==> Fits(s, step)) && Now() == Apply(s, step)
      modifies this`run, this`steps
      ensures Valid() && run == old(run) + [Now()] && steps == old(steps) + [step]
    {
      hide Inv, IsRun, Enabled, Apply;
      StepInv(s, step);
      RunMore(run, steps, step);
      run, steps := run + [Now()], steps + [step];
    }

    /** initlog before recovery: nothing is known but the disk. */
    constructor (size: nat, disk: Disk)
      requires |disk.slot| == size - 1 && |disk.header| <= |disk.slot| && Distinct(disk.header)
      requires forall b :: b in disk.header ==> b in disk.home
      ensures Valid() && phase == Boot && this.disk == disk && this.size == size && run == [Now()]
    {
      this.size, this.disk := size, disk;
      cache, dirty, held, unlogged := map[], {}, map[], {};
      lh, ops, passed, outstanding, committing := [], map[], map[], 0, false;
      phase := Boot;
      run, steps := [State(disk, size, map[], {}, map[], {}, [], map[], map[], 0, false, Boot)], [];
    }

    // ---------- buffers ----------

    /** bread, once nobody holds the buffer. Panics exactly when the block is not pinned and every buffer
        is pinned or in use. */
    method Bread(t: Tid, b: nat) returns (panics: bool)
      requires Valid() && !Recovering(phase) && b in disk.home && b !in held && t !in passed
      modifies this`cache, this`held, this`run, this`steps
      ensures Valid() && (panics <==> |dirty + old(held.Keys) + {b}| > NBUF)
      ensures panics ==> run == old(run) && held == old(held) && cache == old(cache)
      ensures !panics ==> run == old(run) + [Now()] && held == old(held)[b := t]
      ensures Logical(Now()) == old(Logical(Now())) && (!panics ==> b in cache && cache[b] == Logical(Now())[b])
    {
      hide Inv, IsRun, Logical;
      panics := |dirty + held.Keys + {b}| > NBUF;
      if !panics { Take(t, b); }
    }

    /** bread with a buffer for the block. */
    method Take(t: Tid, b: nat)
      requires Valid() && !Recovering(phase) && b in disk.home && b !in held && t !in passed && Room(Now(), {b}, 0)
      modifies this`cache, this`held, this`run, this`steps
      ensures Valid() && run == old(run) + [Now()] && held == old(held)[b := t]
      ensures Logical(Now()) == old(Logical(Now())) && b in cache && cache[b] == Logical(Now())[b]
    {
      hide Inv, IsRun, Room;
      ghost var s := Now();
      StepLogical(s, LogProtocol.Bread(t, b));
      cache := cache[b := if b in cache then cache[b] else disk.home[b]];
      held := held[b := t];
      Note(s, LogProtocol.Bread(t, b));
    }

    /** The holder changes the buffer, inside an operation. */
    method Modify(ghost t: Tid, b: nat, v: Block)
      requires Valid() && t in ops && b in held && held[b] == t && t !in passed
      modifies this`cache, this`unlogged, this`run, this`steps
      ensures Valid() && run == old(run) + [Now()] && b in disk.home && Logical(Now()) == old(Logical(Now()))[b := v]
    {
      HeldHome(Now(), b);
      hide Inv, IsRun;
      ghost var s := Now();
      cache := cache[b := v];
      unlogged := unlogged + {b};
      Note(s, LogProtocol.Modify(t, b, v));
    }

    /** brelse of a buffer whose changes have been logged. */
    method Brelse(ghost t: Tid, b: nat)
      requires Valid() && b in held && held[b] == t && b !in unlogged && t !in passed
      modifies this`held, this`run, this`steps
      ensures Valid() && run == old(run) + [Now()] && held == old(held) - {b} && Logical(Now()) == old(Logical(Now()))
    {
      hide Inv, IsRun;
      ghost var s := Now();
      held := held - {b};
      Note(s, LogProtocol.Brelse(t, b));
    }

    // ---------- commit and recovery ----------

    /** write_log: copy modified blocks from the cache to the log. It panics exactly when there is something
        to write and no buffer to read the first log block into, before it has written anything. */
    method WriteLog() returns (panics: bool)
      requires Valid() && phase == LogProtocol.WriteLog(0) && Unheld(lh, held)
      modifies this`disk, this`phase, this`run, this`steps
      ensures Valid() && old(run) <= run && (panics <==> lh != [] && !Spare(dirty, held))
      ensures if panics then run == old(run) && disk == old(disk) && phase == old(phase)
              else phase == LogProtocol.WriteLog(|lh|)
      ensures Logical(Now()) == old(Logical(Now()))
    {
      hide Logical, Inv, IsRun, Spare, Room, Enabled, Apply;
      var tail := 0;
      while tail < |lh|
        invariant tail <= |lh| && phase == LogProtocol.WriteLog(tail)
        invariant Valid() && old(run) <= run && Logical(Now()) == old(Logical(Now()))
        invariant if tail == 0 then run == old(run) && disk == old(disk) else Spare(dirty, held)
      {
        panics := !Spare(dirty, held);
        if panics { return; }
        WriteOne(tail);
        tail := tail + 1;
      }
      panics := false;
    }

    /** One iteration of write_log. */
    method WriteOne(tail: nat)
      requires Valid() && phase == LogProtocol.WriteLog(tail) && tail < |lh| && lh[tail] !in held && Spare(dirty, held)
      modifies this`disk, this`phase, this`run, this`steps
      ensures Valid() && run == old(run) + [Now()] && phase == LogProtocol.WriteLog(tail + 1)
      ensures Logical(Now()) == old(Logical(Now()))
    {
      hide Logical, Inv, IsRun, Spare, Room, Enabled, Apply;
      ghost var s := Now();
      WriteStep(s);
      disk := disk.(slot := disk.slot[tail := cache[lh[tail]]]);
      phase := LogProtocol.WriteLog(tail + 1);
      Note(s, PutSlot);
    }

    /** write_head: one block write puts the in-memory header on disk. `step` says which of the
        three header writes of the protocol this is. */
    method WriteHead(ghost step: Step)
      requires Valid() && (step.PutHead? || step.PutClear? || step.RecoverErase?) && Spare(dirty, held)
      requires phase == if step.PutHead? then LogProtocol.WriteHead else if step.PutClear? then ClearHead
               else RecoverClear
      modifies this`disk, this`phase, this`run, this`steps
      ensures Valid() && run == old(run) + [Now()] && steps == old(steps) + [step]
      ensures disk == old(disk).(header := lh) && phase == AfterHeader(step)
    {
      hide Inv, IsRun, Apply, Enabled, Spare, Fits;
      ghost var s := Now();
      HeaderStep(s, step);
      disk := disk.(header := lh);
      phase := AfterHeader(step);
      Note(s, step);
    }

    /** One iteration of install_trans. */
    method InstallOne(tail: nat)
      requires Valid() && tail < |lh| && lh[tail] !in held && Spare(dirty, held)
      requires phase == LogProtocol.InstallTrans(tail) || phase == RecoverInstall(tail)
      modifies this`disk, this`cache, this`dirty, this`phase, this`run, this`steps
      ensures Valid() && run == old(run) + [Now()] && phase == NextTail(old(phase)) && Spare(dirty, held)
      ensures tail < |disk.slot| && disk == old(disk).(home := old(disk).home[lh[tail] := disk.slot[tail]])
    {
      hide Recovered, Inv, IsRun, Apply, Enabled, Room, Spare, NextTail, Copying;
      ghost var s, step := Now(), Copying(phase);
      InstallStep(s, step);
      var b, v := lh[tail], disk.slot[tail];
      SpareMore(dirty, held, b);
      cache, disk, dirty := cache[b := v], disk.(home := disk.home[b := v]), dirty - {b};
      phase := NextTail(phase);
      Note(s, step);
    }

    /** install_trans: copy committed blocks from the log to their home locations. */
    method InstallTrans()
      requires Valid() && Unheld(lh, held) && Spare(dirty, held)
      requires phase == LogProtocol.InstallTrans(0) || phase == RecoverInstall(0)
      modifies this`disk, this`cache, this`dirty, this`phase, this`run, this`steps
      ensures Valid() && old(run) <= run && disk.header == old(disk.header)
      ensures phase == if old(phase).InstallTrans? then LogProtocol.InstallTrans(|lh|) else RecoverInstall(|lh|)
      ensures Recovered(disk) == old(Recovered(disk)) && disk.home == Recovered(disk) && Spare(dirty, held)
    {
      hide Recovered, Inv, IsRun, Spare, Installed, Enabled, Apply;
      InstallShape(Now());
      var tail := 0;
      while tail < |lh|
        invariant tail <= |lh|
        invariant phase == if old(phase).InstallTrans? then LogProtocol.InstallTrans(tail) else RecoverInstall(tail)
        invariant Valid() && old(run) <= run && disk.header == old(disk.header)
        invariant |disk.header| <= |disk.slot| && Recovered(disk) == old(Recovered(disk)) && Spare(dirty, held)
      {
        InstallStep(Now(), Copying(phase));
        InstallOne(tail);
        tail := tail + 1;
      }
      InstallShape(Now());
      RecoveredInstalled(disk);
    }

    /** The first half of commit, up to the header write that makes the transaction durable. */
    method CommitToLog() returns (panics: bool)
      requires Valid() && phase == LogProtocol.WriteLog(0) && Unheld(lh, held) && lh != []
      modifies this`disk, this`phase, this`run, this`steps
      ensures Valid() && old(run) <= run && (panics <==> !Spare(dirty, held))
      ensures panics ==> run == old(run) && disk == old(disk) && phase == old(phase)
      ensures !panics ==> phase == LogProtocol.InstallTrans(0)
      ensures !panics ==> |disk.header| <= |disk.slot| && Recovered(disk) == old(Logical(Now()))
    {
      hide Logical, Recovered, Inv, IsRun, Apply, Enabled, Spare;
      panics := WriteLog();
      if panics { return; }
      ghost var s := Now();
      ControlStep(s, SlotsDone);
      StepLogical(s, SlotsDone);
      phase := LogProtocol.WriteHead;
      Note(s, SlotsDone);
      HeaderStep(Now(), PutHead);
      StepRecovered(Now(), PutHead);
      WriteHead(PutHead);
      InstallShape(Now());
    }

    /** commit: afterwards the home blocks are what the operations of the transaction saw. It panics exactly
        when blocks are logged and every buffer is pinned or in use, with the disk untouched; once it has
        read the first log block it finds every other buffer it needs. */
    method Commit() returns (panics: bool)
      requires Valid() && phase == LogProtocol.WriteLog(0) && Unheld(lh, held)
      modifies this`disk, this`cache, this`dirty, this`lh, this`phase, this`run, this`steps
      ensures Valid() && old(run) <= run && (panics <==> old(lh != [] && !Spare(dirty, held)))
      ensures panics ==> run == old(run) && disk == old(disk) && phase == old(phase)
      ensures !panics ==> phase == EndCommit && disk.home == old(Logical(Now())) && disk.header == [] && lh == []
    {
      hide Logical, Recovered, Inv, IsRun, Apply, Enabled, Spare;
      panics := false;
      if |lh| > 0 {
        panics := CommitToLog();
        if panics { return; }
        InstallTrans();
        ClearLog();
      } else {
        ghost var s := Now();
        NothingLogged(s);
        ControlStep(s, SlotsDone);
        phase := EndCommit;
        Note(s, SlotsDone);
      }
    }

    /** The end of commit. */
    method ClearLog()
      requires Valid() && phase == LogProtocol.InstallTrans(|lh|) && Spare(dirty, held)
      modifies this`disk, this`lh, this`phase, this`run, this`steps
      ensures Valid() && old(run) <= run && phase == EndCommit && disk == old(disk).(header := []) && lh == []
    {
      hide Inv, IsRun, Apply, Enabled, Spare;
      ghost var s := Now();
      ControlStep(s, HomesDone);
      lh := [];
      phase := ClearHead;
      Note(s, HomesDone);
      WriteHead(PutClear);
    }

    /** read_head: the header on disk becomes the in-memory one. */
    method ReadHead()
      requires Valid() && phase == Boot
      modifies this`lh, this`phase, this`run, this`steps
      ensures Valid() && run == old(run) + [Now()] && phase == RecoverInstall(0) && lh == disk.header
    {
      hide Inv, IsRun, Apply, Enabled;
      ghost var s := Now();
      BootHeld(s);
      ControlStep(s, LogProtocol.ReadHead);
      lh := disk.header;
      phase := RecoverInstall(0);
      Note(s, LogProtocol.ReadHead);
    }

    /** log.lh.n = 0 in recover_from_log. */
    method DropLog()
      requires Valid() && phase == RecoverInstall(|lh|)
      modifies this`lh, this`phase, this`run, this`steps
      ensures Valid() && run == old(run) + [Now()] && phase == RecoverClear && lh == []
    {
      hide Inv, IsRun, Apply, Enabled;
      ghost var s := Now();
      ControlStep(s, RecoverDone);
      lh := [];
      phase := RecoverClear;
      Note(s, RecoverDone);
    }

    /** recover_from_log, at boot: replays whatever the header names and erases it. */
    method RecoverFromLog()
      requires Valid() && phase == Boot
      modifies this`disk, this`cache, this`dirty, this`lh, this`phase, this`run, this`steps
      ensures Valid() && old(run) <= run && phase == Running
      ensures disk.home == old(Recovered(disk)) && disk.header == [] && lh == []
    {
      hide Recovered, Inv, IsRun, Apply, Enabled, Spare, Room;
      BootHeld(Now());
      ReadHead();
      InstallTrans();
      EraseLog();
    }

    /** The end of recover_from_log. */
    method EraseLog()
      requires Valid() && phase == RecoverInstall(|lh|) && Spare(dirty, held)
      modifies this`disk, this`lh, this`phase, this`run, this`steps
      ensures Valid() && old(run) <= run && phase == Running && disk == old(disk).(header := []) && lh == []
    {
      hide Inv, IsRun, Apply, Enabled, Spare;
      DropLog();
      WriteHead(RecoverErase);
    }

    /** begin_op: goes ahead exactly when no commit is running and the log has room for one more
        full reservation; `false` stands for going to sleep. */
    method BeginOp(ghost t: Tid) returns (ok: bool)
      requires Valid() && t !in ops && !Recovering(phase)
      modifies this`outstanding, this`ops, this`run, this`steps
      ensures Valid() && old(run) <= run
      ensures ok <==> old(MayBegin(Now()))
      ensures ops == if ok then old(ops)[t := 0] else old(ops)
      ensures outstanding == |ops|
    {
      ok := !committing && |lh| + (outstanding + 1) * MAXOPBLOCKS <= LOGSIZE;
      if ok {
        ghost var s := Now();
        outstanding := outstanding + 1;
        ops := ops[t := 0];
        Note(s, Begin(t));
      }
    }

    /** The guard of log_write, which reads log.lh.n without log.lock. */
    method CheckRoom(ghost t: Tid, ghost b: nat) returns (panics: bool)
      requires Valid() && t in ops && b in held && held[b] == t && t !in passed
      modifies this`passed, this`run, this`steps
      ensures Valid() && old(run) <= run && (panics <==> old(LogWritePanics(Now())))
      ensures if panics then run == old(run) && passed == old(passed)
              else run == old(run) + [Now()] && passed == old(passed)[t := b]
    {
      hide Inv, IsRun;
      panics := |lh| >= LOGSIZE || |lh| >= size - 1 || outstanding < 1;
      if panics { return; }
      ghost var s := Now();
      passed := passed[t := b];
      Note(s, Check(t, b));
    }

    /** The rest of log_write, under log.lock: records the block once (absorbing repeated writes) and pins
        its buffer. By then others may have appended, and the block may no longer fit in the log area. */
    method Append(ghost t: Tid, b: nat)
      requires Valid() && t in ops && t in passed && passed[t] == b
      modifies this`lh, this`dirty, this`ops, this`passed, this`unlogged, this`run, this`steps
      ensures IsRun(run, steps) && run == old(run) + [Now()]
      ensures lh == (if b in old(lh) then old(lh) else old(lh) + [b])
      ensures dirty == old(dirty) + {b} && unlogged == old(unlogged) - {b} && passed == old(passed) - {t}
      ensures Valid() <==> b in old(lh) || |old(lh)| < size - 1
    {
      hide IsRun, Inv, Enabled, Apply;
      ghost var s := Now();
      SlotCount(s);
      AppendStep(s, t, b);
      Record(t, b);
      ghost var step := LogProtocol.Append(t, b);
      if b in old(lh) || |old(lh)| < size - 1 {
        Note(s, step);
      } else {
        OverNotInv(Now());
        RunMore(run, steps, step);
        run, steps := run + [Now()], steps + [step];
      }
    }

    /** The assignments of log_write. */
    method Record(ghost t: Tid, b: nat)
      requires t in ops
      modifies this`lh, this`dirty, this`ops, this`passed, this`unlogged
      ensures lh == (if b in old(lh) then old(lh) else old(lh) + [b])
      ensures dirty == old(dirty) + {b} && unlogged == old(unlogged) - {b} && passed == old(passed) - {t}
      ensures ops == if b in old(lh) then old(ops) else old(ops)[t := old(ops)[t] + 1]
    {
      ops := if b in lh then ops else ops[t := ops[t] + 1];
      var i := FindLogged(b);
      lh := if i == |lh| then lh + [b] else lh[i := b];
      dirty, unlogged, passed := dirty + {b}, unlogged - {b}, passed - {t};
    }

    /** The loop of log_write: where the block is logged, |lh| if it is not. */
    method FindLogged(b: nat) returns (i: nat)
      ensures i <= |lh| && (i < |lh| <==> b in lh) && (i < |lh| ==> lh[i] == b)
    {
      i := 0;
      while i < |lh|
        invariant i <= |lh| && b !in lh[..i]
      {
        if lh[i] == b { return; }
        i := i + 1;
      }
    }

    /** log_write with nobody in between. */
    method LogWrite(ghost t: Tid, b: nat) returns (panics: bool)
      requires Valid() && t in ops && b in held && held[b] == t && t !in passed
      modifies this`lh, this`dirty, this`ops, this`passed, this`unlogged, this`run, this`steps
      ensures Valid() && old(run) <= run
      ensures panics <==> old(LogWritePanics(Now()))
      ensures panics ==> run == old(run)
      ensures !panics ==>
                && lh == (if b in old(lh) then old(lh) else old(lh) + [b])
                && dirty == old(dirty) + {b} && unlogged == old(unlogged) - {b} && passed == old(passed)
    {
      hide Inv, IsRun;
      panics := CheckRoom(t, b);
      if panics { return; }
      Append(t, b);
      assert old(passed)[t := b] - {t} == old(passed);
    }

    /** The first critical section of end_op. Its panic("log.committing") cannot fire. */
    method LeaveOp(ghost t: Tid) returns (doCommit: bool)
      requires Valid() && t in ops && t !in passed && forall b :: b in held ==> held[b] != t
      modifies this`outstanding, this`ops, this`committing, this`phase, this`run, this`steps
      ensures Valid() && run == old(run) + [Now()] && ops == old(ops) - {t}
      ensures outstanding == old(outstanding) - 1 && !old(committing)
      ensures doCommit <==> outstanding == 0
      ensures doCommit ==> phase == LogProtocol.WriteLog(0) && ops == map[]
      ensures !doCommit ==> phase == Running && !committing
      ensures Logical(Now()) == old(Logical(Now()))
    {
      hide Logical, Inv, IsRun, Enabled, Apply;
      ghost var s := Now();
      EndStep(s, t);
      OpRunning(s, t);
      StepLogical(s, End(t));
      outstanding := outstanding - 1;
      ops := ops - {t};
      assert !committing;
      doCommit := outstanding == 0;
      if doCommit {
        committing := true;
        phase := LogProtocol.WriteLog(0);
      }
      Note(s, End(t));
    }

    /** end_op: the last operation to end commits the group. When the call returns with no
        operation outstanding, everything done so far is on disk at its home location. It panics exactly
        when commit does, with nothing written. */
    method EndOp(ghost t: Tid) returns (panics: bool)
      requires Valid() && t in ops && t !in passed && (forall b :: b in held ==> held[b] != t)
      requires outstanding == 1 ==> Unheld(lh, held)
      modifies this
      ensures Valid() && old(run) <= run && ops == old(ops) - {t} && outstanding == old(outstanding) - 1
      ensures panics <==> outstanding == 0 && old(lh != [] && !Spare(dirty, held))
      ensures panics ==> disk == old(disk)
      ensures !panics ==> !committing && phase == Running
      ensures !panics && outstanding == 0 ==> ops == map[] && disk.home == old(Logical(Now()))
    {
      hide Logical, Inv, IsRun, Apply, Enabled, Spare;
      var doCommit := LeaveOp(t);
      panics := false;
      if doCommit {
        panics := Commit();
        if panics { return; }
        ghost var s := Now();
        ControlStep(s, Finish);
        committing := false;
        phase := Running;
        Note(s, Finish);
      }
    }

    /** Power failure: everything but the disk is lost. */
    method PowerFail()
      requires Valid()
      modifies this
      ensures Valid() && old(run) <= run && disk == old(disk) && phase == Boot
    {
      hide Inv, IsRun, Apply, Enabled, Fits;
      ghost var s := Now();
      CrashStep(s);
      Forget();
      Note(s, Crash);
    }

    /** What is in memory goes. */
    method Forget()
      modifies this`cache, this`dirty, this`held, this`lh, this`outstanding, this`committing
      modifies this`unlogged, this`ops, this`passed, this`phase
      ensures cache == map[] && dirty == {} && held == map[] && lh == [] && outstanding == 0 && !committing
      ensures unlogged == {} && ops == map[] && passed == map[] && phase == Boot
    {
      cache, dirty, held, unlogged := map[], {}, map[], {};
      lh, ops, passed, outstanding, committing := [], map[], map[], 0, false;
      phase := Boot;
    }
  }

  /** bget has a buffer for one more block: fewer than NBUF are pinned or in use. */
  predicate Spare(dirty: set<nat>, held: map<nat, Tid>) {
    |dirty + held.Keys| < NBUF
  }

  lemma SpareMore(dirty: set<nat>, held: map<nat, Tid>, b: nat)
    requires Spare(dirty, held)
    ensures Spare(dirty - {b}, held)
  {
    Fewer(dirty - {b} + held.Keys, dirty + held.Keys);
  }

  /** The steps that move control only. */
  lemma ControlStep(s: State, step: Step)
    ensures step.SlotsDone? && s.phase == WriteLog(|s.lh|) ==>
              Enabled(s, step) && Apply(s, step) == s.(phase := if |s.lh| > 0 then WriteHead else EndCommit)
    ensures step.HomesDone? && s.phase == InstallTrans(|s.lh|) ==>
              Enabled(s, step) && Apply(s, step) == s.(lh := [], phase := ClearHead)
    ensures step.Finish? && s.phase == EndCommit ==>
              Enabled(s, step) && Apply(s, step) == s.(committing := false, phase := Running)
    ensures step.ReadHead? && s.phase == Boot && Room(s, {}, 1) ==>
              Enabled(s, step) && Apply(s, step) == s.(lh := s.disk.header, phase := RecoverInstall(0))
    ensures step.RecoverDone? && s.phase == RecoverInstall(|s.lh|) ==>
              Enabled(s, step) && Apply(s, step) == s.(lh := [], phase := RecoverClear)
  {
  }

  /** The three header writes. */
  lemma HeaderStep(s: State, step: Step)
    requires step.PutHead? || step.PutClear? || step.RecoverErase?
    requires s.phase == if step.PutHead? then WriteHead else if step.PutClear? then ClearHead else RecoverClear
    requires Spare(s.dirty, s.held)
    ensures Enabled(s, step)
    ensures Apply(s, step) == s.(disk := s.disk.(header := s.lh), phase := AfterHeader(step))
  {
    assert s.dirty + s.held.Keys + {} == s.dirty + s.held.Keys;
  }

  lemma CopyStep(s: State, step: Step)
    requires s.phase.InstallTrans? || s.phase.RecoverInstall?
    requires s.phase.tail < |s.lh| <= |s.disk.slot| && s.lh[s.phase.tail] !in s.held
    requires step == (if s.phase.InstallTrans? then PutHome else RecoverPut) && Room(s, {s.lh[s.phase.tail]}, 1)
    ensures Enabled(s, step)
    ensures Apply(s, step).disk == s.disk.(home := s.disk.home[s.lh[s.phase.tail] := s.disk.slot[s.phase.tail]])
    ensures Apply(s, step) == s.(
              disk := Apply(s, step).disk,
              cache := s.cache[s.lh[s.phase.tail] := s.disk.slot[s.phase.tail]],
              dirty := s.dirty - {s.lh[s.phase.tail]},
              phase := if s.phase.InstallTrans? then InstallTrans(s.phase.tail + 1)
                else RecoverInstall(s.phase.tail + 1))
  {
  }

  /** The step of the protocol that an iteration of install_trans is, in commit and in recovery. */
  ghost function Copying(p: Phase): Step {
    if p.InstallTrans? then PutHome else RecoverPut
  }

  ghost function NextTail(p: Phase): Phase
    requires p.InstallTrans? || p.RecoverInstall?
  {
    if p.InstallTrans? then InstallTrans(p.tail + 1) else RecoverInstall(p.tail + 1)
  }

  /** One iteration of install_trans, with a buffer to spare. */
  lemma InstallStep(s: State, step: Step)
    requires Inv(s) && (s.phase.InstallTrans? || s.phase.RecoverInstall?) && s.phase.tail < |s.lh|
    requires s.lh[s.phase.tail] !in s.held && Spare(s.dirty, s.held)
    requires step == Copying(s.phase)
    ensures !step.Append? && |s.lh| <= |s.disk.slot| && |s.disk.header| <= |s.disk.slot| && Enabled(s, step)
    ensures var b, v := s.lh[s.phase.tail], s.disk.slot[s.phase.tail];
            Apply(s, step) == s.(
              disk := s.disk.(home := s.disk.home[b := v]), cache := s.cache[b := v], dirty := s.dirty - {b},
              phase := NextTail(s.phase))
    ensures |Apply(s, step).disk.header| <= |Apply(s, step).disk.slot|
    ensures Recovered(Apply(s, step).disk) == Recovered(s.disk)
  {
    hide Recovered, Inv, Apply, Enabled, Room, Spare, Installed, Distinct;
    InstallShape(s);
    InstallRoom(s);
    CopyStep(s, step);
    StepRecovered(s, step);
  }

  ghost function AfterHeader(step: Step): Phase {
    if step.PutHead? then InstallTrans(0) else if step.PutClear? then EndCommit else Running
  }

  lemma CrashStep(s: State)
    ensures Enabled(s, Crash)
    ensures Apply(s, Crash) == State(s.disk, s.size, map[], {}, map[], {}, [], map[], map[], 0, false, Boot)
  {
  }

  lemma AppendStep(s: State, t: Tid, b: nat)
    requires t in s.ops && t in s.passed && s.passed[t] == b
    ensures Enabled(s, Append(t, b))
    ensures Apply(s, Append(t, b)) ==
              s.(dirty := s.dirty + {b}, unlogged := s.unlogged - {b}, passed := s.passed - {t},
                 lh := if b in s.lh then s.lh else s.lh + [b],
                 ops := if b in s.lh then s.ops else s.ops[t := s.ops[t] + 1])
  {
  }

  lemma EndStep(s: State, t: Tid)
    requires t in s.ops && t !in s.passed && forall b :: b in s.held ==> s.held[b] != t
    ensures Enabled(s, End(t))
    ensures var last := s.outstanding == 1;
            Apply(s, End(t)) ==
              s.(ops := s.ops - {t}, outstanding := s.outstanding - 1,
                 committing := s.committing || last, phase := if last then WriteLog(0) else s.phase)
  {
  }

  lemma SlotCount(s: State)
    requires Inv(s)
    ensures |s.disk.slot| == s.size - 1
  {
  }

  lemma OverNotInv(s: State)
    requires |s.lh| > s.size - 1
    ensures !Inv(s)
  {
  }

  lemma RunMore(run: seq<State>, steps: seq<Step>, step: Step)
    requires IsRun(run, steps) && Enabled(run[|run| - 1], step)
    ensures IsRun(run + [Apply(run[|run| - 1], step)], steps + [step])
  {
    hide Enabled, Apply;
  }

  lemma LoggedCached(s: State, k: nat)
    requires Inv(s) && s.phase == WriteLog(k) && k < |s.lh|
    ensures s.lh[k] in s.cache && |s.lh| <= |s.disk.slot| && !Recovering(s.phase)
    ensures Spare(s.dirty, s.held) ==> Room(s, {s.lh[k]}, 1)
  {
    hide Distinct, CleanIsHome, Copied;
    assert s.lh[k] in s.dirty;
    assert s.dirty + s.held.Keys + {s.lh[k]} == s.dirty + s.held.Keys;
  }

  /** One iteration of write_log, with a buffer to spare. */
  lemma WriteStep(s: State)
    requires Inv(s) && s.phase.WriteLog? && s.phase.tail < |s.lh|
    requires s.lh[s.phase.tail] !in s.held && Spare(s.dirty, s.held)
    ensures s.phase.tail < |s.disk.slot| && s.lh[s.phase.tail] in s.cache && Enabled(s, PutSlot)
    ensures Apply(s, PutSlot) ==
              s.(disk := s.disk.(slot := s.disk.slot[s.phase.tail := s.cache[s.lh[s.phase.tail]]]),
                 phase := WriteLog(s.phase.tail + 1))
    ensures Logical(Apply(s, PutSlot)) == Logical(s)
  {
    hide Logical, Inv, Spare, Room, Enabled, Apply;
    LoggedCached(s, s.phase.tail);
    PutSlotIs(s);
    StepLogical(s, PutSlot);
  }

  /** Its destination is pinned in commit; in recovery nothing is in use. */
  lemma InstallRoom(s: State)
    requires Inv(s) && (s.phase.InstallTrans? || s.phase.RecoverInstall?) && s.phase.tail < |s.lh|
    requires Spare(s.dirty, s.held)
    ensures Room(s, {s.lh[s.phase.tail]}, 1)
  {
    hide Distinct, CleanIsHome, Copied, Installed;
    if s.phase.InstallTrans? {
      assert s.lh[s.phase.tail] in s.dirty;
      assert s.dirty + s.held.Keys + {s.lh[s.phase.tail]} == s.dirty + s.held.Keys;
    } else {
      assert s.dirty + s.held.Keys + {s.lh[s.phase.tail]} == {s.lh[s.phase.tail]};
    }
  }

  lemma InstallShape(s: State)
    requires Inv(s) && (s.phase.InstallTrans? || s.phase.RecoverInstall?)
    ensures |s.lh| <= |s.disk.slot| && s.disk.header == s.lh && Distinct(s.lh) && s.phase.tail <= |s.lh|
    ensures Installed(s.disk, s.lh, s.phase.tail)
  {
  }

  lemma NothingLogged(s: State)
    requires Inv(s) && s.phase == WriteLog(0) && s.lh == []
    ensures Logical(s) == s.disk.home && s.disk.header == []
  {
    assert s.dirty == {} && s.unlogged == {};
  }

  lemma OpRunning(s: State, t: Tid)
    requires Inv(s) && t in s.ops
    ensures s.phase.Running? && !s.committing && s.ops != map[]
    ensures s.outstanding == 1 ==> s.ops - {t} == map[]
  {
    var rest := s.ops - {t};
    assert rest.Keys == s.ops.Keys - {t};
    if s.outstanding == 1 {
      assert |rest.Keys| == 0;
    }
  }

  /** Nobody holds a logged block. */
  ghost predicate Unheld(lh: seq<nat>, held: map<nat, Tid>) {
    forall b :: b in lh ==> b !in held
  }

  lemma HeldHome(s: State, b: nat)
    requires Inv(s) && b in s.held
    ensures b in s.disk.home && b in s.cache
  {
  }

  lemma BootHeld(s: State)
    requires Inv(s) && s.phase.Boot?
    ensures s.held == map[] && Spare(s.dirty, s.held) && Room(s, {}, 1)
  {
    assert s.dirty + s.held.Keys == {} && s.dirty + s.held.Keys + {} == {};
  }
}
