/** Process ids over whole runs: those in use are distinct, so kill and setpriority, which stop at the
    first process with the pid they are given, act on the one process that has it. */
module ProcPids {
  import opened ProcSpec
  import opened ProcExit
  import opened ProcRuns
  import opened ProcBoot

  predicate InUse(t: Table, p: int) {
    0 <= p < |t.procs| && t.procs[p].state != UNUSED
  }

  /** Every pid was handed out before nextpid, and no two processes in use share one. */
  ghost predicate Pids(t: Table) {
    && |t.procs| == NPROC && t.nextpid > 0
    && (forall p :: InUse(t, p) ==> 0 < t.procs[p].pid < t.nextpid)
    && (forall p, r :: InUse(t, p) && InUse(t, r) && t.procs[p].pid == t.procs[r].pid ==> p == r)
  }

  /** From t to t' no process got a pid or came into use. */
  ghost predicate PidsKept(t: Table, t': Table) {
    && |t.procs| == |t'.procs| == NPROC && t'.nextpid == t.nextpid
    && (forall p :: InUse(t', p) ==> InUse(t, p) && t'.procs[p].pid == t.procs[p].pid)
  }

  lemma KeptPids(t: Table, t': Table)
    requires Pids(t) && PidsKept(t, t')
    ensures Pids(t')
  {
  }

  lemma MoveKept(t: Table, p: nat, np: Proc)
    requires Shape(t) && p < NPROC && Listable(np)
    requires np.state != UNUSED ==> t.procs[p].state != UNUSED && np.pid == t.procs[p].pid
    ensures PidsKept(t, Move(t, p, np))
  {
  }

  lemma WakeKept(t: Table, chan: Chan)
    requires Shape(t)
    ensures PidsKept(t, Wake(t, chan))
  {
    hide Move;
    var s := t.q[StateId(SLEEPING)];
    var k := FirstSleeper(t.procs, s, chan);
    if k < |s| && 0 <= t.procs[s[k]].priority <= MAXPRIO {
      MoveKept(t, s[k], t.procs[s[k]].(state := RUNNABLE));
    }
  }

  lemma OrphanKept(t: Table, cur: nat)
    requires Shape(t) && cur < NPROC
    ensures PidsKept(t, Orphan(t, cur))
  {
    hide Wake;
    var par := t.procs[cur].parent;
    if par >= 0 {
      WakeKept(t, ProcChan(par));
    }
    var t1 := if par >= 0 then Wake(t, ProcChan(par)) else t;
    assert PidsKept(t1, Reparent(t1, cur));
    WakeKept(Reparent(t1, cur), ProcChan(t.init));
  }

  lemma LeaveCpuKept(t: Table, c: nat, np: Proc)
    requires Shape(t) && c < |t.cpu| && t.cpu[c] >= 0 && Listable(np)
    requires t.procs[t.cpu[c]].state != UNUSED && np.pid == t.procs[t.cpu[c]].pid
    ensures PidsKept(t, LeaveCpu(t, c, np))
  {
    hide Move;
    MoveKept(t, t.cpu[c], np);
  }

  /** exit: the caller stays on its CPU until it leaves it as a zombie. */
  lemma ExitKept(t: Table, c: nat, elapsed: nat)
    requires Shape(t) && OnCpu(t, c) && Running(t, t.cpu[c])
    ensures PidsKept(t, Exit(t, c, elapsed))
  {
    var cur := t.cpu[c];
    OrphanKept(t, cur);
    OrphanRuns(t, cur);
    var t' := Orphan(t, cur);
    hide Orphan, LeaveCpu;
    LeaveCpuKept(t', c, Charge(t'.procs[cur], elapsed).(state := ZOMBIE));
  }

  predicate Running(t: Table, p: nat) {
    p < |t.procs| && t.procs[p].state == RUNNING
  }

  lemma WakeRuns(t: Table, chan: Chan, p: nat)
    requires Shape(t) && Running(t, p)
    ensures Running(Wake(t, chan), p)
  {
  }

  lemma OrphanRuns(t: Table, cur: nat)
    requires Shape(t) && Running(t, cur)
    ensures Running(Orphan(t, cur), cur)
  {
    hide Wake;
    var par := t.procs[cur].parent;
    if par >= 0 {
      WakeRuns(t, ProcChan(par), cur);
    }
    var t1 := if par >= 0 then Wake(t, ProcChan(par)) else t;
    WakeRuns(Reparent(t1, cur), ProcChan(t.init), cur);
  }

  lemma DispatchKept(t: Table, c: nat, ticks: nat)
    requires Shape(t) && c < |t.cpu| && Listed(t.procs, t.q, Flying(t))
    ensures PidsKept(t, Dispatch(t, c, ticks))
  {
    var l := Served(t.q, MAXPRIO);
    ServedIs(t.q, MAXPRIO);
    hide Served, Move;
    if l >= READY {
      var p := t.q[l][0];
      assert On(t.q, l, p);
      MoveKept(t, p, t.procs[p].(state := RUNNING, ticksIn := ticks));
    }
  }

  /** The one step that hands out a pid. */
  lemma AllocPids(t: Table, c: nat)
    requires Shape(t) && Pids(t) && OnCpu(t, c)
    ensures Pids(AllocProc(t, c))
  {
  }

  lemma WaitKept(t: Table, c: nat, elapsed: nat)
    requires Shape(t) && OnCpu(t, c) && Running(t, t.cpu[c])
    ensures PidsKept(t, Wait(t, c, elapsed))
  {
    var cur := t.cpu[c];
    var s := t.q[StateId(ZOMBIE)];
    var k := FirstZombie(t.procs, s, cur);
    hide Move, LeaveCpu;
    if k < |s| {
      MoveKept(t, s[k], t.procs[s[k]].(state := UNUSED, pid := 0, parent := -1, killed := false));
    } else {
      LeaveCpuKept(t, c, Charge(t.procs[cur], elapsed).(state := SLEEPING, chan := ProcChan(cur)));
    }
  }

  lemma KillKept(t: Table, pid: nat)
    requires Shape(t)
    ensures PidsKept(t, Kill(t, pid))
  {
    hide Move, KillTarget;
    var p := KillTarget(t, pid);
    if p >= 0 && t.procs[p].state == SLEEPING && 0 <= t.procs[p].priority <= MAXPRIO {
      MoveKept(t, p, t.procs[p].(killed := true, state := RUNNABLE));
    }
  }

  lemma SetPriorityKept(t: Table, pid: nat, priority: nat)
    requires Shape(t) && priority <= MAXPRIO
    ensures PidsKept(t, SetPriority(t, pid, priority))
  {
    hide Move, PrioTarget;
    var p := PrioTarget(t, pid);
    if p >= 0 {
      MoveKept(t, p, t.procs[p].(priority := priority, budget := BUDGET));
    }
  }

  lemma ForkKept(t: Table, step: Step)
    requires Shape(t) && Ranges(t) && Enabled(t, step)
    requires step.DoAllocFail? || step.DoAllocDone? || step.DoTake? || step.DoForkFail? || step.DoForkDone?
    requires step.p in t.fork && t.procs[step.p].state == EMBRYO
    ensures PidsKept(t, Apply(t, step))
  {
    hide Without;
  }

  lemma CpuKept(t: Table, step: Step)
    requires Shape(t) && Ranges(t) && Enabled(t, step)
             && (step.DoYield? || step.DoSleep? || step.DoExit? || step.DoWait?)
    ensures PidsKept(t, Apply(t, step))
  {
    assert Running(t, t.cpu[step.c]) && InRange(t.procs[t.cpu[step.c]]);
    hide LeaveCpu, Exit, Wait, PidsKept;
    match step
    case DoYield(c, e) => LeaveCpuKept(t, c, Charge(t.procs[t.cpu[c]], e).(state := RUNNABLE));
    case DoSleep(c, a, e) => LeaveCpuKept(t, c, Charge(t.procs[t.cpu[c]], e).(state := SLEEPING, chan := OtherChan(a)));
    case DoExit(c, e) => ExitKept(t, c, e);
    case DoWait(c, e) => WaitKept(t, c, e);
  }

  lemma StepPids(t: Table, step: Step)
    requires Inv(t) && Pids(t) && Enabled(t, step)
    ensures Pids(Apply(t, step))
  {
    if step.DoAlloc? {
      AllocPids(t, step.c);
    } else {
      OtherKept(t, step);
      hide Apply, Enabled, Listed, CpuMatch, Family, Forks, Waiters;
      KeptPids(t, Apply(t, step));
    }
  }

  lemma OtherKept(t: Table, step: Step)
    requires Inv(t) && Enabled(t, step) && !step.DoAlloc?
    ensures PidsKept(t, Apply(t, step))
  {
    hide CpuMatch, Family, Waiters, PidsKept, Promote, Dispatch, Wake, Kill, SetPriority;
    match step
    case DoPromote => PromoteKept(t);
    case DoDispatch(c, ticks) => DispatchKept(t, c, ticks);
    case DoWakeup(a) => WakeKept(t, OtherChan(a));
    case DoKill(pid) => KillKept(t, pid);
    case DoSetPriority(pid, priority) => SetPriorityKept(t, pid, priority);
    case DoAllocFail(p) => ForkKept(t, step);
    case DoAllocDone(p) => ForkKept(t, step);
    case DoTake(p) => ForkKept(t, step);
    case DoForkFail(p) => ForkKept(t, step);
    case DoForkDone(p) => ForkKept(t, step);
    case _ => CpuKept(t, step);
  }

  lemma PromoteKept(t: Table)
    requires Shape(t)
    ensures PidsKept(t, Promote(t))
  {
  }

  /** Whatever steps are taken, the pids in use stay distinct. */
  lemma {:induction false} DistinctPids(t: Table, steps: seq<Step>)
    requires Inv(t) && Pids(t) && Legal(t, steps)
    ensures Pids(After(t, steps))
    decreases |steps|
  {
    hide Apply, Enabled, Listed, CpuMatch, Family, Forks, Waiters, Pids, Shape, Ranges;
    if steps != [] {
      StepPids(t, steps[0]);
      StepInv(t, steps[0]);
      DistinctPids(Apply(t, steps[0]), steps[1..]);
    }
  }

  lemma BootPids(ncpu: nat)
    ensures Pids(Boot(ncpu))
  {
  }

  /** In every run from boot the pids in use are distinct. */
  lemma DistinctFromBoot(ncpu: nat, steps: seq<Step>)
    requires Inv(Boot(ncpu)) && Legal(Boot(ncpu), steps)
    ensures Pids(After(Boot(ncpu), steps))
  {
    hide Boot, Inv, Pids;
    BootPids(ncpu);
    DistinctPids(Boot(ncpu), steps);
  }

  /** kill finds a process exactly when one in use has the pid and is on a list (a child that fork is
      still copying memory for is on none), and it is that process. */
  lemma KillFinds(t: Table, pid: nat, p: nat)
    requires Inv(t) && Pids(t) && p < NPROC
    ensures KillTarget(t, pid) == p <==> InUse(t, p) && p !in Flying(t) && t.procs[p].pid == pid
    ensures KillTarget(t, pid) == -1 <==> forall r :: InUse(t, r) && t.procs[r].pid == pid ==> r in Flying(t)
  {
    hide CpuMatch, Family, Forks, Waiters, Find;
    var k := KillTarget(t, pid);
    if k >= 0 {
      var i :| 0 <= i < |ALL_ORDER| && k in t.q[ALL_ORDER[i]];
      assert On(t.q, ALL_ORDER[i], k);
    }
    forall r | InUse(t, r) && r !in Flying(t) && t.procs[r].pid == pid ensures k >= 0 {
      assert On(t.q, ListId(t.procs[r]), r);
      InOrder(t.procs[r]);
      var i :| 0 <= i < |ALL_ORDER| && ALL_ORDER[i] == ListId(t.procs[r]);
      assert r in t.q[ALL_ORDER[i]];
    }
  }

  lemma InOrder(p: Proc)
    requires p.state != UNUSED && Listable(p)
    ensures exists i :: 0 <= i < |ALL_ORDER| && ALL_ORDER[i] == ListId(p)
  {
    var l := ListId(p);
    var i := if p.state == RUNNABLE then 10 - p.priority else if l <= 2 then l - 1 else l - 2;
    assert ALL_ORDER[i] == l;
  }
}
