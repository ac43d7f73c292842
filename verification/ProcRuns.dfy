/** Whole runs of the process table: the invariant in every reachable state, unreachable
    panics, and no starvation under the multi-level feedback queue. */
module ProcRuns {
  import opened ProcSpec
  import opened ProcLists
  import opened ProcInv
  import opened ProcFamily
  import opened ProcExit

  // ---------- runs ----------

  /** The steps can be taken one after the other from t. */
  ghost predicate Legal(t: Table, steps: seq<Step>)
    requires Inv(t)
    decreases |steps|
  {
    steps == [] || (Enabled(t, steps[0]) && (StepInv(t, steps[0]); Legal(Apply(t, steps[0]), steps[1..])))
  }

  /** The table after a run; every reachable table satisfies the invariant. */
  ghost function After(t: Table, steps: seq<Step>): (t': Table)
    requires Inv(t) && Legal(t, steps)
    ensures Inv(t')
    decreases |steps|
  {
    if steps == [] then t else
      StepInv(t, steps[0]);
      After(Apply(t, steps[0]), steps[1..])
  }

  /** In every reachable state a listed process is found where the code looks for it, so no
      "not found" and no assertState panic is reachable. */
  lemma AlwaysListed(t: Table, steps: seq<Step>, p: nat)
    requires Inv(t) && Legal(t, steps) && p < NPROC
    ensures var t' := After(t, steps);
            && (p !in Flying(t') ==> On(t'.q, ListId(t'.procs[p]), p))
            && (forall l :: On(t'.q, l, p) ==> p !in Flying(t') && l == ListId(t'.procs[p]))
            && (p in Flying(t') ==> t'.procs[p].state == EMBRYO)
  {
    hide Legal, After;
  }

  /** In every reachable state a process asleep in wait has a child and no zombie child, and a
      process that fork has completed has a live parent (init has none and lives). */
  lemma NoLostChild(t: Table, steps: seq<Step>, p: nat)
    requires Inv(t) && Legal(t, steps) && p < NPROC
    ensures var t' := After(t, steps);
            && (AsleepInWait(t', p) ==> HasKid(t', p) && !HasZombieKid(t', p))
            && (Active(t'.procs[p].state) && p != t'.init ==>
                  0 <= t'.procs[p].parent < NPROC && Alive(t'.procs[t'.procs[p].parent].state))
            && Alive(t'.procs[t'.init].state)
  {
    hide Legal, After, HasKid, HasZombieKid;
  }

  /** One promotion pass: the two top ready lists are joined, every lower list moves up by one and the
      lowest is left empty; every process that sleeps, runs or is ready below the top gains one priority and
      a full budget, and nothing else changes. */
  lemma PromotionPass(t: Table)
    requires Inv(t)
    ensures var t' := Apply(t, DoPromote);
            && Inv(t') && |t'.q| == |t.q| == NLIST
            && t'.q[READY + MAXPRIO] == t.q[READY + MAXPRIO] + t.q[READY + MAXPRIO - 1]
            && (forall l :: READY < l < READY + MAXPRIO ==> t'.q[l] == t.q[l - 1])
            && t'.q[READY] == [] && (forall l :: 0 <= l < READY ==> t'.q[l] == t.q[l])
            && t'.cpu == t.cpu && t'.fork == t.fork && t'.nextpid == t.nextpid && t'.init == t.init
            && |t'.procs| == |t.procs|
            && (forall p :: 0 <= p < |t.procs| ==>
                  t'.procs[p] == if Alive(t.procs[p].state) && t.procs[p].priority < MAXPRIO
                                 then t.procs[p].(priority := t.procs[p].priority + 1, budget := BUDGET)
                                 else t.procs[p])
  {
    PromoteInv(t);
    hide Inv;
  }

  // ---------- queue positions ----------

  function Index(s: seq<nat>, p: nat): (k: nat)
    ensures k <= |s| && (p in s <==> k < |s|)
    ensures k < |s| ==> s[k] == p
    ensures forall i :: 0 <= i < k ==> s[i] != p
  {
    if s == [] || s[0] == p then 0 else 1 + Index(s[1..], p)
  }

  lemma {:induction false} IndexWithout(s: seq<nat>, x: nat, p: nat)
    requires p in s && x != p
    ensures p in Without(s, x)
    ensures Index(Without(s, x), p) <= Index(s, p)
    ensures s[0] == x ==> Index(Without(s, x), p) == Index(s, p) - 1
  {
    if s[0] != x && s[0] != p {
      IndexWithout(s[1..], x, p);
    }
  }

  lemma IndexAppend(s: seq<nat>, more: seq<nat>, p: nat)
    requires p in s
    ensures Index(s + more, p) == Index(s, p)
  {
    var k := Index(s, p);
    assert (s + more)[k] == p;
    assert forall i :: 0 <= i < k ==> (s + more)[i] != p;
  }

  predicate Ready(t: Table, p: nat)
    requires Shape(t)
  {
    p < NPROC && t.procs[p].state == RUNNABLE
  }

  /** How many processes are ahead of p on its ready list. */
  function Ahead(t: Table, p: nat): nat
    requires Shape(t) && Ready(t, p)
  {
    Index(t.q[READY + t.procs[p].priority], p)
  }

  /** p still waits at the same priority with no more processes ahead of it. */
  ghost predicate Keeps(t: Table, t': Table, p: nat)
    requires Shape(t) && Ready(t, p)
  {
    && Shape(t') && Ready(t', p) && t'.procs[p].priority == t.procs[p].priority
    && p in t'.q[READY + t.procs[p].priority]
    && Ahead(t', p) <= Ahead(t, p)
  }

  lemma MoveKeeps(t: Table, x: nat, np: Proc, p: nat)
    requires Shape(t) && Ready(t, p) && p in t.q[READY + t.procs[p].priority]
    requires x < NPROC && x != p && Listable(np)
    ensures Keeps(t, Move(t, x, np), p)
  {
    hide Index, Without;
    var l := READY + t.procs[p].priority;
    var s, s' := t.q[l], Move(t, x, np).q[l];
    IndexWithout(s, x, p);
    IndexAppend(s, [x], p);
    IndexAppend(Without(s, x), [x], p);
    assert s' == s || s' == Without(s, x) || s' == s + [x] || s' == Without(s, x) + [x];
  }

  lemma EnterKeeps(t: Table, x: nat, np: Proc, p: nat)
    requires Shape(t) && Ready(t, p) && p in t.q[READY + t.procs[p].priority]
    requires x < NPROC && x != p && Listable(np)
    ensures Keeps(t, Enter(t, x, np), p)
  {
    IndexAppend(t.q[READY + t.procs[p].priority], [x], p);
  }

  lemma WakeKeeps(t: Table, chan: Chan, p: nat)
    requires Shape(t) && Ready(t, p) && p in t.q[READY + t.procs[p].priority]
    ensures Keeps(t, Wake(t, chan), p)
  {
    var s := t.q[StateId(SLEEPING)];
    var k := FirstSleeper(t.procs, s, chan);
    if k < |s| && 0 <= t.procs[s[k]].priority <= MAXPRIO {
      MoveKeeps(t, s[k], t.procs[s[k]].(state := RUNNABLE), p);
    }
  }

  // ---------- one step ----------

  /** The scheduler runs p in this step. */
  ghost predicate Picks(t: Table, step: Step, p: nat)
    requires Shape(t)
  {
    step.DoDispatch? && Served(t.q, MAXPRIO) >= READY && t.q[Served(t.q, MAXPRIO)] != []
    && t.q[Served(t.q, MAXPRIO)][0] == p
  }

  /** Somebody calls setpriority on p in this step. */
  ghost predicate Retunes(t: Table, step: Step, p: nat)
    requires Shape(t)
  {
    step.DoSetPriority? && PrioTarget(t, step.pid) == p
  }

  lemma ReadyListed(t: Table, p: nat)
    requires Inv(t) && Ready(t, p)
    ensures p in t.q[READY + t.procs[p].priority] && p !in t.fork
    ensures 0 <= t.procs[p].priority <= MAXPRIO
    ensures Ahead(t, p) < NPROC
  {
    assert p !in Flying(t);
    assert On(t.q, READY + t.procs[p].priority, p);
    var s := t.q[READY + t.procs[p].priority];
    forall x | x in s ensures x < NPROC {
      assert On(t.q, READY + t.procs[p].priority, x);
    }
    DistinctBound(s, NPROC);
  }

  lemma DispatchKeeps(t: Table, c: nat, ticks: nat, p: nat)
    requires Inv(t) && Ready(t, p) && Enabled(t, DoDispatch(c, ticks)) && !Picks(t, DoDispatch(c, ticks), p)
    ensures Keeps(t, Dispatch(t, c, ticks), p)
    ensures t.procs[p].priority == MAXPRIO ==> Ahead(Dispatch(t, c, ticks), p) == Ahead(t, p) - 1
  {
    hide Listed, Flying, CpuMatch, Waiters, Ranges, Family, Forks;
    ReadyListed(t, p);
    ServedIs(t.q, MAXPRIO);
    var l := Served(t.q, MAXPRIO);
    QueueHead(t, l);
    var x := t.q[l][0];
    MoveKeeps(t, x, t.procs[x].(state := RUNNING, ticksIn := ticks), p);
    if t.procs[p].priority == MAXPRIO {
      IndexWithout(t.q[l], x, p);
    }
  }

  lemma PromoteRaises(t: Table, p: nat)
    requires Inv(t) && Ready(t, p)
    ensures Ready(Promote(t), p)
    ensures t.procs[p].priority < MAXPRIO ==> Promote(t).procs[p].priority == t.procs[p].priority + 1
    ensures t.procs[p].priority == MAXPRIO ==> Keeps(t, Promote(t), p)
  {
    hide Flying, CpuMatch, Waiters, Family, Forks, Listed;
    ReadyListed(t, p);
    var top := READY + MAXPRIO;
    if t.procs[p].priority == MAXPRIO {
      IndexAppend(t.q[top], t.q[top - 1], p);
    }
  }

  lemma ExitKeeps(t: Table, c: nat, elapsed: nat, p: nat)
    requires Inv(t) && Ready(t, p) && Enabled(t, DoExit(c, elapsed))
    ensures Keeps(t, Exit(t, c, elapsed), p)
  {
    hide Flying, CpuMatch, Waiters, Family, Forks, Listed, HasZombieKid, Index, SpendInt, Wake, Reparent;
    ReadyListed(t, p);
    var cur := t.cpu[c];
    assert t.procs[cur].state == RUNNING;
    OrphanKeeps(t, cur, p);
    var t' := Orphan(t, cur);
    hide Orphan;
    var np := Charge(t'.procs[cur], elapsed).(state := ZOMBIE);
    MoveKeeps(t', cur, np, p);
  }

  lemma OrphanKeeps(t: Table, cur: nat, p: nat)
    requires Shape(t) && cur < NPROC && Ready(t, p) && p in t.q[READY + t.procs[p].priority]
    ensures Keeps(t, Orphan(t, cur), p)
  {
    hide HasZombieKid, Index, Wake;
    var par := t.procs[cur].parent;
    if par >= 0 {
      WakeKeeps(t, ProcChan(par), p);
    }
    var t1 := if par >= 0 then Wake(t, ProcChan(par)) else t;
    var t2 := Reparent(t1, cur);
    assert Shape(t2) && Keeps(t1, t2, p);
    WakeKeeps(t2, ProcChan(t.init), p);
  }

  lemma CpuStepKeeps(t: Table, step: Step, p: nat)
    requires Inv(t) && Ready(t, p) && Enabled(t, step) && (step.DoYield? || step.DoSleep?)
    requires p in t.q[READY + t.procs[p].priority]
    ensures Keeps(t, Apply(t, step), p)
  {
    hide Flying, CpuMatch, Waiters, Family, Forks, Listed, Index, SpendInt;
    var x := t.procs[t.cpu[step.c]];
    var np := Charge(x, step.elapsed).(state := if step.DoYield? then RUNNABLE else SLEEPING,
                                       chan := if step.DoYield? then x.chan else OtherChan(step.addr));
    MoveKeeps(t, t.cpu[step.c], np, p);
  }

  lemma TakeKeeps(t: Table, x: nat, p: nat)
    requires Shape(t) && Ready(t, p) && x in t.fork && x != p && p in t.q[READY + t.procs[p].priority]
    ensures Keeps(t, TakeChild(t, x), p)
  {
    hide Index, Without;
    IndexWithout(t.q[READY + t.procs[p].priority], x, p);
  }

  lemma ForkStepKeeps(t: Table, step: Step, p: nat)
    requires Shape(t) && Ranges(t) && Ready(t, p) && Enabled(t, step) && p !in t.fork
    requires step.DoAllocFail? || step.DoAllocDone? || step.DoTake? || step.DoForkFail? || step.DoForkDone?
    requires p in t.q[READY + t.procs[p].priority]
    ensures Keeps(t, Apply(t, step), p)
  {
    hide Index, Yield, Sleep, Dispatch, Wake, Kill, SetPriority, AllocProc, Exit, Wait, Promote;
    match step
    case DoAllocFail(x) => MoveKeeps(t, x, t.procs[x].(state := UNUSED), p);
    case DoAllocDone(x) =>
    case DoTake(x) => TakeKeeps(t, x, p);
    case DoForkFail(x) => EnterKeeps(t, x, t.procs[x].(state := UNUSED), p);
    case DoForkDone(x) =>
      EnterKeeps(t, x, t.procs[x].(state := RUNNABLE, parent := t.fork[x].forker), p);
  }

  /** No step makes a waiting process lose ground, except dispatching it or setpriority on it. */
  lemma StepKeeps(t: Table, step: Step, p: nat)
    requires Inv(t) && Ready(t, p) && Enabled(t, step)
    requires !step.DoPromote? && !Picks(t, step, p) && !Retunes(t, step, p)
    ensures Keeps(t, Apply(t, step), p)
  {
    ReadyListed(t, p);
    assert step.DoSetPriority? ==> PrioTarget(t, step.pid) != p;
    hide Flying, CpuMatch, Waiters, Family, Forks, Listed, Index, Keeps, Picks, Retunes, PrioTarget;
    hide Yield, Sleep, Dispatch, Wake, Kill, SetPriority, AllocProc, AllocFail, AllocDone, TakeChild;
    hide ForkFail, ForkDone, Exit, Wait, Promote;
    match step
    case DoPromote =>
    case DoDispatch(c, ticks) => DispatchKeeps(t, c, ticks, p);
    case DoYield(c, e) => CpuStepKeeps(t, step, p);
    case DoSleep(c, a, e) => CpuStepKeeps(t, step, p);
    case DoWakeup(a) => WakeKeeps(t, OtherChan(a), p);
    case DoKill(pid) => KillKeeps(t, pid, p);
    case DoSetPriority(pid, priority) => SetPriorityKeeps(t, pid, priority, p);
    case DoAlloc(c) => AllocKeeps(t, c, p);
    case DoExit(c, e) => ExitKeeps(t, c, e, p);
    case DoWait(c, e) => WaitKeeps(t, c, e, p);
    case _ => ForkStepKeeps(t, step, p);
  }

  lemma KillKeeps(t: Table, pid: nat, p: nat)
    requires Shape(t) && Ready(t, p) && p in t.q[READY + t.procs[p].priority]
    ensures Keeps(t, Kill(t, pid), p)
  {
    var x := KillTarget(t, pid);
    if x >= 0 && t.procs[x].state == SLEEPING && 0 <= t.procs[x].priority <= MAXPRIO {
      MoveKeeps(t, x, t.procs[x].(killed := true, state := RUNNABLE), p);
    }
  }

  lemma SetPriorityKeeps(t: Table, pid: nat, priority: nat, p: nat)
    requires Shape(t) && Ready(t, p) && p in t.q[READY + t.procs[p].priority]
    requires priority <= MAXPRIO && PrioTarget(t, pid) != p
    ensures Keeps(t, SetPriority(t, pid, priority), p)
  {
    var x := PrioTarget(t, pid);
    if x >= 0 {
      MoveKeeps(t, x, t.procs[x].(priority := priority, budget := BUDGET), p);
    }
  }

  lemma AllocKeeps(t: Table, c: nat, p: nat)
    requires Inv(t) && Ready(t, p) && OnCpu(t, c) && p in t.q[READY + t.procs[p].priority]
    ensures Keeps(t, AllocProc(t, c), p)
  {
    hide Flying, CpuMatch, Waiters, Family, Forks, Listed, Index;
    var s := t.q[StateId(UNUSED)];
    if s != [] {
      QueueHead(t, StateId(UNUSED));
      MoveKeeps(t, s[0], t.procs[s[0]].(state := EMBRYO, pid := t.nextpid), p);
    }
  }

  lemma WaitKeeps(t: Table, c: nat, elapsed: nat, p: nat)
    requires Inv(t) && Ready(t, p) && OnCpu(t, c) && p in t.q[READY + t.procs[p].priority]
    ensures Keeps(t, Wait(t, c, elapsed), p)
  {
    hide Flying, CpuMatch, Waiters, Family, Forks, Listed, Index, HasKid;
    var cur := t.cpu[c];
    var s := t.q[StateId(ZOMBIE)];
    var k := FirstZombie(t.procs, s, cur);
    if k < |s| {
      MoveKeeps(t, s[k], t.procs[s[k]].(state := UNUSED, pid := 0, parent := -1, killed := false), p);
    } else {
      MoveKeeps(t, cur, Charge(t.procs[cur], elapsed).(state := SLEEPING, chan := ProcChan(cur)), p);
    }
  }

  // ---------- whole runs ----------

  /** Some step of the run dispatches p. */
  ghost predicate Picked(t: Table, steps: seq<Step>, p: nat)
    requires Inv(t) && Legal(t, steps)
    decreases |steps|
  {
    steps != [] && (Picks(t, steps[0], p) || (StepInv(t, steps[0]); Picked(Apply(t, steps[0]), steps[1..], p)))
  }

  /** No step of the run is a setpriority on p. */
  ghost predicate NotRetuned(t: Table, steps: seq<Step>, p: nat)
    requires Inv(t) && Legal(t, steps)
    decreases |steps|
  {
    steps == [] || (!Retunes(t, steps[0], p) && (StepInv(t, steps[0]); NotRetuned(Apply(t, steps[0]), steps[1..], p)))
  }

  function Promotions(steps: seq<Step>): nat {
    if steps == [] then 0 else (if steps[0].DoPromote? then 1 else 0) + Promotions(steps[1..])
  }

  function Dispatches(steps: seq<Step>): nat {
    if steps == [] then 0 else (if steps[0].DoDispatch? then 1 else 0) + Dispatches(steps[1..])
  }

  /** One step of a waiting process: still waiting, no lower in (priority, position). */
  lemma StepWaits(t: Table, step: Step, p: nat)
    requires Inv(t) && Ready(t, p) && Enabled(t, step) && !Picks(t, step, p) && !Retunes(t, step, p)
    ensures var t' := Apply(t, step);
            && Shape(t') && Ready(t', p)
            && (t'.procs[p].priority > t.procs[p].priority ||
                (t'.procs[p].priority == t.procs[p].priority && Ahead(t', p) <= Ahead(t, p)))
            && (step.DoPromote? && t.procs[p].priority < MAXPRIO ==>
                  t'.procs[p].priority == t.procs[p].priority + 1)
            && (t.procs[p].priority == MAXPRIO && step.DoDispatch? ==> Ahead(t', p) == Ahead(t, p) - 1)
  {
    ReadyListed(t, p);
    if step.DoPromote? {
      PromoteRaises(t, p);
    } else {
      StepKeeps(t, step, p);
      if step.DoDispatch? {
        DispatchKeeps(t, step.c, step.ticks, p);
      }
    }
    hide Inv, Picks, Retunes, Index;
  }

  /** While p waits, its (MAXPRIO - priority, position) never rises lexicographically, and each
      promotion pass lifts it until the top. */
  lemma {:induction false} WaitsWithoutLosing(t: Table, steps: seq<Step>, p: nat)
    requires Inv(t) && Ready(t, p) && Legal(t, steps)
    requires !Picked(t, steps, p) && NotRetuned(t, steps, p)
    ensures var t' := After(t, steps);
            && Ready(t', p) && 0 <= t'.procs[p].priority <= MAXPRIO
            && (t'.procs[p].priority > t.procs[p].priority ||
                (t'.procs[p].priority == t.procs[p].priority && Ahead(t', p) <= Ahead(t, p)))
            && (t'.procs[p].priority == MAXPRIO || t'.procs[p].priority >= t.procs[p].priority + Promotions(steps))
    decreases |steps|
  {
    hide Shape, Ranges, Listed, CpuMatch, Family, Forks, Waiters, Picks, Retunes, Ahead, Enabled;
    ReadyListed(t, p);
    if steps != [] {
      StepInv(t, steps[0]);
      StepWaits(t, steps[0], p);
      ReadyListed(Apply(t, steps[0]), p);
      hide Apply;
      WaitsWithoutLosing(Apply(t, steps[0]), steps[1..], p);
    }
  }

  /** At the top priority with k processes ahead, p runs within k + 1 dispatches. */
  lemma {:induction false} TopRunsSoon(t: Table, steps: seq<Step>, p: nat)
    requires Inv(t) && Ready(t, p) && t.procs[p].priority == MAXPRIO && Legal(t, steps)
    requires NotRetuned(t, steps, p) && Dispatches(steps) > Ahead(t, p)
    ensures Picked(t, steps, p)
    decreases |steps|
  {
    hide Shape, Ranges, Listed, CpuMatch, Family, Forks, Waiters, Picks, Retunes, Ahead, Enabled;
    assert steps != [];
    if !Picks(t, steps[0], p) {
      StepInv(t, steps[0]);
      StepWaits(t, steps[0], p);
      ReadyListed(Apply(t, steps[0]), p);
      hide Apply;
      TopRunsSoon(Apply(t, steps[0]), steps[1..], p);
    }
  }

  /** No starvation: a runnable process that nobody calls setpriority on is dispatched once
      enough promotion passes, and then NPROC dispatches, have happened. */
  lemma NoStarvation(t: Table, a: seq<Step>, b: seq<Step>, p: nat)
    requires Inv(t) && Ready(t, p) && Legal(t, a) && Legal(After(t, a), b)
    requires NotRetuned(t, a, p) && NotRetuned(After(t, a), b, p)
    requires t.procs[p].priority + Promotions(a) >= MAXPRIO && Dispatches(b) >= NPROC
    ensures Picked(t, a, p) || Picked(After(t, a), b, p)
  {
    hide Inv, Legal, NotRetuned, Picked, After, Ahead;
    if !Picked(t, a, p) {
      WaitsWithoutLosing(t, a, p);
      var t' := After(t, a);
      ReadyListed(t', p);
      TopRunsSoon(t', b, p);
    }
  }
}
