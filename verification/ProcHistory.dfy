/** What becomes of one process over whole runs of the table: its priority under the multi-level feedback
    queue, its sleep in wait, and its birth in fork. */
module ProcHistory {
  import opened ProcSpec
  import opened ProcInv
  import opened ProcExit
  import opened ProcRuns
  import opened ProcPids
  import Laws = ProcLaws

  // ---------- one step of one process ----------

  /** p gives up its CPU in this step. */
  ghost predicate Leaves(t: Table, step: Step, p: nat) {
    && (step.DoYield? || step.DoSleep? || step.DoExit? || step.DoWait?)
    && OnCpu(t, step.c) && t.cpu[step.c] == p && p < |t.procs|
    && (step.DoWait? ==> HasKid(t, p) && !HasZombieKid(t, p) && !t.procs[p].killed)
  }

  /** ... with its budget spent. */
  ghost predicate Spends(t: Table, step: Step, p: nat) {
    Leaves(t, step, p) && step.elapsed >= t.procs[p].budget
  }

  /** This step is a setpriority with the pid of p. */
  ghost predicate Sets(t: Table, step: Step, p: nat) {
    step.DoSetPriority? && p < |t.procs| && t.procs[p].pid == step.pid
  }

  /** The priority a step makes of priority r. */
  ghost function Next(t: Table, step: Step, p: nat, r: int): int {
    if step.DoPromote? then (if r < MAXPRIO then r + 1 else r)
    else if Sets(t, step, p) then step.priority
    else if Spends(t, step, p) then (if r > 0 then r - 1 else 0)
    else r
  }

  /** The budget a step makes of budget b at priority r. */
  ghost function Purse(t: Table, step: Step, p: nat, r: int, b: int): int {
    if step.DoPromote? then (if r < MAXPRIO then BUDGET else b)
    else if Sets(t, step, p) then (if step.priority != r then BUDGET else b)
    else if Spends(t, step, p) then BUDGET
    else if Leaves(t, step, p) then b - step.elapsed
    else b
  }

  /** p as a step leaves it. */
  ghost predicate Fares(t: Table, step: Step, t': Table, p: nat) {
    && p < |t.procs| == |t'.procs| && Active(t'.procs[p].state) && t'.procs[p].pid == t.procs[p].pid
    && t'.procs[p].priority == Next(t, step, p, t.procs[p].priority)
    && t'.procs[p].budget == Purse(t, step, p, t.procs[p].priority, t.procs[p].budget)
    && (t.procs[p].state == SLEEPING ==> t'.procs[p].chan == t.procs[p].chan)
  }

  /** p keeps priority and budget in a step that is not about them. */
  lemma Calm(t: Table, step: Step, t': Table, p: nat)
    requires p < |t.procs| == |t'.procs| && Active(t'.procs[p].state) && t'.procs[p].pid == t.procs[p].pid
    requires t'.procs[p].priority == t.procs[p].priority && t'.procs[p].budget == t.procs[p].budget
    requires t'.procs[p].chan == t.procs[p].chan && !step.DoPromote? && !Sets(t, step, p) && !Leaves(t, step, p)
    ensures Fares(t, step, t', p)
  {
    hide Leaves;
  }

  /** p is charged when it gives up its CPU. */
  lemma Pays(t: Table, step: Step, t': Table, p: nat)
    requires p < |t.procs| == |t'.procs| && Active(t'.procs[p].state) && t'.procs[p].pid == t.procs[p].pid
    requires Leaves(t, step, p) && Laws.Charged(t.procs[p], t'.procs[p], step.elapsed) && t.procs[p].priority >= 0
    requires t.procs[p].state == RUNNING
    ensures Fares(t, step, t', p)
  {
  }

  lemma CpuFares(t: Table, step: Step, p: nat)
    requires Inv(t) && Enabled(t, step) && p < NPROC && Alive(t.procs[p].state) && (step.DoYield? || step.DoSleep?)
    ensures Fares(t, step, Apply(t, step), p)
  {
    Laws.AliveIs(t, p);
    hide Listed, Ranges, CpuMatch, Family, Forks, Waiters, Apply, Laws.Relisted, Fares, Flying;
    if step.DoYield? {
      Laws.YieldLaw(t, step.c, step.elapsed);
    } else {
      Laws.SleepLaw(t, step.c, step.addr, step.elapsed);
    }
    Laws.RunnerIs(t, step.c);
    if t.cpu[step.c] == p {
      Pays(t, step, Apply(t, step), p);
    } else {
      Calm(t, step, Apply(t, step), p);
    }
  }

  lemma WaitFares(t: Table, step: Step, p: nat)
    requires Inv(t) && Enabled(t, step) && p < NPROC && Alive(t.procs[p].state) && step.DoWait?
    ensures Fares(t, step, Apply(t, step), p)
  {
    hide Listed, Ranges, CpuMatch, Family, Forks, Waiters, Apply, Fares, HasKid, HasZombieKid, NotForking;
    if HasZombieKid(t, t.cpu[step.c]) {
      ReapSpares(t, step.c, step.elapsed, p);
      Calm(t, step, Apply(t, step), p);
    } else if Leaves(t, step, p) {
      WaitPays(t, step, p);
    } else {
      WaitSpares(t, step.c, step.elapsed, p);
      Calm(t, step, Apply(t, step), p);
    }
  }

  lemma WaitPays(t: Table, step: Step, p: nat)
    requires Inv(t) && Enabled(t, step) && p < NPROC && Alive(t.procs[p].state) && step.DoWait? && Leaves(t, step, p)
    ensures Fares(t, step, Apply(t, step), p)
  {
    Laws.AliveIs(t, p);
    Laws.RunnerIs(t, step.c);
    Laws.WaitSleeps(t, step.c, step.elapsed);
    hide Inv, Apply, Laws.Relisted, Fares, HasKid, HasZombieKid, NotForking, WaitReturns;
    Pays(t, step, Apply(t, step), p);
  }

  lemma WaitSpares(t: Table, c: nat, e: nat, p: nat)
    requires Inv(t) && Enabled(t, DoWait(c, e)) && !HasZombieKid(t, t.cpu[c]) && p < NPROC
    requires p != t.cpu[c] || !HasKid(t, p) || t.procs[p].killed
    ensures var t' := Apply(t, DoWait(c, e)); |t'.procs| == |t.procs| && t'.procs[p] == t.procs[p]
  {
    Laws.WaitSleeps(t, c, e);
    hide Inv, Apply, Laws.Relisted, HasZombieKid, HasKid, NotForking, WaitReturns;
  }

  lemma ReapSpares(t: Table, c: nat, e: nat, p: nat)
    requires Inv(t) && Enabled(t, DoWait(c, e)) && HasZombieKid(t, t.cpu[c]) && p < NPROC && t.procs[p].state != ZOMBIE
    ensures var t' := Apply(t, DoWait(c, e)); |t'.procs| == |t.procs| && t'.procs[p] == t.procs[p]
  {
    Laws.WaitReaps(t, c, e);
    hide Inv, Apply, Laws.Relisted, HasZombieKid, NotForking, WaitReturns;
  }

  lemma ExitFares(t: Table, step: Step, p: nat)
    requires Inv(t) && Enabled(t, step) && p < NPROC && Alive(t.procs[p].state) && step.DoExit?
    ensures Fares(t, step, Apply(t, step), p)
  {
    Laws.AliveIs(t, p);
    hide Listed, Ranges, CpuMatch, Family, Forks, Waiters, Apply, Laws.Dropped, Fares, Flying, Laws.Rouses, NotForking;
    Laws.ExitLaw(t, step.c, step.elapsed);
    Laws.RunnerIs(t, step.c);
    if t.cpu[step.c] == p {
      Pays(t, step, Apply(t, step), p);
    } else {
      Calm(t, step, Apply(t, step), p);
    }
  }

  lemma SetFares(t: Table, step: Step, p: nat)
    requires Inv(t) && Pids(t) && Enabled(t, step) && p < NPROC && Alive(t.procs[p].state) && step.DoSetPriority?
    ensures Fares(t, step, Apply(t, step), p)
  {
    hide Listed, Ranges, CpuMatch, Family, Forks, Waiters, Apply, Laws.Relisted, Pids;
    if t.procs[p].pid == step.pid {
      Laws.SetPriorityLaw(t, step.pid, step.priority, p);
    } else if x :| 0 <= x < NPROC && Alive(t.procs[x].state) && t.procs[x].pid == step.pid {
      Laws.SetPriorityLaw(t, step.pid, step.priority, x);
      Calm(t, step, Apply(t, step), p);
    } else {
      Laws.SetPriorityMisses(t, step.pid, step.priority);
      Calm(t, step, Apply(t, step), p);
    }
  }

  lemma KillFares(t: Table, step: Step, p: nat)
    requires Inv(t) && Pids(t) && Enabled(t, step) && p < NPROC && Alive(t.procs[p].state) && step.DoKill?
    ensures Fares(t, step, Apply(t, step), p)
  {
    hide Listed, Ranges, CpuMatch, Family, Forks, Waiters, Apply, Laws.Relisted, Pids, Fares, Flying;
    if x: nat :| InUse(t, x) && x !in Flying(t) && t.procs[x].pid == step.pid {
      Laws.KillLaw(t, step.pid, x);
    } else {
      Laws.KillMisses(t, step.pid);
    }
    Calm(t, step, Apply(t, step), p);
  }

  lemma WakeupFares(t: Table, step: Step, p: nat)
    requires Inv(t) && Enabled(t, step) && p < NPROC && Alive(t.procs[p].state) && step.DoWakeup?
    ensures Fares(t, step, Apply(t, step), p)
  {
    hide Listed, Ranges, CpuMatch, Family, Forks, Waiters, Apply, Laws.Relisted, Fares, Laws.FirstOn;
    Laws.WakeupLaw(t, step.addr);
    Calm(t, step, Apply(t, step), p);
  }

  lemma DispatchFares(t: Table, step: Step, p: nat)
    requires Inv(t) && Enabled(t, step) && p < NPROC && Alive(t.procs[p].state) && step.DoDispatch?
    ensures Fares(t, step, Apply(t, step), p)
  {
    hide Listed, Ranges, CpuMatch, Family, Forks, Waiters, Apply, Laws.Relisted, Fares;
    Laws.DispatchLaw(t, step.c, step.ticks);
    Calm(t, step, Apply(t, step), p);
  }

  lemma AllocFares(t: Table, step: Step, p: nat)
    requires Inv(t) && Enabled(t, step) && p < NPROC && Alive(t.procs[p].state) && step.DoAlloc?
    ensures Fares(t, step, Apply(t, step), p)
  {
    hide Listed, Ranges, CpuMatch, Family, Forks, Waiters, Apply, Laws.Relisted, Fares, NotForking;
    if t.q[StateId(UNUSED)] != [] {
      QueueHead(t, StateId(UNUSED));
    }
    Laws.AllocLaw(t, step.c);
    Calm(t, step, Apply(t, step), p);
  }

  lemma ChildFares(t: Table, step: Step, p: nat)
    requires Inv(t) && Enabled(t, step) && p < NPROC && Alive(t.procs[p].state)
    requires step.DoAllocFail? || step.DoAllocDone? || step.DoTake? || step.DoForkFail? || step.DoForkDone?
    ensures Fares(t, step, Apply(t, step), p)
  {
    Laws.AliveIs(t, p);
    assert !Leaves(t, step, p) && !Sets(t, step, p);
    hide Listed, Ranges, CpuMatch, Family, Forks, Waiters, Apply, Fares, Leaves, Sets, Flying, InRange;
    ChildSpares(t, step, p);
    Calm(t, step, Apply(t, step), p);
  }

  lemma ChildSpares(t: Table, step: Step, p: nat)
    requires Inv(t) && Enabled(t, step) && p < NPROC && p !in t.fork
    requires step.DoAllocFail? || step.DoAllocDone? || step.DoTake? || step.DoForkFail? || step.DoForkDone?
    ensures var t' := Apply(t, step); |t'.procs| == |t.procs| && t'.procs[p] == t.procs[p]
  {
    match step
    case DoAllocFail(x) => Laws.AllocFailLaw(t, x);
    case DoAllocDone(x) => Laws.AllocDoneLaw(t, x);
    case DoTake(x) => Laws.TakeLaw(t, x);
    case DoForkFail(x) => Laws.ForkFailLaw(t, x);
    case DoForkDone(x) => Laws.ForkDoneLaw(t, x);
  }

  /** Priority and budget of a live process after any step. */
  lemma StepFares(t: Table, step: Step, p: nat)
    requires Inv(t) && Pids(t) && Enabled(t, step) && p < NPROC && Alive(t.procs[p].state)
    ensures Fares(t, step, Apply(t, step), p)
  {
    hide Inv, Apply, Fares, Pids;
    match step
    case DoPromote => PromoteFares(t, p);
    case DoDispatch(_, _) => DispatchFares(t, step, p);
    case DoYield(_, _) => CpuFares(t, step, p);
    case DoSleep(_, _, _) => CpuFares(t, step, p);
    case DoWakeup(_) => WakeupFares(t, step, p);
    case DoKill(_) => KillFares(t, step, p);
    case DoSetPriority(_, _) => SetFares(t, step, p);
    case DoExit(_, _) => ExitFares(t, step, p);
    case DoWait(_, _) => WaitFares(t, step, p);
    case DoAlloc(_) => AllocFares(t, step, p);
    case _ => ChildFares(t, step, p);
  }

  lemma PromoteFares(t: Table, p: nat)
    requires Inv(t) && p < NPROC && Alive(t.procs[p].state)
    ensures Fares(t, DoPromote, Apply(t, DoPromote), p)
  {
    Laws.AliveIs(t, p);
    hide Listed, Ranges, CpuMatch, Family, Forks, Waiters, Apply;
    Lifted(t, p);
  }

  lemma Lifted(t: Table, p: nat)
    requires Inv(t) && p < NPROC
    ensures var t' := Apply(t, DoPromote);
            && |t'.procs| == |t.procs| == NPROC
            && t'.procs[p] == if Alive(t.procs[p].state) && t.procs[p].priority < MAXPRIO
                              then t.procs[p].(priority := t.procs[p].priority + 1, budget := BUDGET) else t.procs[p]
  {
    PromotionPass(t);
    hide Listed, Ranges, CpuMatch, Family, Forks, Waiters, Apply;
  }

  // ---------- the feedback queue over runs ----------

  /** p is alive before every step of the run. */
  ghost predicate Lives(t: Table, steps: seq<Step>, p: nat)
    requires Inv(t) && Legal(t, steps)
    decreases |steps|
  {
    steps == [] || (p < NPROC && Alive(t.procs[p].state)
                    && (StepInv(t, steps[0]); Lives(Apply(t, steps[0]), steps[1..], p)))
  }

  /** What the steps of a run make of priority r. */
  ghost function Rank(t: Table, steps: seq<Step>, p: nat, r: int): int
    requires Inv(t) && Legal(t, steps)
    decreases |steps|
  {
    if steps == [] then r
    else
      StepInv(t, steps[0]);
      Rank(Apply(t, steps[0]), steps[1..], p, Next(t, steps[0], p, r))
  }

  /** Over every run the priority of a live process is what promotions, setpriority calls with its pid and spent
      budgets make of it, one after the other, and nothing else. */
  lemma {:induction false} PriorityLaw(t: Table, steps: seq<Step>, p: nat)
    requires Inv(t) && Pids(t) && Legal(t, steps) && p < NPROC && Lives(t, steps, p)
    ensures After(t, steps).procs[p].priority == Rank(t, steps, p, t.procs[p].priority)
    decreases |steps|
  {
    hide Shape, Ranges, Listed, CpuMatch, Family, Forks, Waiters, Apply, Enabled, Pids, Next;
    if steps != [] {
      StepInv(t, steps[0]);
      StepPids(t, steps[0]);
      StepFares(t, steps[0], p);
      PriorityLaw(Apply(t, steps[0]), steps[1..], p);
    }
  }

  /** No promotion pass and no setpriority on p. */
  ghost predicate Undisturbed(t: Table, steps: seq<Step>, p: nat)
    requires Inv(t) && Legal(t, steps)
    decreases |steps|
  {
    steps == [] || (!steps[0].DoPromote? && !Sets(t, steps[0], p)
                    && (StepInv(t, steps[0]); Undisturbed(Apply(t, steps[0]), steps[1..], p)))
  }

  /** How often p gives up its CPU with its budget spent. */
  ghost function Spent(t: Table, steps: seq<Step>, p: nat): nat
    requires Inv(t) && Legal(t, steps)
    decreases |steps|
  {
    if steps == [] then 0
    else
      StepInv(t, steps[0]);
      (if Spends(t, steps[0], p) then 1 else 0) + Spent(Apply(t, steps[0]), steps[1..], p)
  }

  /** The ticks p is charged for. */
  ghost function Used(t: Table, steps: seq<Step>, p: nat): nat
    requires Inv(t) && Legal(t, steps)
    decreases |steps|
  {
    if steps == [] then 0
    else
      StepInv(t, steps[0]);
      (if Leaves(t, steps[0], p) then steps[0].elapsed else 0) + Used(Apply(t, steps[0]), steps[1..], p)
  }

  lemma {:induction false} RankFalls(t: Table, steps: seq<Step>, p: nat, r: int)
    requires Inv(t) && Legal(t, steps) && Undisturbed(t, steps, p) && r >= 0
    ensures Rank(t, steps, p, r) == if Spent(t, steps, p) <= r then r - Spent(t, steps, p) else 0
    decreases |steps|
  {
    hide Shape, Ranges, Listed, CpuMatch, Family, Forks, Waiters, Apply, Enabled, Spends, Sets;
    if steps != [] {
      StepInv(t, steps[0]);
      RankFalls(Apply(t, steps[0]), steps[1..], p, Next(t, steps[0], p, r));
    }
  }

  /** Demotion: without promotions and setpriority, n spent budgets cost n priorities, down to 0. */
  lemma Demotion(t: Table, steps: seq<Step>, p: nat)
    requires Inv(t) && Pids(t) && Legal(t, steps) && p < NPROC && Lives(t, steps, p) && Undisturbed(t, steps, p)
    requires t.procs[p].priority >= 0
    ensures var n := Spent(t, steps, p);
            After(t, steps).procs[p].priority == if n <= t.procs[p].priority then t.procs[p].priority - n else 0
  {
    hide Ranges, Listed, CpuMatch, Family, Forks, Waiters, Legal, Lives, Undisturbed, Spent, Rank, Pids;
    PriorityLaw(t, steps, p);
    RankFalls(t, steps, p, t.procs[p].priority);
  }

  /** As long as no budget is spent, the ticks used are what is missing from the budget: a process is demoted
      only for as many ticks as its budget had. */
  lemma {:induction false} BudgetLaw(t: Table, steps: seq<Step>, p: nat)
    requires Inv(t) && Pids(t) && Legal(t, steps) && p < NPROC && Lives(t, steps, p) && Undisturbed(t, steps, p)
    requires Spent(t, steps, p) == 0
    ensures After(t, steps).procs[p].budget == t.procs[p].budget - Used(t, steps, p)
    decreases |steps|
  {
    hide Shape, Ranges, Listed, CpuMatch, Family, Forks, Waiters, Apply, Enabled, Pids, Leaves, Sets;
    if steps != [] {
      StepInv(t, steps[0]);
      StepPids(t, steps[0]);
      StepFares(t, steps[0], p);
      BudgetLaw(Apply(t, steps[0]), steps[1..], p);
    }
  }

  // ---------- asleep in wait ----------

  /** p is SLEEPING before and after every step of the run. */
  ghost predicate SleepsOn(t: Table, steps: seq<Step>, p: nat)
    requires Inv(t) && Legal(t, steps)
    decreases |steps|
  {
    p < NPROC && t.procs[p].state == SLEEPING
    && (steps == [] || (StepInv(t, steps[0]); SleepsOn(Apply(t, steps[0]), steps[1..], p)))
  }

  lemma {:induction false} SameChannel(t: Table, steps: seq<Step>, p: nat)
    requires Inv(t) && Pids(t) && Legal(t, steps) && SleepsOn(t, steps, p)
    ensures After(t, steps).procs[p].state == SLEEPING && After(t, steps).procs[p].chan == t.procs[p].chan
    decreases |steps|
  {
    hide Shape, Ranges, Listed, CpuMatch, Family, Forks, Waiters, Apply, Enabled, Pids;
    if steps != [] {
      StepInv(t, steps[0]);
      StepPids(t, steps[0]);
      StepFares(t, steps[0], p);
      SameChannel(Apply(t, steps[0]), steps[1..], p);
    }
  }

  /** The run begins with a call of wait by p, which puts p to sleep, and p sleeps on through all of it. */
  ghost predicate WaitsThrough(t: Table, steps: seq<Step>, p: nat)
    requires Inv(t) && Legal(t, steps)
  {
    && steps != [] && steps[0].DoWait? && t.cpu[steps[0].c] == p
    && (StepInv(t, steps[0]); SleepsOn(Apply(t, steps[0]), steps[1..], p))
  }

  lemma WaitChannel(t: Table, c: nat, e: nat)
    requires Inv(t) && Enabled(t, DoWait(c, e)) && Apply(t, DoWait(c, e)).procs[t.cpu[c]].state == SLEEPING
    ensures Apply(t, DoWait(c, e)).procs[t.cpu[c]].chan == ProcChan(t.cpu[c])
  {
    hide Listed, Ranges, CpuMatch, Family, Forks, Waiters, Apply, HasKid, HasZombieKid, NotForking, WaitReturns;
    Laws.RunnerIs(t, c);
    if HasZombieKid(t, t.cpu[c]) {
      ReapSpares(t, c, e, t.cpu[c]);
    } else {
      Laws.WaitSleeps(t, c, e);
    }
  }

  lemma StillInWait(t: Table, steps: seq<Step>, p: nat)
    requires Inv(t) && Pids(t) && Legal(t, steps) && WaitsThrough(t, steps, p)
    ensures AsleepInWait(After(t, steps), p)
  {
    hide Ranges, Listed, CpuMatch, Family, Forks, Waiters, Apply, Enabled, Pids;
    StepInv(t, steps[0]);
    StepPids(t, steps[0]);
    WaitChannel(t, steps[0].c, steps[0].elapsed);
    SameChannel(Apply(t, steps[0]), steps[1..], p);
  }

  /** A process that wait has put to sleep has a child and no zombie child for as long as it sleeps, whatever
      steps are taken: with a zombie child it is not asleep. */
  lemma NeverSleepsPastZombie(t: Table, steps: seq<Step>, p: nat)
    requires Inv(t) && Pids(t) && Legal(t, steps) && WaitsThrough(t, steps, p)
    ensures HasKid(After(t, steps), p) && !HasZombieKid(After(t, steps), p)
  {
    StillInWait(t, steps, p);
    hide Ranges, Listed, CpuMatch, Family, Forks, Pids, Legal, After, HasKid, HasZombieKid, WaitsThrough;
    assert Waiters(After(t, steps));
  }

  /** The process on CPU c is a child of p. */
  predicate RunsChild(t: Table, c: nat, p: nat) {
    c < |t.cpu| && 0 <= t.cpu[c] < |t.procs| && t.procs[t.cpu[c]].parent == p
  }

  predicate IsReady(t: Table, p: nat) {
    p < |t.procs| && t.procs[p].state == RUNNABLE
  }

  /** The exit of a child wakes it. */
  lemma ExitEndsWait(t: Table, steps: seq<Step>, p: nat, c: nat, e: nat)
    requires Inv(t) && Pids(t) && Legal(t, steps) && WaitsThrough(t, steps, p)
    requires Enabled(After(t, steps), DoExit(c, e)) && RunsChild(After(t, steps), c, p)
    ensures IsReady(Apply(After(t, steps), DoExit(c, e)), p)
  {
    hide Shape, Ranges, Listed, CpuMatch, Family, Forks, Waiters, Apply, Pids, Legal, Enabled, WaitsThrough;
    StillInWait(t, steps, p);
    ChildWakes(After(t, steps), c, e, p);
  }

  lemma ChildWakes(t: Table, c: nat, e: nat, p: nat)
    requires Inv(t) && Enabled(t, DoExit(c, e)) && RunsChild(t, c, p) && AsleepInWait(t, p)
    ensures IsReady(Apply(t, DoExit(c, e)), p)
  {
    hide Ranges, Listed, CpuMatch, Family, Forks, Waiters, Apply, HasZombieKid, NotForking, Laws.Dropped;
    Laws.ExitLaw(t, c, e);
    Laws.RunnerIs(t, c);
  }

  // ---------- born in fork ----------

  /** fork is working on u before and after every step of the run. */
  ghost predicate BeingBorn(t: Table, steps: seq<Step>, u: nat)
    requires Inv(t) && Legal(t, steps)
    decreases |steps|
  {
    u in t.fork && (steps == [] || (StepInv(t, steps[0]); BeingBorn(Apply(t, steps[0]), steps[1..], u)))
  }

  /** The child keeps its pid and its forker. */
  ghost predicate SameChild(t: Table, t': Table, u: nat) {
    && u < |t.procs| == |t'.procs| && u in t.fork && u in t'.fork
    && t'.procs[u].pid == t.procs[u].pid && t'.fork[u].forker == t.fork[u].forker
  }

  lemma ChildIs(t: Table, u: nat)
    requires Inv(t) && u in t.fork
    ensures u < |t.procs| == NPROC && t.procs[u].state == EMBRYO
  {
    hide Listed, Ranges, CpuMatch, Family, Waiters;
  }

  /** Only fork's own steps touch its bookkeeping. */
  lemma ForkSame(t: Table, step: Step)
    requires Inv(t) && Enabled(t, step)
    requires !step.DoAlloc? && !step.DoAllocFail? && !step.DoAllocDone? && !step.DoTake? && !step.DoForkFail?
    requires !step.DoForkDone?
    ensures Apply(t, step).fork == t.fork
  {
    hide Listed, CpuMatch, Family, Forks, Waiters, Wake, Exit, Find, Served, Without, HasKid, SpendInt, FirstZombie;
    hide PromotedTo, NotForking;
    if step.DoExit? {
      ExitFork(t, step.c, step.elapsed);
    } else if step.DoWakeup? {
      WakeFork(t, OtherChan(step.addr));
    }
  }

  lemma WakeFork(t: Table, chan: Chan)
    requires Shape(t)
    ensures Wake(t, chan).fork == t.fork
  {
    hide FirstSleeper, Without;
  }

  lemma ExitFork(t: Table, c: nat, e: nat)
    requires Shape(t) && OnCpu(t, c)
    ensures Exit(t, c, e).fork == t.fork
  {
    hide Without, Wake, HasZombieKid, Charge;
    var cur := t.cpu[c];
    var par := t.procs[cur].parent;
    if par >= 0 {
      WakeFork(t, ProcChan(par));
    }
    var t1 := if par >= 0 then Wake(t, ProcChan(par)) else t;
    WakeFork(Reparent(t1, cur), ProcChan(t.init));
  }

  lemma StepBirth(t: Table, step: Step, u: nat)
    requires Inv(t) && Enabled(t, step) && u in t.fork && u in Apply(t, step).fork
    ensures SameChild(t, Apply(t, step), u)
  {
    ChildIs(t, u);
    StepInv(t, step);
    ChildIs(Apply(t, step), u);
    if step.DoAlloc? {
      AllocBirth(t, step.c, u);
    } else {
      OtherKept(t, step);
      hide Inv, Apply, Enabled;
      ForkerSame(t, step, u);
    }
  }

  lemma AllocBirth(t: Table, c: nat, u: nat)
    requires Inv(t) && Enabled(t, DoAlloc(c)) && u in t.fork
    ensures SameChild(t, Apply(t, DoAlloc(c)), u)
  {
    ChildIs(t, u);
    hide Listed, Ranges, CpuMatch, Family, Forks, Waiters, Apply, Laws.Relisted, NotForking;
    if t.q[StateId(UNUSED)] != [] {
      QueueHead(t, StateId(UNUSED));
    }
    Laws.AllocLaw(t, c);
  }

  lemma ForkerSame(t: Table, step: Step, u: nat)
    requires Inv(t) && Enabled(t, step) && u in t.fork && u in Apply(t, step).fork && !step.DoAlloc?
    ensures Apply(t, step).fork[u].forker == t.fork[u].forker
  {
    hide Listed, Ranges, CpuMatch, Family, Forks, Waiters, Apply;
    match step
    case DoAllocFail(x) => Laws.AllocFailLaw(t, x);
    case DoAllocDone(x) => Laws.AllocDoneLaw(t, x);
    case DoTake(x) => Laws.TakeLaw(t, x);
    case DoForkFail(x) => Laws.ForkFailLaw(t, x);
    case DoForkDone(x) => Laws.ForkDoneLaw(t, x);
    case _ => ForkSame(t, step);
  }

  lemma {:induction false} Gestation(t: Table, steps: seq<Step>, u: nat)
    requires Inv(t) && Legal(t, steps) && BeingBorn(t, steps, u)
    ensures SameChild(t, After(t, steps), u)
    decreases |steps|
  {
    hide Shape, Ranges, Listed, CpuMatch, Family, Forks, Waiters, Apply, Enabled, Pids;
    ChildIs(t, u);
    if steps != [] {
      StepInv(t, steps[0]);
      StepBirth(t, steps[0], u);
      Gestation(Apply(t, steps[0]), steps[1..], u);
    }
  }

  /** The run begins with a call of fork, which takes slot u, and fork is working on u through all of it. */
  ghost predicate CallsFork(t: Table, steps: seq<Step>, u: nat)
    requires Inv(t) && Legal(t, steps)
  {
    && steps != [] && steps[0].DoAlloc? && t.q[StateId(UNUSED)] != [] && t.q[StateId(UNUSED)][0] == u
    && (StepInv(t, steps[0]); BeingBorn(Apply(t, steps[0]), steps[1..], u))
  }

  /** u is a new process. */
  predicate Born(t: Table, u: nat, pid: nat, parent: int) {
    && u < |t.procs| && t.procs[u].state == RUNNABLE && t.procs[u].pid == pid && t.procs[u].parent == parent
    && t.procs[u].priority == DEFAULTPRIO && t.procs[u].budget == BUDGET
  }

  /** Whatever happens while fork is at work: the child it makes ready has the pid that was next when fork was
      called, the caller of fork as its parent, the default priority and a full budget. */
  lemma ForkedBy(t: Table, steps: seq<Step>, u: nat)
    requires Inv(t) && Legal(t, steps) && CallsFork(t, steps, u) && Enabled(After(t, steps), DoForkDone(u))
    ensures Born(Apply(After(t, steps), DoForkDone(u)), u, t.nextpid, t.cpu[steps[0].c])
  {
    hide Listed, Ranges, CpuMatch, Family, Forks, Waiters, Apply, Enabled, Born;
    StepInv(t, steps[0]);
    Taken(t, steps[0].c, u);
    Gestation(Apply(t, steps[0]), steps[1..], u);
    Delivered(After(t, steps), u);
  }

  lemma Taken(t: Table, c: nat, u: nat)
    requires Inv(t) && Enabled(t, DoAlloc(c)) && t.q[StateId(UNUSED)] != [] && t.q[StateId(UNUSED)][0] == u
    ensures var t' := Apply(t, DoAlloc(c));
            && u < |t'.procs| && u in t'.fork && t'.procs[u].pid == t.nextpid && t'.fork[u].forker == t.cpu[c]
  {
    hide Listed, Ranges, CpuMatch, Family, Forks, Waiters, Apply, Laws.Relisted, NotForking;
    Laws.AllocLaw(t, c);
  }

  lemma Delivered(t: Table, u: nat)
    requires Inv(t) && Enabled(t, DoForkDone(u))
    ensures u < |t.procs| && u in t.fork && Born(Apply(t, DoForkDone(u)), u, t.procs[u].pid, t.fork[u].forker)
  {
    hide Listed, CpuMatch, Family, Forks, Waiters, Apply, Laws.Entered;
    Laws.ForkDoneLaw(t, u);
  }
}
