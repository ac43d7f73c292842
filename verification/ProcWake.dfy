/** A run of the kernel in which wakeup1 leaves a sleeper behind. */
module ProcWake {
  import opened ProcSpec
  import opened ProcExit
  import opened ProcRuns
  import opened ProcBoot

  /** A run can be prolonged by any step that is enabled at its end. */
  lemma {:induction false} OneMoreStep(t: Table, steps: seq<Step>, s: Step)
    requires Inv(t) && Legal(t, steps) && Enabled(After(t, steps), s)
    ensures Legal(t, steps + [s]) && After(t, steps + [s]) == Apply(After(t, steps), s)
    decreases |steps|
  {
    hide Apply, Enabled, Listed, CpuMatch, Family, Forks, Waiters, Shape, Ranges;
    if steps == [] {
      StepInv(t, s);
      assert ([] + [s])[1..] == [];
    } else {
      StepInv(t, steps[0]);
      OneMoreStep(Apply(t, steps[0]), steps[1..], s);
      assert (steps + [s])[1..] == steps[1..] + [s];
    }
  }

  /** The parts of a table in which only init and process 1 are in use and only CPU 0 is busy. */
  ghost predicate Looks(t: Table, p0: Proc, p1: Proc, unused: seq<nat>, embryo: seq<nat>, sleeping: seq<nat>,
                        running: seq<nat>,
                        ready: seq<nat>, cpu: int, fork: map<nat, Forking>)
  {
    && |t.procs| == NPROC && t.procs[0] == p0 && t.procs[1] == p1 && |t.cpu| >= 1 && t.cpu[0] == cpu && t.fork == fork
    && |t.q| == NLIST && t.q[0] == unused && t.q[1] == embryo && t.q[2] == sleeping && t.q[4] == running
    && t.q[READY] == ready
    && (forall l :: READY < l < NLIST ==> t.q[l] == [])
  }

  const INIT: Proc := BLANK.(state := RUNNABLE, pid := 1, budget := BUDGET)
  const ALLOCATED: Proc := BLANK.(state := EMBRYO, pid := 2)
  const CHILD: Proc := ALLOCATED.(budget := BUDGET)

  function Asleep(p: Proc): Proc {
    p.(state := SLEEPING, chan := OtherChan(7))
  }

  function Rest(): seq<nat> {
    Range(1, NPROC)[1..]
  }

  lemma AtBoot(ncpu: nat)
    requires ncpu >= 1
    ensures Looks(Boot(ncpu), INIT, BLANK, Range(1, NPROC), [], [], [], [0], -1, map[]) && Boot(ncpu).nextpid == 2
  {
    assert Range(0, 1) == [0];
  }

  /** CPU 0 takes the one process that is ready. */
  lemma Dispatched(t: Table, p0: Proc, p1: Proc, unused: seq<nat>, sleeping: seq<nat>, p: nat)
    requires Shape(t) && Ranges(t) && p < 2 && Looks(t, p0, p1, unused, [], sleeping, [], [p], -1, map[])
    requires t.procs[p].state == RUNNABLE && t.procs[p].priority == 0
    ensures Enabled(t, DoDispatch(0, 0))
    ensures var np := t.procs[p].(state := RUNNING, ticksIn := 0);
            var t' := Apply(t, DoDispatch(0, 0));
            && Looks(t', if p == 0 then np else p0, if p == 1 then np else p1, unused, [], sleeping, [p], [], p, map[])
            && t'.nextpid == t.nextpid
  {
    ServedIs(t.q, MAXPRIO);
    hide Served;
    assert Served(t.q, MAXPRIO) == READY;
    assert Without([p], p) == [];
  }

  /** The process on CPU 0 goes to sleep. */
  lemma FallsAsleep(t: Table, p0: Proc, p1: Proc, unused: seq<nat>, sleeping: seq<nat>, ready: seq<nat>, p: nat)
    requires Shape(t) && Ranges(t) && p < 2 && Looks(t, p0, p1, unused, [], sleeping, [p], ready, p, map[])
    requires t.procs[p].state == RUNNING && t.procs[p].budget == BUDGET
    ensures Enabled(t, DoSleep(0, 7, 0))
    ensures var np := Asleep(t.procs[p]);
            Looks(Apply(t, DoSleep(0, 7, 0)), if p == 0 then np else p0, if p == 1 then np else p1,
                  unused, [], sleeping + [p], [], ready, -1, map[])
  {
    assert Without([p], p) == [];
    assert SpendInt(BUDGET, 0) == BUDGET;
  }

  lemma LooksAt(t: Table, p0: Proc, p1: Proc, unused: seq<nat>, embryo: seq<nat>, sleeping: seq<nat>, running: seq<nat>,
                ready: seq<nat>, cpu: int, fork: map<nat, Forking>)
    requires Looks(t, p0, p1, unused, embryo, sleeping, running, ready, cpu, fork)
    ensures |t.procs| == NPROC && t.procs[0] == p0 && t.procs[1] == p1
  {
  }

  lemma OneWakes(t: Table, p0: Proc, p1: Proc, unused: seq<nat>)
    requires Shape(t) && Looks(t, Asleep(p0), Asleep(p1), unused, [], [0, 1], [], [], -1, map[]) && p0.priority == 0
    ensures AsleepOn(t, OtherChan(7), 0) && AsleepOn(t, OtherChan(7), 1)
    ensures !AsleepOn(Wake(t, OtherChan(7)), OtherChan(7), 0) && AsleepOn(Wake(t, OtherChan(7)), OtherChan(7), 1)
  {
    var s := t.q[StateId(SLEEPING)];
    assert s[0] == 0;
    assert FirstSleeper(t.procs, s, OtherChan(7)) == 0;
  }

  lemma Allocates(t: Table, p0: Proc) returns (t': Table)
    requires Shape(t) && Ranges(t) && Looks(t, p0, BLANK, Range(1, NPROC), [], [], [0], [], 0, map[]) && t.nextpid == 2
    ensures Enabled(t, DoAlloc(0)) && t' == Apply(t, DoAlloc(0))
    ensures Looks(t', p0, ALLOCATED, Rest(), [1], [], [0], [], 0, map[1 := Forking(0, Allocating)])
  {
    t' := Apply(t, DoAlloc(0));
    assert Without(Range(1, NPROC), 1) == Rest();
  }

  lemma ComesBack(t: Table, p0: Proc) returns (t': Table)
    requires Shape(t) && Ranges(t)
             && Looks(t, p0, ALLOCATED, Rest(), [1], [], [0], [], 0, map[1 := Forking(0, Allocating)])
    ensures Enabled(t, DoAllocDone(1)) && t' == Apply(t, DoAllocDone(1))
    ensures Looks(t', p0, CHILD, Rest(), [1], [], [0], [], 0, map[1 := Forking(0, Allocated)])
  {
    hide Rest;
    t' := Apply(t, DoAllocDone(1));
  }

  lemma Takes(t: Table, p0: Proc) returns (t': Table)
    requires Shape(t) && Ranges(t) && Looks(t, p0, CHILD, Rest(), [1], [], [0], [], 0, map[1 := Forking(0, Allocated)])
    ensures Enabled(t, DoTake(1)) && t' == Apply(t, DoTake(1))
    ensures Looks(t', p0, CHILD, Rest(), [], [], [0], [], 0, map[1 := Forking(0, InFlight)])
  {
    hide Rest;
    t' := Apply(t, DoTake(1));
    assert Without([1], 1) == [];
  }

  lemma Completes(t: Table, p0: Proc)
    requires Shape(t) && Ranges(t) && Looks(t, p0, CHILD, Rest(), [], [], [0], [], 0, map[1 := Forking(0, InFlight)])
    ensures Enabled(t, DoForkDone(1))
    ensures Looks(Apply(t, DoForkDone(1)), p0, CHILD.(state := RUNNABLE, parent := 0), Rest(), [], [], [0], [1],
                  0, map[])
  {
    hide Rest;
    assert map[1 := Forking(0, InFlight)] - {1} == map[];
  }

  /** init forks process 1. */
  lemma Forked(boot: Table, pre: seq<Step>, p0: Proc) returns (steps: seq<Step>)
    requires Inv(boot) && Legal(boot, pre) && After(boot, pre).nextpid == 2
    requires Looks(After(boot, pre), p0, BLANK, Range(1, NPROC), [], [], [0], [], 0, map[])
    ensures Legal(boot, steps)
    ensures Looks(After(boot, steps), p0, CHILD.(state := RUNNABLE, parent := 0), Rest(), [], [], [0], [1], 0, map[])
  {
    hide Looks, Apply, Enabled, Listed, CpuMatch, Family, Forks, Waiters, Shape, Ranges;
    steps := pre;
    var t1 := Allocates(After(boot, steps), p0);
    OneMoreStep(boot, steps, DoAlloc(0));
    steps := steps + [DoAlloc(0)];
    var t2 := ComesBack(t1, p0);
    OneMoreStep(boot, steps, DoAllocDone(1));
    steps := steps + [DoAllocDone(1)];
    var t3 := Takes(t2, p0);
    OneMoreStep(boot, steps, DoTake(1));
    steps := steps + [DoTake(1)];
    Completes(t3, p0);
    OneMoreStep(boot, steps, DoForkDone(1));
    steps := steps + [DoForkDone(1)];
  }

  /** With any number of CPUs, init forks a child, both go to sleep on one channel, and wakeup1 leaves
      the child asleep. */
  lemma WakeupMissesOne(ncpu: nat) returns (steps: seq<Step>)
    requires ncpu >= 1
    ensures Inv(Boot(ncpu)) && Legal(Boot(ncpu), steps)
    ensures var t := After(Boot(ncpu), steps);
            && AsleepOn(t, OtherChan(7), 0) && AsleepOn(t, OtherChan(7), 1)
            && !AsleepOn(Wake(t, OtherChan(7)), OtherChan(7), 0) && AsleepOn(Wake(t, OtherChan(7)), OtherChan(7), 1)
  {
    hide Looks, Apply, Enabled, Boot, Listed, CpuMatch, Family, Forks, Waiters, Shape, Ranges, Wake;
    var boot := Boot(ncpu);
    BootInv(ncpu);
    AtBoot(ncpu);
    steps := [];
    LooksAt(boot, INIT, BLANK, Range(1, NPROC), [], [], [], [0], -1, map[]);
    Dispatched(boot, INIT, BLANK, Range(1, NPROC), [], 0);
    OneMoreStep(boot, steps, DoDispatch(0, 0));
    steps := steps + [DoDispatch(0, 0)];
    var p0, p1 := INIT.(state := RUNNING), CHILD.(state := RUNNABLE, parent := 0);
    steps := Forked(boot, steps, p0);
    LooksAt(After(boot, steps), p0, p1, Rest(), [], [], [0], [1], 0, map[]);
    FallsAsleep(After(boot, steps), p0, p1, Rest(), [], [1], 0);
    OneMoreStep(boot, steps, DoSleep(0, 7, 0));
    steps := steps + [DoSleep(0, 7, 0)];
    LooksAt(After(boot, steps), Asleep(p0), p1, Rest(), [], [0], [], [1], -1, map[]);
    Dispatched(After(boot, steps), Asleep(p0), p1, Rest(), [0], 1);
    OneMoreStep(boot, steps, DoDispatch(0, 0));
    steps := steps + [DoDispatch(0, 0)];
    var p2 := p1.(state := RUNNING);
    LooksAt(After(boot, steps), Asleep(p0), p2, Rest(), [], [0], [1], [], 1, map[]);
    FallsAsleep(After(boot, steps), Asleep(p0), p2, Rest(), [0], [], 1);
    OneMoreStep(boot, steps, DoSleep(0, 7, 0));
    steps := steps + [DoSleep(0, 7, 0)];
    OneWakes(After(boot, steps), Asleep(p0), Asleep(p2), Rest());
  }
}
