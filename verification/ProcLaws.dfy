/** What each critical section of src/proc.c does to the process table, said of the tables before and after it
    and of nothing else. */
module ProcLaws {
  import opened Common
  import opened ProcSpec
  import opened ProcLists
  import opened ProcInv
  import opened ProcFamily
  import opened ProcExit
  import opened ProcPids

  // ---------- lists ----------

  /** r is s without p. */
  ghost predicate Dropped(s: seq<nat>, r: seq<nat>, p: nat) {
    exists k :: 0 <= k < |s| && s[k] == p && r == s[..k] + s[k + 1..]
  }

  /** p has left list `from` and is last on list `to`; the lists are otherwise as before. */
  ghost predicate Relisted(q: seq<seq<nat>>, q': seq<seq<nat>>, p: nat, from: int, to: int) {
    && |q| == |q'| == NLIST && 0 <= from < NLIST && 0 <= to < NLIST
    && (forall l :: 0 <= l < NLIST && l != from && l != to ==> q'[l] == q[l])
    && if from != to then Dropped(q[from], q'[from], p) && q'[to] == q[to] + [p]
       else q'[to] != [] && q'[to][|q'[to]| - 1] == p && Dropped(q[to], q'[to][..|q'[to]| - 1], p)
  }

  /** No other process changes. */
  ghost predicate Alone(procs: seq<Proc>, procs': seq<Proc>, p: nat) {
    |procs'| == |procs| && forall x :: 0 <= x < |procs| && x != p ==> procs'[x] == procs[x]
  }

  /** Neither the CPUs nor the bookkeeping of fork change. */
  ghost predicate SameRest(t: Table, t': Table) {
    t'.cpu == t.cpu && t'.fork == t.fork && t'.nextpid == t.nextpid && t'.init == t.init
  }

  lemma DropIs(s: seq<nat>, p: nat)
    requires Distinct(s) && p in s
    ensures Dropped(s, Without(s, p), p)
  {
    var k :| 0 <= k < |s| && s[k] == p;
    WithoutAt(s, k);
  }

  lemma MoveLaw(t: Table, p: nat, np: Proc)
    requires Inv(t) && p < NPROC && p !in Flying(t) && Listable(np)
    ensures var t' := Move(t, p, np);
            && Relisted(t.q, t'.q, p, ListId(t.procs[p]), ListId(np)) && Alone(t.procs, t'.procs, p) && SameRest(t, t')
            && t'.procs[p] == np
  {
    hide Ranges, CpuMatch, Family, Forks, Waiters, Without, Flying;
    var l := ListId(t.procs[p]);
    assert On(t.q, l, p);
    DropIs(t.q[l], p);
    var r := Without(t.q[l], p);
    assert (r + [p])[..|r|] == r;
  }

  /** A live process is on the list of its state and priority. */
  lemma AliveIs(t: Table, p: nat)
    requires Inv(t) && p < NPROC && Active(t.procs[p].state)
    ensures p !in Flying(t) && p !in t.fork && InRange(t.procs[p]) && Chargeable(t.procs[p])
  {
    hide Listed, CpuMatch, Family, Waiters;
  }

  // ---------- giving up a CPU ----------

  /** What e ticks on a CPU do to a process: they come off its budget, or, once it is spent, cost it one
      priority, not below 0, against a full budget. */
  predicate Charged(p: Proc, p': Proc, e: nat) {
    if e < p.budget then p'.budget == p.budget - e && p'.priority == p.priority
    else p'.budget == BUDGET && p'.priority == if p.priority == 0 then 0 else p.priority - 1
  }

  lemma ChargeLaw(p: Proc, e: nat)
    requires InRange(p) && Timely(e)
    ensures Charged(p, Charge(p, e), e) && Chargeable(Charge(p, e))
    ensures Charge(p, e) == p.(budget := Charge(p, e).budget, priority := Charge(p, e).priority)
  {
    ChargeInRange(p, e);
    hide SpendInt;
  }

  lemma RunnerIs(t: Table, c: nat)
    requires Inv(t) && OnCpu(t, c)
    ensures t.cpu[c] < |t.procs| == NPROC && t.procs[t.cpu[c]].state == RUNNING
  {
    hide Listed, CpuMatch, Family, Forks, Waiters;
  }

  /** The process on CPU c has given it up for state s, charged for e ticks, and is last on its new list. */
  ghost predicate Left(t: Table, t': Table, c: nat, e: nat, s: PState) {
    && c < |t.cpu| && 0 <= t.cpu[c] < |t.procs| == |t'.procs|
    && var p, now := t.procs[t.cpu[c]], t'.procs[t.cpu[c]];
    && Charged(p, now, e) && now == p.(state := s, budget := now.budget, priority := now.priority, chan := now.chan)
    && Relisted(t.q, t'.q, t.cpu[c], StateId(RUNNING), if s == RUNNABLE then READY + now.priority else StateId(s))
    && t'.cpu == t.cpu[c := -1] && t'.fork == t.fork && t'.nextpid == t.nextpid && t'.init == t.init
  }

  lemma LeftIs(t: Table, c: nat, e: nat, s: PState, chan: Chan)
    requires Inv(t) && OnCpu(t, c) && t.cpu[c] < NPROC && Timely(e) && InRange(t.procs[t.cpu[c]])
    ensures Chargeable(Charge(t.procs[t.cpu[c]], e))
    ensures var t' := LeaveCpu(t, c, Charge(t.procs[t.cpu[c]], e).(state := s, chan := chan));
            Left(t, t', c, e, s) && Alone(t.procs, t'.procs, t.cpu[c]) && t'.procs[t.cpu[c]].chan == chan
  {
    hide Listed, Ranges, CpuMatch, Family, Forks, Waiters, Flying, Move, Charge, Relisted, InRange;
    RunnerIs(t, c);
    var p := t.cpu[c];
    AliveIs(t, p);
    ChargeLaw(t.procs[p], e);
    MoveLaw(t, p, Charge(t.procs[p], e).(state := s, chan := chan));
  }

  /** yield: the process is ready again, behind all others of its new priority. */
  lemma YieldLaw(t: Table, c: nat, e: nat)
    requires Inv(t) && Enabled(t, DoYield(c, e))
    ensures var t' := Apply(t, DoYield(c, e));
            && Left(t, t', c, e, RUNNABLE) && Alone(t.procs, t'.procs, t.cpu[c])
            && t'.procs[t.cpu[c]].chan == t.procs[t.cpu[c]].chan
  {
    hide Listed, Ranges, CpuMatch, Family, Forks, Waiters, Flying, LeaveCpu, Charge, InRange, Left, Alone;
    RunnerIs(t, c);
    var p := t.cpu[c];
    AliveIs(t, p);
    LeftIs(t, c, e, RUNNABLE, t.procs[p].chan);
    ChargeLaw(t.procs[p], e);
  }

  /** sleep: the process sleeps on the channel it was given. */
  lemma SleepLaw(t: Table, c: nat, addr: int, e: nat)
    requires Inv(t) && Enabled(t, DoSleep(c, addr, e))
    ensures var t' := Apply(t, DoSleep(c, addr, e));
            && Left(t, t', c, e, SLEEPING) && Alone(t.procs, t'.procs, t.cpu[c])
            && t'.procs[t.cpu[c]].chan == OtherChan(addr)
  {
    hide Listed, Ranges, CpuMatch, Family, Forks, Waiters, Flying, LeaveCpu, Charge, InRange, Left, Alone;
    RunnerIs(t, c);
    AliveIs(t, t.cpu[c]);
    LeftIs(t, c, e, SLEEPING, OtherChan(addr));
  }

  // ---------- the scheduler ----------

  /** The scheduler takes the head of the highest ready list that has one. */
  lemma DispatchLaw(t: Table, c: nat, ticks: nat)
    requires Inv(t) && Enabled(t, DoDispatch(c, ticks))
    ensures var t' := Apply(t, DoDispatch(c, ticks));
            if forall l :: READY <= l < NLIST ==> t.q[l] == [] then t' == t
            else exists l :: Picks(t, t', l, c, ticks)
  {
    hide Listed, Ranges, CpuMatch, Family, Forks, Waiters, Flying, Move, Relisted;
    ServedIs(t.q, MAXPRIO);
    var l := Served(t.q, MAXPRIO);
    if l >= READY {
      QueueHead(t, l);
      var p := t.q[l][0];
      AliveIs(t, p);
      MoveLaw(t, p, t.procs[p].(state := RUNNING, ticksIn := ticks));
      assert Picks(t, Apply(t, DoDispatch(c, ticks)), l, c, ticks);
    }
  }

  ghost predicate Picks(t: Table, t': Table, l: int, c: nat, ticks: nat) {
    && |t.q| == NLIST && READY <= l < NLIST && t.q[l] != [] && (forall h :: l < h < NLIST ==> t.q[h] == [])
    && t.q[l][0] < |t.procs| == |t'.procs| && c < |t.cpu|
    && var p := t.q[l][0];
    && t'.procs[p] == t.procs[p].(state := RUNNING, ticksIn := ticks) && Alone(t.procs, t'.procs, p)
    && Relisted(t.q, t'.q, p, l, StateId(RUNNING))
    && t'.cpu == t.cpu[c := p] && t'.fork == t.fork && t'.nextpid == t.nextpid && t'.init == t.init
  }

  // ---------- wakeup ----------

  ghost predicate Sleeps(t: Table, p: nat, chan: Chan) {
    p < |t.procs| && t.procs[p].state == SLEEPING && t.procs[p].chan == chan
  }

  /** p is the first on the SLEEPING list that sleeps on chan. */
  ghost predicate FirstOn(t: Table, p: nat, chan: Chan) {
    && |t.q| == NLIST && Sleeps(t, p, chan)
    && var s := t.q[StateId(SLEEPING)];
    && exists k :: 0 <= k < |s| && s[k] == p && forall i :: 0 <= i < k ==> !Sleeps(t, s[i], chan)
  }

  /** p goes from the SLEEPING list to the end of the ready list of its priority, and nothing else happens. */
  ghost predicate Woken(t: Table, t': Table, p: nat) {
    && p < |t.procs| == |t'.procs| && t'.procs[p] == t.procs[p].(state := RUNNABLE) && Alone(t.procs, t'.procs, p)
    && Relisted(t.q, t'.q, p, StateId(SLEEPING), READY + t.procs[p].priority) && SameRest(t, t')
  }

  lemma WakeLaw(t: Table, chan: Chan)
    requires Inv(t)
    ensures if exists p: nat :: Sleeps(t, p, chan)
            then exists p: nat :: FirstOn(t, p, chan) && Woken(t, Wake(t, chan), p)
            else Wake(t, chan) == t
  {
    hide Listed, Ranges, CpuMatch, Family, Forks, Waiters, Flying, Move, Relisted;
    var s := t.q[StateId(SLEEPING)];
    var k := FirstSleeper(t.procs, s, chan);
    forall p: nat | Sleeps(t, p, chan) ensures k < |s| {
      SleeperFound(t, chan, p);
    }
    if k < |s| {
      var p := s[k];
      AliveIs(t, p);
      MoveLaw(t, p, t.procs[p].(state := RUNNABLE));
      assert FirstOn(t, p, chan) && Woken(t, Wake(t, chan), p);
    }
  }

  lemma SleeperFound(t: Table, chan: Chan, p: nat)
    requires Inv(t) && Sleeps(t, p, chan)
    ensures FirstSleeper(t.procs, t.q[StateId(SLEEPING)], chan) < |t.q[StateId(SLEEPING)]|
  {
    hide Ranges, CpuMatch, Family, Waiters, Forks, Flying;
    AliveIs(t, p);
    assert On(t.q, StateId(SLEEPING), p);
  }

  /** wakeup wakes the first sleeper on the channel, if there is one. */
  lemma WakeupLaw(t: Table, addr: int)
    requires Inv(t)
    ensures var t', chan := Apply(t, DoWakeup(addr)), OtherChan(addr);
            if exists p: nat :: Sleeps(t, p, chan) then exists p: nat :: FirstOn(t, p, chan) && Woken(t, t', p)
            else t' == t
  {
    hide Listed, Ranges, CpuMatch, Family, Forks, Waiters, Wake, Woken, FirstOn, Sleeps;
    WakeLaw(t, OtherChan(addr));
  }

  /** wakeup1 on the proc of x wakes x if it sleeps there: nobody else can. */
  lemma WakeProcLaw(t: Table, x: nat)
    requires Inv(t) && x < NPROC
    ensures var t' := Wake(t, ProcChan(x)); if AsleepInWait(t, x) then Woken(t, t', x) else t' == t
  {
    WakeLaw(t, ProcChan(x));
    hide Wake, Woken, Listed, Ranges, CpuMatch, Family, Forks;
    assert AsleepInWait(t, x) ==> Sleeps(t, x, ProcChan(x));
    assert forall p: nat :: Sleeps(t, p, ProcChan(x)) ==> p == x;
  }

  // ---------- kill and setpriority ----------

  /** kill marks the one process that has the pid; if it slept, it is ready. */
  lemma KillLaw(t: Table, pid: nat, p: nat)
    requires Inv(t) && Pids(t) && InUse(t, p) && p !in Flying(t) && t.procs[p].pid == pid
    ensures var t' := Apply(t, DoKill(pid));
            && |t'.procs| == |t.procs| && Alone(t.procs, t'.procs, p) && SameRest(t, t')
            && if t.procs[p].state == SLEEPING then
                 && t'.procs[p] == t.procs[p].(killed := true, state := RUNNABLE)
                 && Relisted(t.q, t'.q, p, StateId(SLEEPING), READY + t.procs[p].priority)
               else t'.procs[p] == t.procs[p].(killed := true) && t'.q == t.q
  {
    hide Listed, Ranges, CpuMatch, Family, Forks, Waiters, Pids, KillTarget, Move, Relisted;
    KillFinds(t, pid, p);
    if t.procs[p].state == SLEEPING {
      AliveIs(t, p);
      MoveLaw(t, p, t.procs[p].(killed := true, state := RUNNABLE));
    }
  }

  /** No process on a list has the pid. */
  ghost predicate NobodyHas(t: Table, pid: nat) {
    forall r :: InUse(t, r) && t.procs[r].pid == pid ==> r in Flying(t)
  }

  lemma KillMisses(t: Table, pid: nat)
    requires Inv(t) && Pids(t) && NobodyHas(t, pid)
    ensures Apply(t, DoKill(pid)) == t
  {
    hide Listed, Ranges, CpuMatch, Family, Forks, Waiters, Pids, KillTarget, Move, Flying;
    KillFinds(t, pid, 0);
  }

  /** setpriority finds a process exactly when one that sleeps, runs or is ready has the pid, and it is that
      process. */
  lemma PrioFinds(t: Table, pid: nat, p: nat)
    requires Inv(t) && Pids(t) && p < NPROC
    ensures PrioTarget(t, pid) == p <==> Alive(t.procs[p].state) && t.procs[p].pid == pid
    ensures PrioTarget(t, pid) == -1 <==>
              forall r :: 0 <= r < NPROC && Alive(t.procs[r].state) ==> t.procs[r].pid != pid
  {
    hide CpuMatch, Family, Forks, Waiters, Find;
    var k := PrioTarget(t, pid);
    if k >= 0 {
      FoundOn(t, PRIO_ORDER, pid);
      assert ListId(t.procs[k]) in PRIO_ORDER;
      PrioListed(t.procs[k]);
    }
    forall r | 0 <= r < NPROC && Alive(t.procs[r].state) && t.procs[r].pid == pid ensures k >= 0 {
      AliveIs(t, r);
      assert On(t.q, ListId(t.procs[r]), r);
      PrioListed(t.procs[r]);
      var i :| 0 <= i < |PRIO_ORDER| && PRIO_ORDER[i] == ListId(t.procs[r]);
      assert r in t.q[PRIO_ORDER[i]];
    }
  }

  lemma PrioListed(p: Proc)
    requires Listable(p)
    ensures Alive(p.state) <==> exists i :: 0 <= i < |PRIO_ORDER| && PRIO_ORDER[i] == ListId(p)
  {
    var l := ListId(p);
    if Alive(p.state) {
      var i := if p.state == RUNNABLE then 6 - p.priority else if p.state == SLEEPING then 7 else 8;
      assert PRIO_ORDER[i] == l;
    }
  }

  /** setpriority gives the process with the pid the priority asked for. A change brings a full budget, and a
      ready process goes to the end of its new list. */
  lemma SetPriorityLaw(t: Table, pid: nat, priority: nat, p: nat)
    requires Inv(t) && Pids(t) && priority <= MAXPRIO && p < NPROC
    requires Alive(t.procs[p].state) && t.procs[p].pid == pid
    ensures var t' := Apply(t, DoSetPriority(pid, priority));
            && |t'.procs| == |t.procs| && t'.procs[p].priority == priority
            && Alone(t.procs, t'.procs, p) && SameRest(t, t')
            && (priority == t.procs[p].priority ==> t' == t)
            && (priority != t.procs[p].priority ==>
                  && t'.procs[p] == t.procs[p].(priority := priority, budget := BUDGET)
                  && if t.procs[p].state == RUNNABLE
                     then Relisted(t.q, t'.q, p, READY + t.procs[p].priority, READY + priority)
                     else t'.q == t.q)
  {
    hide Listed, Ranges, CpuMatch, Family, Forks, Waiters, Pids, PrioTarget, Move, Relisted, Flying;
    PrioFinds(t, pid, p);
    AliveIs(t, p);
    if priority != t.procs[p].priority && t.procs[p].state == RUNNABLE {
      MoveLaw(t, p, t.procs[p].(priority := priority, budget := BUDGET));
    }
  }

  lemma SetPriorityMisses(t: Table, pid: nat, priority: nat)
    requires Inv(t) && Pids(t) && priority <= MAXPRIO
    requires forall r :: 0 <= r < NPROC && Alive(t.procs[r].state) ==> t.procs[r].pid != pid
    ensures Apply(t, DoSetPriority(pid, priority)) == t
  {
    hide Listed, Ranges, CpuMatch, Family, Forks, Waiters, Pids, PrioTarget, Move;
    PrioFinds(t, pid, 0);
  }

  // ---------- fork ----------

  /** allocproc takes the head of the UNUSED list, with the next pid, for the process that called fork. */
  lemma AllocLaw(t: Table, c: nat)
    requires Inv(t) && Enabled(t, DoAlloc(c))
    ensures var t', unused := Apply(t, DoAlloc(c)), t.q[StateId(UNUSED)];
            if unused == [] then t' == t
            else
              && unused[0] < |t.procs| == |t'.procs|
              && var p := unused[0];
              && t'.procs[p] == t.procs[p].(state := EMBRYO, pid := t.nextpid) && Alone(t.procs, t'.procs, p)
              && Relisted(t.q, t'.q, p, StateId(UNUSED), StateId(EMBRYO))
              && t'.cpu == t.cpu && t'.init == t.init && t'.nextpid == t.nextpid + 1
              && t'.fork == t.fork[p := Forking(t.cpu[c], Allocating)]
  {
    hide Listed, Ranges, CpuMatch, Family, Waiters, Move, Relisted;
    var s := t.q[StateId(UNUSED)];
    if s != [] {
      QueueHead(t, StateId(UNUSED));
      hide Forks;
      UnusedIs(t, s[0]);
      MoveLaw(t, s[0], t.procs[s[0]].(state := EMBRYO, pid := t.nextpid));
    }
  }

  lemma UnusedIs(t: Table, p: nat)
    requires Inv(t) && p < NPROC && t.procs[p].state == UNUSED
    ensures p !in Flying(t)
  {
    hide Listed, CpuMatch, Family, Waiters, Ranges;
  }

  /** Without a kernel stack the slot goes back. */
  lemma AllocFailLaw(t: Table, p: nat)
    requires Inv(t) && Enabled(t, DoAllocFail(p))
    ensures var t' := Apply(t, DoAllocFail(p));
            && |t'.procs| == |t.procs| && t'.procs[p] == t.procs[p].(state := UNUSED) && Alone(t.procs, t'.procs, p)
            && Relisted(t.q, t'.q, p, StateId(EMBRYO), StateId(UNUSED))
            && t'.cpu == t.cpu && t'.init == t.init && t'.nextpid == t.nextpid && t'.fork == t.fork - {p}
  {
    hide Listed, Ranges, CpuMatch, Family, Waiters, Move, Relisted;
    assert t.procs[p].state == EMBRYO && p !in Flying(t);
    hide Forks;
    MoveLaw(t, p, t.procs[p].(state := UNUSED));
  }

  /** allocproc returns a child with the default priority and a full budget. */
  lemma AllocDoneLaw(t: Table, p: nat)
    requires Inv(t) && Enabled(t, DoAllocDone(p))
    ensures var t' := Apply(t, DoAllocDone(p));
            && |t'.procs| == |t.procs| && Alone(t.procs, t'.procs, p) && t'.q == t.q
            && t'.procs[p] == t.procs[p].(priority := DEFAULTPRIO, budget := BUDGET)
            && t'.cpu == t.cpu && t'.init == t.init && t'.nextpid == t.nextpid
            && t'.fork == t.fork[p := Forking(t.fork[p].forker, Allocated)]
  {
    hide Listed, Ranges, CpuMatch, Family, Waiters;
  }

  /** fork takes its child off the EMBRYO list. */
  lemma TakeLaw(t: Table, p: nat)
    requires Inv(t) && Enabled(t, DoTake(p))
    ensures var t' := Apply(t, DoTake(p));
            && t'.procs == t.procs && |t'.q| == |t.q|
            && Dropped(t.q[StateId(EMBRYO)], t'.q[StateId(EMBRYO)], p)
            && (forall l :: 0 <= l < NLIST && l != StateId(EMBRYO) ==> t'.q[l] == t.q[l])
            && t'.cpu == t.cpu && t'.init == t.init && t'.nextpid == t.nextpid
            && t'.fork == t.fork[p := Forking(t.fork[p].forker, InFlight)]
  {
    hide Ranges, CpuMatch, Family, Waiters;
    assert t.procs[p].state == EMBRYO && p !in Flying(t);
    hide Forks, Flying;
    assert On(t.q, StateId(EMBRYO), p);
    DropIs(t.q[StateId(EMBRYO)], p);
  }

  /** p, on no list before, is last on list l. */
  ghost predicate Entered(q: seq<seq<nat>>, q': seq<seq<nat>>, p: nat, l: int) {
    && |q| == |q'| == NLIST && 0 <= l < NLIST && q'[l] == q[l] + [p]
    && forall k :: 0 <= k < NLIST && k != l ==> q'[k] == q[k]
  }

  /** A child whose memory cannot be copied goes back. */
  lemma ForkFailLaw(t: Table, p: nat)
    requires Inv(t) && Enabled(t, DoForkFail(p))
    ensures var t' := Apply(t, DoForkFail(p));
            && |t'.procs| == |t.procs| && t'.procs[p] == t.procs[p].(state := UNUSED) && Alone(t.procs, t'.procs, p)
            && Entered(t.q, t'.q, p, StateId(UNUSED))
            && t'.cpu == t.cpu && t'.init == t.init && t'.nextpid == t.nextpid && t'.fork == t.fork - {p}
  {
    hide Listed, Ranges, CpuMatch, Family, Waiters, Forks;
  }

  /** fork: the child is ready at its priority, and its parent is the process that called fork. */
  lemma ForkDoneLaw(t: Table, p: nat)
    requires Inv(t) && Enabled(t, DoForkDone(p))
    ensures var t' := Apply(t, DoForkDone(p));
            && |t'.procs| == |t.procs| && Alone(t.procs, t'.procs, p)
            && t'.procs[p] == t.procs[p].(state := RUNNABLE, parent := t.fork[p].forker)
            && Entered(t.q, t'.q, p, READY + t.procs[p].priority)
            && t'.cpu == t.cpu && t'.init == t.init && t'.nextpid == t.nextpid && t'.fork == t.fork - {p}
  {
    hide Listed, CpuMatch, Family, Waiters, Forks;
  }

  // ---------- wait ----------

  /** z is the first child of p on the ZOMBIE list. */
  ghost predicate FirstDead(t: Table, z: nat, p: nat) {
    && |t.q| == NLIST && Dead(t, z, p)
    && var s := t.q[StateId(ZOMBIE)];
    && exists k :: 0 <= k < |s| && s[k] == z && forall i :: 0 <= i < k ==> !Dead(t, s[i], p)
  }

  ghost predicate Dead(t: Table, z: nat, p: int) {
    z < |t.procs| && t.procs[z].state == ZOMBIE && t.procs[z].parent == p
  }

  /** The slot of z is free again, and nothing else happens. */
  ghost predicate Reaped(t: Table, t': Table, z: nat) {
    && z < |t.procs| == |t'.procs|
    && t'.procs[z] == t.procs[z].(state := UNUSED, pid := 0, parent := -1, killed := false)
    && Alone(t.procs, t'.procs, z) && Relisted(t.q, t'.q, z, StateId(ZOMBIE), StateId(UNUSED)) && SameRest(t, t')
  }

  lemma WaitReaps(t: Table, c: nat, e: nat)
    requires Inv(t) && Enabled(t, DoWait(c, e)) && HasZombieKid(t, t.cpu[c])
    ensures exists z: nat ::
              FirstDead(t, z, t.cpu[c]) && Reaped(t, Apply(t, DoWait(c, e)), z) && WaitReturns(t, c) == t.procs[z].pid
  {
    hide Listed, Ranges, CpuMatch, Family, Forks, Waiters, Flying, Move, Relisted, HasZombieKid;
    RunnerIs(t, c);
    var s := t.q[StateId(ZOMBIE)];
    var k := FirstZombie(t.procs, s, t.cpu[c]);
    if k == |s| {
      NoZombieFound(t, t.cpu[c]);
    }
    var z := s[k];
    AliveIs(t, z);
    MoveLaw(t, z, t.procs[z].(state := UNUSED, pid := 0, parent := -1, killed := false));
    assert FirstDead(t, z, t.cpu[c]) && Reaped(t, Apply(t, DoWait(c, e)), z);
  }

  /** Without a zombie child wait fails when there is nothing to wait for, or the caller sleeps on its own
      proc. */
  lemma WaitSleeps(t: Table, c: nat, e: nat)
    requires Inv(t) && Enabled(t, DoWait(c, e)) && !HasZombieKid(t, t.cpu[c])
    ensures var p, t' := t.cpu[c], Apply(t, DoWait(c, e));
            && p < |t.procs|
            && if !HasKid(t, p) || t.procs[p].killed then t' == t && WaitReturns(t, c) == -1
               else
                 && WaitReturns(t, c) == 0 && Left(t, t', c, e, SLEEPING) && Alone(t.procs, t'.procs, p)
                 && t'.procs[p].chan == ProcChan(p)
  {
    RunnerIs(t, c);
    var p := t.cpu[c];
    var s := t.q[StateId(ZOMBIE)];
    var k := FirstZombie(t.procs, s, p);
    assert k == |s|;
    hide Listed, Ranges, CpuMatch, Family, Forks, Waiters, Flying, LeaveCpu, Charge, InRange, Left, HasKid;
    hide HasZombieKid;
    AliveIs(t, p);
    LeftIs(t, c, e, SLEEPING, ProcChan(p));
  }

  // ---------- exit ----------

  /** The exit of p wakes x: its parent if that is in wait, and init if it is in wait and p leaves it a zombie. */
  ghost predicate Rouses(t: Table, p: nat, x: int) {
    && p < |t.procs| && AsleepInWait(t, x)
    && (x == t.procs[p].parent || (x == t.init && HasZombieKid(t, p)))
  }

  /** No process loses its place on a ready list, and only the SLEEPING list gets shorter. */
  ghost predicate OnlyWakes(q: seq<seq<nat>>, q': seq<seq<nat>>) {
    && |q| == |q'| == NLIST && (forall l :: READY <= l < NLIST ==> q[l] <= q'[l])
    && (forall l :: 0 <= l < READY && l != StateId(SLEEPING) ==> q'[l] == q[l])
  }

  /** Processes that slept in wait are ready; nothing else happens. */
  ghost predicate Roused(t: Table, t': Table, xs: set<int>) {
    && |t'.procs| == |t.procs| && SameRest(t, t') && OnlyWakes(t.q, t'.q)
    && forall x :: 0 <= x < |t.procs| ==>
         t'.procs[x] == if x in xs && AsleepInWait(t, x) then t.procs[x].(state := RUNNABLE) else t.procs[x]
  }

  lemma WakeRouses(t: Table, x: nat)
    requires Inv(t) && x < NPROC
    ensures Roused(t, Wake(t, ProcChan(x)), {x})
  {
    hide Listed, Ranges, CpuMatch, Family, Forks, Waiters, Wake, Dropped;
    WakeProcLaw(t, x);
  }

  lemma RousedTrans(t: Table, t1: Table, t2: Table, xs: set<int>, ys: set<int>)
    requires Roused(t, t1, xs) && Roused(t1, t2, ys)
    ensures Roused(t, t2, xs + ys)
  {
    forall x | 0 <= x < |t.procs|
      ensures t2.procs[x] == if x in xs + ys && AsleepInWait(t, x) then t.procs[x].(state := RUNNABLE) else t.procs[x]
    {
    }
  }

  lemma RousedNone(t: Table)
    requires |t.q| == NLIST
    ensures Roused(t, t, {})
  {
  }

  /** What exit does before its caller becomes a zombie. */
  lemma OrphanLaw(t: Table, p: nat)
    requires Inv(t) && p < NPROC && t.procs[p].state == RUNNING && p != t.init
    requires 0 <= t.procs[p].parent < NPROC && t.procs[p].parent != p
    ensures var t' := Orphan(t, p);
            && |t'.procs| == |t.procs| && SameRest(t, t') && OnlyWakes(t.q, t'.q)
            && forall x :: 0 <= x < |t.procs| ==>
                 t'.procs[x] == t.procs[x].(state := if Rouses(t, p, x) then RUNNABLE else t.procs[x].state,
                                            parent := if t.procs[x].parent == p then t.init else t.procs[x].parent)
  {
    hide Listed, Flying, CpuMatch, Waiters, Ranges, Family, Forks, HasKid, HasZombieKid, Wake, OnlyWakes;
    var par := t.procs[p].parent;
    var t1 := Wake(t, ProcChan(par));
    WakeInv(t, ProcChan(par));
    WakeRouses(t, par);
    KidsSame(t, t1, p);
    var u, xs := t1, {};
    if HasZombieKid(t, p) {
      u, xs := Wake(t1, ProcChan(t.init)), {t.init};
      WakeInv(t1, ProcChan(t.init));
      WakeRouses(t1, t.init);
      WakeReparent(t1, p, ProcChan(t.init));
    } else {
      RousedNone(t1);
    }
    RousedTrans(t, t1, u, {par}, xs);
    assert Orphan(t, p) == Reparent(u, p);
  }

  /** exit: the caller is a zombie off its CPU; its parent and, for a zombie left behind, init wake from wait;
      its children are init's; nobody else changes. */
  lemma ExitLaw(t: Table, c: nat, e: nat)
    requires Inv(t) && Enabled(t, DoExit(c, e))
    ensures var p, t' := t.cpu[c], Apply(t, DoExit(c, e));
            && p < |t.procs| == |t'.procs| && Charged(t.procs[p], t'.procs[p], e)
            && t'.procs[p] == t.procs[p].(state := ZOMBIE, budget := t'.procs[p].budget,
                                          priority := t'.procs[p].priority)
            && (forall x :: 0 <= x < |t.procs| && x != p ==>
                  t'.procs[x] == t.procs[x].(state := if Rouses(t, p, x) then RUNNABLE else t.procs[x].state,
                                             parent := if t.procs[x].parent == p then t.init else t.procs[x].parent))
            && |t.q| == |t'.q| == NLIST && t'.q[StateId(ZOMBIE)] == t.q[StateId(ZOMBIE)] + [p]
            && Dropped(t.q[StateId(RUNNING)], t'.q[StateId(RUNNING)], p)
            && (forall l :: READY <= l < NLIST ==> t.q[l] <= t'.q[l])
            && t'.q[StateId(UNUSED)] == t.q[StateId(UNUSED)] && t'.q[StateId(EMBRYO)] == t.q[StateId(EMBRYO)]
            && t'.cpu == t.cpu[c := -1] && t'.fork == t.fork && t'.nextpid == t.nextpid && t'.init == t.init
  {
    hide Listed, Flying, CpuMatch, Waiters, Ranges, Family, Forks, HasKid, Orphan, Rouses, Dropped, LeaveCpu, Charge;
    hide Inv;
    Runner(t, c);
    var p := t.cpu[c];
    OrphanLaw(t, p);
    OrphanInv(t, p);
    var t1 := Orphan(t, p);
    LeftIs(t1, c, e, ZOMBIE, t1.procs[p].chan);
    ChargeLaw(t.procs[p], e);
  }
}
