/** Every step of the process table keeps its invariant. */
module ProcInv {
  import opened Common
  import opened ProcSpec
  import opened ProcLists

  /** The part of the invariant that does not look at the queues. */
  ghost predicate Rest(t: Table)
    requires Shape(t)
  {
    Ranges(t) && CpuMatch(t) && Family(t) && Forks(t) && Waiters(t)
  }

  lemma KidsSame(t: Table, t': Table, x: int)
    requires |t'.procs| == |t.procs|
    requires forall k :: 0 <= k < |t.procs| ==> t'.procs[k].parent == t.procs[k].parent
    requires forall k :: 0 <= k < |t.procs| ==> (t'.procs[k].state == ZOMBIE <==> t.procs[k].state == ZOMBIE)
    ensures HasKid(t', x) == HasKid(t, x) && HasZombieKid(t', x) == HasZombieKid(t, x)
  {
    assert forall k :: 0 <= k < |t.procs| ==> (t'.procs[k].parent == x <==> t.procs[k].parent == x);
  }

  /** p, now np, keeps its CPU or lack of one (c < 0), or gains or loses CPU c. */
  ghost predicate CpuChange(t: Table, t': Table, p: nat, np: Proc, c: int)
    requires Shape(t) && p < NPROC
  {
    if c < 0 then t'.cpu == t.cpu && (t.procs[p].state == RUNNING <==> np.state == RUNNING)
    else if c >= |t.cpu| then false
    else if np.state == RUNNING then t.procs[p].state != RUNNING && t.cpu[c] < 0 && t'.cpu == t.cpu[c := p]
    else t.cpu[c] == p && t'.cpu == t.cpu[c := -1]
  }

  lemma CpuMatchKept(t: Table, t': Table, p: nat, np: Proc, c: int)
    requires Shape(t) && Ranges(t) && CpuMatch(t) && Shape(t') && p < NPROC
    requires t'.procs == t.procs[p := np] && CpuChange(t, t', p, np, c)
    ensures CpuMatch(t')
  {
    if c >= 0 {
      forall x | 0 <= x < NPROC && t'.procs[x].state == RUNNING ensures x in t'.cpu {
        if x == p {
          assert t'.cpu[c] == p;
        } else {
          var d :| 0 <= d < |t.cpu| && t.cpu[d] == x;
          assert t'.cpu[d] == x;
        }
      }
    }
  }

  lemma WaitersKept(t: Table, t': Table, p: nat, np: Proc)
    requires Shape(t) && Waiters(t) && Shape(t') && p < NPROC && t'.procs == t.procs[p := np]
    requires np.parent == t.procs[p].parent && (np.state == ZOMBIE <==> t.procs[p].state == ZOMBIE)
    requires np.state == SLEEPING && np.chan.ProcChan? ==>
               np.chan.p == p && HasKid(t, p) && !HasZombieKid(t, p)
    ensures Waiters(t')
  {
    forall x | 0 <= x < NPROC && t'.procs[x].state == SLEEPING && t'.procs[x].chan.ProcChan?
      ensures t'.procs[x].chan.p == x && HasKid(t', x) && !HasZombieKid(t', x)
    {
      KidsSame(t, t', x);
    }
  }

  lemma RangesKept(t: Table, t': Table, p: nat, np: Proc, c: int)
    requires Shape(t) && Ranges(t) && CpuMatch(t) && Shape(t') && p < NPROC
    requires t'.procs == t.procs[p := np] && t'.fork == t.fork
    requires Active(np.state) ==> InRange(np)
    requires p in t.fork ==> np.priority == t.procs[p].priority && np.budget == t.procs[p].budget
    requires CpuChange(t, t', p, np, c)
    ensures Ranges(t')
  {
  }

  lemma FamilyKept(t: Table, t': Table, p: nat, np: Proc)
    requires Shape(t) && Family(t) && Forks(t) && Shape(t') && p < NPROC
    requires t'.procs == t.procs[p := np] && t'.fork == t.fork && t'.init == t.init
    requires Alive(np.state) == Alive(t.procs[p].state) && np.parent == t.procs[p].parent
    requires !Alive(np.state) ==> np.state == t.procs[p].state
    ensures Family(t') && Forks(t') && (Alive(np.state) ==> p !in t.fork)
  {
  }

  /** Process p changes between the live states (or within one), without touching anything the
      rest of the invariant reads but its own priority, budget, channel and CPU. */
  lemma AliveStep(t: Table, t': Table, p: nat, np: Proc, c: int)
    requires Shape(t) && Rest(t) && Shape(t') && p < NPROC
    requires t'.procs == t.procs[p := np] && t'.fork == t.fork && t'.init == t.init
    requires Alive(t.procs[p].state) && Alive(np.state) && np.parent == t.procs[p].parent && InRange(np)
    requires CpuChange(t, t', p, np, c)
    requires np.state == SLEEPING && np.chan.ProcChan? ==>
               np.chan.p == p && HasKid(t, p) && !HasZombieKid(t, p)
    ensures Rest(t')
  {
    hide Ranges, CpuMatch, Family, Forks, Waiters, CpuChange, HasKid, HasZombieKid;
    FamilyKept(t, t', p, np);
    CpuMatchKept(t, t', p, np, c);
    RangesKept(t, t', p, np, c);
    WaitersKept(t, t', p, np);
  }

  // ---------- budgets ----------

  /** Within 2^31 ticks the unsigned subtraction is the plain one. */
  lemma ChargeInRange(p: Proc, elapsed: nat)
    requires InRange(p) && Timely(elapsed)
    ensures InRange(Charge(p, elapsed))
    ensures SpendInt(p.budget, elapsed) == p.budget - elapsed
  {
    var d := p.budget - elapsed;
    assert -TWO31 < d <= BUDGET;
    if d < 0 {
      assert d % TWO32 == d + TWO32;
    } else {
      assert d % TWO32 == d;
    }
  }

  /** The budget stays in 1..BUDGET for every elapsed time a 32-bit counter can show except
      those that wrap into the positive range: exactly then the invariant is lost. */
  lemma SpendIntExact(p: Proc, elapsed: nat)
    requires InRange(p) && elapsed < TWO32
    ensures InRange(Charge(p, elapsed)) <==>
              elapsed <= p.budget + TWO31 || elapsed >= p.budget + TWO32 - BUDGET
  {
    var d := p.budget - elapsed;
    if d >= 0 {
      assert d % TWO32 == d;
    } else {
      assert d % TWO32 == d + TWO32;
    }
  }

  // ---------- steps of live processes ----------

  /** A live process moves to another list, possibly gaining or losing CPU c. */
  lemma AliveMove(t: Table, p: nat, np: Proc, c: int, cpu': seq<int>)
    requires Inv(t) && p < NPROC && Listable(np)
    requires Alive(t.procs[p].state) && Alive(np.state) && np.parent == t.procs[p].parent && InRange(np)
    requires CpuChange(t, t.(cpu := cpu'), p, np, c)
    requires np.state == SLEEPING && np.chan.ProcChan? ==>
               np.chan.p == p && HasKid(t, p) && !HasZombieKid(t, p)
    ensures Inv(Move(t, p, np).(cpu := cpu'))
  {
    var t' := Move(t, p, np).(cpu := cpu');
    hide Ranges, CpuMatch, Family, Waiters, HasKid, HasZombieKid;
    assert p !in Flying(t);
    MoveListed(t, Flying(t), p, np);
    assert Flying(t') == Flying(t);
    hide Listed, Flying;
    AliveStep(t, t', p, np, c);
  }

  /** A live process changes fields in place. */
  lemma AliveSet(t: Table, p: nat, np: Proc)
    requires Inv(t) && p < NPROC && Listable(np)
    requires Alive(t.procs[p].state) && np.parent == t.procs[p].parent && InRange(np)
    requires np.state == t.procs[p].state && np.chan == t.procs[p].chan && ListId(np) == ListId(t.procs[p])
    ensures Inv(SetProc(t, p, np))
  {
    var t' := SetProc(t, p, np);
    assert np.state == SLEEPING && np.chan.ProcChan? ==> np.chan.p == p && HasKid(t, p) && !HasZombieKid(t, p);
    SamePlaces(t.procs, t'.procs, t.q, Flying(t));
    assert Flying(t') == Flying(t);
    hide Listed, Flying, Ranges, CpuMatch, Family, Forks, Waiters, HasKid, HasZombieKid;
    AliveStep(t, t', p, np, -1);
  }

  lemma QueueHead(t: Table, l: nat)
    requires Inv(t) && l < NLIST && t.q[l] != []
    ensures t.q[l][0] < NPROC && ListId(t.procs[t.q[l][0]]) == l
    ensures l >= READY ==> t.procs[t.q[l][0]].state == RUNNABLE
  {
    assert On(t.q, l, t.q[l][0]);
  }

  lemma DispatchInv(t: Table, c: nat, ticks: nat)
    requires Inv(t) && Enabled(t, DoDispatch(c, ticks))
    ensures Inv(Dispatch(t, c, ticks))
  {
    hide Listed, CpuMatch, Family, Forks, Waiters;
    var l := Served(t.q, MAXPRIO);
    ServedIs(t.q, MAXPRIO);
    if l >= READY {
      QueueHead(t, l);
      var p := t.q[l][0];
      AliveMove(t, p, t.procs[p].(state := RUNNING, ticksIn := ticks), c, t.cpu[c := p]);
    }
  }

  lemma YieldInv(t: Table, c: nat, elapsed: nat)
    requires Inv(t) && Enabled(t, DoYield(c, elapsed))
    ensures Inv(Yield(t, c, elapsed))
  {
    hide Listed, CpuMatch, Family, Forks, Waiters;
    var p := t.cpu[c];
    ChargeInRange(t.procs[p], elapsed);
    AliveMove(t, p, Charge(t.procs[p], elapsed).(state := RUNNABLE), c, t.cpu[c := -1]);
  }

  lemma SleepInv(t: Table, c: nat, chan: Chan, elapsed: nat)
    requires Inv(t) && OnCpu(t, c) && Timely(elapsed)
    requires chan.ProcChan? ==>
               chan.p == t.cpu[c] && HasKid(t, t.cpu[c]) && !HasZombieKid(t, t.cpu[c])
    ensures Inv(Sleep(t, c, chan, elapsed))
  {
    hide Listed, CpuMatch, Family, Forks, Waiters, HasKid, HasZombieKid;
    var p := t.cpu[c];
    ChargeInRange(t.procs[p], elapsed);
    AliveMove(t, p, Charge(t.procs[p], elapsed).(state := SLEEPING, chan := chan), c, t.cpu[c := -1]);
  }

  lemma WakeInv(t: Table, chan: Chan)
    requires Inv(t)
    ensures Inv(Wake(t, chan)) && Wake(t, chan).cpu == t.cpu && Wake(t, chan).fork == t.fork
  {
    hide Listed, CpuMatch, Family, Forks, Waiters, FirstSleeper;
    var s := t.q[StateId(SLEEPING)];
    var k := FirstSleeper(t.procs, s, chan);
    if k < |s| {
      AliveMove(t, s[k], t.procs[s[k]].(state := RUNNABLE), -1, t.cpu);
    }
  }

  /** What kill and setpriority find is on one of the lists they search. */
  lemma FoundOn(t: Table, ids: seq<nat>, pid: nat)
    requires Inv(t) && forall i :: 0 <= i < |ids| ==> ids[i] < NLIST
    ensures var p := Find(t, ids, pid); p >= 0 ==> p !in Flying(t) && ListId(t.procs[p]) in ids
  {
    var p := Find(t, ids, pid);
    if p >= 0 {
      var i :| 0 <= i < |ids| && p in t.q[ids[i]];
      assert On(t.q, ids[i], p);
    }
  }

  /** Setting the killed flag matters to no part of the invariant. */
  lemma KilledInv(t: Table, p: nat)
    requires Inv(t) && p < NPROC
    ensures Inv(SetProc(t, p, t.procs[p].(killed := true)))
  {
    var t' := SetProc(t, p, t.procs[p].(killed := true));
    assert Listed(t'.procs, t'.q, Flying(t')) by {
      SamePlaces(t.procs, t'.procs, t.q, Flying(t));
      assert Flying(t') == Flying(t);
    }
    hide Listed, Flying;
    KilledRest(t, t', p);
  }

  lemma KilledRest(t: Table, t': Table, p: nat)
    requires Shape(t) && Rest(t) && p < NPROC
    requires t' == t.(procs := t.procs[p := t.procs[p].(killed := true)])
    ensures Shape(t') && Rest(t')
  {
    var np := t'.procs[p];
    assert Shape(t') && (Active(np.state) ==> InRange(np));
    WaiterOwn(t, p);
    hide Ranges, CpuMatch, Family, Forks, Waiters, HasKid, HasZombieKid;
    CpuMatchKept(t, t', p, np, -1);
    RangesKept(t, t', p, np, -1);
    FamilyKept(t, t', p, np);
    WaitersKept(t, t', p, np);
  }

  lemma WaiterOwn(t: Table, p: nat)
    requires Shape(t) && Waiters(t) && p < NPROC
    ensures t.procs[p].state == SLEEPING && t.procs[p].chan.ProcChan? ==>
              t.procs[p].chan.p == p && HasKid(t, p) && !HasZombieKid(t, p)
  {
  }

  lemma KillInv(t: Table, pid: nat)
    requires Inv(t)
    ensures Inv(Kill(t, pid))
  {
    hide Listed, CpuMatch, Family, Forks, Waiters, KillTarget;
    var p := KillTarget(t, pid);
    if p >= 0 {
      if t.procs[p].state == SLEEPING {
        AliveMove(t, p, t.procs[p].(killed := true, state := RUNNABLE), -1, t.cpu);
      } else {
        KilledInv(t, p);
      }
    }
  }

  lemma SetPriorityInv(t: Table, pid: nat, priority: nat)
    requires Inv(t) && priority <= MAXPRIO
    ensures Inv(SetPriority(t, pid, priority))
  {
    FoundOn(t, PRIO_ORDER, pid);
    hide Listed, CpuMatch, Family, Forks, Waiters, Find, Flying;
    var p := PrioTarget(t, pid);
    if p >= 0 && t.procs[p].priority != priority {
      var np := t.procs[p].(priority := priority, budget := BUDGET);
      assert Alive(np.state);
      if np.state == RUNNABLE {
        AliveMove(t, p, np, -1, t.cpu);
      } else {
        AliveSet(t, p, np);
      }
    }
  }
}
