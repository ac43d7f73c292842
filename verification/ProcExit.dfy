/** exit and wait keep the invariant: nobody sleeps in wait past a zombie child, and no process
    outlives its parent without being handed to init. */
module ProcExit {
  import opened ProcSpec
  import opened ProcLists
  import opened ProcInv
  import opened ProcFamily

  ghost predicate AsleepInWait(t: Table, x: int) {
    0 <= x < |t.procs| && t.procs[x].state == SLEEPING && t.procs[x].chan == ProcChan(x)
  }

  // ---------- wait ----------

  lemma ReapFamily(t: Table, t': Table, z: nat)
    requires Shape(t) && Family(t) && Shape(t') && z < NPROC && t.procs[z].state == ZOMBIE
    requires t'.procs == t.procs[z := t'.procs[z]] && t'.procs[z].state == UNUSED && t'.procs[z].parent == -1
             && t'.init == t.init
    ensures Family(t')
  {
  }

  lemma ReapForks(t: Table, t': Table, z: nat)
    requires Shape(t) && Forks(t) && Shape(t') && z < NPROC && t.procs[z].state == ZOMBIE
    requires t'.procs == t.procs[z := t'.procs[z]] && t'.procs[z].state == UNUSED && t'.fork == t.fork
    ensures Forks(t') && z !in t.fork
  {
  }

  lemma ReapWaiters(t: Table, t': Table, z: nat)
    requires Shape(t) && Waiters(t) && Shape(t') && z < NPROC && t.procs[z].state == ZOMBIE
    requires t'.procs == t.procs[z := t'.procs[z]] && t'.procs[z].state == UNUSED && t'.procs[z].parent == -1
    requires !AsleepInWait(t, t.procs[z].parent)
    ensures Waiters(t')
  {
    forall x | 0 <= x < NPROC && t'.procs[x].state == SLEEPING && t'.procs[x].chan.ProcChan?
      ensures t'.procs[x].chan.p == x && HasKid(t', x) && !HasZombieKid(t', x)
    {
      assert x != z && AsleepInWait(t, x);
      var k :| 0 <= k < NPROC && t.procs[k].parent == x;
      assert t'.procs[k].parent == x;
      forall j | 0 <= j < NPROC ensures !(t'.procs[j].parent == x && t'.procs[j].state == ZOMBIE) {
        assert !HasZombieKid(t, x);
        assert !(t.procs[j].parent == x && t.procs[j].state == ZOMBIE);
      }
    }
  }

  lemma ReapListed(t: Table, z: nat)
    requires Inv(t) && z < NPROC && t.procs[z].state == ZOMBIE
    ensures Shape(Reap(t, z)) && Listed(Reap(t, z).procs, Reap(t, z).q, Flying(Reap(t, z)))
  {
    hide CpuMatch, Waiters, Ranges, Family, Listed;
    var t' := Reap(t, z);
    assert z !in Flying(t);
    MoveListed(t, Flying(t), z, t'.procs[z]);
    FlyingSame(t, t');
  }

  lemma ReapInv(t: Table, z: nat)
    requires Inv(t) && z < NPROC && t.procs[z].state == ZOMBIE && !AsleepInWait(t, t.procs[z].parent)
    ensures Inv(Reap(t, z))
  {
    hide Listed, Flying, CpuMatch, Waiters, Ranges, Family, Forks;
    var t' := Reap(t, z);
    ReapListed(t, z);
    ReapFamily(t, t', z);
    ReapForks(t, t', z);
    ReapWaiters(t, t', z);
    CpuMatchKept(t, t', z, t'.procs[z], -1);
    RangesKept(t, t', z, t'.procs[z], -1);
  }

  /** With no zombie child on the ZOMBIE list there is none at all. */
  lemma NoZombieFound(t: Table, par: nat)
    requires Inv(t) && FirstZombie(t.procs, t.q[StateId(ZOMBIE)], par) == |t.q[StateId(ZOMBIE)]|
    ensures !HasZombieKid(t, par)
  {
    var s := t.q[StateId(ZOMBIE)];
    forall k | 0 <= k < NPROC && t.procs[k].state == ZOMBIE ensures t.procs[k].parent != par {
      assert k !in Flying(t);
      assert On(t.q, StateId(ZOMBIE), k);
      var i :| 0 <= i < |s| && s[i] == k;
      assert t.procs[s[i]].parent != par;
    }
  }

  lemma WaitInv(t: Table, c: nat, elapsed: nat)
    requires Inv(t) && Enabled(t, DoWait(c, elapsed))
    ensures Inv(Wait(t, c, elapsed))
  {
    var cur := t.cpu[c];
    var s := t.q[StateId(ZOMBIE)];
    var k := FirstZombie(t.procs, s, cur);
    assert t.procs[cur].state == RUNNING;
    hide Listed, Flying, CpuMatch, Waiters, Ranges, Family, Forks, HasKid, HasZombieKid;
    if k < |s| {
      ReapInv(t, s[k]);
    } else if HasKid(t, cur) && !t.procs[cur].killed {
      NoZombieFound(t, cur);
      SleepInv(t, c, ProcChan(cur), elapsed);
    }
  }

  // ---------- exit ----------

  /** After wakeup1(x) nobody is asleep in wait on x: only x itself can have been. */
  lemma WakesWaiter(t: Table, x: nat)
    requires Inv(t) && x < NPROC
    ensures !AsleepInWait(Wake(t, ProcChan(x)), x)
    ensures forall y :: AsleepInWait(Wake(t, ProcChan(x)), y) ==> AsleepInWait(t, y)
  {
    var s := t.q[StateId(SLEEPING)];
    var k := FirstSleeper(t.procs, s, ProcChan(x));
    if AsleepInWait(t, x) {
      assert On(t.q, StateId(SLEEPING), x);
      var i :| 0 <= i < |s| && s[i] == x;
      assert k < |s| && t.procs[s[k]].chan == ProcChan(x) && s[k] == x;
    }
  }

  lemma MoveReparent(t: Table, cur: nat, p: nat)
    requires Shape(t) && Shape(Reparent(t, cur)) && p < NPROC && 0 <= t.procs[p].priority <= MAXPRIO
    ensures var t2, np := Reparent(t, cur), t.procs[p].(state := RUNNABLE);
            && 0 <= t2.procs[p].priority <= MAXPRIO && Shape(Move(t, p, np))
            && Move(t2, p, t2.procs[p].(state := RUNNABLE)) == Reparent(Move(t, p, np), cur)
  {
    hide Without;
    var t2, np := Reparent(t, cur), t.procs[p].(state := RUNNABLE);
    assert t2.procs[p := t2.procs[p].(state := RUNNABLE)] == Reparent(Move(t, p, np), cur).procs;
  }

  lemma SameSleeper(t: Table, cur: nat, chan: Chan)
    requires Shape(t)
    ensures FirstSleeper(Reparent(t, cur).procs, t.q[StateId(SLEEPING)], chan)
         == FirstSleeper(t.procs, t.q[StateId(SLEEPING)], chan)
  {
    var t2 := Reparent(t, cur);
    assert forall p :: 0 <= p < NPROC ==>
      t2.procs[p].state == t.procs[p].state && t2.procs[p].chan == t.procs[p].chan;
  }

  /** Waking and handing children to init commute. */
  lemma WakeReparent(t: Table, cur: nat, chan: Chan)
    requires Shape(t) && Shape(Reparent(t, cur))
    ensures Shape(Wake(t, chan)) && Wake(Reparent(t, cur), chan) == Reparent(Wake(t, chan), cur)
  {
    var s, t2 := t.q[StateId(SLEEPING)], Reparent(t, cur);
    var k := FirstSleeper(t.procs, s, chan);
    SameSleeper(t, cur, chan);
    hide FirstSleeper, Move, Reparent;
    if k < |s| && 0 <= t.procs[s[k]].priority <= MAXPRIO {
      MoveReparent(t, cur, s[k]);
    }
  }

  lemma ReparentFamily(t: Table, t': Table, cur: nat)
    requires Shape(t) && Family(t) && cur < NPROC && cur != t.init && t' == Reparent(t, cur)
    ensures Shape(t') && Family(t') && !HasKid(t', cur)
  {
    assert forall p :: 0 <= p < NPROC ==> t'.procs[p].state == t.procs[p].state;
  }

  lemma ReparentOthers(t: Table, t': Table, cur: nat)
    requires Shape(t) && Forks(t) && Ranges(t) && CpuMatch(t) && t' == Reparent(t, cur)
    ensures Shape(t') && Forks(t') && Ranges(t') && CpuMatch(t')
  {
    assert forall p :: 0 <= p < NPROC ==>
      t'.procs[p].state == t.procs[p].state && t'.procs[p].priority == t.procs[p].priority
      && t'.procs[p].budget == t.procs[p].budget;
  }

  lemma ReparentWaiters(t: Table, t': Table, cur: nat)
    requires Shape(t) && Waiters(t) && cur < NPROC && t.procs[cur].state == RUNNING && t' == Reparent(t, cur)
    requires AsleepInWait(t, t.init) ==> !HasZombieKid(t, cur)
    ensures Shape(t') && Waiters(t')
  {
    forall x | 0 <= x < NPROC && t'.procs[x].state == SLEEPING && t'.procs[x].chan.ProcChan?
      ensures t'.procs[x].chan.p == x && HasKid(t', x) && !HasZombieKid(t', x)
    {
      assert t.procs[x].state == SLEEPING && t.procs[x].chan == t'.procs[x].chan;
      assert AsleepInWait(t, x);
      var k :| 0 <= k < NPROC && t.procs[k].parent == x;
      assert t'.procs[k].parent == x;
      assert !HasZombieKid(t, x);
      forall j | 0 <= j < NPROC && t'.procs[j].state == ZOMBIE ensures t'.procs[j].parent != x {
        assert t.procs[j].parent != x && (x == t.init ==> t.procs[j].parent != cur);
      }
    }
  }

  lemma ReparentInv(t: Table, cur: nat)
    requires Inv(t) && cur < NPROC && cur != t.init && t.procs[cur].state == RUNNING
    requires AsleepInWait(t, t.init) ==> !HasZombieKid(t, cur)
    ensures Inv(Reparent(t, cur)) && !HasKid(Reparent(t, cur), cur)
  {
    var t' := Reparent(t, cur);
    assert forall p :: 0 <= p < NPROC ==> ListId(t'.procs[p]) == ListId(t.procs[p]);
    SamePlaces(t.procs, t'.procs, t.q, Flying(t));
    FlyingSame(t, t');
    hide Listed, Flying, CpuMatch, Waiters, Ranges, Family, Forks, HasKid, HasZombieKid;
    ReparentFamily(t, t', cur);
    ReparentOthers(t, t', cur);
    ReparentWaiters(t, t', cur);
  }

  /** The caller of exit, already without children, becomes a zombie. */
  lemma ZombieFamily(t: Table, t': Table, p: nat, np: Proc)
    requires Shape(t) && Family(t) && Forks(t) && Shape(t') && p < NPROC && p != t.init
    requires t.procs[p].state == RUNNING && !HasKid(t, p) && NotForking(t, p)
    requires t'.procs == t.procs[p := np] && t'.fork == t.fork && t'.init == t.init
    requires np.state == ZOMBIE && np.parent == t.procs[p].parent
    ensures Family(t') && Forks(t') && p !in t.fork
  {
  }

  lemma ZombieWaiters(t: Table, t': Table, p: nat, np: Proc)
    requires Shape(t) && Waiters(t) && Shape(t') && p < NPROC && t'.procs == t.procs[p := np]
    requires t.procs[p].state == RUNNING && np.state == ZOMBIE && np.parent == t.procs[p].parent
    requires !AsleepInWait(t, np.parent)
    ensures Waiters(t')
  {
    forall x | 0 <= x < NPROC && t'.procs[x].state == SLEEPING && t'.procs[x].chan.ProcChan?
      ensures t'.procs[x].chan.p == x && HasKid(t', x) && !HasZombieKid(t', x)
    {
      assert AsleepInWait(t, x);
      var k :| 0 <= k < NPROC && t.procs[k].parent == x;
      assert t'.procs[k].parent == x;
      assert !HasZombieKid(t, x);
      forall j | 0 <= j < NPROC && t'.procs[j].state == ZOMBIE ensures t'.procs[j].parent != x {
        assert j == p || t.procs[j].parent != x;
      }
    }
  }

  lemma ZombifyInv(t: Table, c: nat, np: Proc)
    requires Inv(t) && OnCpu(t, c) && t.cpu[c] != t.init && NotForking(t, t.cpu[c])
    requires !HasKid(t, t.cpu[c]) && !AsleepInWait(t, np.parent)
    requires np.state == ZOMBIE && np.parent == t.procs[t.cpu[c]].parent && InRange(np)
    ensures Inv(LeaveCpu(t, c, np))
  {
    var p, t' := t.cpu[c], LeaveCpu(t, c, np);
    assert t.procs[p].state == RUNNING && p !in Flying(t);
    MoveListed(t, Flying(t), p, np);
    FlyingSame(t, t');
    hide Listed, Flying, CpuMatch, Waiters, Ranges, Family, Forks, HasKid;
    ZombieFamily(t, t', p, np);
    ZombieWaiters(t, t', p, np);
    CpuMatchKept(t, t', p, np, c);
    RangesKept(t, t', p, np, c);
  }

  /** What exit has achieved before its caller becomes a zombie. */
  lemma OrphanInv(t: Table, cur: nat)
    requires Inv(t) && cur < NPROC && t.procs[cur].state == RUNNING && cur != t.init
    requires 0 <= t.procs[cur].parent < NPROC && t.procs[cur].parent != cur
    ensures var t' := Orphan(t, cur);
            && Inv(t') && !HasKid(t', cur) && !AsleepInWait(t', t.procs[cur].parent)
            && t'.cpu == t.cpu && t'.fork == t.fork && t'.init == t.init && t'.procs[cur] == t.procs[cur]
  {
    hide Listed, Flying, CpuMatch, Waiters, Ranges, Family, Forks, HasKid, HasZombieKid, Wake;
    var par := t.procs[cur].parent;
    var t1 := Wake(t, ProcChan(par));
    WakeInv(t, ProcChan(par));
    WakesWaiter(t, par);
    Bystander(t, ProcChan(par), cur);
    var u := if HasZombieKid(t1, cur) then Wake(t1, ProcChan(t.init)) else t1;
    if HasZombieKid(t1, cur) {
      WakeInv(t1, ProcChan(t.init));
      WakesWaiter(t1, t.init);
      Bystander(t1, ProcChan(t.init), cur);
      WakeReparent(t1, cur, ProcChan(t.init));
    }
    ReparentInv(u, cur);
    assert Reparent(u, cur) == Orphan(t, cur);
  }

  lemma Runner(t: Table, c: nat)
    requires Inv(t) && OnCpu(t, c) && t.cpu[c] != t.init
    ensures Shape(t) && t.cpu[c] < NPROC == |t.procs|
    ensures var p := t.procs[t.cpu[c]];
            p.state == RUNNING && InRange(p) && 0 <= p.parent < NPROC && p.parent != t.cpu[c]
  {
  }

  lemma ExitInv(t: Table, c: nat, elapsed: nat)
    requires Inv(t) && OnCpu(t, c) && Timely(elapsed) && t.cpu[c] != t.init && NotForking(t, t.cpu[c])
    ensures Inv(Exit(t, c, elapsed))
  {
    hide Inv, Shape, Listed, Flying, CpuMatch, Waiters, Ranges, Family, Forks;
    hide HasKid, Orphan, AsleepInWait, LeaveCpu, SpendInt;
    Runner(t, c);
    var cur := t.cpu[c];
    OrphanInv(t, cur);
    ChargeInRange(t.procs[cur], elapsed);
    ZombifyInv(Orphan(t, cur), c, Charge(t.procs[cur], elapsed).(state := ZOMBIE));
  }

  /** wakeup1 does not touch a running process. */
  lemma Bystander(t: Table, chan: Chan, cur: nat)
    requires Shape(t) && cur < NPROC && t.procs[cur].state == RUNNING
    ensures Shape(Wake(t, chan)) && Wake(t, chan).procs[cur] == t.procs[cur]
    ensures Wake(t, chan).init == t.init
  {
  }

  // ---------- all steps ----------

  lemma StepInv(t: Table, step: Step)
    requires Inv(t) && Enabled(t, step)
    ensures Inv(Apply(t, step))
  {
    hide Inv, Listed, Flying, CpuMatch, Waiters, Family, Forks, HasKid, HasZombieKid;
    match step
    case DoPromote => PromoteInv(t);
    case DoDispatch(c, ticks) => DispatchInv(t, c, ticks);
    case DoYield(c, e) => YieldInv(t, c, e);
    case DoSleep(c, a, e) => SleepInv(t, c, OtherChan(a), e);
    case DoWakeup(a) => WakeInv(t, OtherChan(a));
    case DoKill(pid) => KillInv(t, pid);
    case DoSetPriority(pid, priority) => SetPriorityInv(t, pid, priority);
    case DoAlloc(c) => AllocInv(t, c);
    case DoAllocFail(p) => AllocFailInv(t, p);
    case DoAllocDone(p) => AllocDoneInv(t, p);
    case DoTake(p) => TakeInv(t, p);
    case DoForkFail(p) => ForkFailInv(t, p);
    case DoForkDone(p) => ForkDoneInv(t, p);
    case DoExit(c, e) => ExitInv(t, c, e);
    case DoWait(c, e) => WaitInv(t, c, e);
  }
}
