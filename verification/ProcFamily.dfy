/** Promotion, fork, exit and wait keep the invariant of the process table. */
module ProcFamily {
  import opened ProcSpec
  import opened ProcLists
  import opened ProcInv

  // ---------- promotion ----------

  lemma PromoteRest(t: Table, t': Table)
    requires Shape(t) && Rest(t) && t' == Promote(t)
    ensures Shape(t') && Ranges(t') && CpuMatch(t') && Family(t') && Forks(t')
  {
    assert forall p :: 0 <= p < NPROC ==>
             t'.procs[p].state == t.procs[p].state && t'.procs[p].parent == t.procs[p].parent;
    PromoteRanges(t, t');
    hide Ranges, Promote, Up, Waiters;
    assert Family(t');
    hide Family;
    assert Forks(t');
    hide Forks;
  }

  lemma PromoteRanges(t: Table, t': Table)
    requires Shape(t) && Rest(t) && t' == Promote(t)
    ensures Shape(t') && Ranges(t')
  {
  }

  lemma PromoteInv(t: Table)
    requires Inv(t)
    ensures Inv(Promote(t))
  {
    var t' := Promote(t);
    PromoteListed(t, Flying(t));
    assert Flying(t') == Flying(t);
    hide Listed, Flying;
    assert Waiters(t') by {
      forall x | 0 <= x < NPROC && t'.procs[x].state == SLEEPING && t'.procs[x].chan.ProcChan?
        ensures t'.procs[x].chan.p == x && HasKid(t', x) && !HasZombieKid(t', x)
      {
        KidsSame(t, t', x);
      }
    }
    hide Waiters, CpuMatch, Family, Forks, Ranges;
    PromoteRest(t, t');
  }

  // ---------- fork ----------

  /** A slot that is not a process yet changes hands: nobody's child, on no CPU. */
  lemma SlotFamily(t: Table, t': Table, p: nat, np: Proc)
    requires Shape(t) && Family(t) && Shape(t') && p < NPROC
    requires t'.procs == t.procs[p := np] && t'.init == t.init
    requires !Active(t.procs[p].state) && !Active(np.state) && np.parent == -1
    ensures Family(t') && t.procs[p].parent == -1
  {
  }

  /** The child p is at stage f of fork. */
  ghost predicate Slot(t: Table, p: nat, np: Proc, f: Forking)
    requires Shape(t)
  {
    && np.state == EMBRYO && f.forker < NPROC && Alive(t.procs[f.forker].state)
    && (forall k :: k in t.fork && k != p ==> t.fork[k].forker != f.forker)
    && (!f.stage.Allocating? ==> np.priority == DEFAULTPRIO && np.budget == BUDGET)
  }

  lemma SlotRanges(t: Table, t': Table, p: nat, np: Proc, f: Forking)
    requires Shape(t) && Ranges(t) && Shape(t') && p < NPROC
    requires t'.procs == t.procs[p := np] && t'.cpu == t.cpu
    requires !Active(t.procs[p].state) && !Active(np.state)
    requires (t'.fork == t.fork[p := f] && Slot(t, p, np, f)) || t'.fork == t.fork - {p}
    ensures Ranges(t')
  {
  }

  lemma SlotForks(t: Table, t': Table, p: nat, np: Proc, f: Forking)
    requires Shape(t) && Forks(t) && Shape(t') && p < NPROC
    requires t'.procs == t.procs[p := np] && !Active(t.procs[p].state) && !Active(np.state)
    requires || (t'.fork == t.fork[p := f] && Slot(t, p, np, f))
             || (t'.fork == t.fork - {p} && np.state == UNUSED)
    ensures Forks(t')
  {
    forall k | k in t'.fork ensures t'.procs[k].state == EMBRYO && Alive(t'.procs[t'.fork[k].forker].state) {
    }
  }

  lemma SlotRest(t: Table, t': Table, p: nat, np: Proc, f: Forking)
    requires Shape(t) && Rest(t) && Shape(t') && p < NPROC
    requires t'.procs == t.procs[p := np] && t'.cpu == t.cpu && t'.init == t.init
    requires !Active(t.procs[p].state) && !Active(np.state) && np.parent == -1
    requires || (t'.fork == t.fork[p := f] && Slot(t, p, np, f))
             || (t'.fork == t.fork - {p} && np.state == UNUSED)
    ensures Rest(t')
  {
    hide CpuMatch, Waiters, Ranges, Family, Forks, Slot;
    SlotFamily(t, t', p, np);
    SlotForks(t, t', p, np, f);
    SlotRanges(t, t', p, np, f);
    CpuMatchKept(t, t', p, np, -1);
    WaitersKept(t, t', p, np);
  }

  lemma FlyingSame(t: Table, t': Table)
    requires t'.fork == t.fork
    ensures Flying(t') == Flying(t)
  {
  }

  lemma FlyingAfter(t: Table, p: nat, f: Forking)
    ensures p in Flying(t) <==> p in t.fork && t.fork[p].stage == InFlight
    ensures Flying(t.(fork := t.fork[p := f])) == if f.stage == InFlight then Flying(t) + {p} else Flying(t) - {p}
    ensures Flying(t.(fork := t.fork - {p})) == Flying(t) - {p}
  {
  }

  /** What is known of a child fork is working on. */
  lemma Child(t: Table, p: nat, f: Forking)
    requires Inv(t) && p in t.fork
    ensures t.procs[p].state == EMBRYO && t.procs[p].parent == -1
    ensures Slot(t, p, t.procs[p], t.fork[p])
    ensures p in Flying(t) <==> t.fork[p].stage == InFlight
    ensures Flying(t.(fork := t.fork[p := f])) == if f.stage == InFlight then Flying(t) + {p} else Flying(t) - {p}
    ensures Flying(t.(fork := t.fork - {p})) == Flying(t) - {p}
  {
    hide Listed, CpuMatch, Waiters, Flying;
    FlyingAfter(t, p, f);
  }

  lemma FreeSlot(t: Table, p: nat)
    requires Inv(t) && p < NPROC && t.procs[p].state == UNUSED
    ensures p !in t.fork && t.procs[p].parent == -1 && p !in Flying(t)
    ensures forall f: Forking :: f.stage != InFlight ==> Flying(t.(fork := t.fork[p := f])) == Flying(t)
  {
    assert p !in t.fork;
    forall f: Forking | f.stage != InFlight ensures Flying(t.(fork := t.fork[p := f])) == Flying(t) {
      FlyingAfter(t, p, f);
    }
  }

  lemma AllocInv(t: Table, c: nat)
    requires Inv(t) && Enabled(t, DoAlloc(c))
    ensures Inv(AllocProc(t, c))
  {
    hide Listed, Flying, CpuMatch, Waiters, Family, Forks;
    var s := t.q[StateId(UNUSED)];
    if s != [] {
      QueueHead(t, StateId(UNUSED));
      var p, t' := s[0], AllocProc(t, c);
      FreeSlot(t, p);
      var f := Forking(t.cpu[c], Allocating);
      assert Slot(t, p, t'.procs[p], f);
      hide Ranges, Slot;
      FlyingSame(t.(fork := t'.fork), t');
      MoveListed(t, Flying(t), p, t'.procs[p]);
      SlotRest(t, t', p, t'.procs[p], f);
    }
  }

  lemma AllocFailInv(t: Table, p: nat)
    requires Inv(t) && Stands(t, p, Allocating)
    ensures Inv(AllocFail(t, p))
  {
    hide Listed, Flying, CpuMatch, Waiters, Ranges, Family, Forks, Slot;
    var t' := AllocFail(t, p);
    Child(t, p, t.fork[p]);
    FlyingSame(t.(fork := t'.fork), t');
    MoveListed(t, Flying(t), p, t'.procs[p]);
    assert Flying(t) - {p} == Flying(t);
    SlotRest(t, t', p, t'.procs[p], t.fork[p]);
  }

  lemma AllocDoneInv(t: Table, p: nat)
    requires Inv(t) && Stands(t, p, Allocating)
    ensures Inv(AllocDone(t, p))
  {
    hide Listed, Flying, CpuMatch, Waiters, Ranges, Family, Forks;
    var t' := AllocDone(t, p);
    Child(t, p, t'.fork[p]);
    FlyingSame(t.(fork := t'.fork), t');
    SamePlaces(t.procs, t'.procs, t.q, Flying(t));
    assert Flying(t) - {p} == Flying(t);
    SlotRest(t, t', p, t'.procs[p], t'.fork[p]);
  }

  lemma TakeInv(t: Table, p: nat)
    requires Inv(t) && Stands(t, p, Allocated)
    ensures Inv(TakeChild(t, p))
  {
    hide Listed, Flying, CpuMatch, Waiters, Ranges, Family, Forks;
    var t' := TakeChild(t, p);
    Child(t, p, t'.fork[p]);
    FlyingSame(t.(fork := t'.fork), t');
    LeaveListed(t.procs, t.q, Flying(t), p);
    SlotRest(t, t', p, t.procs[p], t'.fork[p]);
  }

  lemma ForkFailInv(t: Table, p: nat)
    requires Inv(t) && Stands(t, p, InFlight)
    ensures Inv(ForkFail(t, p))
  {
    hide Listed, Flying, CpuMatch, Waiters, Ranges, Family, Forks, Slot;
    var t' := ForkFail(t, p);
    Child(t, p, t.fork[p]);
    FlyingSame(t.(fork := t'.fork), t');
    EnterListed(t.procs, t.q, Flying(t), p, t'.procs[p]);
    SlotRest(t, t', p, t'.procs[p], t.fork[p]);
  }

  lemma ForkDoneInv(t: Table, p: nat)
    requires Inv(t) && Stands(t, p, InFlight)
    ensures Inv(ForkDone(t, p))
  {
    hide Listed, Flying, CpuMatch, Waiters, Ranges, Family, Forks;
    Child(t, p, t.fork[p]);
    var t' := ForkDone(t, p);
    FlyingSame(t.(fork := t'.fork), t');
    EnterListed(t.procs, t.q, Flying(t), p, t'.procs[p]);
    BirthFamily(t, t', p);
    BirthForks(t, t', p);
    CpuMatchKept(t, t', p, t'.procs[p], -1);
    BirthWaiters(t, t', p);
  }

  lemma BirthFamily(t: Table, t': Table, p: nat)
    requires Shape(t) && Family(t) && Forks(t) && Stands(t, p, InFlight) && Shape(t')
    requires t'.procs == t.procs[p := t.procs[p].(state := RUNNABLE, parent := t.fork[p].forker)]
    requires t'.init == t.init
    ensures Family(t')
  {
  }

  lemma BirthForks(t: Table, t': Table, p: nat)
    requires Shape(t) && Ranges(t) && Forks(t) && Stands(t, p, InFlight) && Shape(t')
    requires t'.procs == t.procs[p := t.procs[p].(state := RUNNABLE, parent := t.fork[p].forker)]
    requires t'.cpu == t.cpu && t'.fork == t.fork - {p}
    ensures Ranges(t') && Forks(t')
  {
  }

  lemma BirthWaiters(t: Table, t': Table, p: nat)
    requires Shape(t) && Waiters(t) && p < NPROC && Shape(t')
    requires t'.procs == t.procs[p := t'.procs[p]] && t.procs[p].parent == -1 && t'.procs[p].state == RUNNABLE
    ensures Waiters(t')
  {
    forall x | 0 <= x < NPROC && t'.procs[x].state == SLEEPING && t'.procs[x].chan.ProcChan?
      ensures t'.procs[x].chan.p == x && HasKid(t', x) && !HasZombieKid(t', x)
    {
      KidAdded(t, t', p, x);
    }
  }

  lemma KidAdded(t: Table, t': Table, p: nat, x: nat)
    requires p < |t.procs| && |t'.procs| == |t.procs|
    requires t'.procs == t.procs[p := t'.procs[p]] && t.procs[p].parent == -1 && t'.procs[p].state != ZOMBIE
    ensures HasKid(t, x) ==> HasKid(t', x)
    ensures HasZombieKid(t', x) ==> HasZombieKid(t, x)
  {
    if HasKid(t, x) {
      var k :| 0 <= k < |t.procs| && t.procs[k].parent == x;
      assert t'.procs[k].parent == x;
    }
    if HasZombieKid(t', x) {
      var k :| 0 <= k < |t.procs| && t'.procs[k].parent == x && t'.procs[k].state == ZOMBIE;
      assert t.procs[k].parent == x;
    }
  }
}
