/**
src/proc.c on its own data structures: ptable.proc as records with a `next` link, and a head
and a tail index per list (-1 for NULL). Each method is one critical section under
ptable.lock and is proved to have the effect the function of the same name has in ProcSpec.
*/
module ProcCode {
  import opened Common
  import S = ProcSpec
  import opened ProcSpec
  import opened ProcLists
  import opened ProcInv
  import opened ProcFamily
  import opened ProcExit
  import opened ProcLinks
  import opened ProcWalk
  import opened ProcBoot

  class ProcTable {
    var procs: seq<Proc>
    var next: seq<int>
    var head: seq<int>
    var tail: seq<int>
    var cpu: seq<int>
    var nextpid: nat
    const initproc: nat
    // The queues the links spell out, and the children fork is working on.
    ghost var q: seq<seq<nat>>
    ghost var fork: map<nat, Forking>

    ghost function T(): Table
      reads this
    {
      Table(procs, q, cpu, fork, nextpid, initproc)
    }

    ghost predicate Wf()
      reads this
    {
      |procs| == NPROC && Links(next, head, tail, q)
    }

    ghost predicate Valid()
      reads this
    {
      Wf() && Inv(T())
    }

    /** initProcessLists, initFreeList and userinit. */
    constructor (ncpu: nat)
      ensures Valid() && T() == Boot(ncpu)
    {
      procs := seq(NPROC, _ => BLANK);
      next := seq(NPROC, _ => -1);
      head := seq(NLIST, _ => -1);
      tail := seq(NLIST, _ => -1);
      cpu := seq(ncpu, _ => -1);
      nextpid := 1;
      initproc := 0;
      q := seq(NLIST, _ => []);
      fork := map[];
      new;
      hide Inv;
      InitFreeList();
      UserInit(ncpu);
      BootInv(ncpu);
    }

    /** userinit: the first process, ready to run. */
    method UserInit(ghost ncpu: nat)
      requires Wf() && procs == seq(NPROC, _ => BLANK) && q == seq(NLIST, l => if l == 0 then Range(0, NPROC) else [])
      requires cpu == seq(ncpu, _ => -1) && fork == map[] && nextpid == 1 && initproc == 0
      modifies this`procs, this`head, this`tail, this`next, this`q, this`nextpid
      ensures Wf() && T() == Boot(ncpu)
    {
      hide Links;
      assert q[0][0] == 0;
      Transition(0, procs[0].(state := EMBRYO, pid := nextpid));
      nextpid := nextpid + 1;
      procs := procs[0 := procs[0].(priority := DEFAULTPRIO, budget := BUDGET)];
      Transition(0, procs[0].(state := RUNNABLE));
      BootShape(T(), ncpu);
    }

    /** initFreeList: every slot goes to the UNUSED list, in table order. */
    method InitFreeList()
      requires Wf() && q == seq(NLIST, _ => [])
      modifies this`head, this`tail, this`next, this`q
      ensures Wf() && q == seq(NLIST, l => if l == 0 then Range(0, NPROC) else [])
    {
      var p := 0;
      while p < NPROC
        invariant 0 <= p <= NPROC && Wf() && q == seq(NLIST, l => if l == 0 then Range(0, p) else [])
      {
        assert Range(0, p) + [p] == Range(0, p + 1);
        StateListAdd(0, p);
        p := p + 1;
      }
    }

    // ---------- lists ----------

    method StateListAdd(l: nat, p: nat)
      requires Wf() && l < NLIST && p < NPROC && Off(q, p)
      modifies this`head, this`tail, this`next, this`q
      ensures Wf() && q == old(q)[l := old(q)[l] + [p]]
    {
      LinksAdd(next, head, tail, q, l, p);
      q := q[l := q[l] + [p]];
      if head[l] == -1 {
        head := head[l := p];
        tail := tail[l := p];
        next := next[p := -1];
      } else {
        assert head[l := head[l]] == head;
        next := next[tail[l] := p];
        tail := tail[l := p];
        next := next[tail[l] := -1];
      }
    }

    /** stateListRemove: 0 exactly when p was on the list, -1 otherwise. */
    method StateListRemove(l: nat, p: int) returns (rc: int)
      requires Wf() && l < NLIST
      modifies this`head, this`tail, this`next, this`q
      ensures Wf() && (rc == 0 || rc == -1) && (rc == 0 <==> p in old(q)[l])
      ensures rc == -1 ==> q == old(q) && next == old(next) && head == old(head) && tail == old(tail)
      ensures rc == 0 ==> p >= 0 && q == old(q)[l := Without(old(q)[l], p)]
    {
      hide Without, Disjoint, Chain;
      ghost var s := q[l];
      Follow(next, head, tail, q, l, 0);
      if head[l] == -1 || tail[l] == -1 || p == -1 {
        return -1;
      }
      var current, previous := head[l], -1;
      ghost var k := 0;
      if current == p {
        LinksRemove(next, head, tail, q, l, 0);
        q := q[l := Without(s, p)];
        head := head[l := next[head[l]]];
        if tail[l] == p {
          tail := tail[l := -1];
        }
        return 0;
      }
      while current != -1
        invariant 0 <= k <= |s| && p !in s[..k]
        invariant current == if k < |s| then s[k] else -1
        invariant if k > 0 then previous == s[k - 1] else current != p
        decreases |s| - k
        modifies {}
      {
        if current == p { break; }
        Follow(next, head, tail, q, l, k);
        previous := current;
        current := next[current];
        k := k + 1;
      }
      if current == -1 {
        assert s[..k] == s;
        return -1;
      }
      LinksRemove(next, head, tail, q, l, k);
      q := q[l := Without(s, p)];
      if current == tail[l] {
        tail := tail[l := previous];
        next := next[tail[l] := -1];
      } else {
        next := next[previous := next[current]];
      }
      next := next[p := -1];
      return 0;
    }

    /** Remove p from the list it is on, change its record, add it to the list that fits. The
        "not found" panic that follows every stateListRemove cannot fire. */
    method Transition(p: nat, np: Proc)
      requires Wf() && Shape(T()) && p < NPROC && Listable(np) && On(q, ListId(procs[p]), p)
      modifies this`procs, this`head, this`tail, this`next, this`q
      ensures Wf() && T() == Move(old(T()), p, np)
    {
      hide Without, Links;
      OffAll(next, head, tail, q, ListId(procs[p]), p);
      var rc := StateListRemove(ListId(procs[p]), p);
      assert rc == 0;
      procs := procs[p := np];
      StateListAdd(ListId(np), p);
    }

    // ---------- scheduling ----------

    method Yield(c: nat, elapsed: nat)
      requires Valid() && Enabled(T(), DoYield(c, elapsed))
      modifies this`procs, this`head, this`tail, this`next, this`q, this`cpu
      ensures Valid() && T() == S.Yield(old(T()), c, elapsed)
    {
      hide Links, Listed, CpuMatch, Family, Forks, Waiters, Ranges, SpendInt;
      var p := cpu[c];
      RunningListed(T(), c);
      YieldInv(T(), c, elapsed);
      var curproc := Charge(procs[p], elapsed);
      Transition(p, curproc.(state := RUNNABLE));
      cpu := cpu[c := -1];
    }

    method Sleep(c: nat, chan: Chan, elapsed: nat)
      requires Valid() && OnCpu(T(), c) && Timely(elapsed)
      requires chan.ProcChan? ==> chan.p == cpu[c] && HasKid(T(), cpu[c]) && !HasZombieKid(T(), cpu[c])
      modifies this`procs, this`head, this`tail, this`next, this`q, this`cpu
      ensures Valid() && T() == S.Sleep(old(T()), c, chan, elapsed)
    {
      hide Links, Listed, CpuMatch, Family, Forks, Waiters, Ranges, SpendInt, HasKid, HasZombieKid;
      var p := cpu[c];
      RunningListed(T(), c);
      SleepInv(T(), c, chan, elapsed);
      var np := Charge(procs[p], elapsed);
      Transition(p, np.(state := SLEEPING, chan := chan));
      cpu := cpu[c := -1];
    }

    /** The scheduler's pick on CPU c, after any promotion. */
    method Dispatch(c: nat, ticks: nat) returns (idle: bool)
      requires Valid() && Enabled(T(), DoDispatch(c, ticks))
      modifies this`procs, this`head, this`tail, this`next, this`q, this`cpu
      ensures Valid() && T() == S.Dispatch(old(T()), c, ticks)
      ensures idle <==> cpu[c] == old(cpu[c])
    {
      hide Links, Listed, CpuMatch, Family, Forks, Waiters, Ranges, Served;
      DispatchInv(T(), c, ticks);
      idle := true;
      var i := MAXPRIO as int;
      while i > -1
        invariant -1 <= i <= MAXPRIO
        invariant Served(q, MAXPRIO) == Served(q, i)
        modifies {}
      {
        HeadOf(next, head, tail, q, READY + i);
        ServedStep(q, i);
        if head[READY + i] != -1 { break; }
        i := i - 1;
      }
      ServedStep(q, -1);
      if i > -1 {
        var p := head[READY + i];
        QueueHead(T(), READY + i);
        assert On(q, READY + i, p) && procs[p].state == RUNNABLE;
        idle := false;
        Transition(p, procs[p].(state := RUNNING, ticksIn := ticks));
        cpu := cpu[c := p];
      }
    }

    // ---------- wakeup, kill, setpriority ----------

    /** wakeup1: the traversal reads p->next after p has been linked at the tail of a ready list,
        where it is NULL, so at most one sleeper moves. */
    method Wakeup1(chan: Chan)
      requires Wf() && Shape(T()) && Ranges(T())
      modifies this`procs, this`head, this`tail, this`next, this`q
      ensures Wf() && T() == Wake(old(T()), chan)
    {
      hide Links, FirstSleeper;
      ghost var s, k := q[2], 0;
      HeadOf(next, head, tail, q, 2);
      var p := head[2];
      ghost var woken := false;
      while p != -1
        invariant !woken ==> T() == old(T()) && Wf() && k <= |s|
        invariant !woken ==> p == if k < |s| then s[k] else -1
        invariant !woken ==> forall i :: 0 <= i < k ==>
                    s[i] < NPROC && !(procs[s[i]].state == SLEEPING && procs[s[i]].chan == chan)
        invariant woken ==> p == -1 && Wf() && T() == Wake(old(T()), chan)
        decreases |s| - k
      {
        Follow(next, head, tail, q, 2, k);
        if procs[p].state == SLEEPING && procs[p].chan == chan {
          assert FirstSleeper(procs, s, chan) == k by { FirstIs(procs, s, chan, k); }
          assert On(q, 2, p);
          ghost var l := READY + procs[p].priority;
          Transition(p, procs[p].(state := RUNNABLE));
          woken := true;
          TailOf(next, head, tail, q, l, p);
        }
        p := next[p];
        k := k + 1;
      }
      if !woken {
        Follow(next, head, tail, q, 2, k);
        FirstIs(procs, s, chan, k);
      }
    }

    /** The search both kill and setpriority make along one list. */
    method FindOn(l: nat, pid: nat) returns (p: int)
      requires Wf() && Shape(T()) && l < NLIST
      ensures p == var k := FindPid(procs, q[l], pid); if k < |q[l]| then q[l][k] else -1
    {
      hide Links, FindPid;
      ghost var s, k := q[l], 0;
      HeadOf(next, head, tail, q, l);
      p := head[l];
      while p != -1
        invariant k <= |s| && p == if k < |s| then s[k] else -1
        invariant forall i :: 0 <= i < k ==> !(s[i] < |procs| && procs[s[i]].pid == pid)
        decreases |s| - k
      {
        Follow(next, head, tail, q, l, k);
        if procs[p].pid == pid {
          break;
        }
        p := next[p];
        k := k + 1;
      }
    }

    /** The search along several lists, in order. */
    method FindAlong(ids: seq<nat>, pid: nat) returns (p: int)
      requires Wf() && Shape(T()) && forall i :: 0 <= i < |ids| ==> ids[i] < NLIST
      ensures p == Find(T(), ids, pid)
    {
      hide Links;
      var j := 0;
      assert ids[0..] == ids;
      while j < |ids|
        invariant j <= |ids| && Find(T(), ids, pid) == Find(T(), ids[j..], pid)
      {
        p := FindOn(ids[j], pid);
        if p != -1 { return; }
        assert ids[j..][1..] == ids[j + 1..];
        j := j + 1;
      }
      p := -1;
    }

    method Kill(pid: nat) returns (rc: int)
      requires Valid()
      modifies this`procs, this`head, this`tail, this`next, this`q
      ensures Valid() && T() == S.Kill(old(T()), pid)
      ensures rc == if KillTarget(old(T()), pid) >= 0 then 0 else -1
    {
      hide Links, Listed, CpuMatch, Family, Forks, Waiters, Find;
      KillInv(T(), pid);
      var p := FindAlong(ALL_ORDER, pid);
      if p == -1 { return -1; }
      if procs[p].state == SLEEPING {
        PlaceOf(T(), p);
        Transition(p, procs[p].(killed := true, state := RUNNABLE));
      } else {
        procs := procs[p := procs[p].(killed := true)];
      }
      return 0;
    }

    method SetPriority(pid: nat, priority: nat) returns (rc: int)
      requires Valid() && priority <= MAXPRIO
      modifies this`procs, this`head, this`tail, this`next, this`q
      ensures Valid() && T() == S.SetPriority(old(T()), pid, priority)
      ensures rc == if PrioTarget(old(T()), pid) >= 0 then 0 else -1
    {
      hide Links, Listed, CpuMatch, Family, Forks, Waiters, Find;
      SetPriorityInv(T(), pid, priority);
      var p := FindAlong(PRIO_ORDER, pid);
      if p == -1 { return -1; }
      if procs[p].priority == priority { return 0; }
      var np := procs[p].(priority := priority, budget := BUDGET);
      if procs[p].state == RUNNABLE {
        PlaceOf(T(), p);
        Transition(p, np);
      } else {
        procs := procs[p := np];
      }
      return 0;
    }

    /** The system call in front of setpriority: priorities outside 0 .. MAXPRIO are refused. */
    method SysSetPriority(pid: nat, prior: int) returns (rc: int)
      requires Valid()
      modifies this`procs, this`head, this`tail, this`next, this`q
      ensures Valid() && (rc == 0 <==> 0 <= prior <= MAXPRIO && PrioTarget(old(T()), pid) >= 0) && (rc == 0 || rc == -1)
      ensures T() == if 0 <= prior <= MAXPRIO then S.SetPriority(old(T()), pid, prior) else old(T())
    {
      hide Links, Listed, CpuMatch, Family, Forks, Waiters, Find, S.SetPriority;
      if prior < 0 || prior > MAXPRIO {
        return -1;
      }
      rc := SetPriority(pid, prior);
    }

    // ---------- fork ----------

    /** The first critical section of allocproc: the head of the UNUSED list, -1 for none. */
    method AllocProc(c: nat) returns (p: int)
      requires Valid() && Enabled(T(), DoAlloc(c))
      modifies this`procs, this`head, this`tail, this`next, this`q, this`nextpid, this`fork
      ensures Valid() && T() == S.AllocProc(old(T()), c)
      ensures p == if old(q)[0] == [] then -1 else old(q)[0][0]
    {
      hide Links, Listed, CpuMatch, Family, Forks, Waiters, Ranges;
      AllocInv(T(), c);
      HeadOf(next, head, tail, q, 0);
      p := head[0];
      if p == -1 { return; }
      QueueHead(T(), 0);
      assert On(q, 0, p);
      Transition(p, procs[p].(state := EMBRYO, pid := nextpid));
      nextpid := nextpid + 1;
      fork := fork[p as nat := Forking(cpu[c], Allocating)];
    }

    method AllocFail(p: nat)
      requires Valid() && Stands(T(), p, Allocating)
      modifies this`procs, this`head, this`tail, this`next, this`q, this`fork
      ensures Valid() && T() == S.AllocFail(old(T()), p)
    {
      hide Links, Listed, CpuMatch, Family, Forks, Waiters, Ranges;
      AllocFailInv(T(), p);
      PlaceOf(T(), p);
      Transition(p, procs[p].(state := UNUSED));
      fork := fork - {p};
    }

    method AllocDone(p: nat)
      requires Valid() && Stands(T(), p, Allocating)
      modifies this`procs, this`fork
      ensures Valid() && T() == S.AllocDone(old(T()), p)
    {
      hide Links, Listed, CpuMatch, Family, Forks, Waiters, Ranges;
      AllocDoneInv(T(), p);
      procs := procs[p := procs[p].(priority := DEFAULTPRIO, budget := BUDGET)];
      fork := fork[p := fork[p].(stage := Allocated)];
    }

    method TakeChild(p: nat)
      requires Valid() && Stands(T(), p, Allocated)
      modifies this`head, this`tail, this`next, this`q, this`fork
      ensures Valid() && T() == S.TakeChild(old(T()), p)
    {
      hide Links, Listed, CpuMatch, Family, Waiters, Ranges, Without;
      TakeInv(T(), p);
      PlaceOf(T(), p);
      assert procs[p].state == EMBRYO;
      var rc := StateListRemove(1, p);
      assert rc == 0;
      fork := fork[p := fork[p].(stage := InFlight)];
    }

    method ForkFail(p: nat)
      requires Valid() && Stands(T(), p, InFlight)
      modifies this`procs, this`head, this`tail, this`next, this`q, this`fork
      ensures Valid() && T() == S.ForkFail(old(T()), p)
    {
      hide Links, Listed, CpuMatch, Family, Forks, Waiters, Ranges;
      ForkFailInv(T(), p);
      FlyingOff(T(), p);
      procs := procs[p := procs[p].(state := UNUSED)];
      StateListAdd(0, p);
      fork := fork - {p};
    }

    method ForkDone(p: nat, curproc: nat)
      requires Valid() && Stands(T(), p, InFlight) && curproc == fork[p].forker
      modifies this`procs, this`head, this`tail, this`next, this`q, this`fork
      ensures Valid() && T() == S.ForkDone(old(T()), p)
    {
      hide Links, Listed, CpuMatch, Family, Forks, Waiters;
      ForkDoneInv(T(), p);
      FlyingOff(T(), p);
      procs := procs[p := procs[p].(state := RUNNABLE, parent := curproc)];
      StateListAdd(READY + procs[p].priority, p);
      fork := fork - {p};
    }

    // ---------- promotion ----------

    /** Promote the processes on one state list in place. */
    method RaiseList(l: nat)
      requires Wf() && (l == StateId(SLEEPING) || l == StateId(RUNNING))
      requires forall x: nat :: x in q[l] ==> x < NPROC && ListId(procs[x]) == l
      modifies this`procs
      ensures procs == Raised(old(procs), Members(q[l]))
    {
      hide Links;
      HeadOf(next, head, tail, q, l);
      ghost var s, k := q[l], 0;
      var p := head[l];
      assert Raised(procs, {}) == procs;
      while p != -1
        invariant Wf() && k <= |s| && p == if k < |s| then s[k] else -1
        invariant procs == Raised(old(procs), Members(s[..k]))
        decreases |s| - k
      {
        Follow(next, head, tail, q, l, k);
        MembersNext(next, head, tail, q, l, k);
        assert s[k] in q[l];
        RaisedNext(old(procs), Members(s[..k]), p);
        hide Raised;
        if procs[p].priority < MAXPRIO {
          procs := procs[p := procs[p].(priority := procs[p].priority + 1, budget := BUDGET)];
        } else {
          assert procs[p := procs[p]] == procs;
        }
        p := next[p];
        k := k + 1;
      }
      assert s[..k] == s;
    }

    /** Promote one ready list below the top: each member goes to the tail of the next list up. */
    method RaiseReady(i: nat)
      requires Wf() && Shape(T()) && i < MAXPRIO
      requires AllReady(procs, q[READY + i], i)
      modifies this`procs, this`head, this`tail, this`next, this`q
      ensures Wf() && Shape(T()) && procs == Raised(old(procs), Members(old(q)[READY + i]))
      ensures q == Shifted(old(q), i, |old(q)[READY + i]|)
    {
      hide Links, Without, Up, Raised, Members, Shifted, AtReady;
      ghost var s, k, lo := q[READY + i], 0, READY + i;
      HeadOf(next, head, tail, q, lo);
      ShiftedStart(q, i);
      NothingRaised(procs);
      var p := head[READY + i];
      assert s[..0] == [];
      while p != -1
        invariant Wf() && Shape(T()) && k <= |s| && p == if k < |s| then s[k] else -1
        invariant procs == Raised(old(procs), Members(s[..k])) && q == Shifted(old(q), i, k)
        decreases |s| - k
      {
        MembersStep(s, k, old(q), old(next), old(head), old(tail), lo);
        RaisedNext(old(procs), Members(s[..k]), p);
        var save := RaiseHead(old(T()), i, k);
        p := save;
        k := k + 1;
      }
      assert s[..k] == s;
    }

    /** One iteration of RaiseReady's loop: the head of ready list i moves up. */
    method RaiseHead(ghost t0: Table, i: nat, ghost k: nat) returns (save: int)
      requires Wf() && Shape(T()) && i < MAXPRIO && Shape(t0) && k < |t0.q[READY + i]|
      requires q == Shifted(t0.q, i, k) && Distinct(t0.q[READY + i])
      requires var p := t0.q[READY + i][k];
               p < NPROC && AtReady(t0.procs[p], i) && procs[p] == t0.procs[p]
      modifies this`procs, this`head, this`tail, this`next, this`q
      ensures var p := t0.q[READY + i][k];
              && Wf() && Shape(T()) && procs == old(procs)[p := Up(t0.procs[p])]
              && q == Shifted(t0.q, i, k + 1)
              && save == if k + 1 < |t0.q[READY + i]| then t0.q[READY + i][k + 1] else -1
    {
      hide Links, Without, Up;
      ghost var s := t0.q[READY + i];
      assert q[READY + i] == s[k..];
      Follow(next, head, tail, q, READY + i, 0);
      var p := head[READY + i];
      save := next[p];
      UpReady(procs[p], i);
      ShiftedNext(t0.q, i, k);
      assert p in q[READY + i];
      Transition(p, procs[p].(priority := procs[p].priority + 1, budget := BUDGET));
    }

    /** The state lists in the promotion pass. */
    method RaiseStates() returns (ghost done: set<nat>)
      requires Wf() && Fits(T())
      modifies this`procs
      ensures Wf() && procs == Raised(old(procs), done)
      ensures forall x :: x in done <==> On(q, 2, x) || On(q, 4, x)
    {
      hide Links, Up;
      FitsOn(T(), 2);
      FitsOn(T(), 4);
      RaisedFits(T(), Members(q[2]), 4);
      RaiseList(StateId(SLEEPING));
      RaiseList(StateId(RUNNING));
      done := Members(q[2]) + Members(q[4]);
      RaisedTwice(old(procs), Members(q[2]), Members(q[4]));
    }

    /** The promotion pass of scheduler(). */
    method Promote()
      requires Valid()
      modifies this`procs, this`head, this`tail, this`next, this`q
      ensures Valid() && T() == S.Promote(old(T()))
    {
      hide Links, CpuMatch, Family, Forks, Waiters, Ranges, PromotedTo, Raised, Members, Listed, Fits;
      ghost var t0 := T();
      PromoteInv(t0);
      ListsFit(t0);
      ghost var done := RaiseStates();
      StatesDone(t0, done);
      var i := MAXPRIO as int;
      while i > -1
        invariant -1 <= i <= MAXPRIO && Wf() && Visited(t0, done, i)
        invariant procs == Raised(t0.procs, done)
        invariant q == PromotedTo(t0.q, if i < MAXPRIO then i + 1 else MAXPRIO)
        decreases i
      {
        if i < MAXPRIO {
          RaiseOne(t0, done, i);
          done := done + Members(t0.q[READY + i]);
        } else {
          TopVisited(t0, done);
        }
        i := i - 1;
      }
      RaisedAll(t0, done);
    }

    /** One ready list of the promotion pass. */
    method RaiseOne(ghost t0: Table, ghost done: set<nat>, i: nat)
      requires Wf() && i < MAXPRIO && Inv(t0) && Fits(t0) && Visited(t0, done, i)
      requires procs == Raised(t0.procs, done) && q == PromotedTo(t0.q, i + 1)
      requires cpu == t0.cpu && fork == t0.fork && initproc == t0.init
      modifies this`procs, this`head, this`tail, this`next, this`q
      ensures Wf() && Visited(t0, done + Members(t0.q[READY + i]), i - 1)
      ensures procs == Raised(t0.procs, done + Members(t0.q[READY + i])) && q == PromotedTo(t0.q, i)
    {
      hide Links, CpuMatch, Family, Forks, Waiters, Ranges, PromotedTo, Raised, Members, Listed, Fits, Visited;
      ReadyFits(t0, done, i);
      PromotedNext(t0.q, i);
      assert Shape(T()) by { RaisedShape(t0, done, T()); }
      assert q[READY + i] == t0.q[READY + i];
      RaiseReady(i);
      RaisedTwice(t0.procs, done, Members(t0.q[READY + i]));
    }

    // ---------- exit and wait ----------

    /** exit at one process: a child of cur becomes a child of init, and a zombie child wakes
        init. t1, done and woken describe the walk so far. */
    method AdoptOne(p: nat, cur: nat, ghost t1: Table, ghost done: set<nat>, ghost woken: bool)
      requires Wf() && Inv(t1) && p < NPROC && cur != initproc == t1.init
      requires T() == Walked(t1, done, cur, woken) && (woken <==> ZombieSeen(t1, done, cur))
      modifies this`procs, this`head, this`tail, this`next, this`q
      ensures Wf() && T() == Walked(t1, done + {p}, cur, ZombieSeen(t1, done + {p}, cur))
    {
      hide Links, CpuMatch, Family, Forks, Waiters, Ranges, Listed, Flying, ZombieSeen, Wake, Shape;
      WalkedShape(t1, done, cur, woken);
      WalkAt(t1, done, cur, woken, p);
      WalkNext(t1, done, cur, woken, p);
      WalkedShape(t1, done + {p}, cur, woken);
      if procs[p].parent == cur {
        procs := procs[p := procs[p].(parent := initproc)];
        if procs[p].state == ZOMBIE {
          Wakeup1(ProcChan(initproc));
          WalkWake(t1, done + {p}, cur, woken);
        }
      } else {
        assert procs[p := procs[p]] == procs;
      }
    }

    /** exit's walk along one list. */
    method AdoptList(l: nat, cur: nat, ghost t1: Table, ghost done: set<nat>)
      requires Wf() && Inv(t1) && Fits(t1) && l < NLIST && cur != initproc == t1.init
      requires T() == Walked(t1, done, cur, ZombieSeen(t1, done, cur))
      modifies this`procs, this`head, this`tail, this`next, this`q
      ensures var done' := done + Members(old(q)[l]);
              Wf() && T() == Walked(t1, done', cur, ZombieSeen(t1, done', cur))
    {
      hide Links, CpuMatch, Family, Forks, Waiters, Ranges, Listed, Flying, ZombieSeen, Walked, Members, Shape, Fits;
      HeadOf(next, head, tail, q, l);
      ghost var s, k := q[l], 0;
      var p := head[l];
      NoMembers(done, s);
      while p != -1
        invariant Wf() && k <= |s| && |q| == NLIST && q[l] == s && p == if k < |s| then s[k] else -1
        invariant var done' := done + Members(s[..k]);
                  T() == Walked(t1, done', cur, ZombieSeen(t1, done', cur))
        decreases |s| - k
      {
        Follow(next, head, tail, q, l, k);
        MembersNext(next, head, tail, q, l, k);
        ghost var done' := done + Members(s[..k]);
        assert done' + {s[k]} == done + Members(s[..k + 1]);
        WalkStays(t1, done', cur, l, s[k]);
        AdoptOne(p, cur, t1, done', ZombieSeen(t1, done', cur));
        Follow(next, head, tail, q, l, k);
        p := next[p];
        k := k + 1;
      }
      assert s[..k] == s;
    }

    /** exit of the process on CPU c. */
    method Exit(c: nat, elapsed: nat)
      requires Valid() && Enabled(T(), DoExit(c, elapsed))
      modifies this`procs, this`head, this`tail, this`next, this`q, this`cpu
      ensures Valid() && T() == S.Exit(old(T()), c, elapsed)
    {
      hide Links, CpuMatch, Family, Forks, Waiters, Ranges, Listed, Flying, Orphan, SpendInt, Charge;
      ExitInv(T(), c, elapsed);
      Runner(T(), c);
      OrphanInv(T(), cpu[c]);
      RunningListed(S.Orphan(T(), cpu[c]), c);
      var cur := cpu[c];
      LeaveChildren(cur);
      var curproc := Charge(procs[cur], elapsed);
      Transition(cur, curproc.(state := ZOMBIE));
      cpu := cpu[c := -1];
    }

    /** The part of exit before the caller turns into a zombie. */
    method LeaveChildren(cur: nat)
      requires Valid() && cur < NPROC && cur != initproc && procs[cur].state == RUNNING
      requires 0 <= procs[cur].parent < NPROC && procs[cur].parent != cur
      modifies this`procs, this`head, this`tail, this`next, this`q
      ensures Wf() && T() == Orphan(old(T()), cur)
    {
      hide Links, CpuMatch, Family, Forks, Waiters, Listed, Flying, ZombieSeen, Walked, Members, HasZombieKid,
        Wake, Fits, Visits;
      WakeInv(T(), ProcChan(procs[cur].parent));
      Wakeup1(ProcChan(procs[cur].parent));
      ghost var t1, done := T(), {};
      ListsFit(t1);
      NothingWalked(t1, cur);
      hide Ranges, Shape;
      var j := 0;
      while j < |ALL_ORDER|
        invariant 0 <= j <= |ALL_ORDER| && Wf() && Visits(t1, done, j)
        invariant T() == Walked(t1, done, cur, ZombieSeen(t1, done, cur))
      {
        var l := ALL_ORDER[j];
        OrderInRange(j);
        WalkedShape(t1, done, cur, ZombieSeen(t1, done, cur));
        VisitNext(t1, done, j, q);
        ghost var s := q[l];
        AdoptList(l, cur, t1, done);
        done := done + Members(s);
        j := j + 1;
      }
      WalkComplete(t1, done, cur);
    }

    /** wait's look along one list: is a child of cur there, and the first zombie child, -1 for
        none. The look stops at a zombie child. */
    method ScanList(l: nat, cur: nat) returns (kid: bool, z: int)
      requires Wf() && Shape(T()) && l < NLIST
      ensures z == var k := FirstZombie(procs, q[l], cur); if k < |q[l]| then q[l][k] else -1
      ensures z == -1 ==> (kid <==> KidOn(T(), l, cur))
    {
      hide Links, FirstZombie;
      HeadOf(next, head, tail, q, l);
      ghost var s, k := q[l], 0;
      kid := false;
      var p := head[l];
      while p != -1
        invariant k <= |s| && p == if k < |s| then s[k] else -1
        invariant forall i :: 0 <= i < k ==>
                    s[i] < NPROC && !(procs[s[i]].state == ZOMBIE && procs[s[i]].parent == cur)
        invariant kid <==> exists i :: 0 <= i < k && procs[s[i]].parent == cur
        decreases |s| - k
      {
        Follow(next, head, tail, q, l, k);
        if procs[p].parent == cur {
          kid := true;
          if procs[p].state == ZOMBIE {
            return kid, p;
          }
        }
        p := next[p];
        k := k + 1;
      }
      z := -1;
    }

    /** wait's look along all lists: the first zombie child, else whether there are children. */
    method Scan(cur: nat) returns (kids: bool, z: int)
      requires Valid() && cur < NPROC
      ensures z == var s := q[StateId(ZOMBIE)]; var k := FirstZombie(procs, s, cur); if k < |s| then s[k] else -1
      ensures z == -1 ==> (kids <==> HasKid(T(), cur))
    {
      hide Links, CpuMatch, Family, Forks, Waiters, Ranges, Listed, Flying, FirstZombie, HasKid, KidOn;
      kids := false;
      var j := 0;
      while j < |ALL_ORDER|
        invariant 0 <= j <= |ALL_ORDER|
        invariant j > 3 ==> FirstZombie(procs, q[5], cur) == |q[5]|
        invariant kids <==> exists i :: 0 <= i < j && KidOn(T(), ALL_ORDER[i], cur)
      {
        OrderInRange(j);
        var kid;
        kid, z := ScanList(ALL_ORDER[j], cur);
        ZombiesOn5(T(), j, cur);
        if z != -1 { return; }
        kids := kids || kid;
        j := j + 1;
      }
      z := -1;
      KidSomewhere(T(), cur);
    }

    /** One round of wait on CPU c: the reaped child's pid, -1 for an error, 0 for going to sleep. */
    method Wait(c: nat, elapsed: nat) returns (r: int)
      requires Valid() && Enabled(T(), DoWait(c, elapsed))
      modifies this`procs, this`head, this`tail, this`next, this`q, this`cpu
      ensures Valid() && T() == S.Wait(old(T()), c, elapsed)
      ensures r == WaitReturns(old(T()), c)
    {
      hide Links, CpuMatch, Family, Forks, Waiters, Listed, Flying, HasKid, FirstZombie, HasZombieKid;
      WaitInv(T(), c, elapsed);
      var cur := cpu[c];
      var kids, z := Scan(cur);
      if z != -1 {
        r := procs[z].pid;
        ZombiePlace(T(), cur);
        Transition(z, procs[z].(state := UNUSED, pid := 0, parent := -1, killed := false));
        return;
      }
      if !kids || procs[cur].killed {
        return -1;
      }
      NoZombieFound(T(), cur);
      Sleep(c, ProcChan(cur), elapsed);
      r := 0;
    }
  }

  lemma OffAll(next: seq<int>, head: seq<int>, tail: seq<int>, q: seq<seq<nat>>, l: nat, p: nat)
    requires Links(next, head, tail, q) && On(q, l, p)
    ensures Off(q[l := Without(q[l], p)], p)
  {
    WithoutFacts(q[l], p);
    var q' := q[l := Without(q[l], p)];
    forall k | 0 <= k < |q'| ensures p !in q'[k] {
      if k != l {
        assert !On(q, k, p);
      }
    }
  }

  lemma RunningListed(t: Table, c: nat)
    requires Inv(t) && OnCpu(t, c)
    ensures t.cpu[c] < NPROC && On(t.q, ListId(t.procs[t.cpu[c]]), t.cpu[c])
    ensures t.procs[t.cpu[c]].state == RUNNING && InRange(t.procs[t.cpu[c]])
  {
    assert t.cpu[c] !in Flying(t);
  }

  lemma HeadOf(next: seq<int>, head: seq<int>, tail: seq<int>, q: seq<seq<nat>>, l: nat)
    requires Links(next, head, tail, q) && l < NLIST
    ensures head[l] == if q[l] == [] then -1 else q[l][0]
    ensures |head| == |q| == NLIST
  {
  }

  lemma TailOf(next: seq<int>, head: seq<int>, tail: seq<int>, q: seq<seq<nat>>, l: nat, p: nat)
    requires Links(next, head, tail, q) && l < NLIST && q[l] != [] && q[l][|q[l]| - 1] == p
    ensures p < |next| && next[p] == -1
  {
  }

  lemma ServedStep(q: seq<seq<nat>>, i: int)
    requires |q| == NLIST && -1 <= i <= MAXPRIO
    ensures Served(q, i) == if i < 0 then READY - 1 else if q[READY + i] != [] then READY + i else Served(q, i - 1)
  {
  }

  lemma FirstIs(procs: seq<Proc>, s: seq<nat>, chan: Chan, k: nat)
    requires k <= |s| && forall i :: 0 <= i < |s| ==> s[i] < |procs|
    requires forall i :: 0 <= i < k ==> !(procs[s[i]].state == SLEEPING && procs[s[i]].chan == chan)
    requires k < |s| ==> procs[s[k]].state == SLEEPING && procs[s[k]].chan == chan
    ensures FirstSleeper(procs, s, chan) == k
  {
  }

  lemma PlaceOf(t: Table, p: nat)
    requires Inv(t) && p < NPROC && (t.procs[p].state == EMBRYO ==> !Stands(t, p, InFlight))
    ensures On(t.q, ListId(t.procs[p]), p)
  {
    assert p !in Flying(t);
  }

  lemma FlyingOff(t: Table, p: nat)
    requires Inv(t) && Stands(t, p, InFlight)
    ensures p < NPROC && Off(t.q, p)
  {
    hide CpuMatch, Family, Forks, Waiters, Ranges;
    assert p in Flying(t);
    forall k | 0 <= k < |t.q| ensures p !in t.q[k] {
      assert !On(t.q, k, p);
    }
  }

  ghost function Members(s: seq<nat>): set<nat> {
    set x | x in s
  }

  lemma MembersNext(next: seq<int>, head: seq<int>, tail: seq<int>, q: seq<seq<nat>>, l: nat, k: nat)
    requires Links(next, head, tail, q) && l < NLIST && k < |q[l]|
    ensures q[l][k] !in Members(q[l][..k])
    ensures Members(q[l][..k + 1]) == Members(q[l][..k]) + {q[l][k]}
  {
    var s := q[l];
    assert s[..k + 1] == s[..k] + [s[k]];
  }

  lemma MembersStep(s: seq<nat>, k: nat, q: seq<seq<nat>>, next: seq<int>, head: seq<int>, tail: seq<int>, l: nat)
    requires Links(next, head, tail, q) && l < NLIST && s == q[l] && k < |s|
    ensures s[k] !in Members(s[..k]) && Members(s[..k + 1]) == Members(s[..k]) + {s[k]}
    ensures Distinct(s) && s[k] < NPROC
  {
    MembersNext(next, head, tail, q, l, k);
  }

  /** Ready list i with its first k members already moved to the tail of ready list i + 1. */
  ghost function Shifted(q: seq<seq<nat>>, i: nat, k: nat): seq<seq<nat>>
    requires |q| == NLIST && i < MAXPRIO && k <= |q[READY + i]|
  {
    q[READY + i := q[READY + i][k..]][READY + i + 1 := q[READY + i + 1] + q[READY + i][..k]]
  }

  lemma ShiftedStart(q: seq<seq<nat>>, i: nat)
    requires |q| == NLIST && i < MAXPRIO
    ensures Shifted(q, i, 0) == q
  {
    assert q[READY + i][0..] == q[READY + i];
    assert q[READY + i + 1] + q[READY + i][..0] == q[READY + i + 1];
  }

  lemma ShiftedNext(q: seq<seq<nat>>, i: nat, k: nat)
    requires |q| == NLIST && i < MAXPRIO && k < |q[READY + i]|
    ensures var s, w := q[READY + i], Shifted(q, i, k);
            w[READY + i := Without(w[READY + i], s[k])][READY + i + 1 := w[READY + i + 1] + [s[k]]] ==
                Shifted(q, i, k + 1)
  {
    var s := q[READY + i];
    assert s[k..][0] == s[k] && s[k..][1..] == s[k + 1..];
    assert s[..k] + [s[k]] == s[..k + 1];
    assert q[READY + i + 1] + s[..k] + [s[k]] == q[READY + i + 1] + s[..k + 1];
  }

  predicate AtReady(p: Proc, i: nat) {
    p.state == RUNNABLE && p.priority == i
  }

  predicate AllReady(procs: seq<Proc>, s: seq<nat>, i: nat) {
    forall k :: 0 <= k < |s| ==> s[k] < |procs| && AtReady(procs[s[k]], i)
  }

  lemma UpReady(p: Proc, i: nat)
    requires AtReady(p, i) && i < MAXPRIO
    ensures Up(p) == p.(priority := p.priority + 1, budget := BUDGET)
    ensures ListId(p) == READY + i && ListId(Up(p)) == READY + i + 1
  {
  }

  /** Every process on a list belongs there. */
  ghost predicate Fits(t: Table) {
    && |t.procs| == NPROC && |t.q| == NLIST && (forall x :: 0 <= x < NPROC ==> Listable(t.procs[x]))
    && forall l, x: nat :: On(t.q, l, x) ==> x < NPROC && ListId(t.procs[x]) == l
  }

  lemma ListsFit(t: Table)
    requires Inv(t)
    ensures Fits(t)
  {
  }

  lemma FitsOn(t: Table, l: nat)
    requires Fits(t) && l < NLIST
    ensures forall x: nat :: x in t.q[l] ==> x < NPROC && ListId(t.procs[x]) == l
    ensures forall x: nat :: x in Members(t.q[l]) <==> On(t.q, l, x)
  {
    forall x: nat | x in t.q[l] ensures x < NPROC && ListId(t.procs[x]) == l {
      assert On(t.q, l, x);
    }
  }

  lemma RaisedFits(t: Table, done: set<nat>, l: nat)
    requires Fits(t) && l < READY
    ensures forall x: nat :: x in t.q[l] ==> x < NPROC && ListId(Raised(t.procs, done)[x]) == l
  {
    FitsOn(t, l);
  }

  lemma NothingRaised(procs: seq<Proc>)
    requires |procs| == NPROC
    ensures Raised(procs, Members([])) == procs
  {
  }

  lemma RaisedTwice(procs: seq<Proc>, a: set<nat>, b: set<nat>)
    requires |procs| == NPROC && a !! b
    ensures Raised(Raised(procs, a), b) == Raised(procs, a + b)
  {
  }

  lemma RaisedShape(t: Table, done: set<nat>, t': Table)
    requires Shape(t) && t'.procs == Raised(t.procs, done) && |t'.q| == NLIST
    requires t'.init == t.init && t'.cpu == t.cpu && t'.fork == t.fork
    ensures Shape(t')
  {
  }

  /** Promotion has visited the state lists and the ready lists above i, the top one aside. */
  ghost predicate Visited(t: Table, done: set<nat>, i: int) {
    && |t.procs| == NPROC
    && (forall x :: x in done ==> x < NPROC && (ListId(t.procs[x]) < READY || ListId(t.procs[x]) > READY + i))
    && (forall x: nat :: On(t.q, 2, x) || On(t.q, 4, x) ==> x in done)
    && (forall l, x: nat :: READY + i < l < READY + MAXPRIO && On(t.q, l, x) ==> x in done)
  }

  lemma StatesDone(t: Table, done: set<nat>)
    requires Fits(t) && forall x :: x in done <==> On(t.q, 2, x) || On(t.q, 4, x)
    ensures Visited(t, done, MAXPRIO) && PromotedTo(t.q, MAXPRIO) == t.q
  {
  }

  lemma TopVisited(t: Table, done: set<nat>)
    requires Visited(t, done, MAXPRIO)
    ensures Visited(t, done, MAXPRIO - 1)
  {
  }

  lemma PromotedNext(q: seq<seq<nat>>, i: nat)
    requires |q| == NLIST && i < MAXPRIO
    ensures |PromotedTo(q, i + 1)| == NLIST && PromotedTo(q, i + 1)[READY + i] == q[READY + i]
    ensures Shifted(PromotedTo(q, i + 1), i, |q[READY + i]|) == PromotedTo(q, i)
  {
    var w := PromotedTo(q, i + 1);
    var s := q[READY + i];
    assert s[..|s|] == s && s[|s|..] == [];
    assert w[READY + i + 1] + s == PromotedQueue(q, i, READY + i + 1);
  }

  lemma ReadyFits(t: Table, done: set<nat>, i: nat)
    requires Fits(t) && i < MAXPRIO && Visited(t, done, i)
    ensures done !! Members(t.q[READY + i])
    ensures Visited(t, done + Members(t.q[READY + i]), i - 1)
    ensures AllReady(Raised(t.procs, done), t.q[READY + i], i)
  {
    FitsOn(t, READY + i);
    ReadyUnseen(t, done, i);
    hide Fits;
  }

  lemma ReadyUnseen(t: Table, done: set<nat>, i: nat)
    requires Fits(t) && i < MAXPRIO && Visited(t, done, i)
    ensures forall x: nat :: On(t.q, READY + i, x) ==> x !in done
  {
  }

  lemma RaisedAll(t: Table, done: set<nat>)
    requires Inv(t) && Visited(t, done, -1)
    ensures Raised(t.procs, done) == S.Promote(t).procs
  {
    hide CpuMatch, Family, Forks, Waiters, Ranges, Listed;
    forall x | 0 <= x < NPROC && x !in done ensures Up(t.procs[x]) == t.procs[x] {
      if Up(t.procs[x]) != t.procs[x] {
        PlaceOf(t, x);
      }
    }
  }

  lemma WalkWake(t: Table, done: set<nat>, cur: nat, woken: bool)
    requires Inv(t)
    ensures Shape(Walked(t, done, cur, woken))
    ensures Wake(Walked(t, done, cur, woken), ProcChan(t.init)) == Walked(t, done, cur, true)
  {
    var chan, a := ProcChan(t.init), Adopted(t, done, cur);
    assert Sole(t, chan, t.init);
    AdoptedSole(t, done, cur, chan, t.init);
    hide Listed, Flying, CpuMatch, Family, Forks, Waiters, Wake;
    WakeTwice(a, chan, t.init);
  }

  lemma NoMembers(done: set<nat>, s: seq<nat>)
    ensures done + Members(s[..0]) == done
  {
  }

  /** Visiting a process does not change the list it is found on. */
  lemma WalkStays(t: Table, done: set<nat>, cur: nat, l: nat, p: nat)
    requires Inv(t) && Fits(t) && l < NLIST && p < NPROC && cur != t.init
    requires |Walked(t, done, cur, ZombieSeen(t, done, cur)).q| == NLIST
    requires p in Walked(t, done, cur, ZombieSeen(t, done, cur)).q[l]
    ensures var w := Walked(t, done + {p}, cur, ZombieSeen(t, done + {p}, cur));
            |w.q| == NLIST && w.q[l] == Walked(t, done, cur, ZombieSeen(t, done, cur)).q[l]
  {
    hide CpuMatch, Family, Forks, Waiters, Ranges, Listed, Flying, Walked, ZombieSeen, Fits;
    var z := ZombieSeen(t, done, cur);
    WalkedQueues(t, done, cur, z);
    WalkedQueues(t, done + {p}, cur, ZombieSeen(t, done + {p}, cur));
    WalkedShape(t, done, cur, z);
    assert On(Walked(t, done, cur, z).q, l, p);
    if l != StateId(ZOMBIE) {
      assert On(t.q, l, p) || p == t.init;
      NotZombie(t, l, p);
      ZombieStep(t, done, cur, p);
    }
  }

  lemma NotZombie(t: Table, l: nat, p: nat)
    requires Inv(t) && Fits(t) && l != StateId(ZOMBIE) && p < NPROC && (On(t.q, l, p) || p == t.init)
    ensures t.procs[p].state != ZOMBIE
  {
  }

  /** The first j lists of the walk have been visited. */
  ghost predicate Visits(t: Table, done: set<nat>, j: int) {
    forall i, x: nat :: 0 <= i < j && i < |ALL_ORDER| && On(t.q, ALL_ORDER[i], x) && x != t.init ==> x in done
  }

  lemma OrderInRange(j: nat)
    requires j < |ALL_ORDER|
    ensures ALL_ORDER[j] < NLIST
  {
  }

  lemma NothingWalked(t: Table, cur: nat)
    requires Shape(t)
    ensures Walked(t, {}, cur, ZombieSeen(t, {}, cur)) == t && Visits(t, {}, 0)
  {
    assert Adopted(t, {}, cur).procs == t.procs;
  }

  lemma VisitNext(t: Table, done: set<nat>, j: nat, q: seq<seq<nat>>)
    requires j < |ALL_ORDER| && |q| == NLIST && ALL_ORDER[j] < NLIST && Visits(t, done, j)
    requires forall l, x: nat :: On(t.q, l, x) && x != t.init ==> On(q, l, x)
    ensures Visits(t, done + Members(q[ALL_ORDER[j]]), j + 1)
  {
  }

  lemma WalkComplete(t: Table, done: set<nat>, cur: nat)
    requires Inv(t) && cur < NPROC && Visits(t, done, |ALL_ORDER|)
    ensures Walked(t, done, cur, ZombieSeen(t, done, cur)) ==
            if HasZombieKid(t, cur) then Wake(Reparent(t, cur), ProcChan(t.init)) else Reparent(t, cur)
  {
    hide CpuMatch, Family, Forks, Waiters, Ranges, Listed, Flying, Walked;
    forall x | 0 <= x < NPROC && t.procs[x].parent == cur ensures x in done {
      KidListed(t, x, cur);
      var i :| 0 <= i < |ALL_ORDER| && ALL_ORDER[i] == ListId(t.procs[x]);
      assert On(t.q, ALL_ORDER[i], x);
    }
    assert HasZombieKid(t, cur) <==> ZombieSeen(t, done, cur);
    WalkDone(t, done, cur, ZombieSeen(t, done, cur));
  }

  ghost predicate KidOn(t: Table, l: nat, cur: nat) {
    l < |t.q| && exists x :: x in t.q[l] && x < |t.procs| && t.procs[x].parent == cur
  }

  /** Zombie children are met on the fourth list of the walk only. */
  lemma ZombiesOn5(t: Table, j: nat, cur: nat)
    requires Inv(t) && j < |ALL_ORDER| && ALL_ORDER[j] < NLIST
    ensures j != 3 ==> FirstZombie(t.procs, t.q[ALL_ORDER[j]], cur) == |t.q[ALL_ORDER[j]]|
    ensures ALL_ORDER[3] == 5
  {
    hide FirstZombie, Flying, CpuMatch, Family, Forks, Waiters, Ranges;
    var l := ALL_ORDER[j];
    var k := FirstZombie(t.procs, t.q[l], cur);
    if k < |t.q[l]| {
      assert On(t.q, l, t.q[l][k]);
      assert l == 5 && j == 3;
    }
  }

  lemma KidSomewhere(t: Table, cur: nat)
    requires Inv(t)
    ensures HasKid(t, cur) <==> exists i :: 0 <= i < |ALL_ORDER| && KidOn(t, ALL_ORDER[i], cur)
  {
    hide CpuMatch, Family, Forks, Waiters, Ranges, Listed, Flying;
    if HasKid(t, cur) {
      var x :| 0 <= x < |t.procs| && t.procs[x].parent == cur;
      KidListed(t, x, cur);
      var i :| 0 <= i < |ALL_ORDER| && ALL_ORDER[i] == ListId(t.procs[x]);
      assert KidOn(t, ALL_ORDER[i], cur);
    }
    if i :| 0 <= i < |ALL_ORDER| && KidOn(t, ALL_ORDER[i], cur) {
      var x :| x in t.q[ALL_ORDER[i]] && x < |t.procs| && t.procs[x].parent == cur;
      assert HasKid(t, cur);
    }
  }

  lemma ZombiePlace(t: Table, cur: nat)
    requires Inv(t)
    ensures var s := t.q[StateId(ZOMBIE)]; var k := FirstZombie(t.procs, s, cur);
            k < |s| ==> On(t.q, ListId(t.procs[s[k]]), s[k])
  {
    var s := t.q[StateId(ZOMBIE)];
    var k := FirstZombie(t.procs, s, cur);
    if k < |s| {
      assert On(t.q, StateId(ZOMBIE), s[k]);
    }
  }

  lemma BootShape(t: Table, ncpu: nat)
    requires t.cpu == seq(ncpu, _ => -1) && t.fork == map[] && t.nextpid == 2 && t.init == 0
    requires t.procs == seq(NPROC, _ => BLANK)[0 := BLANK.(state := RUNNABLE, pid := 1, budget := BUDGET)]
    requires |t.q| == NLIST && t.q[0] == Range(1, NPROC) && t.q[READY] == [0]
    requires forall l :: 1 <= l < NLIST && l != READY ==> t.q[l] == []
    ensures t == Boot(ncpu)
  {
    assert Range(0, 1) == [0];
    assert forall l :: 0 <= l < NLIST ==> t.q[l] == Boot(ncpu).q[l];
    assert t.q == Boot(ncpu).q;
    assert t.procs == Boot(ncpu).procs;
  }
}
