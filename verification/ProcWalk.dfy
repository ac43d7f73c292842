/** List walks of exit and of the promotion pass, seen on the table: what has been done once a
    set of processes has been visited. */
module ProcWalk {
  import opened ProcSpec

  // ---------- promotion ----------

  ghost function Raised(procs: seq<Proc>, done: set<nat>): seq<Proc>
    requires |procs| == NPROC
  {
    seq(NPROC, p requires 0 <= p < NPROC => if p in done then Up(procs[p]) else procs[p])
  }

  lemma RaisedNext(procs: seq<Proc>, done: set<nat>, p: nat)
    requires |procs| == NPROC && p < NPROC && p !in done
    ensures |Raised(procs, done)| == NPROC && Raised(procs, done)[p] == procs[p]
    ensures Raised(procs, done)[p := Up(procs[p])] == Raised(procs, done + {p})
  {
  }

  // ---------- exit ----------

  /** The processes in `done` have been visited by exit's walk. */
  ghost function Adopted(t: Table, done: set<nat>, cur: nat): Table
    requires Shape(t)
  {
    t.(procs := seq(NPROC, p requires 0 <= p < NPROC =>
                      if p in done then Adopt(t.procs[p], cur, t.init) else t.procs[p]))
  }

  /** `woken` says whether the walk has called wakeup1(initproc). */
  ghost function Walked(t: Table, done: set<nat>, cur: nat, woken: bool): Table
    requires Shape(t)
  {
    var a := Adopted(t, done, cur);
    assert Shape(a);
    if woken then Wake(a, ProcChan(t.init)) else a
  }

  /** Only x can be asleep on chan. */
  ghost predicate Sole(t: Table, chan: Chan, x: nat) {
    forall y :: 0 <= y < |t.procs| && t.procs[y].state == SLEEPING && t.procs[y].chan == chan ==> y == x
  }

  lemma AdoptSame(a: Table, b: Table, chan: Chan)
    requires Shape(a) && Shape(b) && a.q == b.q
    requires forall x :: 0 <= x < NPROC ==> b.procs[x].state == a.procs[x].state && b.procs[x].chan == a.procs[x].chan
    ensures FirstSleeper(b.procs, b.q[StateId(SLEEPING)], chan) == FirstSleeper(a.procs, a.q[StateId(SLEEPING)], chan)
  {
  }

  /** Handing one process to init commutes with a wakeup. */
  lemma AdoptWake(t: Table, chan: Chan, p: nat, cur: nat)
    requires Shape(t) && p < NPROC
    ensures var t' := SetProc(t, p, Adopt(t.procs[p], cur, t.init));
            var w := Wake(t, chan);
            && Shape(t') && Shape(w)
            && Wake(t', chan) == SetProc(w, p, Adopt(w.procs[p], cur, t.init))
  {
    hide Without, FirstSleeper;
    var t' := SetProc(t, p, Adopt(t.procs[p], cur, t.init));
    assert Shape(t');
    AdoptSame(t, t', chan);
    var s := t.q[StateId(SLEEPING)];
    var k := FirstSleeper(t.procs, s, chan);
    if k < |s| {
      assert t'.procs[s[k]].priority == t.procs[s[k]].priority;
      assert t'.procs[s[k] := t'.procs[s[k]].(state := RUNNABLE)] ==
        t.procs[s[k] := t.procs[s[k]].(state := RUNNABLE)]
        [p := Adopt(t.procs[s[k] := t.procs[s[k]].(state := RUNNABLE)][p], cur, t.init)];
    }
  }

  lemma WalkNext(t: Table, done: set<nat>, cur: nat, woken: bool, p: nat)
    requires Shape(t) && p < NPROC && cur != t.init
    ensures var w := Walked(t, done, cur, woken);
            Shape(w) && Walked(t, done + {p}, cur, woken) == SetProc(w, p, Adopt(w.procs[p], cur, t.init))
  {
    hide Wake;
    var a := Adopted(t, done, cur);
    assert Shape(a);
    assert Adopted(t, done + {p}, cur).procs == a.procs[p := Adopt(a.procs[p], cur, t.init)];
    AdoptWake(a, ProcChan(t.init), p, cur);
  }

  /** With a sole sleeper, waking twice is waking once. */
  lemma WakeTwice(t: Table, chan: Chan, x: nat)
    requires Shape(t) && Ranges(t) && Sole(t, chan, x)
    ensures Shape(Wake(t, chan)) && Wake(Wake(t, chan), chan) == Wake(t, chan)
  {
    var w := Wake(t, chan);
    var s := w.q[StateId(SLEEPING)];
    assert FirstSleeper(w.procs, s, chan) == |s|;
  }

  lemma AdoptedSole(t: Table, done: set<nat>, cur: nat, chan: Chan, x: nat)
    requires Shape(t) && Ranges(t) && Sole(t, chan, x)
    ensures var a := Adopted(t, done, cur); Shape(a) && Ranges(a) && Sole(a, chan, x)
  {
    var a := Adopted(t, done, cur);
    assert forall p :: 0 <= p < NPROC ==> a.procs[p] == t.procs[p].(parent := a.procs[p].parent);
  }

  /** What the walk has left of the rest of the table. */
  lemma WalkedShape(t: Table, done: set<nat>, cur: nat, woken: bool)
    requires Inv(t)
    ensures var w := Walked(t, done, cur, woken);
            && Shape(w) && Ranges(w)
            && (forall l, x: nat :: On(t.q, l, x) && x != t.init ==> On(w.q, l, x))
            && (forall l, x: nat :: On(w.q, l, x) ==> On(t.q, l, x) || (l >= READY && x == t.init))
            && (forall x :: 0 <= x < NPROC && x != t.init ==> w.procs[x].state == t.procs[x].state)
            && w.cpu == t.cpu && w.fork == t.fork && w.nextpid == t.nextpid && w.init == t.init
  {
    var chan, a := ProcChan(t.init), Adopted(t, done, cur);
    assert Sole(t, chan, t.init);
    AdoptedSole(t, done, cur, chan, t.init);
    hide Listed, Flying, CpuMatch, Family, Forks, Waiters, Adopted, FirstSleeper;
    if woken {
      WakeEffect(a, chan, t.init);
    }
  }

  lemma WakeEffect(a: Table, chan: Chan, i: nat)
    requires Shape(a) && Ranges(a) && Sole(a, chan, i) && i < NPROC
    ensures var w := Wake(a, chan);
            && Shape(w) && Ranges(w) && w.cpu == a.cpu && w.fork == a.fork && w.nextpid == a.nextpid && w.init == a.init
            && (forall l, x: nat :: On(a.q, l, x) && x != i ==> On(w.q, l, x))
            && (forall l, x: nat :: On(w.q, l, x) ==> On(a.q, l, x) || (l >= READY && x == i))
            && (forall x :: 0 <= x < NPROC && x != i ==> w.procs[x] == a.procs[x])
  {
    var s := a.q[StateId(SLEEPING)];
    var k := FirstSleeper(a.procs, s, chan);
    if k < |s| {
      assert s[k] == i;
      WithoutKeeps(s, i);
    }
  }

  lemma {:induction false} WithoutKeeps(s: seq<nat>, p: nat)
    ensures forall x: nat :: x in s && x != p ==> x in Without(s, p)
    ensures forall x: nat :: x in Without(s, p) ==> x in s
  {
    if s != [] {
      WithoutKeeps(s[1..], p);
    }
  }

  /** Once every child has been visited the walk is complete. */
  lemma WalkDone(t: Table, done: set<nat>, cur: nat, woken: bool)
    requires Shape(t) && cur < NPROC
    requires forall x :: 0 <= x < NPROC && t.procs[x].parent == cur ==> x in done
    requires woken == HasZombieKid(t, cur)
    ensures Walked(t, done, cur, woken) ==
            if HasZombieKid(t, cur) then Wake(Reparent(t, cur), ProcChan(t.init)) else Reparent(t, cur)
  {
    assert Adopted(t, done, cur).procs == Reparent(t, cur).procs;
  }

  /** A child is on one of the lists exit and wait walk. */
  lemma KidListed(t: Table, x: nat, par: nat)
    requires Inv(t) && x < NPROC && t.procs[x].parent == par
    ensures ListId(t.procs[x]) in ALL_ORDER && On(t.q, ListId(t.procs[x]), x) && x != t.init
    ensures t.procs[x].state == ZOMBIE <==> ListId(t.procs[x]) == StateId(ZOMBIE)
  {
    assert Active(t.procs[x].state);
    assert x !in Flying(t);
    hide Listed, CpuMatch, Forks, Waiters, Flying;
    var l := ListId(t.procs[x]);
    assert l == 2 || l == 4 || l == 5 || 6 <= l <= 12;
    assert ALL_ORDER[1] == 2 && ALL_ORDER[2] == 4 && ALL_ORDER[3] == 5;
    assert l >= 6 ==> ALL_ORDER[16 - l] == l;
  }

  /** A zombie child of cur has been visited. */
  ghost predicate ZombieSeen(t: Table, done: set<nat>, cur: nat) {
    exists x :: x in done && x < |t.procs| && t.procs[x].state == ZOMBIE && t.procs[x].parent == cur
  }

  /** What the walk finds at p. */
  lemma WalkAt(t: Table, done: set<nat>, cur: nat, woken: bool, p: nat)
    requires Inv(t) && cur != t.init && p < NPROC
    ensures var w := Walked(t, done, cur, woken);
            && |w.procs| == NPROC
            && (w.procs[p].parent == cur <==> p !in done && t.procs[p].parent == cur)
            && (w.procs[p].parent == cur ==> w.procs[p].state == t.procs[p].state)
            && (ZombieSeen(t, done + {p}, cur) <==>
                  ZombieSeen(t, done, cur) || (w.procs[p].parent == cur && w.procs[p].state == ZOMBIE))
  {
    var chan, a := ProcChan(t.init), Adopted(t, done, cur);
    assert Sole(t, chan, t.init) && t.procs[t.init].parent == -1;
    AdoptedSole(t, done, cur, chan, t.init);
    hide Listed, Flying, CpuMatch, Family, Forks, Waiters, FirstSleeper, Sole;
    if woken {
      WakeEffect(a, chan, t.init);
      WakeParents(a, chan);
    }
    hide Wake;
    ZombieStep(t, done, cur, p);
  }

  lemma ZombieStep(t: Table, done: set<nat>, cur: nat, p: nat)
    requires |t.procs| == NPROC && p < NPROC
    ensures ZombieSeen(t, done + {p}, cur) <==>
              ZombieSeen(t, done, cur) || (t.procs[p].parent == cur && t.procs[p].state == ZOMBIE)
    ensures p in done && t.procs[p].parent == cur && t.procs[p].state == ZOMBIE ==> ZombieSeen(t, done, cur)
  {
    if ZombieSeen(t, done + {p}, cur) {
      var x :| x in done + {p} && x < |t.procs| && t.procs[x].state == ZOMBIE && t.procs[x].parent == cur;
      assert x in done ==> ZombieSeen(t, done, cur);
    }
    assert p in done + {p};
  }

  lemma WakeParents(t: Table, chan: Chan)
    requires Shape(t)
    ensures |Wake(t, chan).procs| == NPROC
    ensures forall x :: 0 <= x < NPROC ==> Wake(t, chan).procs[x].parent == t.procs[x].parent
  {
  }

  /** The queues depend on the wakeup alone, and only SLEEPING and the ready lists on that. */
  lemma WalkedQueues(t: Table, done: set<nat>, cur: nat, woken: bool)
    requires Shape(t)
    ensures var w := Walked(t, done, cur, woken);
            && w.q == Walked(t, {}, cur, woken).q && |w.q| == NLIST
            && (forall l :: 0 <= l < READY && l != StateId(SLEEPING) ==> w.q[l] == t.q[l])
  {
    hide FirstSleeper;
    var a, b := Adopted(t, done, cur), Adopted(t, {}, cur);
    assert Shape(a) && Shape(b);
    AdoptSame(a, b, ProcChan(t.init));
  }
}
