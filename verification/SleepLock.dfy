/**
One sleep lock of src/sleeplock.c under every interleaving of the steps of acquiresleep and
releasesleep, with sleep, wakeup and kill of src/proc.c. The lock's own spinlock and ptable.lock are
taken and dropped step by step. wakeup may move the first sleeper, as the list walk of wakeup1 does,
or all of them, as the table scan does.
*/
module SleepLock {
  import opened Common

  /** Where a process is. */
  datatype PC =
    | Idle
    | Busy    // holds ptable.lock for a reason of its own
    | Start   // acquiresleep: wants the spinlock
    | Test    // has it; while (lk->locked)
    | Sleep1  // locked was set: sleep wants ptable.lock
    | Sleep2  // has both; drops the spinlock
    | Sleep3  // has ptable.lock; becomes SLEEPING and drops it in the scheduler
    | Asleep
    | Ready   // RUNNABLE again
    | Wake1   // running with ptable.lock; drops it
    | Wake2   // wants the spinlock back
    | Take    // has it and saw locked clear; sets locked and pid
    | Leave   // drops the spinlock
    | Held    // out of acquiresleep
    | Free0   // releasesleep: wants the spinlock
    | Free1   // has it; clears locked and pid
    | Free2   // wakeup wants ptable.lock
    | Free3   // has it; wakeup1
    | Free4   // drops ptable.lock
    | Free5   // drops the spinlock

  /** lk and pt are the holders of the two spinlocks; pid is 0 or the pid in the lock, process t
      having pid t + 1. */
  datatype State = State(pc: seq<PC>, locked: bool, pid: nat, lk: Option<nat>, pt: Option<nat>)

  datatype Action =
    | Begin(t: nat) | Grab(t: nat) | Ungrab(t: nat) | Release(t: nat) | Go(t: nat)
    | WakeFirst(t: nat, x: nat) | WakeNone(t: nat) | WakeAll(t: nat) | Kill(t: nat, x: nat)

  ghost predicate At(s: State, t: nat, pc: PC) {
    t < |s.pc| && s.pc[t] == pc
  }

  ghost predicate NoneAsleep(s: State) {
    forall x :: 0 <= x < |s.pc| ==> s.pc[x] != Asleep
  }

  /** Go is the next step of a process inside acquiresleep or releasesleep. */
  ghost predicate CanGo(s: State, t: nat) {
    t < |s.pc| && match s.pc[t] {
      case Start => s.lk == None
      case Test => true
      case Sleep1 => s.pt == None
      case Sleep2 => true
      case Sleep3 => true
      case Ready => s.pt == None
      case Wake1 => true
      case Wake2 => s.lk == None
      case Take => true
      case Leave => true
      case Free0 => s.lk == None
      case Free1 => true
      case Free2 => s.pt == None
      case Free4 => true
      case Free5 => true
      case _ => false
    }
  }

  function Goto(s: State, t: nat, pc: PC): State
    requires t < |s.pc|
  {
    s.(pc := s.pc[t := pc])
  }

  ghost function GoStep(s: State, t: nat): State
    requires CanGo(s, t)
  {
    match s.pc[t] {
      case Start => Goto(s, t, Test).(lk := Some(t))
      case Test => Goto(s, t, if s.locked then Sleep1 else Take)
      case Sleep1 => Goto(s, t, Sleep2).(pt := Some(t))
      case Sleep2 => Goto(s, t, Sleep3).(lk := None)
      case Sleep3 => Goto(s, t, Asleep).(pt := None)
      case Ready => Goto(s, t, Wake1).(pt := Some(t))
      case Wake1 => Goto(s, t, Wake2).(pt := None)
      case Wake2 => Goto(s, t, Test).(lk := Some(t))
      case Take => Goto(s, t, Leave).(locked := true, pid := t + 1)
      case Leave => Goto(s, t, Held).(lk := None)
      case Free0 => Goto(s, t, Free1).(lk := Some(t))
      case Free1 => Goto(s, t, Free2).(locked := false, pid := 0)
      case Free2 => Goto(s, t, Free3).(pt := Some(t))
      case Free4 => Goto(s, t, Free5).(pt := None)
      case Free5 => Goto(s, t, Idle).(lk := None)
    }
  }

  ghost predicate Enabled(s: State, a: Action) {
    match a {
      case Begin(t) => At(s, t, Idle)
      case Grab(t) => At(s, t, Idle) && s.pt == None
      case Ungrab(t) => At(s, t, Busy)
      case Release(t) => At(s, t, Held)
      case Go(t) => CanGo(s, t)
      case WakeFirst(t, x) => At(s, t, Free3) && At(s, x, Asleep)
      case WakeNone(t) => At(s, t, Free3) && NoneAsleep(s)
      case WakeAll(t) => At(s, t, Free3)
      case Kill(t, x) => At(s, t, Busy) && At(s, x, Asleep)
    }
  }

  ghost function Apply(s: State, a: Action): State
    requires Enabled(s, a)
  {
    match a {
      case Begin(t) => Goto(s, t, Start)
      case Grab(t) => Goto(s, t, Busy).(pt := Some(t))
      case Ungrab(t) => Goto(s, t, Idle).(pt := None)
      case Release(t) => Goto(s, t, Free0)
      case Go(t) => GoStep(s, t)
      case WakeFirst(t, x) => Goto(Goto(s, x, Ready), t, Free4)
      case WakeNone(t) => Goto(s, t, Free4)
      case WakeAll(t) =>
        Goto(s.(pc := seq(|s.pc|, x requires 0 <= x < |s.pc| => if s.pc[x] == Asleep then Ready else s.pc[x])), t,
             Free4)
      case Kill(t, x) => Goto(s, x, Ready)
    }
  }

  // ---------- what every step keeps ----------

  predicate HasLk(pc: PC) {
    pc in {Test, Sleep1, Sleep2, Take, Leave, Free1, Free2, Free3, Free4, Free5}
  }

  predicate HasPt(pc: PC) {
    pc in {Busy, Sleep2, Sleep3, Wake1, Free3, Free4}
  }

  /** From taking the sleep lock to clearing it. */
  predicate Owns(pc: PC) {
    pc in {Leave, Held, Free0, Free1}
  }

  /** Asleep, or committed to it. */
  predicate Sleeper(pc: PC) {
    pc == Asleep || pc == Sleep3
  }

  /** Woken and on its way to the lock, or about to wake a sleeper. */
  predicate Helper(pc: PC) {
    pc in {Ready, Wake1, Wake2, Test, Take, Free2, Free3}
  }

  ghost predicate Any(s: State, f: PC -> bool) {
    exists t :: 0 <= t < |s.pc| && f(s.pc[t])
  }

  ghost predicate Core(s: State) {
    && (forall t :: 0 <= t < |s.pc| ==> (HasLk(s.pc[t]) <==> s.lk == Some(t)))
    && (forall t :: 0 <= t < |s.pc| ==> (HasPt(s.pc[t]) <==> s.pt == Some(t)))
    && (s.lk.Some? ==> s.lk.value < |s.pc|) && (s.pt.Some? ==> s.pt.value < |s.pc|)
    && (forall t :: 0 <= t < |s.pc| ==> (Owns(s.pc[t]) <==> s.locked && s.pid == t + 1))
    && (if s.locked then 1 <= s.pid <= |s.pc| else s.pid == 0)
    && (forall t :: 0 <= t < |s.pc| && s.pc[t] in {Sleep1, Sleep2} ==> s.locked)
    && (forall t :: 0 <= t < |s.pc| && s.pc[t] == Take ==> !s.locked)
  }

  /** The last clause: no wakeup is lost. */
  ghost predicate Inv(s: State) {
    Core(s) && (s.locked || Any(s, Helper) || !Any(s, Sleeper))
  }

  /** Any number of processes, none of them in the lock. */
  ghost predicate Init(s: State) {
    && (forall t :: 0 <= t < |s.pc| ==> s.pc[t] == Idle)
    && !s.locked && s.pid == 0 && s.lk == None && s.pt == None
  }

  lemma InitInv(s: State)
    requires Init(s)
    ensures Inv(s)
  {
  }

  /** A helper that does not move, or moves to a helper's place, is still there. */
  lemma HelperStays(s: State, s': State, h: nat)
    requires |s'.pc| == |s.pc| && h < |s.pc| && Helper(s'.pc[h])
    ensures Any(s', Helper)
  {
  }

  lemma SleepersFrom(s: State, s': State)
    requires |s'.pc| == |s.pc| && forall t :: 0 <= t < |s.pc| && Sleeper(s'.pc[t]) ==> Sleeper(s.pc[t])
    ensures Any(s', Sleeper) ==> Any(s, Sleeper)
  {
  }

  /** The last clause, for a step of t that leaves the sleepers alone. */
  lemma Progress(s: State, s': State, t: nat)
    requires Inv(s) && t < |s.pc| == |s'.pc|
    requires forall u :: 0 <= u < |s.pc| && u != t ==> s'.pc[u] == s.pc[u]
    requires Sleeper(s'.pc[t]) ==> Sleeper(s.pc[t])
    requires s'.locked || Helper(s'.pc[t]) || (!s.locked && !Helper(s.pc[t]))
    ensures s'.locked || Any(s', Helper) || !Any(s', Sleeper)
  {
    SleepersFrom(s, s');
    if Helper(s'.pc[t]) {
      HelperStays(s, s', t);
    } else if !s'.locked && Any(s, Helper) {
      var h :| 0 <= h < |s.pc| && Helper(s.pc[h]);
      HelperStays(s, s', h);
    }
  }

  /** One process moves, and the locks change as its two places say. */
  lemma CoreMove(s: State, s': State, t: nat)
    requires Core(s) && t < |s.pc| == |s'.pc| && s'.pc == s.pc[t := s'.pc[t]]
    requires s'.lk == (if HasLk(s'.pc[t]) then Some(t) else if HasLk(s.pc[t]) then None else s.lk)
    requires HasLk(s'.pc[t]) && !HasLk(s.pc[t]) ==> s.lk == None
    requires s'.pt == (if HasPt(s'.pc[t]) then Some(t) else if HasPt(s.pc[t]) then None else s.pt)
    requires HasPt(s'.pc[t]) && !HasPt(s.pc[t]) ==> s.pt == None
    requires if Owns(s'.pc[t]) == Owns(s.pc[t]) then s'.locked == s.locked && s'.pid == s.pid
             else
               && HasLk(s.pc[t])
               && (if Owns(s.pc[t]) then !s'.locked && s'.pid == 0 else !s.locked && s'.locked && s'.pid == t + 1)
    requires (s'.pc[t] in {Sleep1, Sleep2} ==> s'.locked) && (s'.pc[t] == Take ==> !s'.locked)
    ensures Core(s')
  {
    forall u | 0 <= u < |s.pc| && s.pc[u] in {Sleep1, Sleep2, Take} ensures s.lk == Some(u) {
      assert HasLk(s.pc[u]);
    }
  }

  lemma GoCore(s: State, t: nat)
    requires Core(s) && CanGo(s, t)
    ensures Core(GoStep(s, t))
  {
    var s' := GoStep(s, t);
    assert HasLk(s.pc[t]) <==> s.lk == Some(t);
    assert HasPt(s.pc[t]) <==> s.pt == Some(t);
    assert Owns(s.pc[t]) <==> s.locked && s.pid == t + 1;
    assert s.pc[t] in {Sleep1, Sleep2} ==> s.locked;
    assert s.pc[t] == Take ==> !s.locked;
    hide Core;
    CoreMove(s, s', t);
  }

  lemma GoInv(s: State, t: nat)
    requires Inv(s) && CanGo(s, t)
    ensures Inv(GoStep(s, t))
  {
    var s' := GoStep(s, t);
    GoCore(s, t);
    if s.pc[t] == Sleep2 {
      assert s'.locked;
    } else {
      Progress(s, s', t);
    }
  }

  lemma PlainInv(s: State, a: Action)
    requires Inv(s) && Enabled(s, a) && (a.Begin? || a.Grab? || a.Ungrab? || a.Release?)
    ensures Inv(Apply(s, a))
  {
    var s' := Apply(s, a);
    assert HasLk(s.pc[a.t]) <==> s.lk == Some(a.t);
    assert HasPt(s.pc[a.t]) <==> s.pt == Some(a.t);
    CoreMove(s, s', a.t);
    Progress(s, s', a.t);
  }

  lemma KillInv(s: State, t: nat, x: nat)
    requires Inv(s) && Enabled(s, Kill(t, x))
    ensures Inv(Apply(s, Kill(t, x)))
  {
    var s' := Goto(s, x, Ready);
    CoreMove(s, s', x);
    HelperStays(s, s', x);
  }

  /** wakeup1 moves some of the sleepers, at least one if there is one. */
  lemma WakeInv(s: State, s': State, t: nat)
    requires Inv(s) && At(s, t, Free3) && |s'.pc| == |s.pc| && s' == s.(pc := s'.pc) && s'.pc[t] == Free4
    requires forall u :: 0 <= u < |s.pc| && u != t ==> s'.pc[u] == s.pc[u] || (s.pc[u] == Asleep && s'.pc[u] == Ready)
    requires NoneAsleep(s) || exists x :: 0 <= x < |s.pc| && s.pc[x] == Asleep && s'.pc[x] == Ready
    ensures Inv(s')
  {
    assert s.pt == Some(t) && s.lk == Some(t);
    if NoneAsleep(s) {
      assert !Any(s', Sleeper);
    } else {
      var x :| 0 <= x < |s.pc| && s.pc[x] == Asleep && s'.pc[x] == Ready;
      HelperStays(s, s', x);
    }
  }

  lemma StepInv(s: State, a: Action)
    requires Inv(s) && Enabled(s, a)
    ensures Inv(Apply(s, a))
  {
    hide Inv, CanGo, GoStep;
    match a {
      case Go(t) => GoInv(s, t);
      case WakeFirst(t, x) =>
        assert Apply(s, a).pc[x] == Ready;
        WakeInv(s, Apply(s, a), t);
      case WakeNone(t) => WakeInv(s, Apply(s, a), t);
      case WakeAll(t) =>
        if x :| 0 <= x < |s.pc| && s.pc[x] == Asleep {
          assert Apply(s, a).pc[x] == Ready;
        }
        WakeInv(s, Apply(s, a), t);
      case Kill(t, x) => KillInv(s, t, x);
      case _ => PlainInv(s, a);
    }
  }

  // ---------- runs ----------

  ghost predicate IsRun(run: seq<State>, acts: seq<Action>) {
    && |run| == |acts| + 1 && Init(run[0])
    && forall i :: 0 <= i < |acts| ==> Enabled(run[i], acts[i]) && run[i + 1] == Apply(run[i], acts[i])
  }

  lemma {:induction false} RunInv(run: seq<State>, acts: seq<Action>, n: nat)
    requires IsRun(run, acts) && n < |run|
    ensures Inv(run[n])
  {
    hide Inv, Enabled, Apply;
    if n == 0 {
      InitInv(run[0]);
    } else {
      RunInv(run, acts, n - 1);
      StepInv(run[n - 1], acts[n - 1]);
    }
  }

  /** At most one process is past acquiresleep and not yet through releasesleep. */
  lemma MutualExclusion(run: seq<State>, acts: seq<Action>, n: nat, t: nat, u: nat)
    requires IsRun(run, acts) && n < |run| && t < |run[n].pc| && u < |run[n].pc|
    requires Owns(run[n].pc[t]) && Owns(run[n].pc[u])
    ensures t == u && run[n].locked && run[n].pid == t + 1
  {
    RunInv(run, acts, n);
  }

  /** While the lock is free and a process sleeps on it, another process is awake and on its way to
      the lock, or a releaser is about to call wakeup. */
  lemma NoLostWakeup(run: seq<State>, acts: seq<Action>, n: nat, x: nat)
    requires IsRun(run, acts) && n < |run| && At(run[n], x, Asleep) && !run[n].locked
    ensures exists h :: 0 <= h < |run[n].pc| && h != x && Helper(run[n].pc[h])
  {
    RunInv(run, acts, n);
    assert Sleeper(run[n].pc[x]);
  }

  /** Inside acquiresleep or releasesleep and not asleep. */
  predicate Moving(pc: PC) {
    pc !in {Idle, Busy, Asleep, Held}
  }

  /** A process that can take its next step now. */
  ghost predicate Runs(s: State, q: nat) {
    CanGo(s, q) || At(s, q, Free3) || At(s, q, Busy)
  }

  /** The two spinlocks never deadlock: while some process is inside the lock's code, some process that
      is in it or holds ptable.lock can take its next step. */
  lemma NoDeadlock(run: seq<State>, acts: seq<Action>, n: nat, t: nat)
    requires IsRun(run, acts) && n < |run| && t < |run[n].pc| && Moving(run[n].pc[t])
    ensures exists q :: Runs(run[n], q)
  {
    RunInv(run, acts, n);
    var s := run[n];
    var q := if s.pt.Some? then s.pt.value else if s.lk.Some? then s.lk.value else t;
    assert s.pt == Some(q) ==> HasPt(s.pc[q]);
    assert s.lk == Some(q) ==> HasLk(s.pc[q]);
    assert s.pt == None ==> !HasPt(s.pc[q]);
    assert s.lk == None ==> !HasLk(s.pc[q]);
    assert Runs(s, q);
  }
}
