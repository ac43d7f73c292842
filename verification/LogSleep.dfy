/**
begin_op and end_op of src/log.c under every interleaving of their steps, with sleep, wakeup and kill
of src/proc.c: log.lock and ptable.lock are taken and dropped step by step, and a process that may not
begin sleeps on &log. LogWrite is the part of log_write under log.lock, whatever its guard let
through. wakeup may move the first sleeper, as the list walk of wakeup1 does, or all of them, as the
table scan does.
*/
module LogSleep {
  import opened Common

  /** Where a process is. */
  datatype PC =
    | Idle
    | Busy     // holds ptable.lock for a reason of its own
    | Start    // begin_op: wants log.lock
    | Test     // has it; the while loop
    | Sleep1   // may not begin: sleep wants ptable.lock
    | Sleep2   // has both; drops log.lock
    | Sleep3   // has ptable.lock; becomes SLEEPING and drops it in the scheduler
    | Asleep
    | Ready    // RUNNABLE again
    | Woken1   // running with ptable.lock; drops it
    | Woken2   // wants log.lock back
    | Begun    // has counted itself in; drops log.lock
    | InOp     // between begin_op and end_op
    | End0     // end_op: wants log.lock
    | End1     // has it; counts itself out
    | Last     // was the last one; drops log.lock
    | Commit   // commit(), without locks
    | Done0    // wants log.lock
    | Done1    // has it; clears log.committing
    | Wake1    // wakeup wants ptable.lock
    | Wake2    // has it; wakeup1
    | Wake3    // drops ptable.lock
    | Wake4    // drops log.lock

  /** committing is the process inside commit, if log.committing is set; n is log.lh.n; lk and pt are the
      holders of log.lock and ptable.lock. */
  datatype State = State(pc: seq<PC>, outstanding: nat, committing: Option<nat>, n: nat, lk: Option<nat>,
                         pt: Option<nat>)

  datatype Action =
    | Begin(t: nat) | End(t: nat) | LogWrite(t: nat) | Grab(t: nat) | Ungrab(t: nat) | Go(t: nat)
    | WakeFirst(t: nat, x: nat) | WakeNone(t: nat) | WakeAll(t: nat) | Kill(t: nat, x: nat)

  ghost predicate At(s: State, t: nat, pc: PC) {
    t < |s.pc| && s.pc[t] == pc
  }

  ghost predicate NoneAsleep(s: State) {
    forall x :: 0 <= x < |s.pc| ==> s.pc[x] != Asleep
  }

  /** The test of begin_op. */
  predicate Room(s: State) {
    s.committing == None && s.n + (s.outstanding + 1) * MAXOPBLOCKS <= LOGSIZE
  }

  function Goto(s: State, t: nat, pc: PC): State
    requires t < |s.pc|
  {
    s.(pc := s.pc[t := pc])
  }

  /** Go is the next step of a process inside begin_op or end_op. */
  ghost predicate CanGo(s: State, t: nat) {
    t < |s.pc| && match s.pc[t] {
      case Start => s.lk == None
      case Test => true
      case Sleep1 => s.pt == None
      case Sleep2 => true
      case Sleep3 => true
      case Ready => s.pt == None
      case Woken1 => true
      case Woken2 => s.lk == None
      case Begun => true
      case End0 => s.lk == None
      case End1 => s.outstanding > 0 && s.committing == None
      case Last => true
      case Commit => true
      case Done0 => s.lk == None
      case Done1 => true
      case Wake1 => s.pt == None
      case Wake3 => true
      case Wake4 => true
      case _ => false
    }
  }

  ghost function GoStep(s: State, t: nat): State
    requires CanGo(s, t)
  {
    match s.pc[t] {
      case Start => Goto(s, t, Test).(lk := Some(t))
      case Test => if Room(s) then Goto(s, t, Begun).(outstanding := s.outstanding + 1) else Goto(s, t, Sleep1)
      case Sleep1 => Goto(s, t, Sleep2).(pt := Some(t))
      case Sleep2 => Goto(s, t, Sleep3).(lk := None)
      case Sleep3 => Goto(s, t, Asleep).(pt := None)
      case Ready => Goto(s, t, Woken1).(pt := Some(t))
      case Woken1 => Goto(s, t, Woken2).(pt := None)
      case Woken2 => Goto(s, t, Test).(lk := Some(t))
      case Begun => Goto(s, t, InOp).(lk := None)
      case End0 => Goto(s, t, End1).(lk := Some(t))
      case End1 =>
        if s.outstanding == 1 then Goto(s, t, Last).(outstanding := 0, committing := Some(t))
        else Goto(s, t, Wake1).(outstanding := s.outstanding - 1)
      case Last => Goto(s, t, Commit).(lk := None)
      case Commit => Goto(s, t, Done0).(n := 0)
      case Done0 => Goto(s, t, Done1).(lk := Some(t))
      case Done1 => Goto(s, t, Wake1).(committing := None)
      case Wake1 => Goto(s, t, Wake2).(pt := Some(t))
      case Wake3 => Goto(s, t, Wake4).(pt := None)
      case Wake4 => Goto(s, t, Idle).(lk := None)
    }
  }

  ghost predicate Enabled(s: State, a: Action) {
    match a {
      case Begin(t) => At(s, t, Idle)
      case End(t) => At(s, t, InOp)
      case LogWrite(t) => At(s, t, InOp) && s.lk == None
      case Grab(t) => At(s, t, Idle) && s.pt == None
      case Ungrab(t) => At(s, t, Busy)
      case Go(t) => CanGo(s, t)
      case WakeFirst(t, x) => At(s, t, Wake2) && At(s, x, Asleep)
      case WakeNone(t) => At(s, t, Wake2) && NoneAsleep(s)
      case WakeAll(t) => At(s, t, Wake2)
      case Kill(t, x) => At(s, t, Busy) && At(s, x, Asleep)
    }
  }

  ghost function Apply(s: State, a: Action): State
    requires Enabled(s, a)
  {
    match a {
      case Begin(t) => Goto(s, t, Start)
      case End(t) => Goto(s, t, End0)
      case LogWrite(t) => s.(n := s.n + 1)
      case Grab(t) => Goto(s, t, Busy).(pt := Some(t))
      case Ungrab(t) => Goto(s, t, Idle).(pt := None)
      case Go(t) => GoStep(s, t)
      case WakeFirst(t, x) => Goto(Goto(s, x, Ready), t, Wake3)
      case WakeNone(t) => Goto(s, t, Wake3)
      case WakeAll(t) =>
        Goto(s.(pc := seq(|s.pc|, x requires 0 <= x < |s.pc| => if s.pc[x] == Asleep then Ready else s.pc[x])), t,
             Wake3)
      case Kill(t, x) => Goto(s, x, Ready)
    }
  }

  // ---------- what every step keeps ----------

  predicate HasLk(pc: PC) {
    pc.Test? || pc.Sleep1? || pc.Sleep2? || pc.Begun? || pc.End1? || pc.Last? || pc.Done1? || pc.Wake1?
      || pc.Wake2? || pc.Wake3? || pc.Wake4?
  }

  predicate HasPt(pc: PC) {
    pc.Busy? || pc.Sleep2? || pc.Sleep3? || pc.Woken1? || pc.Wake2? || pc.Wake3?
  }

  /** Counted in log.outstanding. */
  predicate Counted(pc: PC) {
    pc.Begun? || pc.InOp? || pc.End0? || pc.End1?
  }

  predicate Commits(pc: PC) {
    pc.Last? || pc.Commit? || pc.Done0? || pc.Done1?
  }

  /** Found no room and still holds log.lock. */
  predicate Dozing(pc: PC) {
    pc.Sleep1? || pc.Sleep2?
  }

  /** Through with commit. */
  predicate Committed(pc: PC) {
    pc.Done0? || pc.Done1?
  }

  /** Asleep, or committed to it. */
  predicate Sleeper(pc: PC) {
    pc.Asleep? || pc.Sleep3?
  }

  /** Woken and on its way to the test, or about to wake a sleeper. */
  predicate Helper(pc: PC) {
    pc.Ready? || pc.Woken1? || pc.Woken2? || pc.Test? || pc.Wake1? || pc.Wake2?
  }

  /** About to wake a sleeper. */
  predicate Waker(pc: PC) {
    pc.Wake1? || pc.Wake2?
  }

  ghost predicate Any(s: State, f: PC -> bool) {
    exists t :: 0 <= t < |s.pc| && f(s.pc[t])
  }

  ghost function Ops(pc: seq<PC>): set<nat> {
    set t: nat | t < |pc| && Counted(pc[t])
  }

  ghost predicate Locks(s: State) {
    && (forall t :: 0 <= t < |s.pc| ==> (HasLk(s.pc[t]) <==> s.lk == Some(t)))
    && (forall t :: 0 <= t < |s.pc| ==> (HasPt(s.pc[t]) <==> s.pt == Some(t)))
    && (s.lk.Some? ==> s.lk.value < |s.pc|) && (s.pt.Some? ==> s.pt.value < |s.pc|)
    && (forall t :: 0 <= t < |s.pc| ==> (Commits(s.pc[t]) <==> s.committing == Some(t)))
    && (s.committing.Some? ==> s.committing.value < |s.pc|)
  }

  /** Neither an operation nor a commit is under way. */
  predicate Unused(s: State) {
    s.outstanding == 0 && s.committing == None
  }

  ghost predicate Counts(s: State) {
    && s.outstanding == |Ops(s.pc)| && (s.committing.Some? ==> s.outstanding == 0) && (Unused(s) ==> s.n == 0)
    && (forall t :: 0 <= t < |s.pc| && Dozing(s.pc[t]) ==> !Room(s))
    && (forall t :: 0 <= t < |s.pc| && Committed(s.pc[t]) ==> s.n == 0)
  }

  /** No wakeup is lost: while nothing is under way, a sleeper has a helper. */
  ghost predicate Inv(s: State) {
    Locks(s) && Counts(s) && (!Unused(s) || Any(s, Helper) || !Any(s, Sleeper))
  }

  ghost predicate Init(s: State) {
    && (forall t :: 0 <= t < |s.pc| ==> s.pc[t] == Idle)
    && s.outstanding == 0 && s.committing == None && s.n == 0 && s.lk == None && s.pt == None
  }

  lemma InitInv(s: State)
    requires Init(s)
    ensures Inv(s)
  {
    assert Ops(s.pc) == {};
  }

  // ---------- counting ----------

  /** One process moves: the count changes as its two places say. */
  lemma OpsMove(pc: seq<PC>, t: nat, to: PC)
    requires t < |pc|
    ensures var pc' := pc[t := to];
            |Ops(pc')| == |Ops(pc)| + (if Counted(to) then 1 else 0) - (if Counted(pc[t]) then 1 else 0)
    ensures Counted(pc[t]) ==> |Ops(pc)| > 0
  {
    var pc' := pc[t := to];
    if Counted(pc[t]) {
      assert t in Ops(pc);
      if Counted(to) {
        assert Ops(pc') == Ops(pc);
      } else {
        assert Ops(pc') == Ops(pc) - {t};
      }
    } else {
      assert t !in Ops(pc);
      if Counted(to) {
        assert Ops(pc') == Ops(pc) + {t};
      } else {
        assert Ops(pc') == Ops(pc);
      }
    }
  }

  lemma SameOps(pc: seq<PC>, pc': seq<PC>)
    requires |pc'| == |pc| && forall t :: 0 <= t < |pc| ==> (Counted(pc'[t]) <==> Counted(pc[t]))
    ensures Ops(pc') == Ops(pc)
  {
  }

  // ---------- steps ----------

  /** One process moves, and the two locks and log.committing change as its two places say. */
  lemma LocksMove(s: State, s': State, t: nat)
    requires Locks(s) && t < |s.pc| == |s'.pc| && s'.pc == s.pc[t := s'.pc[t]]
    requires s'.lk == (if HasLk(s'.pc[t]) then Some(t) else if HasLk(s.pc[t]) then None else s.lk)
    requires HasLk(s'.pc[t]) && !HasLk(s.pc[t]) ==> s.lk == None
    requires s'.pt == (if HasPt(s'.pc[t]) then Some(t) else if HasPt(s.pc[t]) then None else s.pt)
    requires HasPt(s'.pc[t]) && !HasPt(s.pc[t]) ==> s.pt == None
    requires s'.committing == (if Commits(s'.pc[t]) then Some(t) else if Commits(s.pc[t]) then None else s.committing)
    requires Commits(s'.pc[t]) && !Commits(s.pc[t]) ==> s.committing == None
    ensures Locks(s')
  {
  }

  /** Inside begin_op. */
  predicate Entering(pc: PC) {
    pc.Start? || pc.Test? || pc.Sleep1? || pc.Sleep2? || pc.Sleep3? || pc.Ready? || pc.Woken1? || pc.Woken2?
      || pc.Begun?
  }

  lemma EnterLocks(s: State, t: nat)
    requires Locks(s) && CanGo(s, t) && Entering(s.pc[t])
    ensures Locks(GoStep(s, t))
  {
    assert HasLk(s.pc[t]) <==> s.lk == Some(t);
    assert HasPt(s.pc[t]) <==> s.pt == Some(t);
    hide Locks;
    LocksMove(s, GoStep(s, t), t);
  }

  lemma EndLocks(s: State, t: nat)
    requires Locks(s) && CanGo(s, t) && !Entering(s.pc[t])
    ensures Locks(GoStep(s, t))
  {
    assert HasLk(s.pc[t]) <==> s.lk == Some(t);
    assert HasPt(s.pc[t]) <==> s.pt == Some(t);
    assert Commits(s.pc[t]) <==> s.committing == Some(t);
    hide Locks;
    LocksMove(s, GoStep(s, t), t);
  }

  /** What changes the count, log.committing or log.lh.n holds log.lock, except commit itself. */
  lemma CountsMove(s: State, s': State, t: nat)
    requires Locks(s) && Counts(s) && t < |s.pc| == |s'.pc| && s'.pc == s.pc[t := s'.pc[t]]
    requires s'.outstanding ==
               s.outstanding + (if Counted(s'.pc[t]) then 1 else 0) - (if Counted(s.pc[t]) then 1 else 0)
    requires (s'.committing.Some? ==> s'.outstanding == 0) && (Unused(s') ==> s'.n == 0)
    requires HasLk(s.pc[t])
             || (s'.outstanding == s.outstanding && s'.committing == s.committing
                 && (s'.n == s.n || s.committing.Some?))
    requires s'.n == s.n || s'.n == 0
    requires (Dozing(s'.pc[t]) ==> !Room(s')) && (Committed(s'.pc[t]) ==> s'.n == 0)
    ensures Counts(s')
  {
    OpsMove(s.pc, t, s'.pc[t]);
    forall u | 0 <= u < |s.pc| && u != t && Dozing(s.pc[u]) ensures !Room(s') {
      assert HasLk(s.pc[u]);
    }
  }

  lemma EnterCounts(s: State, t: nat)
    requires Locks(s) && Counts(s) && CanGo(s, t) && Entering(s.pc[t])
    ensures Counts(GoStep(s, t))
  {
    assert Dozing(s.pc[t]) ==> !Room(s);
    assert (s.committing.Some? ==> s.outstanding == 0) && (Unused(s) ==> s.n == 0);
    hide Locks, Counts;
    CountsMove(s, GoStep(s, t), t);
  }

  lemma EndCounts(s: State, t: nat)
    requires Locks(s) && Counts(s) && CanGo(s, t) && !Entering(s.pc[t])
    ensures Counts(GoStep(s, t))
  {
    OpsMove(s.pc, t, s.pc[t]);
    assert Commits(s.pc[t]) <==> s.committing == Some(t);
    assert Committed(s.pc[t]) ==> s.n == 0;
    assert s.outstanding == |Ops(s.pc)| && (s.committing.Some? ==> s.outstanding == 0) && (Unused(s) ==> s.n == 0);
    hide Locks, Counts, Ops, Room;
    CountsMove(s, GoStep(s, t), t);
  }

  lemma SleepersFrom(s: State, s': State)
    requires |s'.pc| == |s.pc| && forall t :: 0 <= t < |s.pc| && Sleeper(s'.pc[t]) ==> Sleeper(s.pc[t])
    ensures Any(s', Sleeper) ==> Any(s, Sleeper)
  {
  }

  lemma Stays(s: State, f: PC -> bool, h: nat)
    requires h < |s.pc| && f(s.pc[h])
    ensures Any(s, f)
  {
  }

  /** The last clause, for a step of t that leaves the sleepers alone. */
  lemma Progress(s: State, s': State, t: nat)
    requires Inv(s) && t < |s.pc| == |s'.pc|
    requires forall u :: 0 <= u < |s.pc| && u != t ==> s'.pc[u] == s.pc[u]
    requires Sleeper(s'.pc[t]) ==> Sleeper(s.pc[t])
    requires !Unused(s') || Helper(s'.pc[t]) || (Unused(s) && !Helper(s.pc[t]))
    ensures !Unused(s') || Any(s', Helper) || !Any(s', Sleeper)
  {
    SleepersFrom(s, s');
    if Helper(s'.pc[t]) {
      Stays(s', Helper, t);
    } else if Unused(s') && Any(s, Helper) {
      var h :| 0 <= h < |s.pc| && Helper(s.pc[h]);
      Stays(s', Helper, h);
    }
  }

  /** begin_op goes to sleep only while something is under way: with nothing under way the log is empty. */
  lemma TestSleeps(s: State)
    requires Counts(s) && !Room(s)
    ensures !Unused(s)
  {
  }

  lemma EnterInv(s: State, t: nat)
    requires Inv(s) && CanGo(s, t) && Entering(s.pc[t])
    ensures Inv(GoStep(s, t))
  {
    EnterLocks(s, t);
    EnterCounts(s, t);
    assert Dozing(s.pc[t]) ==> !Room(s);
    if !Room(s) {
      TestSleeps(s);
    }
    hide Locks, Counts;
    if s.pc[t] != Sleep2 {
      Progress(s, GoStep(s, t), t);
    }
  }

  lemma EndInv(s: State, t: nat)
    requires Inv(s) && CanGo(s, t) && !Entering(s.pc[t])
    ensures Inv(GoStep(s, t))
  {
    EndLocks(s, t);
    EndCounts(s, t);
    assert Commits(s.pc[t]) <==> s.committing == Some(t);
    OpsMove(s.pc, t, s.pc[t]);
    assert s.outstanding == |Ops(s.pc)|;
    hide Locks, Counts, Ops, Room;
    Progress(s, GoStep(s, t), t);
  }

  lemma CallInv(s: State, a: Action)
    requires Inv(s) && Enabled(s, a) && (a.Begin? || a.End?)
    ensures Inv(Apply(s, a))
  {
    var s' := Apply(s, a);
    assert HasLk(s.pc[a.t]) <==> s.lk == Some(a.t);
    assert HasPt(s.pc[a.t]) <==> s.pt == Some(a.t);
    OpsMove(s.pc, a.t, s.pc[a.t]);
    assert s.outstanding == |Ops(s.pc)| && (s.committing.Some? ==> s.outstanding == 0) && (Unused(s) ==> s.n == 0);
    hide Locks, Counts, Ops, Room;
    LocksMove(s, s', a.t);
    CountsMove(s, s', a.t);
    Progress(s, s', a.t);
  }

  lemma GrabInv(s: State, a: Action)
    requires Inv(s) && Enabled(s, a) && (a.Grab? || a.Ungrab?)
    ensures Inv(Apply(s, a))
  {
    var s' := Apply(s, a);
    assert HasLk(s.pc[a.t]) <==> s.lk == Some(a.t);
    assert HasPt(s.pc[a.t]) <==> s.pt == Some(a.t);
    assert (s.committing.Some? ==> s.outstanding == 0) && (Unused(s) ==> s.n == 0);
    hide Locks, Counts, Room;
    LocksMove(s, s', a.t);
    CountsMove(s, s', a.t);
    Progress(s, s', a.t);
  }

  /** log_write adds a block inside an operation, so something is under way. */
  lemma WriteInv(s: State, t: nat)
    requires Inv(s) && Enabled(s, LogWrite(t))
    ensures Inv(Apply(s, LogWrite(t)))
  {
    OpsMove(s.pc, t, s.pc[t]);
    forall u | 0 <= u < |s.pc| && Dozing(s.pc[u]) ensures HasLk(s.pc[u]) {
    }
    forall u | 0 <= u < |s.pc| && Committed(s.pc[u]) ensures Commits(s.pc[u]) {
    }
  }

  lemma KillInv(s: State, t: nat, x: nat)
    requires Inv(s) && Enabled(s, Kill(t, x))
    ensures Inv(Apply(s, Kill(t, x)))
  {
    var s' := Goto(s, x, Ready);
    LocksMove(s, s', x);
    CountsMove(s, s', x);
    Stays(s', Helper, x);
  }

  /** wakeup1 moves some of the sleepers, at least one if there is one. */
  lemma WakeInv(s: State, s': State, t: nat)
    requires Inv(s) && At(s, t, Wake2) && |s'.pc| == |s.pc| && s' == s.(pc := s'.pc) && s'.pc[t] == Wake3
    requires forall u :: 0 <= u < |s.pc| && u != t ==> s'.pc[u] == s.pc[u] || (s.pc[u] == Asleep && s'.pc[u] == Ready)
    requires NoneAsleep(s) || exists x :: 0 <= x < |s.pc| && s.pc[x] == Asleep && s'.pc[x] == Ready
    ensures Inv(s')
  {
    assert s.pt == Some(t) && s.lk == Some(t);
    SameOps(s.pc, s'.pc);
    WokenLocks(s, s', t);
    hide Ops;
    if NoneAsleep(s) {
      assert !Any(s', Sleeper) by {
        assert forall u :: 0 <= u < |s.pc| && s.pc[u] == Sleep3 ==> HasPt(s.pc[u]);
      }
    } else {
      var x :| 0 <= x < |s.pc| && s.pc[x] == Asleep && s'.pc[x] == Ready;
      Stays(s', Helper, x);
    }
  }

  lemma WokenLocks(s: State, s': State, t: nat)
    requires Locks(s) && At(s, t, Wake2) && |s'.pc| == |s.pc| && s' == s.(pc := s'.pc) && s'.pc[t] == Wake3
    requires forall u :: 0 <= u < |s.pc| && u != t ==> s'.pc[u] == s.pc[u] || (s.pc[u] == Asleep && s'.pc[u] == Ready)
    ensures Locks(s')
  {
  }

  lemma StepInv(s: State, a: Action)
    requires Inv(s) && Enabled(s, a)
    ensures Inv(Apply(s, a))
  {
    assert a.Go? ==> a.t < |s.pc|;
    hide Inv, CanGo, GoStep, Entering;
    match a {
      case Go(t) =>
        if Entering(s.pc[t]) {
          EnterInv(s, t);
        } else {
          EndInv(s, t);
        }
      case LogWrite(t) => WriteInv(s, t);
      case WakeFirst(t, x) =>
        assert Apply(s, a).pc[x] == Ready;
        WakeInv(s, Apply(s, a), t);
      case WakeNone(t) => WakeInv(s, Apply(s, a), t);
      case WakeAll(t) =>
        if x :| 0 <= x < |s.pc| && s.pc[x] == Asleep {
          assert Apply(s, a).pc[x] == Ready;
        }
        WakeInv(s, Apply(s, a), t);
      case Kill(t, x) => KillInv(s, t, x);
      case Begin(t) => CallInv(s, a);
      case End(t) => CallInv(s, a);
      case Grab(t) => GrabInv(s, a);
      case Ungrab(t) => GrabInv(s, a);
    }
  }

  // ---------- runs ----------

  ghost predicate IsRun(run: seq<State>, acts: seq<Action>) {
    && |run| == |acts| + 1 && Init(run[0])
    && forall i :: 0 <= i < |acts| ==> Enabled(run[i], acts[i]) && run[i + 1] == Apply(run[i], acts[i])
  }

  lemma {:induction false} RunInv(run: seq<State>, acts: seq<Action>, n: nat)
    requires IsRun(run, acts) && n < |run|
    ensures Inv(run[n])
  {
    hide Inv, Enabled, Apply;
    if n == 0 {
      InitInv(run[0]);
    } else {
      RunInv(run, acts, n - 1);
      StepInv(run[n - 1], acts[n - 1]);
    }
  }

  /** Nobody is stranded in begin_op, even though wakeup1 wakes one sleeper at a time: while a process
      sleeps on &log, an operation is outstanding (its end_op will wake a sleeper or commit), a commit is
      under way (which will wake one), or another process is awake and on its way to the test or about to
      call wakeup1. */
  lemma NoneStranded(run: seq<State>, acts: seq<Action>, n: nat, x: nat)
    requires IsRun(run, acts) && n < |run| && At(run[n], x, Asleep)
    ensures || run[n].outstanding > 0 || run[n].committing.Some?
            || exists h :: 0 <= h < |run[n].pc| && h != x && Helper(run[n].pc[h])
  {
    RunInv(run, acts, n);
    assert Sleeper(run[n].pc[x]);
  }

  /** The panic of end_op is unreachable, and commit runs with no operation outstanding. */
  lemma EndNeverPanics(run: seq<State>, acts: seq<Action>, n: nat, t: nat)
    requires IsRun(run, acts) && n < |run| && At(run[n], t, End1)
    ensures run[n].committing == None && run[n].outstanding > 0 && CanGo(run[n], t)
  {
    RunInv(run, acts, n);
    OpsMove(run[n].pc, t, End1);
  }

  // ---------- sleeping for nothing ----------

  /** Nobody sleeps while there is room, unless a waker is on its way. */
  ghost predicate Snug(s: State) {
    Any(s, Sleeper) ==> !Room(s) || Any(s, Waker)
  }

  /** A step of t that adds no sleeper and either makes no room or leaves t a waker. */
  lemma SnugMove(s: State, s': State, t: nat)
    requires Snug(s) && t < |s.pc| == |s'.pc|
    requires forall u :: 0 <= u < |s.pc| && u != t ==> s'.pc[u] == s.pc[u]
    requires Sleeper(s'.pc[t]) ==> Sleeper(s.pc[t])
    requires !Room(s') || Waker(s'.pc[t]) || (Room(s) && !Waker(s.pc[t]))
    ensures Snug(s')
  {
    SleepersFrom(s, s');
    if Waker(s'.pc[t]) {
      Stays(s', Waker, t);
    } else if Room(s') && Any(s, Waker) {
      var h :| 0 <= h < |s.pc| && Waker(s.pc[h]);
      Stays(s', Waker, h);
    }
  }

  lemma GoSnug(s: State, t: nat)
    requires Inv(s) && Snug(s) && CanGo(s, t)
    ensures Snug(GoStep(s, t))
  {
    assert Commits(s.pc[t]) <==> s.committing == Some(t);
    assert Dozing(s.pc[t]) ==> !Room(s);
    hide Inv;
    if s.pc[t] != Sleep2 {
      SnugMove(s, GoStep(s, t), t);
    }
  }

  lemma AllAwake(s: State, t: nat)
    requires Inv(s) && At(s, t, Wake2)
    ensures !Any(Apply(s, WakeAll(t)), Sleeper) && (NoneAsleep(s) ==> !Any(Apply(s, WakeNone(t)), Sleeper))
  {
    assert s.pt == Some(t);
    assert forall u :: 0 <= u < |s.pc| && s.pc[u] == Sleep3 ==> HasPt(s.pc[u]);
  }

  lemma StepSnug(s: State, a: Action)
    requires Inv(s) && Snug(s) && Enabled(s, a) && !a.WakeFirst?
    ensures Snug(Apply(s, a))
  {
    if a.Go? {
      GoSnug(s, a.t);
    } else if a.WakeAll? || a.WakeNone? {
      AllAwake(s, a.t);
    } else if a.LogWrite? {
      SnugWrite(s, a.t);
    } else {
      SnugMove(s, Apply(s, a), if a.Kill? then a.x else a.t);
    }
  }

  lemma SnugWrite(s: State, t: nat)
    requires Snug(s) && Enabled(s, LogWrite(t))
    ensures Snug(Apply(s, LogWrite(t)))
  {
    var s' := Apply(s, LogWrite(t));
    SleepersFrom(s, s');
    if Any(s, Waker) {
      var h :| 0 <= h < |s.pc| && Waker(s.pc[h]);
      Stays(s', Waker, h);
    }
  }

  /** Were wakeup to wake every sleeper, as its comment says, nobody would ever sleep on &log while
      there is room for another operation, but for the moment until the waker gets to it. */
  lemma {:induction false} WakeAllIsSnug(run: seq<State>, acts: seq<Action>, n: nat)
    requires IsRun(run, acts) && n < |run| && forall i :: 0 <= i < |acts| ==> !acts[i].WakeFirst?
    ensures Snug(run[n])
  {
    hide Enabled, Apply;
    if n > 0 {
      WakeAllIsSnug(run, acts, n - 1);
      RunInv(run, acts, n - 1);
      hide Inv, Snug;
      StepSnug(run[n - 1], acts[n - 1]);
    }
  }

  /** Waking the first sleeper alone keeps that exactly when there is no room or no other sleeper. */
  lemma WakeFirstSnugIff(s: State, t: nat, x: nat)
    requires Inv(s) && Enabled(s, WakeFirst(t, x))
    ensures Snug(Apply(s, WakeFirst(t, x))) <==>
              (!Room(s) || forall y :: 0 <= y < |s.pc| && s.pc[y] == Asleep ==> y == x)
  {
    var s' := Apply(s, WakeFirst(t, x));
    assert s.pt == Some(t) && s.lk == Some(t);
    assert forall u :: 0 <= u < |s.pc| && s.pc[u] == Sleep3 ==> HasPt(s.pc[u]);
    assert forall u :: 0 <= u < |s.pc| && Waker(s.pc[u]) ==> HasLk(s.pc[u]);
    assert !Any(s', Waker);
    if y :| 0 <= y < |s.pc| && s.pc[y] == Asleep && y != x {
      assert s'.pc[y] == Asleep;
      Stays(s', Sleeper, y);
    } else {
      assert !Any(s', Sleeper);
    }
  }

  // ---------- a run in which a process oversleeps ----------

  lemma More(run: seq<State>, acts: seq<Action>, a: Action) returns (run': seq<State>, acts': seq<Action>)
    requires IsRun(run, acts) && Enabled(run[|run| - 1], a)
    ensures IsRun(run', acts') && |run'| > 0 && run'[|run'| - 1] == Apply(run[|run| - 1], a)
  {
    run', acts' := run + [Apply(run[|run| - 1], a)], acts + [a];
  }

  /** Process t takes k steps of its own. */
  ghost function Walk(s: State, t: nat, k: nat): Option<State>
    decreases k
  {
    if k == 0 then Some(s)
    else if CanGo(s, t) then Walk(GoStep(s, t), t, k - 1)
    else None
  }

  lemma {:induction false} Walks(run: seq<State>, acts: seq<Action>, t: nat, k: nat)
    returns (run': seq<State>, acts': seq<Action>)
    requires IsRun(run, acts) && Walk(run[|run| - 1], t, k).Some?
    ensures IsRun(run', acts') && |run'| > 0 && Some(run'[|run'| - 1]) == Walk(run[|run| - 1], t, k)
    decreases k
  {
    assert |run| > 0;
    hide IsRun, CanGo, GoStep;
    run', acts' := run, acts;
    if k > 0 {
      run', acts' := More(run, acts, Go(t));
      run', acts' := Walks(run', acts', t, k - 1);
    }
  }

  /** begin_op with room. */
  lemma Enters(s: State, t: nat)
    requires At(s, t, Start) && s.lk == None && Room(s)
    ensures Walk(s, t, 3) == Some(Goto(s, t, InOp).(outstanding := s.outstanding + 1))
  {
    var s1 := Goto(s, t, Test).(lk := Some(t));
    var s2 := Goto(s, t, Begun).(lk := Some(t), outstanding := s.outstanding + 1);
    assert GoStep(s, t) == s1 && GoStep(s1, t) == s2;
    assert GoStep(s2, t) == Goto(s, t, InOp).(outstanding := s.outstanding + 1);
    assert Walk(s, t, 3) == Walk(s1, t, 2) == Walk(s2, t, 1);
  }

  /** The end_op of the last operation, up to commit. */
  lemma Leaves(s: State, t: nat)
    requires At(s, t, End0) && s.lk == None && s.outstanding == 1 && s.committing == None
    ensures Walk(s, t, 3) == Some(Goto(s, t, Commit).(outstanding := 0, committing := Some(t)))
  {
    var s1 := Goto(s, t, End1).(lk := Some(t));
    var s2 := Goto(s, t, Last).(lk := Some(t), outstanding := 0, committing := Some(t));
    assert GoStep(s, t) == s1 && GoStep(s1, t) == s2;
    assert GoStep(s2, t) == Goto(s, t, Commit).(outstanding := 0, committing := Some(t));
    assert Walk(s, t, 3) == Walk(s1, t, 2) == Walk(s2, t, 1);
  }

  /** begin_op without room. */
  lemma Dozes(s: State, t: nat)
    requires At(s, t, Start) && s.lk == None && s.pt == None && !Room(s)
    ensures Walk(s, t, 5) == Some(Goto(s, t, Asleep))
  {
    var s1 := Goto(s, t, Test).(lk := Some(t));
    var s2 := Goto(s, t, Sleep1).(lk := Some(t));
    var s3 := Goto(s, t, Sleep2).(lk := Some(t), pt := Some(t));
    var s4 := Goto(s, t, Sleep3).(pt := Some(t));
    assert GoStep(s, t) == s1 && GoStep(s1, t) == s2 && GoStep(s2, t) == s3 && GoStep(s3, t) == s4;
    assert GoStep(s4, t) == Goto(s, t, Asleep);
    assert Walk(s, t, 5) == Walk(s1, t, 4) == Walk(s2, t, 3) == Walk(s3, t, 2) == Walk(s4, t, 1);
  }

  /** The end of commit, up to wakeup1. */
  lemma Finishes(s: State, t: nat)
    requires At(s, t, Commit) && s.lk == None && s.pt == None
    ensures Walk(s, t, 4) == Some(Goto(s, t, Wake2).(n := 0, committing := None, lk := Some(t), pt := Some(t)))
  {
    var s1 := Goto(s, t, Done0).(n := 0);
    var s2 := Goto(s, t, Done1).(n := 0, lk := Some(t));
    var s3 := Goto(s, t, Wake1).(n := 0, lk := Some(t), committing := None);
    assert GoStep(s, t) == s1 && GoStep(s1, t) == s2 && GoStep(s2, t) == s3;
    assert GoStep(s3, t) == Goto(s, t, Wake2).(n := 0, committing := None, lk := Some(t), pt := Some(t));
    assert Walk(s, t, 4) == Walk(s1, t, 3) == Walk(s2, t, 2) == Walk(s3, t, 1);
  }

  lemma LetsGo(s: State, t: nat)
    requires At(s, t, Wake3)
    ensures Walk(s, t, 2) == Some(Goto(s, t, Idle).(lk := None, pt := None))
  {
    var s1 := Goto(s, t, Wake4).(pt := None);
    assert GoStep(s, t) == s1 && GoStep(s1, t) == Goto(s, t, Idle).(lk := None, pt := None);
    assert Walk(s, t, 2) == Walk(s1, t, 1);
  }

  /** A woken process gets back to the test of begin_op. */
  lemma Returns(s: State, t: nat)
    requires At(s, t, Ready) && s.lk == None && s.pt == None && Room(s)
    ensures Walk(s, t, 5) == Some(Goto(s, t, InOp).(outstanding := s.outstanding + 1))
  {
    var s1 := Goto(s, t, Woken1).(pt := Some(t));
    var s2 := Goto(s, t, Woken2);
    var s3 := Goto(s, t, Test).(lk := Some(t));
    var s4 := Goto(s, t, Begun).(lk := Some(t), outstanding := s.outstanding + 1);
    assert GoStep(s, t) == s1 && GoStep(s1, t) == s2 && GoStep(s2, t) == s3 && GoStep(s3, t) == s4;
    assert GoStep(s4, t) == Goto(s, t, InOp).(outstanding := s.outstanding + 1);
    assert Walk(s, t, 5) == Walk(s1, t, 4) == Walk(s2, t, 3) == Walk(s3, t, 2) == Walk(s4, t, 1);
  }

  lemma Booted(s: State) returns (run: seq<State>, acts: seq<Action>)
    requires Init(s)
    ensures IsRun(run, acts) && |run| > 0 && run[|run| - 1] == s
  {
    run, acts := [s], [];
  }

  /** A commit is under way. */
  lemma CommitRun() returns (run: seq<State>, acts: seq<Action>)
    ensures IsRun(run, acts) && |run| > 0 && run[|run| - 1] == State([Commit, Idle, Idle], 0, Some(0), 0, None, None)
  {
    hide Walk, CanGo, GoStep, IsRun;
    run, acts := Booted(State([Idle, Idle, Idle], 0, None, 0, None, None));
    run, acts := More(run, acts, Begin(0));
    Enters(run[|run| - 1], 0);
    run, acts := Walks(run, acts, 0, 3);
    run, acts := More(run, acts, End(0));
    Leaves(run[|run| - 1], 0);
    run, acts := Walks(run, acts, 0, 3);
  }

  /** Two processes find it and go to sleep. */
  lemma BothSleep() returns (run: seq<State>, acts: seq<Action>)
    ensures IsRun(run, acts) && |run| > 0
            && run[|run| - 1] == State([Commit, Asleep, Asleep], 0, Some(0), 0, None, None)
  {
    hide Walk, CanGo, GoStep, IsRun;
    run, acts := CommitRun();
    run, acts := More(run, acts, Begin(1));
    Dozes(run[|run| - 1], 1);
    run, acts := Walks(run, acts, 1, 5);
    run, acts := More(run, acts, Begin(2));
    Dozes(run[|run| - 1], 2);
    run, acts := Walks(run, acts, 2, 5);
  }

  lemma OneSleepsOn(run: seq<State>, acts: seq<Action>) returns (run': seq<State>, acts': seq<Action>)
    requires IsRun(run, acts) && run[|run| - 1] == State([Commit, Asleep, Asleep], 0, Some(0), 0, None, None)
    ensures IsRun(run', acts') && |run'| > 0 && run'[|run'| - 1] == State([Idle, InOp, Asleep], 1, None, 0, None, None)
  {
    assert |run| > 0;
    hide Walk, CanGo, GoStep, IsRun;
    Finishes(run[|run| - 1], 0);
    run', acts' := Walks(run, acts, 0, 4);
    run', acts' := More(run', acts', WakeFirst(0, 1));
    LetsGo(run'[|run'| - 1], 0);
    run', acts' := Walks(run', acts', 0, 2);
    assert run'[|run'| - 1] == State([Idle, Ready, Asleep], 0, None, 0, None, None);
    Returns(run'[|run'| - 1], 1);
    run', acts' := Walks(run', acts', 1, 5);
  }

  /** Two processes that found a commit under way sleep; the commit wakes one of them, which begins an
      operation. The other sleeps on although there is room for it, and nobody is on the way to wake it. */
  lemma Oversleeps() returns (run: seq<State>, acts: seq<Action>)
    ensures IsRun(run, acts)
    ensures var s := run[|run| - 1]; At(s, 2, Asleep) && Room(s) && !Any(s, Helper) && !Snug(s)
  {
    run, acts := BothSleep();
    run, acts := OneSleepsOn(run, acts);
    Stays(run[|run| - 1], Sleeper, 2);
  }
}
