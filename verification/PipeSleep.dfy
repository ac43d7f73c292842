/**
Waiting in piperead and pipewrite of src/pipe.c, for any number of readers and writers of one pipe. A
step is one stretch under p->lock, from its acquisition or from waking up to its release or to sleep;
wakeup inside it may move the first sleeper, as the list walk of wakeup1 does, or all of them, as the
table scan does.
*/
module PipeSleep {
  import Pipe

  const PIPESIZE: nat := Pipe.PIPESIZE

  /** A process outside the pipe's code, asleep in it, or woken and on its way back to the test. */
  datatype PC = Idle | ReadAsleep | ReadReady | WriteAsleep | WriteReady

  /** used is nwrite - nread. */
  datatype State = State(pc: seq<PC>, used: nat, readopen: bool, writeopen: bool, killed: set<nat>)

  /** Whom a wakeup moves. */
  datatype Wake = First(x: nat) | Nobody | All

  /** k is the number of bytes moved. Fail is a pipewrite that finds the pipe full and its read end closed
      or its caller killed, and ReadKilled a piperead that would sleep and whose caller is killed;
      Close(true) closes the write end. */
  datatype Action =
    | Read(t: nat, k: nat, w: Wake) | ReadSleep(t: nat) | ReadKilled(t: nat)
    | Write(t: nat, k: nat, w: Wake) | WriteSleep(t: nat, w: Wake) | Fail(t: nat)
    | Close(write: bool, w: Wake) | Kill(x: nat)

  ghost predicate At(s: State, t: nat, pc: PC) {
    t < |s.pc| && s.pc[t] == pc
  }

  ghost predicate Any(s: State, pc: PC) {
    exists t :: At(s, t, pc)
  }

  ghost predicate CanWake(s: State, w: Wake, asleep: PC) {
    match w
    case First(x) => At(s, x, asleep)
    case Nobody => !Any(s, asleep)
    case All => true
  }

  function Moved(pc: seq<PC>, w: Wake, asleep: PC, ready: PC): (r: seq<PC>)
    ensures |r| == |pc|
  {
    match w
    case First(x) => if x < |pc| then pc[x := ready] else pc
    case Nobody => pc
    case All => seq(|pc|, t requires 0 <= t < |pc| => if pc[t] == asleep then ready else pc[t])
  }

  ghost predicate Enabled(s: State, a: Action) {
    match a
    case Read(t, k, w) =>
      && (At(s, t, Idle) || At(s, t, ReadReady)) && s.readopen && (s.used > 0 || !s.writeopen)
      && k <= s.used && CanWake(s, w, WriteAsleep)
    case ReadSleep(t) =>
      (At(s, t, Idle) || At(s, t, ReadReady)) && s.readopen && s.used == 0 && s.writeopen && t !in s.killed
    case ReadKilled(t) =>
      (At(s, t, Idle) || At(s, t, ReadReady)) && s.readopen && s.used == 0 && s.writeopen && t in s.killed
    case Write(t, k, w) =>
      && (At(s, t, Idle) || At(s, t, WriteReady)) && s.writeopen && s.used + k <= PIPESIZE && CanWake(s, w, ReadAsleep)
    case WriteSleep(t, w) =>
      (At(s, t, Idle) || At(s, t, WriteReady)) && s.writeopen && s.readopen && s.used <= PIPESIZE
        && CanWake(s, w, ReadAsleep) && t !in s.killed
    case Fail(t) =>
      (At(s, t, Idle) || At(s, t, WriteReady)) && s.writeopen && s.used <= PIPESIZE && (t in s.killed || !s.readopen)
    case Close(write, w) =>
      if write then s.writeopen && !Any(s, WriteAsleep) && !Any(s, WriteReady) && CanWake(s, w, ReadAsleep)
      else s.readopen && !Any(s, ReadAsleep) && !Any(s, ReadReady) && CanWake(s, w, WriteAsleep)
    case Kill(x) => x < |s.pc|
  }

  ghost function Apply(s: State, a: Action): State
    requires Enabled(s, a)
  {
    match a
    case Read(t, k, w) => s.(pc := Moved(s.pc, w, WriteAsleep, WriteReady)[t := Idle], used := s.used - k)
    case ReadSleep(t) => s.(pc := s.pc[t := ReadAsleep])
    case ReadKilled(t) => s.(pc := s.pc[t := Idle])
    case Write(t, k, w) => s.(pc := Moved(s.pc, w, ReadAsleep, ReadReady)[t := Idle], used := s.used + k)
    case WriteSleep(t, w) => s.(pc := Moved(s.pc, w, ReadAsleep, ReadReady)[t := WriteAsleep], used := PIPESIZE)
    case Fail(t) => s.(pc := s.pc[t := Idle], used := PIPESIZE)
    case Close(write, w) =>
      if write then s.(pc := Moved(s.pc, w, ReadAsleep, ReadReady), writeopen := false)
      else s.(pc := Moved(s.pc, w, WriteAsleep, WriteReady), readopen := false)
    case Kill(x) => s.(pc := s.pc[x := Roused(s.pc[x])], killed := s.killed + {x})
  }

  /** A sleeper that is killed wakes up. */
  function Roused(pc: PC): PC {
    match pc
    case ReadAsleep => ReadReady
    case WriteAsleep => WriteReady
    case _ => pc
  }

  function WakeOf(a: Action): Wake {
    if a.Read? || a.Write? || a.WriteSleep? || a.Close? then a.w else Nobody
  }

  ghost predicate IsRun(run: seq<State>, acts: seq<Action>) {
    && |run| == |acts| + 1
    && (forall t :: 0 <= t < |run[0].pc| ==> run[0].pc[t] == Idle)
    && run[0].used == 0 && run[0].readopen && run[0].writeopen && run[0].killed == {}
    && forall i :: 0 <= i < |acts| ==> Enabled(run[i], acts[i]) && run[i + 1] == Apply(run[i], acts[i])
  }

  // ---------- a wakeup that wakes all ----------

  /** A process that sleeps has a reason to: no bytes to read and someone to write them, or no room to
      write and someone to read. */
  ghost predicate Justified(s: State) {
    && s.used <= PIPESIZE
    && (Any(s, ReadAsleep) ==> s.used == 0 && s.writeopen)
    && (Any(s, WriteAsleep) ==> s.used == PIPESIZE && s.readopen)
  }

  /** What a wakeup does to the sleepers on its channel. */
  lemma MovedIs(s: State, w: Wake, asleep: PC, ready: PC, t: nat)
    requires CanWake(s, w, asleep) && asleep != ready
    ensures w.All? || w.Nobody? ==> asleep !in Moved(s.pc, w, asleep, ready)
    ensures t < |s.pc| && s.pc[t] != asleep ==> Moved(s.pc, w, asleep, ready)[t] == s.pc[t]
    ensures t < |s.pc| && Moved(s.pc, w, asleep, ready)[t] == asleep ==> s.pc[t] == asleep
  {
    if w.Nobody? {
      forall u: nat | u < |s.pc| ensures s.pc[u] != asleep {
        assert !At(s, u, asleep);
      }
    }
  }

  /** No step but one adds sleepers without a reason or takes the reason away, if wakeup wakes all. */
  lemma StepJustified(s: State, a: Action)
    requires Justified(s) && Enabled(s, a) && !WakeOf(a).First? && !a.Fail?
    ensures Justified(Apply(s, a))
  {
    var s' := Apply(s, a);
    var w := WakeOf(a);
    forall t: nat | At(s', t, ReadAsleep) ensures s'.used == 0 && s'.writeopen {
      if a.Write? || a.WriteSleep? || (a.Close? && a.write) {
        MovedIs(s, w, ReadAsleep, ReadReady, t);
      } else if a.Read? || a.Close? {
        MovedIs(s, w, WriteAsleep, WriteReady, t);
      }
      assert a == ReadSleep(t) || At(s, t, ReadAsleep);
    }
    forall t: nat | At(s', t, WriteAsleep) ensures s'.used == PIPESIZE && s'.readopen {
      if a.Write? || a.WriteSleep? || (a.Close? && a.write) {
        MovedIs(s, w, ReadAsleep, ReadReady, t);
      } else if a.Read? || a.Close? {
        MovedIs(s, w, WriteAsleep, WriteReady, t);
      }
      assert (a.WriteSleep? && a.t == t) || At(s, t, WriteAsleep);
    }
  }

  /** The one step that can: a writer that is killed fills the pipe and leaves without a wakeup. */
  lemma FailJustifiedIff(s: State, t: nat)
    requires Justified(s) && Enabled(s, Fail(t))
    ensures Justified(Apply(s, Fail(t))) <==> !Any(s, ReadAsleep)
  {
    var s' := Apply(s, Fail(t));
    forall u: nat ensures At(s', u, ReadAsleep) <==> At(s, u, ReadAsleep) {
    }
    forall u: nat ensures At(s', u, WriteAsleep) <==> At(s, u, WriteAsleep) {
    }
    assert Any(s', ReadAsleep) <==> Any(s, ReadAsleep);
    assert Any(s', WriteAsleep) <==> Any(s, WriteAsleep);
  }

  /** Were wakeup to wake every sleeper, as its comment says, then in every run in which no killed writer
      fails while a reader sleeps, nobody would sleep in a pipe without a reason. */
  lemma {:induction false} WakeAllJustified(run: seq<State>, acts: seq<Action>, n: nat)
    requires IsRun(run, acts) && n < |run| && forall i :: 0 <= i < |acts| ==> !WakeOf(acts[i]).First?
    requires forall i :: 0 <= i < |acts| && acts[i].Fail? ==> !Any(run[i], ReadAsleep)
    ensures Justified(run[n])
  {
    hide Enabled, Apply;
    if n > 0 {
      WakeAllJustified(run, acts, n - 1);
      hide Justified;
      if acts[n - 1].Fail? {
        FailJustifiedIff(run[n - 1], acts[n - 1].t);
      } else {
        StepJustified(run[n - 1], acts[n - 1]);
      }
    }
  }

  // ---------- a wakeup that wakes one ----------

  /** Closing an end wakes one sleeper of the other end; another one is left exactly when there were two. */
  lemma CloseStrandsIff(s: State, write: bool, x: nat)
    requires Enabled(s, Close(write, First(x)))
    ensures var asleep := if write then ReadAsleep else WriteAsleep;
            Any(Apply(s, Close(write, First(x))), asleep) <==> exists y: nat :: y != x && At(s, y, asleep)
  {
    var s' := Apply(s, Close(write, First(x)));
    var asleep := if write then ReadAsleep else WriteAsleep;
    forall y: nat ensures At(s', y, asleep) <==> y != x && At(s, y, asleep) {
    }
  }

  /** Once the write end is closed, nothing but kill ever moves a sleeping reader, and none goes to sleep. */
  lemma ClosedStep(s: State, a: Action, x: nat)
    requires !s.writeopen && Enabled(s, a) && (a == Kill(x) ==> !At(s, x, ReadAsleep))
    ensures !Apply(s, a).writeopen && (At(Apply(s, a), x, ReadAsleep) <==> At(s, x, ReadAsleep))
  {
    if a.Read? || a.Close? {
      MovedIs(s, WakeOf(a), WriteAsleep, WriteReady, x);
    }
  }

  lemma {:induction false} StrandedForGood(run: seq<State>, acts: seq<Action>, i: nat, n: nat, x: nat)
    requires IsRun(run, acts) && i <= n < |run| && !run[i].writeopen
    requires forall j :: i <= j < n && acts[j] == Kill(x) ==> !At(run[j], x, ReadAsleep)
    ensures !run[n].writeopen && (At(run[n], x, ReadAsleep) <==> At(run[i], x, ReadAsleep))
  {
    hide Enabled, Apply;
    if i < n {
      StrandedForGood(run, acts, i, n - 1, x);
      ClosedStep(run[n - 1], acts[n - 1], x);
    }
  }

  /** In every run in which wakeup wakes one and no sleeping reader is killed after the write end was closed
      in step i: a reader sleeps on the closed pipe, then and ever after, exactly when two slept at the close. */
  lemma ReaderStrandedIff(run: seq<State>, acts: seq<Action>, i: nat, n: nat)
    requires IsRun(run, acts) && i < n < |run| && acts[i].Close? && acts[i].write && !acts[i].w.All?
    requires forall j :: i < j < n && acts[j].Kill? ==> !At(run[j], acts[j].x, ReadAsleep)
    ensures Any(run[n], ReadAsleep) <==>
              exists y: nat, z: nat :: y != z && At(run[i], y, ReadAsleep) && At(run[i], z, ReadAsleep)
  {
    var before, after, end, w := run[i], run[i + 1], run[n], acts[i].w;
    forall x: nat ensures At(end, x, ReadAsleep) <==> At(after, x, ReadAsleep) {
      StrandedForGood(run, acts, i + 1, n, x);
    }
    assert Any(end, ReadAsleep) <==> Any(after, ReadAsleep);
    if w.First? {
      CloseStrandsIff(before, true, w.x);
      assert At(before, w.x, ReadAsleep);
    } else {
      assert forall x: nat :: At(after, x, ReadAsleep) <==> At(before, x, ReadAsleep);
      assert !Any(after, ReadAsleep);
    }
  }

  // ---------- runs in which a process is left asleep ----------

  lemma Then(run: seq<State>, acts: seq<Action>, a: Action) returns (run': seq<State>, acts': seq<Action>)
    requires IsRun(run, acts) && Enabled(run[|run| - 1], a)
    ensures IsRun(run', acts') && |run'| > 0 && run'[|run'| - 1] == Apply(run[|run| - 1], a)
    ensures (forall i :: 0 <= i < |acts| ==> !WakeOf(acts[i]).First?) && !WakeOf(a).First? ==>
              forall i :: 0 <= i < |acts'| ==> !WakeOf(acts'[i]).First?
  {
    hide Enabled, Apply;
    run', acts' := run + [Apply(run[|run| - 1], a)], acts + [a];
  }

  /** Two readers sleep on an empty pipe. */
  lemma TwoReaders() returns (run: seq<State>, acts: seq<Action>)
    ensures IsRun(run, acts) && |run| > 0 && run[|run| - 1] == State([ReadAsleep, ReadAsleep, Idle], 0, true, true, {})
    ensures forall i :: 0 <= i < |acts| ==> !WakeOf(acts[i]).First?
  {
    run, acts := [State([Idle, Idle, Idle], 0, true, true, {})], [];
    run, acts := Then(run, acts, ReadSleep(0));
    run, acts := Then(run, acts, ReadSleep(1));
  }

  lemma NobodyAt(s: State, pc: PC)
    requires forall t :: 0 <= t < |s.pc| ==> s.pc[t] != pc
    ensures !Any(s, pc)
  {
  }

  lemma CloseOnTwo(s: State)
    requires s == State([ReadAsleep, ReadAsleep, Idle], 0, true, true, {})
    ensures Enabled(s, Close(true, First(0)))
    ensures Apply(s, Close(true, First(0))) == State([ReadReady, ReadAsleep, Idle], 0, true, false, {})
  {
    NobodyAt(s, WriteAsleep);
    NobodyAt(s, WriteReady);
    hide Any;
  }

  /** A reader finds the pipe drained and closed, and nobody sleeps on the other end. */
  lemma ReadNothing(s: State, t: nat)
    requires At(s, t, ReadReady) && s.readopen && !s.writeopen && forall u :: 0 <= u < |s.pc| ==> s.pc[u] != WriteAsleep
    ensures Enabled(s, Read(t, 0, Nobody)) && Apply(s, Read(t, 0, Nobody)) == s.(pc := s.pc[t := Idle])
  {
    NobodyAt(s, WriteAsleep);
  }

  /** The writer closes its end; the reader it wakes leaves, and the other sleeps for good. */
  lemma ReaderStranded() returns (run: seq<State>, acts: seq<Action>)
    ensures IsRun(run, acts) && run[|run| - 1] == State([Idle, ReadAsleep, Idle], 0, true, false, {})
  {
    hide IsRun, Enabled, Apply;
    run, acts := TwoReaders();
    CloseOnTwo(run[|run| - 1]);
    run, acts := Then(run, acts, Close(true, First(0)));
    ReadNothing(run[|run| - 1], 0);
    run, acts := Then(run, acts, Read(0, 0, Nobody));
  }

  /** A writer writes two bytes; the reader it wakes takes one, and the other sleeps on beside the second. */
  lemma ReaderOversleeps() returns (run: seq<State>, acts: seq<Action>)
    ensures IsRun(run, acts) && run[|run| - 1] == State([Idle, ReadAsleep, Idle], 1, true, true, {})
  {
    run, acts := TwoReaders();
    run, acts := Then(run, acts, Write(2, 2, First(0)));
    assert !Any(run[|run| - 1], WriteAsleep);
    run, acts := Then(run, acts, Read(0, 1, Nobody));
  }

  /** A writer is killed, fills the pipe and fails: the readers sleep on beside a full pipe, whatever wakeup
      does. */
  lemma KilledWriterStrands() returns (run: seq<State>, acts: seq<Action>)
    ensures IsRun(run, acts) && forall i :: 0 <= i < |acts| ==> !WakeOf(acts[i]).First?
    ensures run[|run| - 1] == State([ReadAsleep, ReadAsleep, Idle], PIPESIZE, true, true, {2})
  {
    run, acts := TwoReaders();
    run, acts := Then(run, acts, Kill(2));
    run, acts := Then(run, acts, Fail(2));
  }
}
