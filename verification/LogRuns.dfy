/** Whole runs of the log protocol: crash atomicity of one group commit, unreachable panics, and the
    log-space reservation of begin_op. */
module LogRuns {
  import opened Common
  import opened LogProtocol
  import opened LogProofs

  ghost predicate IsRun(run: seq<State>, steps: seq<Step>) {
    && |run| == |steps| + 1
    && forall i :: 0 <= i < |steps| ==> Enabled(run[i], steps[i]) && run[i + 1] == Apply(run[i], steps[i])
  }

  /** log.lh.n has passed the end of the log area. */
  predicate Over(s: State) {
    |s.lh| > |s.disk.slot|
  }

  /** Without a new operation, no second header write can follow a crash or a finished commit:
      the steps from here on cannot reach WriteHead. */
  predicate PastHead(p: Phase) {
    !p.WriteLog? && !p.WriteHead?
  }

  /** One group commit, from end_op's decision to commit to the next quiet moment, with any
      number of crashes inside commit and inside the recoveries that follow: the home blocks
      end up all as before the transaction or all as after it, the latter exactly when the
      first header write was done. */
  lemma {:induction false} CrashAtomicity(run: seq<State>, steps: seq<Step>, n: nat)
    requires IsRun(run, steps) && Inv(run[0]) && run[0].phase == WriteLog(0) && n < |run|
    requires forall i :: 0 <= i < n ==> !steps[i].Begin?
    ensures Inv(run[n]) && run[n].ops == map[]
    ensures PutHead in steps[..n] ==> PastHead(run[n].phase)
    ensures !PastHead(run[n].phase) ==> Logical(run[n]) == Logical(run[0])
    ensures Recovered(run[n].disk) == if PutHead in steps[..n] then Logical(run[0]) else run[0].disk.home
    ensures Quiet(run[n]) ==>
              run[n].disk.home == if PutHead in steps[..n] then Logical(run[0]) else run[0].disk.home
  {
    hide Inv;
    hide Apply;
    hide Enabled;
    hide Logical;
    hide Recovered;
    if n == 0 {
      AtDecision(run[0]);
    } else {
      CrashAtomicity(run, steps, n - 1);
      var s, step := run[n - 1], steps[n - 1];
      NoNewOp(s, step);
      StepRecovered(s, step);
      assert steps[..n] == steps[..n - 1] + [step];
      if !PastHead(s.phase) && !step.Crash? {
        StepLogical(s, step);
      }
      if Quiet(run[n]) {
        QuietDurable(run[n]);
      }
    }
  }

  lemma AtDecision(s: State)
    requires Inv(s) && s.phase == WriteLog(0)
    ensures s.ops == map[] && Recovered(s.disk) == s.disk.home
  {
  }

  lemma NoNewOp(s: State, step: Step)
    requires Enabled(s, step) && s.ops == map[] && !step.Begin?
    ensures Apply(s, step).ops == map[]
    ensures PastHead(s.phase) ==> PastHead(Apply(s, step).phase)
    ensures step.PutHead? ==> !PastHead(s.phase) && PastHead(Apply(s, step).phase)
    ensures step.Crash? ==> PastHead(Apply(s, step).phase)
    ensures !step.Modify? && Fits(s, step)
  {
    hide Room;
  }

  // ---------- panics ----------

  /** The counts, in every state of every run, overrun or not. */
  ghost predicate Tidy(s: State) {
    && s.outstanding == |s.ops| && s.passed.Keys <= s.ops.Keys
    && (s.ops != map[] ==> s.phase.Running? && !s.committing)
    && (s.committing <==> Committing(s.phase)) && (s.phase.RecoverClear? ==> s.lh == [])
  }

  lemma InvTidy(s: State)
    requires Inv(s)
    ensures Tidy(s)
  {
  }

  lemma StepTidy(s: State, step: Step)
    requires Tidy(s) && Enabled(s, step)
    ensures Tidy(Apply(s, step))
  {
    match step
    case Begin(t) => assert |Apply(s, step).ops| == |s.ops| + 1;
    case Append(t, b) => AppendTidy(s, t, b);
    case End(t) => EndTidy(s, t);
    case _ => OtherTidy(s, step);
  }

  lemma AppendTidy(s: State, t: Tid, b: nat)
    requires Tidy(s) && Enabled(s, Append(t, b))
    ensures Tidy(Apply(s, Append(t, b)))
  {
    var s' := Apply(s, Append(t, b));
    assert s'.ops.Keys == s.ops.Keys;
    assert |s'.ops| == |s'.ops.Keys| && |s.ops| == |s.ops.Keys|;
  }

  lemma EndTidy(s: State, t: Tid)
    requires Tidy(s) && Enabled(s, End(t))
    ensures Tidy(Apply(s, End(t)))
  {
    hide Enabled, Apply;
    EndIs(s, t);
    OneLess(s.ops, t);
  }

  lemma OtherTidy(s: State, step: Step)
    requires Tidy(s) && Enabled(s, step) && !step.Begin? && !step.Append? && !step.End?
    ensures Tidy(Apply(s, step))
  {
    hide Room;
  }

  lemma {:induction false} RunTidy(run: seq<State>, steps: seq<Step>, n: nat)
    requires IsRun(run, steps) && Tidy(run[0]) && n < |run|
    ensures Tidy(run[n])
  {
    hide Tidy, Apply, Enabled;
    if n > 0 {
      RunTidy(run, steps, n - 1);
      StepTidy(run[n - 1], steps[n - 1]);
    }
  }

  /** end_op's panic("log.committing") is unreachable for a call that was begun. */
  lemma EndOpNeverPanics(run: seq<State>, steps: seq<Step>, n: nat, t: Tid)
    requires IsRun(run, steps) && Tidy(run[0]) && n < |run| && t in run[n].ops
    ensures !run[n].committing && run[n].outstanding >= 1
  {
    RunTidy(run, steps, n);
    assert run[n].ops.Keys != {};
  }

  // ---------- log space ----------

  ghost function Unspent(ops: map<Tid, nat>): int {
    if ops == map[] then 0
    else
      var t :| t in ops;
      MAXOPBLOCKS - ops[t] + Unspent(ops - {t})
  }

  lemma {:induction false} UnspentSplit(ops: map<Tid, nat>, t: Tid)
    requires t in ops
    ensures Unspent(ops) == MAXOPBLOCKS - ops[t] + Unspent(ops - {t})
    decreases |ops|
  {
    var u :| u in ops && Unspent(ops) == MAXOPBLOCKS - ops[u] + Unspent(ops - {u});
    if u != t {
      UnspentSplit(ops - {u}, t);
      UnspentSplit(ops - {t}, u);
      assert ops - {u} - {t} == ops - {t} - {u};
    }
  }

  lemma {:induction false} UnspentBound(ops: map<Tid, nat>)
    requires forall t :: t in ops ==> ops[t] <= MAXOPBLOCKS
    ensures 0 <= Unspent(ops) <= |ops| * MAXOPBLOCKS
    decreases |ops|
  {
    if ops != map[] {
      var t :| t in ops;
      UnspentSplit(ops, t);
      UnspentBound(ops - {t});
      assert (ops - {t}).Keys == ops.Keys - {t};
    }
  }

  /** An operation adds at most the MAXOPBLOCKS blocks it reserved; writing a block that is logged
      already (absorption) adds none. */
  predicate Frugal(s: State, step: Step) {
    step.Append? && step.t in s.ops ==> step.b in s.lh || s.ops[step.t] < MAXOPBLOCKS
  }

  ghost predicate FrugalRun(run: seq<State>, steps: seq<Step>) {
    IsRun(run, steps) && forall i :: 0 <= i < |steps| ==> Frugal(run[i], steps[i])
  }

  /** The reservation: logged blocks plus what the outstanding operations may still add fit. */
  ghost predicate Reserved(s: State) {
    && (forall t :: t in s.ops ==> s.ops[t] <= MAXOPBLOCKS)
    && (!Recovering(s.phase) ==> |s.lh| + Unspent(s.ops) <= LOGSIZE)
  }

  lemma BeginReserved(s: State, t: Tid)
    requires Tidy(s) && Reserved(s) && Enabled(s, Begin(t))
    ensures Reserved(Apply(s, Begin(t)))
  {
    var ops' := s.ops[t := 0];
    UnspentSplit(ops', t);
    assert ops' - {t} == s.ops;
    UnspentBound(s.ops);
  }

  lemma AppendReserved(s: State, t: Tid, b: nat)
    requires Reserved(s) && Enabled(s, Append(t, b)) && Frugal(s, Append(t, b))
    ensures Reserved(Apply(s, Append(t, b)))
  {
    if b !in s.lh {
      var ops' := s.ops[t := s.ops[t] + 1];
      UnspentSplit(s.ops, t);
      UnspentSplit(ops', t);
      assert ops' - {t} == s.ops - {t};
    }
  }

  lemma StepReserved(s: State, step: Step)
    requires Tidy(s) && Reserved(s) && Enabled(s, step) && Frugal(s, step)
    ensures Reserved(Apply(s, step))
  {
    match step
    case Begin(t) => BeginReserved(s, t);
    case Append(t, b) => AppendReserved(s, t, b);
    case End(t) => UnspentSplit(s.ops, t);
    case _ => OtherReserved(s, step);
  }

  lemma OtherReserved(s: State, step: Step)
    requires (s.phase.RecoverClear? ==> s.lh == []) && (!s.phase.Running? ==> s.ops == map[])
    requires Reserved(s) && Enabled(s, step) && !step.Begin? && !step.Append? && !step.End?
    ensures Reserved(Apply(s, step))
  {
    OtherEffect(s, step);
    hide Apply, Enabled;
    UnspentBound(s.ops);
  }

  lemma OtherEffect(s: State, step: Step)
    requires (s.phase.RecoverClear? ==> s.lh == []) && (!s.phase.Running? ==> s.ops == map[])
    requires Enabled(s, step) && !step.Begin? && !step.Append? && !step.End?
    ensures var s' := Apply(s, step);
            && (s'.ops == s.ops || s'.ops == map[])
            && (Recovering(s'.phase) || s'.lh == [] || (s'.lh == s.lh && !Recovering(s.phase)))
  {
    hide Room;
  }

  /** Whatever the size of the log area: logged blocks and unspent reservations fit in LOGSIZE. */
  lemma {:induction false} LogSpace(run: seq<State>, steps: seq<Step>, n: nat)
    requires FrugalRun(run, steps) && Tidy(run[0]) && Reserved(run[0]) && n < |run|
    ensures Tidy(run[n]) && Reserved(run[n])
  {
    hide Tidy, Reserved, Apply, Enabled, Frugal;
    if n > 0 {
      var s, step := run[n - 1], steps[n - 1];
      assert Enabled(s, step) && Frugal(s, step) && run[n] == Apply(s, step);
      hide FrugalRun, IsRun;
      LogSpace(run, steps, n - 1);
      StepTidy(s, step);
      StepReserved(s, step);
    }
  }

  /** The guard of log_write does not look at who writes what: in every run, a write by an
      outstanding operation panics exactly when the log is full. */
  lemma WritePanicsIff(run: seq<State>, steps: seq<Step>, n: nat, t: Tid)
    requires IsRun(run, steps) && Tidy(run[0]) && n < |run| && t in run[n].ops
    ensures LogWritePanics(run[n]) <==> |run[n].lh| >= Limit(run[n].size)
  {
    EndOpNeverPanics(run, steps, n, t);
  }

  function Limit(size: nat): int {
    if LOGSIZE < size - 1 then LOGSIZE else size - 1
  }

  /** A log with more blocks than LOGSIZE, header included, never makes log_write panic, on a new
      block or an absorbed one, while some outstanding operation has part of its reservation left;
      it does panic, on either, once LOGSIZE blocks are logged and every reservation is used up. */
  lemma ReservedWriteFits(run: seq<State>, steps: seq<Step>, n: nat, t: Tid)
    requires FrugalRun(run, steps) && Tidy(run[0]) && Reserved(run[0]) && n < |run|
    requires t in run[n].ops && run[n].size > LOGSIZE
    ensures run[n].ops[t] < MAXOPBLOCKS ==> !LogWritePanics(run[n])
    ensures LogWritePanics(run[n]) <==> |run[n].lh| == LOGSIZE
    ensures LogWritePanics(run[n]) ==> forall u :: u in run[n].ops ==> run[n].ops[u] == MAXOPBLOCKS
  {
    LogSpace(run, steps, n);
    WritePanicsIff(run, steps, n, t);
    var ops := run[n].ops;
    UnspentBound(ops);
    forall u | u in ops && ops[u] < MAXOPBLOCKS ensures |run[n].lh| < LOGSIZE {
      EndOpNeverPanics(run, steps, n, u);
      UnspentSplit(ops, u);
      UnspentBound(ops - {u});
    }
  }
}
