/** The log and the NBUF buffers of the cache: logged blocks stay pinned until commit, and commit reads the
    log through the same cache. What this does to system-call atomicity and to how far processes that race
    through the unlocked guard of log_write can take the log. */
module LogBuffers {
  import opened Common
  import opened LogProtocol
  import opened LogProofs
  import opened LogRuns

  // ---------- pinned buffers ----------

  /** The buffers pinned or in use are no more than there are. */
  ghost predicate Buffered(s: State) {
    |s.dirty + s.held.Keys| <= NBUF
  }

  /** What every run keeps, whatever its callers do and even once the log has overrun its area. */
  ghost predicate Pins(s: State) {
    && Buffered(s) && Caught(s) && (!Recovering(s.phase) ==> Distinct(s.lh)) && PhasePins(s)
  }

  /** Pinned buffers and those in use are cached, and a process past the guard has its block in use. */
  ghost predicate Caught(s: State) {
    && s.held.Keys <= s.cache.Keys && s.dirty <= s.cache.Keys
    && forall t :: t in s.passed ==> s.passed[t] in s.held && s.held[s.passed[t]] == t
  }

  /** Which buffers are pinned: those of the logged blocks that commit has not copied home. */
  ghost predicate PhasePins(s: State) {
    match s.phase
    case Running => Pinned(s, 0) && (s.ops == map[] ==> s.lh == [])
    case WriteLog(k) => k == 0 || !Over(s) ==> Pinned(s, 0)
    case WriteHead => !Over(s) ==> Pinned(s, 0)
    case InstallTrans(k) => k <= |s.lh| && k <= |s.disk.slot| && (!Over(s) ==> Pinned(s, k))
    case RecoverInstall(k) => s.dirty == {}
    case _ => s.lh == [] && s.dirty == {}
  }

  lemma InvPins(s: State)
    requires Inv(s) && Buffered(s)
    ensures Tidy(s) && Pins(s) && !Over(s)
  {
    InvTidy(s);
    hide Distinct, CleanIsHome, Copied, Installed, Buffered, Tidy;
  }

  lemma StepBuffered(s: State, step: Step)
    requires Buffered(s) && Caught(s) && Enabled(s, step)
    ensures Buffered(Apply(s, step))
  {
    hide Enabled, Apply, Caught;
    TakenMore(s, step);
    var s' := Apply(s, step);
    Fewer(s'.dirty + s'.held.Keys, s.dirty + s.held.Keys + if step.Bread? then {step.b} else {});
  }

  /** Only bread takes a buffer: log_write pins one that is in use. */
  lemma TakenMore(s: State, step: Step)
    requires Caught(s) && Enabled(s, step)
    ensures var s' := Apply(s, step);
            s'.dirty + s'.held.Keys <= s.dirty + s.held.Keys + if step.Bread? then {step.b} else {}
    ensures if step.Bread? then Room(s, {step.b}, 0) else s.dirty + s.held.Keys + {} == s.dirty + s.held.Keys
  {
    hide Room;
  }

  lemma StepCaught(s: State, step: Step)
    requires Caught(s) && Enabled(s, step)
    ensures Caught(Apply(s, step))
  {
    StepCached(s, step);
    StepPassed(s, step);
    hide Enabled, Apply;
  }

  lemma StepCached(s: State, step: Step)
    requires Caught(s) && Enabled(s, step)
    ensures var s' := Apply(s, step); s'.held.Keys <= s'.cache.Keys && s'.dirty <= s'.cache.Keys
  {
    hide Room;
    var s' := Apply(s, step);
    assert step.Append? ==> step.b in s.held;
    assert step.Evict? ==> step.b !in s.held && step.b !in s.dirty;
    assert s'.cache.Keys >= s.cache.Keys || step.Evict? || step.Crash?;
  }

  lemma StepPassed(s: State, step: Step)
    requires Caught(s) && Enabled(s, step)
    ensures var s' := Apply(s, step);
            forall t :: t in s'.passed ==> s'.passed[t] in s'.held && s'.held[s'.passed[t]] == t
  {
    hide Room;
  }

  lemma StepDistinct(s: State, step: Step)
    requires !Recovering(s.phase) ==> Distinct(s.lh)
    requires Tidy(s) && Enabled(s, step)
    ensures !Recovering(Apply(s, step).phase) ==> Distinct(Apply(s, step).lh)
  {
    hide Room;
    if step.Append? && step.b !in s.lh {
      assert forall i :: 0 <= i < |s.lh| ==> (s.lh + [step.b])[i] == s.lh[i];
    }
  }

  /** log_write pins the block it logs. */
  lemma AppendPinned(s: State, t: Tid, b: nat)
    requires Pinned(s, 0) && Enabled(s, Append(t, b))
    ensures Pinned(Apply(s, Append(t, b)), 0)
  {
    hide Room;
    var s' := Apply(s, Append(t, b));
    if b in s.lh {
      var i :| 0 <= i < |s.lh| && s.lh[i] == b;
    } else {
      assert s'.lh[|s.lh|] == b && forall i :: 0 <= i < |s.lh| ==> s'.lh[i] == s.lh[i];
    }
  }

  /** install_trans unpins the block it copies home. */
  lemma PutHomePinned(s: State)
    requires Enabled(s, PutHome) && Pinned(s, s.phase.tail) && Distinct(s.lh)
    ensures Pinned(Apply(s, PutHome), s.phase.tail + 1)
  {
    hide Room;
    var k := s.phase.tail;
    assert s.dirty - {s.lh[k]} == set i | k + 1 <= i < |s.lh| :: s.lh[i];
  }

  lemma CallPins(s: State, step: Step)
    requires Tidy(s) && PhasePins(s) && Enabled(s, step)
    requires step.Begin? || step.Bread? || step.Modify? || step.Check? || step.Brelse? || step.Evict? || step.End?
    ensures PhasePins(Apply(s, step))
  {
    CallKeeps(s, step);
    hide Enabled, Apply, Logged;
  }

  /** What processes do outside log_write pins and unpins nothing. */
  lemma CallKeeps(s: State, step: Step)
    requires Tidy(s) && Enabled(s, step)
    requires step.Begin? || step.Bread? || step.Modify? || step.Check? || step.Brelse? || step.Evict? || step.End?
    ensures var s' := Apply(s, step);
            && s'.lh == s.lh && s'.dirty == s.dirty && s'.disk == s.disk
            && if s'.phase == s.phase then s'.ops == map[] ==> s.ops == map[]
               else s.phase.Running? && s'.phase == WriteLog(0)
  {
    hide Room;
    if step.End? {
      OneLess(s.ops, step.t);
    }
  }

  lemma CommitPins(s: State, step: Step)
    requires PhasePins(s) && Enabled(s, step)
    requires step.SlotsDone? || step.PutHead? || step.HomesDone? || step.PutClear? || step.Finish?
    ensures PhasePins(Apply(s, step))
  {
    assert Logged(s.lh, |s.lh|) == {} && (s.lh == [] ==> Logged(s.lh, 0) == {});
    hide Apply, Enabled, Logged;
    if step.SlotsDone? || step.PutHead? {
      CommitPointIs(s, step);
    } else {
      CommitEndIs(s, step);
    }
  }

  /** write_log leaves the pinned buffers pinned as long as it stays inside the log area. */
  lemma PutSlotPins(s: State)
    requires PhasePins(s) && Enabled(s, PutSlot)
    ensures PhasePins(Apply(s, PutSlot))
  {
    hide Room, Logged;
  }

  lemma StepPhasePins(s: State, step: Step)
    requires Tidy(s) && Pins(s) && Enabled(s, step)
    ensures PhasePins(Apply(s, step))
  {
    hide Room, Buffered, Caught, Distinct, Logged;
    match step
    case Append(t, b) => AppendPinned(s, t, b);
    case PutHome => if !Over(s) { PutHomePinned(s); }
    case Crash =>
    case ReadHead => RecoveryPins(s, step);
    case RecoverPut => RecoveryPins(s, step);
    case RecoverDone => RecoveryPins(s, step);
    case RecoverErase => RecoveryPins(s, step);
    case Begin(_) => CallPins(s, step);
    case Bread(_, _) => CallPins(s, step);
    case Modify(_, _, _) => CallPins(s, step);
    case Check(_, _) => CallPins(s, step);
    case Brelse(_, _) => CallPins(s, step);
    case Evict(_) => CallPins(s, step);
    case End(_) => CallPins(s, step);
    case PutSlot => PutSlotPins(s);
    case _ => CommitPins(s, step);
  }

  lemma RecoveryPins(s: State, step: Step)
    requires PhasePins(s) && Enabled(s, step)
    requires step.ReadHead? || step.RecoverPut? || step.RecoverDone? || step.RecoverErase?
    ensures PhasePins(Apply(s, step))
  {
    hide Room;
  }

  lemma StepPins(s: State, step: Step)
    requires Tidy(s) && Pins(s) && Enabled(s, step)
    ensures Tidy(Apply(s, step)) && Pins(Apply(s, step))
  {
    StepTidy(s, step);
    StepBuffered(s, step);
    StepCaught(s, step);
    StepDistinct(s, step);
    StepPhasePins(s, step);
    hide Enabled, Apply, Tidy, Buffered, Caught, PhasePins, Distinct;
  }

  lemma {:induction false} RunPins(run: seq<State>, steps: seq<Step>, n: nat)
    requires IsRun(run, steps) && Tidy(run[0]) && Pins(run[0]) && n < |run|
    ensures Tidy(run[n]) && Pins(run[n])
  {
    hide Enabled, Apply, Tidy, Pins;
    if n > 0 {
      RunPins(run, steps, n - 1);
      StepPins(run[n - 1], steps[n - 1]);
    }
  }

  // ---------- how far the log can get ----------

  lemma {:induction false} LoggedCount(lh: seq<nat>, from: nat)
    requires Distinct(lh) && from <= |lh|
    ensures |Logged(lh, from)| == |lh| - from
    decreases |lh| - from
  {
    if from < |lh| {
      LoggedCount(lh, from + 1);
      assert Logged(lh, from) == Logged(lh, from + 1) + {lh[from]};
    } else {
      assert Logged(lh, from) == {};
    }
  }

  /** At most three operations are outstanding, those of them that have passed the guard are all that can
      carry the log past it, and every logged block takes a buffer. */
  ghost predicate Bounded(s: State) {
    && |s.disk.slot| == s.size - 1 && s.outstanding <= 3
    && (!Recovering(s.phase) ==> |s.lh| + |s.passed| <= Limit(s.size) + 2 && |s.lh| <= NBUF)
  }

  lemma StepBounded(s: State, step: Step)
    requires Tidy(s) && Pins(s) && Bounded(s) && Enabled(s, step)
    ensures Bounded(Apply(s, step))
  {
    hide Pins;
    match step
    case Check(t, b) => CheckBounded(s, t, b);
    case Append(t, b) => AppendBounded(s, t, b);
    case _ => OtherBounded(s, step);
  }

  lemma CheckBounded(s: State, t: Tid, b: nat)
    requires Tidy(s) && Bounded(s) && Enabled(s, Check(t, b))
    ensures Bounded(Apply(s, Check(t, b)))
  {
    var s' := Apply(s, Check(t, b));
    Fewer(s'.passed.Keys, s.ops.Keys);
    assert |s'.passed| == |s'.passed.Keys| && |s.ops| == |s.ops.Keys|;
  }

  lemma AppendBounded(s: State, t: Tid, b: nat)
    requires Tidy(s) && Pins(s) && Bounded(s) && Enabled(s, Append(t, b))
    ensures Bounded(Apply(s, Append(t, b)))
  {
    AppendTakes(s, t, b);
    hide Pins;
    var s' := Apply(s, Append(t, b));
    assert s'.passed.Keys == s.passed.Keys - {t};
    assert |s'.passed| == |s'.passed.Keys| && |s.passed| == |s.passed.Keys|;
  }

  lemma OtherBounded(s: State, step: Step)
    requires Tidy(s) && Bounded(s) && Enabled(s, step) && !step.Check? && !step.Append?
    ensures Bounded(Apply(s, step))
  {
    hide Apply, Enabled;
    TidyFacts(s);
    hide Tidy;
    SameSize(s, step);
    OtherLog(s, step);
    OtherCount(s, step);
  }

  lemma TidyFacts(s: State)
    requires Tidy(s)
    ensures s.outstanding >= 0 && (s.phase.RecoverClear? ==> s.lh == [])
    ensures s.ops != map[] ==> s.phase.Running?
    ensures !s.phase.Running? ==> s.passed == map[]
  {
    if !s.phase.Running? {
      assert s.passed.Keys <= {};
    }
  }

  lemma OtherLog(s: State, step: Step)
    requires Enabled(s, step) && !step.Check? && !step.Append?
    requires (s.phase.RecoverClear? ==> s.lh == []) && (s.ops != map[] ==> s.phase.Running?)
    requires !s.phase.Running? ==> s.passed == map[]
    ensures var s' := Apply(s, step);
            && (s'.passed == s.passed || s'.passed == map[])
            && (Recovering(s'.phase) || (s'.lh == [] && s'.passed == map[]) || (s'.lh == s.lh && !Recovering(s.phase)))
  {
    hide Room;
  }

  lemma OtherCount(s: State, step: Step)
    requires Enabled(s, step) && s.outstanding >= 0
    ensures var s' := Apply(s, step);
            || s'.outstanding <= s.outstanding
            || (MayBegin(s) && s'.outstanding == s.outstanding + 1)
  {
    hide Room;
  }

  /** Every logged block has a buffer. */
  lemma LoggedTake(s: State)
    requires Pins(s) && Pinned(s, 0) && Distinct(s.lh)
    ensures |s.lh| == |s.dirty| <= |s.dirty + s.held.Keys| <= NBUF
  {
    LoggedCount(s.lh, 0);
    Fewer(s.dirty, s.dirty + s.held.Keys);
  }

  lemma AppendTakes(s: State, t: Tid, b: nat)
    requires Tidy(s) && Pins(s) && Enabled(s, Append(t, b))
    ensures |Apply(s, Append(t, b)).lh| <= NBUF
  {
    var s' := Apply(s, Append(t, b));
    StepPins(s, Append(t, b));
    StepTidy(s, Append(t, b));
    assert s.phase.Running?;
    LoggedTake(s');
  }

  /** Whatever the callers do, the log gets at most two blocks past what the guard allows and never holds
      more blocks than there are buffers. */
  lemma {:induction false} OverrunBound(run: seq<State>, steps: seq<Step>, n: nat)
    requires IsRun(run, steps) && Tidy(run[0]) && Pins(run[0]) && Bounded(run[0]) && n < |run|
    ensures Tidy(run[n]) && Pins(run[n]) && Bounded(run[n])
    ensures !Recovering(run[n].phase) ==> |run[n].lh| <= Most(run[n].size) && run[n].outstanding <= 3
  {
    hide Tidy, Pins, Apply, Enabled;
    if n > 0 {
      OverrunBound(run, steps, n - 1);
      StepPins(run[n - 1], steps[n - 1]);
      StepBounded(run[n - 1], steps[n - 1]);
    }
  }

  function Most(size: nat): int {
    if Limit(size) + 2 < NBUF then Limit(size) + 2 else NBUF
  }

  // ---------- what commit needs ----------

  /** In every run, overrun or not: commit gets a buffer for its first log block exactly when fewer than
      NBUF blocks are logged or in use, so with nobody else about exactly when fewer than NBUF are logged. */
  lemma CommitFindsIff(run: seq<State>, steps: seq<Step>, n: nat)
    requires IsRun(run, steps) && Tidy(run[0]) && Pins(run[0]) && n < |run|
    requires var s := run[n]; s.phase == WriteLog(0) && s.lh != [] && s.lh[0] !in s.held && |s.disk.slot| > 0
    ensures Enabled(run[n], PutSlot) <==> |Logged(run[n].lh, 0) + run[n].held.Keys| < NBUF
    ensures run[n].held == map[] ==> (Enabled(run[n], PutSlot) <==> |run[n].lh| < NBUF)
  {
    hide Tidy, Enabled, Apply;
    RunPins(run, steps, n);
    var s := run[n];
    LoggedTake(s);
    hide Distinct;
    assert s.lh[0] in s.dirty;
    FirstSlot(s);
    assert s.held == map[] ==> s.dirty + s.held.Keys == s.dirty;
  }

  lemma FirstSlot(s: State)
    requires s.phase == WriteLog(0) && s.lh != [] && s.lh[0] !in s.held && |s.disk.slot| > 0
    requires s.lh[0] in s.dirty && s.lh[0] in s.cache
    ensures Enabled(s, PutSlot) <==> |s.dirty + s.held.Keys| < NBUF
  {
    assert s.dirty + s.held.Keys + {s.lh[0]} == s.dirty + s.held.Keys;
  }

  // ---------- a log area of NBUF blocks or more ----------

  /** A log area of NBUF blocks, header included, has overrun: the logged blocks pin every buffer, and no
      block of the log has been written. */
  ghost predicate Stuck(s: State) {
    && s.size == NBUF == |s.lh| && |s.disk.slot| == s.size - 1 && s.disk.header == []
    && (s.phase.Running? || s.phase == WriteLog(0))
  }

  ghost predicate Sound(s: State) {
    Tidy(s) && Pins(s) && (Inv(s) || Stuck(s))
  }

  /** An append that does not fit has pinned the last buffer; a longer log area than this is never filled. */
  lemma OverrunSticks(s: State, t: Tid, b: nat)
    requires Inv(s) && Pins(s) && Enabled(s, Append(t, b)) && !Fits(s, Append(t, b)) && s.size >= NBUF
    ensures Stuck(Apply(s, Append(t, b)))
  {
    InvTidy(s);
    AppendTakes(s, t, b);
    hide Pins, Distinct, CleanIsHome, Copied, Installed;
  }

  /** From there on every buffer stays pinned, and nothing is written before a crash. */
  lemma StuckStep(s: State, step: Step)
    requires Tidy(s) && Pins(s) && Stuck(s) && Enabled(s, step) && !step.Crash?
    ensures Stuck(Apply(s, step)) && Apply(s, step).disk == s.disk && !step.PutSlot? && !step.PutHead?
  {
    StuckTaken(s);
    hide Pins, Room;
  }

  lemma StuckTaken(s: State)
    requires Tidy(s) && Pins(s) && Stuck(s)
    ensures !Enabled(s, PutSlot) && !MayBegin(s)
    ensures forall t :: t in s.passed ==> s.passed[t] in s.lh
  {
    hide Enabled, Apply;
    LoggedTake(s);
    hide Distinct;
    Fewer(s.dirty, s.dirty + s.held.Keys);
    assert s.lh[0] in s.dirty;
    if Enabled(s, PutSlot) {
      NeedsSlot(s);
      FirstSlot(s);
    }
  }

  lemma NeedsSlot(s: State)
    requires Enabled(s, PutSlot) && s.lh != []
    ensures s.phase.WriteLog? && (s.phase == WriteLog(0) ==> s.lh[0] !in s.held)
  {
    hide Room;
  }

  lemma StuckCrash(s: State)
    requires Stuck(s)
    ensures Inv(Apply(s, Crash)) && Apply(s, Crash).disk == s.disk
  {
  }

  lemma SoundHeader(s: State)
    requires Sound(s)
    ensures |s.disk.header| <= |s.disk.slot|
  {
  }

  /** Only the header write of commit changes what recovery yields, also after an overrun. */
  lemma StepSound(s: State, step: Step)
    requires Sound(s) && Enabled(s, step) && (Fits(s, step) || s.size >= NBUF)
    ensures Sound(Apply(s, step)) && |s.disk.header| <= |s.disk.slot|
    ensures |Apply(s, step).disk.header| <= |Apply(s, step).disk.slot|
    ensures Recovered(Apply(s, step).disk) == if step.PutHead? then Logical(s) else Recovered(s.disk)
    ensures step.PutHead? ==> s.ops == map[]
  {
    hide Tidy, Pins, Inv, Stuck, Recovered, Logical, Enabled, Apply;
    StepPins(s, step);
    SoundHeader(s);
    if !Inv(s) {
      if step.Crash? {
        StuckCrash(s);
      } else {
        StuckStep(s, step);
      }
    } else if Fits(s, step) {
      StepRecovered(s, step);
    } else {
      OverrunSticks(s, step.t, step.b);
      AppendDisk(s, step);
    }
    SoundHeader(Apply(s, step));
  }

  lemma AppendDisk(s: State, step: Step)
    requires Enabled(s, step) && step.Append?
    ensures Apply(s, step).disk == s.disk
  {
  }

  ghost predicate NoOverrun(run: seq<State>, n: nat) {
    n < |run| && forall i :: 0 <= i <= n ==> !Over(run[i])
  }

  lemma FitsIn(s: State, step: Step)
    requires Enabled(s, step) && !Over(Apply(s, step))
    ensures Fits(s, step)
  {
    hide Room;
  }

  lemma SameSize(s: State, step: Step)
    requires Enabled(s, step)
    ensures Apply(s, step).size == s.size && |Apply(s, step).disk.slot| == |s.disk.slot|
  {
    hide Room;
  }

  lemma {:induction false} RunSound(run: seq<State>, steps: seq<Step>, n: nat)
    requires IsRun(run, steps) && Inv(run[0]) && Buffered(run[0]) && n < |run|
    requires run[0].size >= NBUF || NoOverrun(run, n)
    ensures Sound(run[n]) && run[n].size == run[0].size
  {
    hide Inv, Buffered, Pins, Tidy, Stuck, Enabled, Apply;
    if n == 0 {
      InvPins(run[0]);
    } else {
      RunSound(run, steps, n - 1);
      var s, step := run[n - 1], steps[n - 1];
      SameSize(s, step);
      if run[0].size < NBUF {
        assert !Over(run[n]);
        FitsIn(s, step);
      }
      StepSound(s, step);
    }
  }

  lemma SoundQuiet(s: State)
    requires Sound(s) && Quiet(s)
    ensures Inv(s)
  {
    hide Inv, Tidy;
  }

  /** The recovered disk is the logical state at a moment with no operation outstanding, so no
      system call is ever partly present; and that moment is never older than a quiet moment
      already passed, so a commit that has returned is never lost. Whatever the callers do and however
      they race, this holds with a log area of NBUF blocks or more, header included, as mkfs makes it;
      with a shorter one it holds as long as the log has not overrun its area. */
  lemma {:induction false} SystemCallAtomicity(run: seq<State>, steps: seq<Step>, k: nat, n: nat)
    returns (j: nat)
    requires IsRun(run, steps) && Inv(run[0]) && Buffered(run[0]) && k <= n < |run| && Quiet(run[k])
    requires run[0].size >= NBUF || NoOverrun(run, n)
    ensures |run[n].disk.header| <= |run[n].disk.slot|
    ensures k <= j <= n && run[j].ops == map[] && Recovered(run[n].disk) == Logical(run[j])
    decreases n - k
  {
    hide Inv, Buffered, Sound, Enabled, Apply, Recovered, Logical;
    if n == k {
      RunSound(run, steps, n);
      SoundHeader(run[n]);
      SoundQuiet(run[n]);
      QuietDurable(run[n]);
      j := n;
    } else {
      j := SystemCallAtomicity(run, steps, k, n - 1);
      var s, step := run[n - 1], steps[n - 1];
      RunSound(run, steps, n - 1);
      if run[0].size < NBUF {
        assert !Over(run[n]);
        FitsIn(s, step);
      }
      StepSound(s, step);
      if step.PutHead? {
        j := n - 1;
      }
    }
  }

  /** A log area longer than NBUF blocks, header included, is never overrun: the buffers run out first. */
  lemma NeverOverruns(run: seq<State>, steps: seq<Step>, n: nat)
    requires IsRun(run, steps) && Inv(run[0]) && Buffered(run[0]) && n < |run| && run[0].size > NBUF
    ensures Inv(run[n]) && NoOverrun(run, n)
  {
    hide Inv, Buffered, Tidy, Pins;
    forall i: nat | i <= n ensures Inv(run[i]) && !Over(run[i]) {
      RunSound(run, steps, i);
      InvWithin(run[i]);
    }
  }

  /** Nor is it when operations keep within their reservations, by what begin_op reserves alone. */
  lemma {:induction false} FrugalNeverOverruns(run: seq<State>, steps: seq<Step>, n: nat)
    requires FrugalRun(run, steps) && Inv(run[0]) && Reserved(run[0]) && n < |run| && run[0].size > LOGSIZE
    ensures Inv(run[n]) && run[n].size == run[0].size && NoOverrun(run, n)
  {
    hide Inv, Reserved, Tidy, Enabled, Apply;
    if n > 0 {
      FrugalNeverOverruns(run, steps, n - 1);
      var s, step := run[n - 1], steps[n - 1];
      InvTidy(run[0]);
      LogSpace(run, steps, n - 1);
      FrugalFits(s, step);
      StepInv(s, step);
      SameSize(s, step);
    }
    InvWithin(run[n]);
  }

  lemma FrugalFits(s: State, step: Step)
    requires Inv(s) && Reserved(s) && Enabled(s, step) && Frugal(s, step) && s.size > LOGSIZE
    ensures Fits(s, step)
  {
    hide Room;
    if step.Append? {
      UnspentSplit(s.ops, step.t);
      UnspentBound(s.ops - {step.t});
    }
  }

  lemma InvWithin(s: State)
    requires Inv(s)
    ensures !Over(s)
  {
  }

  /** At NBUF blocks, mkfs's size, it can be. Then every buffer is pinned by a logged block, what is on disk
      stays as it is until power fails, and commit finds no buffer for its first write. */
  lemma {:induction false} OverrunHarmless(run: seq<State>, steps: seq<Step>, m: nat, n: nat)
    requires IsRun(run, steps) && Inv(run[0]) && Buffered(run[0]) && run[0].size == NBUF
    requires m <= n < |run| && Over(run[m]) && forall i :: m <= i < n ==> !steps[i].Crash?
    ensures |run[n].lh| == NBUF && Pinned(run[n], 0) && run[n].disk == run[m].disk && run[n].disk.header == []
    ensures run[n].phase.Running? || (run[n].phase == WriteLog(0) && !Enabled(run[n], PutSlot))
  {
    hide Inv, Buffered, Enabled, Apply, Distinct;
    RunSound(run, steps, n);
    if n == m {
      OverStuck(run[m]);
    } else {
      OverrunHarmless(run, steps, m, n - 1);
      hide Tidy, Pins;
      RunSound(run, steps, n - 1);
      FullStuck(run[n - 1]);
      StuckStep(run[n - 1], steps[n - 1]);
    }
    StuckTaken(run[n]);
    assert PhasePins(run[n]);
  }

  lemma OverStuck(s: State)
    requires Sound(s) && Over(s)
    ensures Stuck(s)
  {
    hide Tidy, Pins;
    if Inv(s) {
      InvWithin(s);
    }
  }

  lemma FullStuck(s: State)
    requires Sound(s) && s.size == NBUF == |s.lh|
    ensures Stuck(s)
  {
    hide Tidy, Pins;
  }
}
