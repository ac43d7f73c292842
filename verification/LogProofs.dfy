/** What every step of the log protocol keeps, and what a crash can leave behind. */
module LogProofs {
  import opened Common
  import opened LogProtocol

  // ---------- installing logged blocks ----------

  lemma {:induction false} InstallAt(home: Home, hdr: seq<nat>, slot: seq<Block>, k: nat)
    requires k <= |hdr| <= |slot| && Distinct(hdr)
    ensures Install(home, hdr, slot, k).Keys == home.Keys + set i | 0 <= i < k :: hdr[i]
    ensures forall i :: 0 <= i < k ==> Install(home, hdr, slot, k)[hdr[i]] == slot[i]
    ensures forall b :: b in home && b !in hdr[..k] ==> Install(home, hdr, slot, k)[b] == home[b]
  {
    if k > 0 {
      InstallAt(home, hdr, slot, k - 1);
      assert hdr[..k] == hdr[..k - 1] + [hdr[k - 1]];
    }
  }

  /** Two disks with the same log recover alike when they differ at logged blocks only. */
  lemma RecoveredSame(d: Disk, d': Disk)
    requires |d.header| <= |d.slot| && Distinct(d.header)
    requires d'.header == d.header && d'.slot == d.slot && d'.home.Keys == d.home.Keys
    requires forall b :: b in d.home && b !in d.header ==> d'.home[b] == d.home[b]
    requires forall b :: b in d.header ==> b in d.home
    ensures Recovered(d') == Recovered(d)
  {
    var n := |d.header|;
    InstallAt(d.home, d.header, d.slot, n);
    InstallAt(d'.home, d.header, d.slot, n);
    assert d.header[..n] == d.header;
    forall b | b in Recovered(d) ensures Recovered(d')[b] == Recovered(d)[b] {
      if b in d.header {
        var i :| 0 <= i < n && d.header[i] == b;
        assert Recovered(d)[d.header[i]] == d.slot[i];
      }
    }
  }

  /** Recovery of a fully installed log changes nothing. */
  lemma RecoveredInstalled(d: Disk)
    requires |d.header| <= |d.slot| && Distinct(d.header) && Installed(d, d.header, |d.header|)
    ensures Recovered(d) == d.home
  {
    var n := |d.header|;
    InstallAt(d.home, d.header, d.slot, n);
    assert d.header[..n] == d.header;
    forall b | b in d.home ensures Recovered(d)[b] == d.home[b] {
      if b in d.header {
        var i :| 0 <= i < n && d.header[i] == b;
        assert Recovered(d)[d.header[i]] == d.slot[i];
      }
    }
  }

  // ---------- every step keeps the invariant ----------

  lemma BeginInv(s: State, t: Tid)
    requires Inv(s) && Enabled(s, Begin(t))
    ensures Inv(Apply(s, Begin(t)))
  {
    var s' := Apply(s, Begin(t));
    assert s.phase.Running? && |s'.ops| == |s.ops| + 1;
    assert Pinned(s', 0) && CleanIsHome(s');
    hide Distinct, Pinned, CleanIsHome, Copied, Installed;
  }

  lemma BreadWell(s: State, t: Tid, b: nat)
    requires WellFormed(s) && Enabled(s, Bread(t, b))
    ensures WellFormed(Apply(s, Bread(t, b)))
  {
    hide Distinct, Room;
  }

  lemma BreadPhase(s: State, t: Tid, b: nat)
    requires WellFormed(s) && PhaseInv(s) && Enabled(s, Bread(t, b)) && WellFormed(Apply(s, Bread(t, b)))
    ensures PhaseInv(Apply(s, Bread(t, b)))
  {
    hide WellFormed, Distinct, Room;
    var s' := Apply(s, Bread(t, b));
    assert forall c :: c in s.cache ==> c in s'.cache && s'.cache[c] == s.cache[c];
  }

  lemma BreadInv(s: State, t: Tid, b: nat)
    requires Inv(s) && Enabled(s, Bread(t, b))
    ensures Inv(Apply(s, Bread(t, b)))
  {
    hide WellFormed, PhaseInv;
    BreadWell(s, t, b);
    BreadPhase(s, t, b);
  }

  lemma ModifyInv(s: State, t: Tid, b: nat, v: Block)
    requires Inv(s) && Enabled(s, Modify(t, b, v))
    ensures Inv(Apply(s, Modify(t, b, v)))
  {
    assert s.phase.Running?;
  }

  lemma BrelseInv(s: State, t: Tid, b: nat)
    requires Inv(s) && Enabled(s, Brelse(t, b))
    ensures Inv(Apply(s, Brelse(t, b)))
  {
  }

  lemma EvictWell(s: State, b: nat)
    requires WellFormed(s) && Enabled(s, Evict(b))
    ensures WellFormed(Apply(s, Evict(b)))
  {
    hide Distinct;
  }

  lemma EvictPhase(s: State, b: nat)
    requires WellFormed(s) && PhaseInv(s) && Enabled(s, Evict(b)) && WellFormed(Apply(s, Evict(b)))
    ensures PhaseInv(Apply(s, Evict(b)))
  {
    hide WellFormed, Distinct;
    var s' := Apply(s, Evict(b));
    assert forall c :: c in s.cache && c != b ==> c in s'.cache && s'.cache[c] == s.cache[c];
  }

  lemma EvictInv(s: State, b: nat)
    requires Inv(s) && Enabled(s, Evict(b))
    ensures Inv(Apply(s, Evict(b)))
  {
    hide WellFormed, PhaseInv;
    EvictWell(s, b);
    EvictPhase(s, b);
  }

  lemma CheckInv(s: State, t: Tid, b: nat)
    requires Inv(s) && Enabled(s, Check(t, b))
    ensures Inv(Apply(s, Check(t, b)))
  {
    var s' := Apply(s, Check(t, b));
    assert s.phase.Running?;
    assert Pinned(s', 0) && CleanIsHome(s');
    hide Distinct, Pinned, CleanIsHome, Copied, Installed;
  }

  lemma AppendInv(s: State, t: Tid, b: nat)
    requires Inv(s) && Enabled(s, Append(t, b)) && Fits(s, Append(t, b))
    ensures Inv(Apply(s, Append(t, b)))
  {
    var s' := Apply(s, Append(t, b));
    if b !in s.lh {
      assert s'.lh[|s.lh|] == b;
      assert forall i :: 0 <= i < |s.lh| ==> s'.lh[i] == s.lh[i];
      assert Pinned(s', 0);
    } else {
      assert Pinned(s', 0);
    }
  }

  lemma EndInv(s: State, t: Tid)
    requires Inv(s) && Enabled(s, End(t))
    ensures Inv(Apply(s, End(t)))
  {
    hide Apply, Enabled, Installed, Distinct;
    EndIs(s, t);
    OneLess(s.ops, t);
  }

  lemma EndIs(s: State, t: Tid)
    requires Enabled(s, End(t))
    ensures t in s.ops && t !in s.passed && forall b :: b in s.held ==> s.held[b] != t
    ensures Apply(s, End(t)) ==
              s.(ops := s.ops - {t}, outstanding := s.outstanding - 1, committing := s.committing || s.outstanding == 1,
                 phase := if s.outstanding == 1 then WriteLog(0) else s.phase)
  {
  }

  lemma OneLess(ops: map<Tid, nat>, t: Tid)
    requires t in ops
    ensures |ops - {t}| == |ops| - 1 && (|ops| == 1 ==> ops - {t} == map[]) && (|ops| > 1 ==> ops - {t} != map[])
  {
    var rest := ops - {t};
    assert rest.Keys == ops.Keys - {t};
    assert |rest| == |rest.Keys| && |ops| == |ops.Keys|;
    assert |rest.Keys| == 0 ==> rest == map[];
  }

  /** One iteration of write_log, inside the log area and past it. */
  lemma PutSlotIs(s: State)
    requires s.phase.WriteLog? && s.phase.tail < |s.lh|
    requires s.lh[s.phase.tail] in s.cache && s.lh[s.phase.tail] !in s.held
    requires var k, to := s.phase.tail, LOGSTART + 1 + s.phase.tail;
             if k < |s.disk.slot| then Room(s, {s.lh[k]}, 1)
             else to in s.disk.home && to !in s.held && Room(s, {s.lh[k], to}, 0)
    ensures Enabled(s, PutSlot)
    ensures var k, to, v := s.phase.tail, LOGSTART + 1 + s.phase.tail, s.cache[s.lh[s.phase.tail]];
            Apply(s, PutSlot) ==
              if k < |s.disk.slot| then s.(disk := s.disk.(slot := s.disk.slot[k := v]), phase := WriteLog(k + 1))
              else Spill(s, to, v).(phase := WriteLog(k + 1))
  {
    hide Room;
  }

  lemma PutSlotInv(s: State)
    requires Inv(s) && Enabled(s, PutSlot)
    ensures Inv(Apply(s, PutSlot))
    ensures s.disk.header == Apply(s, PutSlot).disk.header == [] && s.disk.home == Apply(s, PutSlot).disk.home
    ensures s.cache == Apply(s, PutSlot).cache
  {
    hide Room, Distinct;
    assert Copied(Apply(s, PutSlot), 0, s.phase.tail + 1);
  }

  lemma CommitPointInv(s: State, step: Step)
    requires Inv(s) && Enabled(s, step) && (step.SlotsDone? || step.PutHead?)
    ensures Inv(Apply(s, step))
  {
    hide Apply, Enabled, Distinct;
    CommitPointIs(s, step);
  }

  lemma CommitPointIs(s: State, step: Step)
    requires Enabled(s, step) && (step.SlotsDone? || step.PutHead?)
    ensures step.SlotsDone? ==> s.phase == WriteLog(|s.lh|)
                                && Apply(s, step) == s.(phase := if |s.lh| > 0 then WriteHead else EndCommit)
    ensures step.PutHead? ==> s.phase.WriteHead?
                              && Apply(s, step) == s.(disk := s.disk.(header := s.lh), phase := InstallTrans(0))
  {
  }

  lemma HomesDoneInv(s: State)
    requires Inv(s) && Enabled(s, HomesDone)
    ensures Inv(Apply(s, HomesDone))
  {
    hide Apply, Enabled;
    CommitEndIs(s, HomesDone);
  }

  lemma CommitEndInv(s: State, step: Step)
    requires Inv(s) && Enabled(s, step) && (step.PutClear? || step.Finish?)
    ensures Inv(Apply(s, step))
  {
    hide Apply, Enabled;
    CommitEndIs(s, step);
  }

  lemma CommitEndIs(s: State, step: Step)
    requires Enabled(s, step) && (step.HomesDone? || step.PutClear? || step.Finish?)
    ensures step.HomesDone? ==> s.phase == InstallTrans(|s.lh|) && Apply(s, step) == s.(lh := [], phase := ClearHead)
    ensures step.PutClear? ==> s.phase.ClearHead?
                               && Apply(s, step) == s.(disk := s.disk.(header := s.lh), phase := EndCommit)
    ensures step.Finish? ==> s.phase.EndCommit? && Apply(s, step) == s.(committing := false, phase := Running)
  {
  }

  lemma InstallFacts(s: State)
    requires Inv(s) && (s.phase.InstallTrans? || s.phase.RecoverInstall?)
    ensures s.phase.tail <= |s.lh| <= |s.disk.slot| && Distinct(s.lh) && Installed(s.disk, s.lh, s.phase.tail)
    ensures (forall b :: b in s.lh ==> b in s.disk.home) && s.cache.Keys <= s.disk.home.Keys && CleanIsHome(s)
  {
    hide Distinct, Copied, Pinned, Installed, CleanIsHome;
  }

  lemma CopyHomeEffect(s: State)
    requires Inv(s) && (s.phase.InstallTrans? || s.phase.RecoverInstall?) && s.phase.tail < |s.lh|
    ensures CopyHome(s).disk.home.Keys == s.disk.home.Keys
    ensures CopyHome(s).cache.Keys == s.cache.Keys + {s.lh[s.phase.tail]} <= s.disk.home.Keys
    ensures CleanIsHome(CopyHome(s))
    ensures Installed(CopyHome(s).disk, s.lh, s.phase.tail + 1)
  {
    hide Inv, Installed, Distinct;
    InstallFacts(s);
    var b, v := s.lh[s.phase.tail], s.disk.slot[s.phase.tail];
    assert b in s.disk.home;
    CleanAfterCopy(s.disk.home, s.cache, s.dirty, s.unlogged, b, v);
    InstalledNext(s.disk, s.lh, s.phase.tail);
    assert CopyHome(s).disk.home == s.disk.home[b := v] && CopyHome(s).cache == s.cache[b := v];
  }

  lemma InstalledNext(d: Disk, hdr: seq<nat>, k: nat)
    requires k < |hdr| <= |d.slot| && Distinct(hdr) && Installed(d, hdr, k)
    ensures Installed(d.(home := d.home[hdr[k] := d.slot[k]]), hdr, k + 1)
  {
  }

  lemma CleanAfterCopy(home: Home, cache: Home, dirty: set<nat>, unlogged: set<nat>, b: nat, v: Block)
    requires forall c :: c in cache && c in home && c !in dirty && c !in unlogged ==> cache[c] == home[c]
    ensures forall c :: c in cache[b := v] && c in home[b := v] && c !in dirty - {b} && c !in unlogged ==>
                      cache[b := v][c] == home[b := v][c]
  {
  }

  /** One iteration of install_trans, in commit or in recovery, leaves a well-formed state. */
  lemma CopyHomeWell(s: State, phase: Phase)
    requires Inv(s) && (s.phase.InstallTrans? || s.phase.RecoverInstall?) && s.phase.tail < |s.lh|
    requires if s.phase.InstallTrans? then phase.InstallTrans? else phase.RecoverInstall?
    ensures WellFormed(CopyHome(s).(phase := phase))
  {
    CopyHomeEffect(s);
    hide Distinct, PhaseInv, CleanIsHome;
  }

  lemma PutHomePhase(s: State)
    requires Inv(s) && Enabled(s, PutHome) && WellFormed(Apply(s, PutHome))
    ensures PhaseInv(Apply(s, PutHome))
  {
    hide Room;
    CopyHomeEffect(s);
    PutHomePins(s);
    hide Inv, Pinned, Copied, Installed, CleanIsHome;
  }

  /** The rest of the logged blocks stay pinned and copied. */
  lemma PutHomePins(s: State)
    requires Inv(s) && Enabled(s, PutHome)
    ensures var k, s' := s.phase.tail, Apply(s, PutHome);
            && s.disk.header == s.lh && k + 1 <= |s'.lh| <= |s'.disk.slot| && Pinned(s', k + 1)
            && Copied(s', k + 1, |s.lh|)
  {
    hide CleanIsHome, Installed, Room;
    var k := s.phase.tail;
    assert s.dirty - {s.lh[k]} == set i | k + 1 <= i < |s.lh| :: s.lh[i];
  }

  lemma PutHomeInv(s: State)
    requires Inv(s) && Enabled(s, PutHome)
    ensures Inv(Apply(s, PutHome))
  {
    CopyHomeEffect(s);
    CopyHomeWell(s, InstallTrans(s.phase.tail + 1));
    PutHomePhase(s);
    hide WellFormed, PhaseInv;
  }

  lemma RecoverPutPhase(s: State, s': State)
    requires Inv(s) && s.phase.RecoverInstall? && s.phase.tail < |s.lh|
             && s' == CopyHome(s).(phase := RecoverInstall(s.phase.tail + 1))
    requires WellFormed(s')
    ensures PhaseInv(s')
  {
    hide CleanIsHome, Distinct, Installed;
    CopyHomeEffect(s);
    assert s'.dirty == {};
  }

  lemma RecoverTail(s: State)
    requires Enabled(s, RecoverPut)
    ensures s.phase.RecoverInstall? && s.phase.tail < |s.lh|
    ensures Apply(s, RecoverPut) == CopyHome(s).(phase := RecoverInstall(s.phase.tail + 1))
  {
  }

  lemma RecoverPutInv(s: State)
    requires Inv(s) && Enabled(s, RecoverPut)
    ensures Inv(Apply(s, RecoverPut))
  {
    hide WellFormed, PhaseInv, Room;
    RecoverTail(s);
    CopyHomeEffect(s);
    CopyHomeWell(s, RecoverInstall(s.phase.tail + 1));
    RecoverPutPhase(s, Apply(s, RecoverPut));
  }

  lemma CrashInv(s: State)
    requires Inv(s)
    ensures Inv(Apply(s, Crash))
  {
  }

  lemma RecoveryStepInv(s: State, step: Step)
    requires Inv(s) && Enabled(s, step)
    requires step.ReadHead? || step.RecoverDone? || step.RecoverErase?
    ensures Inv(Apply(s, step))
  {
  }

  lemma StepInv(s: State, step: Step)
    requires Inv(s) && Enabled(s, step) && Fits(s, step)
    ensures Inv(Apply(s, step))
  {
    match step
    case Check(t, b) => CheckInv(s, t, b);
    case Append(t, b) => AppendInv(s, t, b);
    case End(t) => EndInv(s, t);
    case PutSlot => PutSlotInv(s);
    case SlotsDone => CommitPointInv(s, step);
    case PutHead => CommitPointInv(s, step);
    case HomesDone => HomesDoneInv(s);
    case PutClear => CommitEndInv(s, step);
    case Finish => CommitEndInv(s, step);
    case PutHome => PutHomeInv(s);
    case Crash => CrashInv(s);
    case ReadHead => RecoveryStepInv(s, step);
    case RecoverPut => RecoverPutInv(s);
    case RecoverDone => RecoveryStepInv(s, step);
    case RecoverErase => RecoveryStepInv(s, step);
    case Begin(t) => BeginInv(s, t);
    case Bread(t, b) => BreadInv(s, t, b);
    case Modify(t, b, v) => ModifyInv(s, t, b, v);
    case Brelse(t, b) => BrelseInv(s, t, b);
    case Evict(b) => EvictInv(s, b);
  }

  // ---------- what recovery would yield, step by step ----------

  lemma InstallKeepsRecovered(s: State, step: Step)
    requires Inv(s) && Enabled(s, step) && (step.PutHome? || step.RecoverPut?)
    ensures Recovered(s.disk) == Recovered(CopyHome(s).disk)
  {
    hide Room;
    assert s.lh[s.phase.tail] in s.disk.header;
    RecoveredSame(s.disk, CopyHome(s).disk);
  }

  lemma EraseKeepsRecovered(s: State, step: Step)
    requires Inv(s) && Enabled(s, step) && (step.PutClear? || step.RecoverErase?)
    ensures |Apply(s, step).disk.header| == 0
    ensures Recovered(Apply(s, step).disk) == Recovered(s.disk)
  {
    hide Room;
    RecoveredInstalled(s.disk);
  }

  /** Only the header write of commit() changes what recovery yields; it changes it to the
      logical contents at a moment when no operation is outstanding. */
  lemma StepRecovered(s: State, step: Step)
    requires Inv(s) && Enabled(s, step) && Fits(s, step)
    ensures Inv(Apply(s, step))
    ensures Recovered(Apply(s, step).disk) ==
            if step.PutHead? then Logical(s) else Recovered(s.disk)
    ensures step.PutHead? ==> s.ops == map[]
  {
    hide Inv, Room, Recovered, Logical;
    StepInv(s, step);
    var d, d' := s.disk, Apply(s, step).disk;
    HeaderFits(s);
    HeaderFits(Apply(s, step));
    match step
    case PutHead => HeadCommits(s);
    case PutHome => InstallKeepsRecovered(s, step);
    case RecoverPut => InstallKeepsRecovered(s, step);
    case PutClear => EraseKeepsRecovered(s, step);
    case RecoverErase => EraseKeepsRecovered(s, step);
    case PutSlot => SlotKeepsRecovered(s);
    case _ => assert d' == d;
  }

  lemma HeaderFits(s: State)
    requires Inv(s)
    ensures |s.disk.header| <= |s.disk.slot|
  {
  }

  lemma SlotKeepsRecovered(s: State)
    requires Inv(s) && Enabled(s, PutSlot)
    ensures |s.disk.header| == |Apply(s, PutSlot).disk.header| == 0
    ensures Recovered(Apply(s, PutSlot).disk) == Recovered(s.disk)
  {
    hide Inv, Enabled, Apply;
    PutSlotInv(s);
  }

  lemma HeadCommits(s: State)
    requires Inv(s) && Enabled(s, PutHead)
    ensures s.ops == map[] && |s.lh| <= |s.disk.slot| && Recovered(Apply(s, PutHead).disk) == Logical(s)
  {
    hide Room;
    WriteHeadLogical(s);
    hide Inv;
    InstallsLogical(s.disk.home, s.lh, s.disk.slot, Logical(s));
  }

  /** Before the header is written, the logged blocks are in the log and the others at home. */
  lemma WriteHeadLogical(s: State)
    requires Inv(s) && s.phase.WriteHead?
    ensures s.ops == map[] && |s.lh| <= |s.disk.slot| && Distinct(s.lh) && (forall b :: b in s.lh ==> b in s.disk.home)
    ensures forall i :: 0 <= i < |s.lh| ==> Logical(s)[s.lh[i]] == s.disk.slot[i]
    ensures forall b :: b in s.disk.home && b !in s.lh ==> Logical(s)[b] == s.disk.home[b]
  {
    hide Distinct;
  }

  lemma InstallsLogical(home: Home, lh: seq<nat>, slot: seq<Block>, logical: Home)
    requires |lh| <= |slot| && Distinct(lh) && logical.Keys == home.Keys && (forall b :: b in lh ==> b in home)
    requires forall i :: 0 <= i < |lh| ==> logical[lh[i]] == slot[i]
    requires forall b :: b in home && b !in lh ==> logical[b] == home[b]
    ensures Install(home, lh, slot, |lh|) == logical
  {
    var n := |lh|;
    var r := Install(home, lh, slot, n);
    InstallAt(home, lh, slot, n);
    assert lh[..n] == lh;
    hide Install, Distinct;
    assert r.Keys == home.Keys;
    forall b | b in home ensures r[b] == logical[b] {
      if b in lh {
        var i :| 0 <= i < n && lh[i] == b;
        assert r[lh[i]] == slot[i];
      }
    }
  }

  /** In a quiet state the cache holds nothing that recovery would not. */
  lemma QuietDurable(s: State)
    requires Inv(s) && Quiet(s)
    ensures Logical(s) == s.disk.home == Recovered(s.disk)
  {
  }

  lemma InstallKeepsLogical(s: State)
    requires Inv(s) && Enabled(s, PutHome)
    ensures Logical(CopyHome(s)) == Logical(s)
  {
    hide Room;
    assert s.lh[s.phase.tail] in s.disk.home;
  }

  lemma EvictKeepsLogical(s: State, b: nat)
    requires Inv(s) && Enabled(s, Evict(b))
    ensures Logical(Apply(s, Evict(b))) == Logical(s)
  {
    hide PhaseInv, Distinct;
    assert b !in s.unlogged;
    assert s.cache[b] == s.disk.home[b];
    EvictOverlay(s.disk.home, s.cache, b);
  }

  lemma EvictOverlay(home: Home, cache: map<nat, Block>, b: nat)
    requires b in cache && (b in home ==> cache[b] == home[b])
    ensures Overlay(home, cache - {b}) == Overlay(home, cache)
  {
  }

  /** Commit, cache traffic and the bookkeeping of begin_op/end_op/log_write leave the logical
      contents alone. */
  lemma StepLogical(s: State, step: Step)
    requires Inv(s) && Enabled(s, step) && !Recovering(s.phase)
    requires !step.Modify? && !step.Crash?
    ensures Logical(Apply(s, step)) == Logical(s)
  {
    hide Inv, Room;
    match step
    case PutHome => InstallKeepsLogical(s);
    case Evict(b) => EvictKeepsLogical(s, b);
    case Bread(t, b) => assert Overlay(s.disk.home, Apply(s, step).cache) == Overlay(s.disk.home, s.cache);
    case PutSlot => PutSlotInv(s);
    case _ =>
  }
}
