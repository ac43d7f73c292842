/** The table userinit leaves, and what wakeup1 does against what its comment says. */
module ProcBoot {
  import opened ProcSpec

  const BLANK := Proc(UNUSED, 0, -1, NoChan, false, 0, 0, 0)

  /** Processes lo, lo+1, .., hi-1. */
  function Range(lo: nat, hi: nat): (s: seq<nat>)
    requires lo <= hi
    ensures |s| == hi - lo && forall i :: 0 <= i < |s| ==> s[i] == lo + i
  {
    seq(hi - lo, i requires i >= 0 => lo + i)
  }

  function SetupQueue(n: nat, l: nat, k: nat): seq<nat>
    requires n <= NPROC
  {
    if k == 0 then Range(n, NPROC) else if k == l then Range(0, n) else []
  }

  /** Process i is first[i] for i < |first| and unused otherwise; those in use are queued on
      list l in order. */
  function Setup(first: seq<Proc>, l: nat, cpu: seq<int>): Table
    requires |first| <= NPROC && 0 < l < NLIST
  {
    Table(seq(NPROC, i requires 0 <= i < NPROC => if i < |first| then first[i] else BLANK),
          seq(NLIST, k requires 0 <= k < NLIST => SetupQueue(|first|, l, k)),
          cpu, map[], 2, 0)
  }

  /** After userinit: init is ready, everything else unused, no CPU has a process. */
  function Boot(ncpu: nat): Table {
    Setup([BLANK.(state := RUNNABLE, pid := 1, budget := BUDGET)], READY, seq(ncpu, _ => -1))
  }

  lemma SetupListed(first: seq<Proc>, l: nat, cpu: seq<int>)
    requires |first| <= NPROC && 0 < l < NLIST
    requires forall i :: 0 <= i < |first| ==> ListId(first[i]) == l
    ensures var t := Setup(first, l, cpu); Listed(t.procs, t.q, {})
  {
    var t := Setup(first, l, cpu);
    forall k, p: nat | On(t.q, k, p) ensures p < NPROC && ListId(t.procs[p]) == k {
      assert k == 0 || k == l;
    }
    forall p | 0 <= p < NPROC ensures On(t.q, ListId(t.procs[p]), p) {
      if p >= |first| {
        assert Range(|first|, NPROC)[p - |first|] == p;
      } else {
        assert Range(0, |first|)[p] == p;
      }
    }
  }

  lemma BootInv(ncpu: nat)
    ensures Inv(Boot(ncpu))
  {
    var t := Boot(ncpu);
    SetupListed([BLANK.(state := RUNNABLE, pid := 1, budget := BUDGET)], READY, t.cpu);
    assert Flying(t) == {};
  }

  /** The first process, pid 1, is ready at the default priority with a full budget and no parent; all other
      slots are unused, in order, and no CPU has a process. */
  lemma BootIs(ncpu: nat)
    ensures var t := Boot(ncpu);
            && |t.procs| == NPROC && |t.q| == NLIST && |t.cpu| == ncpu
            && t.init == 0 && t.nextpid == 2 && t.fork == map[]
            && t.procs[0] == Proc(RUNNABLE, 1, -1, NoChan, false, DEFAULTPRIO, BUDGET, 0)
            && (forall p :: 0 < p < NPROC ==> t.procs[p].state == UNUSED)
            && t.q[READY + DEFAULTPRIO] == [0]
            && |t.q[StateId(UNUSED)]| == NPROC - 1
            && (forall i :: 0 <= i < NPROC - 1 ==> t.q[StateId(UNUSED)][i] == i + 1)
            && (forall l :: 0 < l < NLIST && l != READY + DEFAULTPRIO ==> t.q[l] == [])
            && (forall c :: 0 <= c < ncpu ==> t.cpu[c] == -1)
  {
    assert Boot(ncpu).q[READY] == Range(0, 1) == [0];
  }

  // ---------- wakeup1 ----------

  ghost predicate AsleepOn(t: Table, chan: Chan, p: int) {
    0 <= p < |t.procs| && t.procs[p].state == SLEEPING && t.procs[p].chan == chan
  }

  /** The comment above wakeup1 promises that all processes sleeping on chan wake up. The list
      walk keeps that promise exactly when at most one process sleeps on chan. */
  lemma WakesAllIff(t: Table, chan: Chan)
    requires Inv(t)
    ensures (forall p :: !AsleepOn(Wake(t, chan), chan, p)) <==>
            (forall p, r :: AsleepOn(t, chan, p) && AsleepOn(t, chan, r) ==> p == r)
  {
    hide CpuMatch, Family, Forks, Waiters;
    var s := t.q[StateId(SLEEPING)];
    var k := FirstSleeper(t.procs, s, chan);
    forall p | AsleepOn(t, chan, p) ensures k < |s| && AsleepOn(t, chan, s[k]) {
      SleeperListed(t, p);
      var i :| 0 <= i < |s| && s[i] == p;
      assert i >= k;
    }
    hide FirstSleeper, Listed;
    var w := Wake(t, chan);
    if k < |s| {
      assert w.procs == t.procs[s[k] := t.procs[s[k]].(state := RUNNABLE)];
      assert forall p :: AsleepOn(w, chan, p) <==> AsleepOn(t, chan, p) && p != s[k];
    }
  }

  lemma SleeperListed(t: Table, p: nat)
    requires Inv(t) && p < NPROC && t.procs[p].state == SLEEPING
    ensures p in t.q[StateId(SLEEPING)]
  {
    assert p !in Flying(t);
    assert On(t.q, StateId(SLEEPING), p);
  }
}
