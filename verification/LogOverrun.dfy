/** Runs from boot that fill the log of src/log.c, and for which sizes of the log area its guards are
    enough: where log_write panics on a reserved block, where processes that race through its unlocked
    guard log more blocks than the log area holds, and what becomes of the disk then. */
module LogOverrun {
  import opened Common
  import opened LogProtocol
  import opened LogProofs
  import opened LogRuns
  import opened LogBuffers

  // ---------- a freshly booted system ----------

  // mkfs makes the log LOGSIZE blocks long with its header included (src/mkfs.c:25), so the
  // guard of log_write can fire before a reservation is used up.

  /** The block right behind the log area, the first block of inodes. */
  function Behind(size: nat): nat {
    LOGSTART + size
  }

  /** The blocks the operations below write. */
  function Blks(size: nat, n: nat): (r: seq<nat>)
    ensures |r| == n && forall k :: 0 <= k < n ==> r[k] == Blk(size, k)
  {
    seq(n, k requires k >= 0 => Blk(size, k))
  }

  function Blk(size: nat, k: nat): nat {
    Behind(size) + 1 + k
  }

  function Zeroed(bs: seq<nat>): Home {
    map b | b in bs :: []
  }

  /** Nothing is logged, and every block is empty. */
  function Fresh(size: nat): State
    requires size >= 1
  {
    State(Disk([], seq(size - 1, _ => []), Zeroed([Behind(size)] + Blks(size, LOGSIZE + 2))), size,
          map[], {}, map[], {}, [], map[], map[], 0, false, Running)
  }

  lemma FreshInv(size: nat)
    requires size >= 1
    ensures Inv(Fresh(size)) && Reserved(Fresh(size)) && Quiet(Fresh(size)) && Fresh(size).size == size
    ensures Buffered(Fresh(size)) && Tidy(Fresh(size)) && Pins(Fresh(size)) && Bounded(Fresh(size))
  {
    InvPins(Fresh(size));
  }

  /** The operation that logs block i, of three that take turns. */
  function Turn(i: nat): Tid {
    i % 3
  }

  /** How many blocks each has logged after i. */
  function Turns(i: nat): map<Tid, nat> {
    map[0 := (i + 2) / 3, 1 := (i + 1) / 3, 2 := i / 3]
  }

  /** Three operations outstanding, i blocks logged, a third of them by each. */
  function Filled(size: nat, i: nat): State
    requires size >= 1 && i <= LOGSIZE
  {
    var bs := Blks(size, i);
    Fresh(size).(cache := Zeroed(bs), dirty := Zeroed(bs).Keys, lh := bs, ops := Turns(i), outstanding := 3)
  }

  lemma BlksNext(size: nat, i: nat)
    ensures Blks(size, i + 1) == Blks(size, i) + [Blk(size, i)]
    ensures Zeroed(Blks(size, i + 1)) == Zeroed(Blks(size, i))[Blk(size, i) := []]
    ensures Zeroed(Blks(size, i + 1)).Keys == Zeroed(Blks(size, i)).Keys + {Blk(size, i)}
    ensures forall k: nat :: k >= i ==> Blk(size, k) !in Blks(size, i) && Blk(size, k) !in Zeroed(Blks(size, i))
  {
    var bs, b := Blks(size, i), Blk(size, i);
    assert Blks(size, i + 1) == bs + [b];
    assert forall c :: c in bs + [b] <==> c in bs || c == b;
  }

  /** The operation that is to log block i + m has logged (i + m) / 3 blocks before. */
  lemma TurnsAt(i: nat)
    ensures Turn(i) in Turns(i) && Turns(i)[Turn(i)] == i / 3
    ensures Turn(i + 1) in Turns(i) && Turns(i)[Turn(i + 1)] == (i + 1) / 3
    ensures Turn(i + 2) in Turns(i) && Turns(i)[Turn(i + 2)] == (i + 2) / 3
    ensures Turn(i) != Turn(i + 1) && Turn(i) != Turn(i + 2) && Turn(i + 1) != Turn(i + 2)
    ensures Turns(i)[Turn(i) := i / 3 + 1] == Turns(i + 1)
  {
    var q := i / 3;
    assert i == 3 * q || i == 3 * q + 1 || i == 3 * q + 2;
  }

  lemma HomeHas(size: nat, i: nat)
    requires size >= 1 && i < LOGSIZE + 2
    ensures Blk(size, i) in Fresh(size).disk.home && Fresh(size).disk.home[Blk(size, i)] == []
    ensures Behind(size) in Fresh(size).disk.home && Fresh(size).disk.home[Behind(size)] == []
    ensures Blk(size, i) != Behind(size) && forall n :: Behind(size) !in Blks(size, n)
  {
    assert ([Behind(size)] + Blks(size, LOGSIZE + 2))[i + 1] == Blk(size, i);
    assert ([Behind(size)] + Blks(size, LOGSIZE + 2))[0] == Behind(size);
  }

  lemma {:induction false} BlksCount(size: nat, n: nat)
    ensures |Zeroed(Blks(size, n)).Keys| == n
  {
    if n > 0 {
      BlksCount(size, n - 1);
      BlksNext(size, n - 1);
    } else {
      assert Zeroed(Blks(size, 0)).Keys == {};
    }
  }

  /** There are buffers enough as long as m of these blocks and the others named are all that is in use. */
  lemma Enough(s: State, size: nat, m: nat, bs: set<nat>, others: set<nat>, logs: nat)
    requires s.dirty + s.held.Keys + bs <= Zeroed(Blks(size, m)).Keys + others && m + |others| + logs <= NBUF
    ensures Room(s, bs, logs)
  {
    BlksCount(size, m);
    hide Zeroed, Blks;
    var all := Zeroed(Blks(size, m)).Keys;
    Fewer(s.dirty + s.held.Keys + bs, all + others);
    assert all + others == all + (others - all);
    Fewer(others - all, others);
  }

  // ---------- building runs ----------

  /** Nobody has touched the block behind the log area. */
  predicate Pristine(s: State, size: nat) {
    Behind(size) in s.disk.home && s.disk.home[Behind(size)] == [] && Behind(size) !in s.cache
  }

  predicate PristineRun(run: seq<State>, size: nat) {
    forall i :: 0 <= i < |run| ==> Pristine(run[i], size)
  }

  /** A run from boot so far. */
  ghost predicate From(run: seq<State>, steps: seq<Step>, size: nat)
    requires size >= 1
  {
    && IsRun(run, steps) && |run| > 0 && run[0] == Fresh(size)
    && PristineRun(run, size) && Pristine(run[|run| - 1], size)
  }

  /** A run with one step more. */
  lemma Then(run: seq<State>, steps: seq<Step>, size: nat, step: Step) returns (run': seq<State>, steps': seq<Step>)
    requires size >= 1 && From(run, steps, size) && Enabled(run[|run| - 1], step)
    ensures IsRun(run', steps') && run' == run + [Apply(run[|run| - 1], step)]
    ensures Pristine(Apply(run[|run| - 1], step), size) ==> From(run', steps', size)
    ensures FrugalRun(run, steps) && Frugal(run[|run| - 1], step) ==> FrugalRun(run', steps')
  {
    hide Apply, Enabled, Frugal, Fresh, Pristine;
    run', steps' := run + [Apply(run[|run| - 1], step)], steps + [step];
  }

  /** Operation t has written v to block b and has passed the guard of log_write. */
  function Passing(s: State, t: Tid, b: nat, v: Block): State {
    s.(cache := s.cache[b := v], held := s.held[b := t], unlogged := s.unlogged + {b}, passed := s.passed[t := b])
  }

  lemma Passes(run: seq<State>, steps: seq<Step>, size: nat, t: Tid, b: nat, v: Block)
    returns (run': seq<State>, steps': seq<Step>)
    requires size >= 1 && From(run, steps, size) && b != Behind(size)
    requires var s := run[|run| - 1];
             && s.phase == Running && t in s.ops && t !in s.passed && b in s.disk.home
             && b !in s.held && b !in s.cache && !LogWritePanics(s) && Room(s, {b}, 0)
    ensures From(run', steps', size) && run'[|run'| - 1] == Passing(run[|run| - 1], t, b, v)
    ensures FrugalRun(run, steps) ==> FrugalRun(run', steps')
  {
    hide Fresh, IsRun, PristineRun, FrugalRun, Room;
    run', steps' := Then(run, steps, size, Bread(t, b));
    run', steps' := Then(run', steps', size, Modify(t, b, v));
    run', steps' := Then(run', steps', size, Check(t, b));
  }

  /** A process that has passed appends its block without looking again. */
  function Appended(s: State, t: Tid, b: nat): State
    requires t in s.ops
  {
    s.(dirty := s.dirty + {b}, unlogged := s.unlogged - {b}, passed := s.passed - {t}, lh := s.lh + [b],
       ops := s.ops[t := s.ops[t] + 1])
  }

  lemma Appends(run: seq<State>, steps: seq<Step>, size: nat, t: Tid, b: nat)
    returns (run': seq<State>, steps': seq<Step>)
    requires size >= 1 && From(run, steps, size)
    requires var s := run[|run| - 1]; t in s.ops && t in s.passed && s.passed[t] == b && b !in s.lh
    ensures From(run', steps', size) && run'[|run'| - 1] == Appended(run[|run| - 1], t, b)
    ensures FrugalRun(run, steps) && run[|run| - 1].ops[t] < MAXOPBLOCKS ==> FrugalRun(run', steps')
  {
    hide Fresh, IsRun, PristineRun, FrugalRun;
    run', steps' := Then(run, steps, size, Append(t, b));
  }

  // ---------- filling the log ----------

  lemma FilledIs(size: nat, n: nat)
    requires size >= 1 && n <= LOGSIZE
    ensures var s := Filled(size, n);
            && s.phase == Running && s.lh == Blks(size, n) && s.disk == Fresh(size).disk && s.ops == Turns(n)
            && s.size == size
            && s.passed == map[] && s.held == map[] && s.unlogged == {} && s.cache == Zeroed(Blks(size, n))
            && s.dirty == Zeroed(Blks(size, n)).Keys
            && s.outstanding == 3
            && (LogWritePanics(s) <==> n >= Limit(size)) && Pristine(s, size)
  {
    HomeHas(size, 0);
  }

  /** There are buffers for the next block, and for two more. */
  lemma FilledRoom(size: nat, n: nat)
    requires size >= 1 && n < NBUF
    ensures var s0 := Filled(size, n);
            && Room(s0, {Blk(size, n)}, 0)
            && var s1 := Passing(s0, Turn(n), Blk(size, n), []);
            && (n + 2 <= NBUF ==> Room(s1, {Blk(size, n + 1)}, 0))
            && var s2 := Passing(s1, Turn(n + 1), Blk(size, n + 1), []);
            && (n + 3 <= NBUF ==> Room(s2, {Blk(size, n + 2)}, 0))
  {
    hide Blks, Blk, Turn, Zeroed, Room, Turns, Filled;
    FilledIs(size, n);
    TakesOne(Filled(size, n), size, n);
    TakesTwo(Filled(size, n), size, n);
    TakesThree(Filled(size, n), size, n);
  }

  lemma TakesOne(s: State, size: nat, n: nat)
    requires s.dirty == Zeroed(Blks(size, n)).Keys && s.held == map[] && n < NBUF
    ensures Room(s, {Blk(size, n)}, 0)
  {
    hide Blks, Blk, Zeroed, Room;
    BlksNext(size, n);
    Enough(s, size, n + 1, {Blk(size, n)}, {}, 0);
  }

  lemma TakesTwo(s: State, size: nat, n: nat)
    requires s.dirty == Zeroed(Blks(size, n)).Keys && s.held == map[]
    ensures n + 2 <= NBUF ==> Room(Passing(s, Turn(n), Blk(size, n), []), {Blk(size, n + 1)}, 0)
  {
    hide Blks, Blk, Zeroed, Room, Turn;
    BlksNext(size, n);
    BlksNext(size, n + 1);
    if n + 2 <= NBUF {
      Enough(Passing(s, Turn(n), Blk(size, n), []), size, n + 2, {Blk(size, n + 1)}, {}, 0);
    }
  }

  lemma TakesThree(s: State, size: nat, n: nat)
    requires s.dirty == Zeroed(Blks(size, n)).Keys && s.held == map[]
    ensures var s' := Passing(Passing(s, Turn(n), Blk(size, n), []), Turn(n + 1), Blk(size, n + 1), []);
            n + 3 <= NBUF ==> Room(s', {Blk(size, n + 2)}, 0)
  {
    hide Blks, Blk, Zeroed, Room, Turn;
    BlksNext(size, n);
    BlksNext(size, n + 1);
    BlksNext(size, n + 2);
    var s' := Passing(Passing(s, Turn(n), Blk(size, n), []), Turn(n + 1), Blk(size, n + 1), []);
    assert s'.held.Keys == {Blk(size, n), Blk(size, n + 1)};
    if n + 3 <= NBUF {
      Enough(s', size, n + 3, {Blk(size, n + 2)}, {}, 0);
    }
  }

  /** One operation reads block i, logs it and releases it. */
  lemma FilledStep(run: seq<State>, steps: seq<Step>, size: nat, i: nat) returns (run': seq<State>, steps': seq<Step>)
    requires i < LOGSIZE && i < size - 1 && From(run, steps, size) && FrugalRun(run, steps)
             && run[|run| - 1] == Filled(size, i)
    ensures From(run', steps', size) && FrugalRun(run', steps') && run'[|run'| - 1] == Filled(size, i + 1)
  {
    hide Blks, Blk, Turns, Turn, Zeroed, FrugalRun, IsRun, PristineRun, Behind, Fresh, Room;
    var s, t, b := Filled(size, i), Turn(i), Blk(size, i);
    FilledIs(size, i);
    FilledIs(size, i + 1);
    BlksNext(size, i);
    TurnsAt(i);
    HomeHas(size, i);
    FilledRoom(size, i);
    run', steps' := Passes(run, steps, size, t, b, []);
    run', steps' := Appends(run', steps', size, t, b);
    var s2 := run'[|run'| - 1];
    assert s2.held - {b} == map[] && s2.passed == map[] && s2.unlogged == {};
    run', steps' := Then(run', steps', size, Brelse(t, b));
    assert run'[|run'| - 1] == Filled(size, i + 1);
  }

  lemma {:induction false} FillLog(size: nat, i: nat) returns (run: seq<State>, steps: seq<Step>)
    requires i <= LOGSIZE && i < size
    ensures From(run, steps, size) && FrugalRun(run, steps) && run[|run| - 1] == Filled(size, i)
  {
    if i == 0 {
      HomeHas(size, 0);
      var s1 := Apply(Fresh(size), Begin(0));
      var s2 := Apply(s1, Begin(1));
      var s3 := Apply(s2, Begin(2));
      run, steps := [Fresh(size), s1, s2, s3], [Begin(0), Begin(1), Begin(2)];
      assert s3.ops == Turns(0) && Zeroed(Blks(size, 0)) == map[] && Blks(size, 0) == [];
    } else {
      run, steps := FillLog(size, i - 1);
      hide Filled, Fresh, FrugalRun, From;
      run, steps := FilledStep(run, steps, size, i - 1);
    }
  }

  /** For a log of at most LOGSIZE blocks, header included, the reservation is not enough: some
      run from boot, with every operation inside its reservation, makes log_write panic. */
  lemma ReservedWritePanics(size: nat) returns (run: seq<State>, steps: seq<Step>, t: Tid)
    requires 1 <= size <= LOGSIZE
    ensures FrugalRun(run, steps) && run[0] == Fresh(size) && Inv(run[0]) && Reserved(run[0])
    ensures var s := run[|run| - 1];
            t in s.ops && s.ops[t] < MAXOPBLOCKS && LogWritePanics(s)
  {
    hide Inv, Reserved, Fresh, Filled, Turns, Turn, FrugalRun, PristineRun;
    FreshInv(size);
    run, steps := FillLog(size, size - 1);
    FilledIs(size, size - 1);
    t := Turn(size - 1);
    TurnsAt(size - 1);
  }

  /** For a longer log, however long, absorption is not safe: some run from boot, with every operation
      inside its reservation, ends with an operation that holds a block which is logged already, and
      whose log_write of it, which would add nothing to the log, panics. */
  lemma AbsorbedWritePanics(size: nat) returns (run: seq<State>, steps: seq<Step>, t: Tid, b: nat)
    requires size > LOGSIZE
    ensures FrugalRun(run, steps) && run[0] == Fresh(size) && Inv(run[0]) && Reserved(run[0])
    ensures var s := run[|run| - 1];
            t in s.ops && b in s.held && s.held[b] == t && b in s.lh && LogWritePanics(s)
  {
    hide Inv, Reserved, Fresh, Filled, Turns, Turn, FrugalRun, PristineRun;
    FreshInv(size);
    run, steps := FillLog(size, LOGSIZE);
    FilledIs(size, LOGSIZE);
    HomeHas(size, 0);
    TurnsAt(LOGSIZE);
    t, b := Turn(LOGSIZE), Blk(size, 0);
    assert Blks(size, LOGSIZE)[0] == b;
    Enough(run[|run| - 1], size, LOGSIZE, {b}, {}, 0);
    run, steps := Then(run, steps, size, Bread(t, b));
  }

  // ---------- overrunning the log ----------

  /** With n blocks logged, two operations pass the guard; the second has written v. */
  lemma PassTwo(size: nat, n: nat, v: Block) returns (run: seq<State>, steps: seq<Step>)
    requires n + 2 <= NBUF && n < size - 1
    ensures From(run, steps, size) && FrugalRun(run, steps)
    ensures run[|run| - 1] ==
              Passing(Passing(Filled(size, n), Turn(n), Blk(size, n), []), Turn(n + 1), Blk(size, n + 1), v)
  {
    hide Blks, Blk, Turns, Turn, Zeroed, FrugalRun, IsRun, PristineRun, Behind, Fresh, Filled, Room;
    run, steps := FillLog(size, n);
    FilledIs(size, n);
    BlksNext(size, n);
    HomeHas(size, n);
    HomeHas(size, n + 1);
    TurnsAt(n);
    DiffBlks(size, n);
    FilledRoom(size, n);
    run, steps := Passes(run, steps, size, Turn(n), Blk(size, n), []);
    run, steps := Passes(run, steps, size, Turn(n + 1), Blk(size, n + 1), v);
  }

  lemma DiffBlks(size: nat, n: nat)
    ensures Blk(size, n) != Blk(size, n + 1) && Blk(size, n) != Blk(size, n + 2) && Blk(size, n + 1) != Blk(size, n + 2)
  {
  }

  /** The state once both have appended. */
  function Raced(size: nat, n: nat, v: Block): State
    requires size >= 1 && n + 2 <= LOGSIZE
  {
    var b, c := Blk(size, n), Blk(size, n + 1);
    Filled(size, n + 2).(cache := Zeroed(Blks(size, n + 1))[c := v], held := map[b := Turn(n), c := Turn(n + 1)])
  }

  lemma BothAppend(size: nat, n: nat, v: Block) returns (run: seq<State>, steps: seq<Step>)
    requires n + 2 <= LOGSIZE && n < size - 1
    ensures From(run, steps, size) && FrugalRun(run, steps) && run[|run| - 1] == Raced(size, n, v)
  {
    hide Blks, Blk, Turns, Turn, Zeroed, FrugalRun, IsRun, PristineRun, Behind, Fresh;
    run, steps := PassTwo(size, n, v);
    FilledIs(size, n);
    BlksNext(size, n);
    BlksNext(size, n + 1);
    TurnsAt(n);
    TurnsAt(n + 1);
    DiffBlks(size, n);
    var b, c := Blk(size, n), Blk(size, n + 1);
    run, steps := Appends(run, steps, size, Turn(n), b);
    run, steps := Appends(run, steps, size, Turn(n + 1), c);
    RacedIs(size, n, v);
  }

  lemma RacedIs(size: nat, n: nat, v: Block)
    requires size >= 1 && n + 2 <= LOGSIZE
    ensures var b, c, t, u := Blk(size, n), Blk(size, n + 1), Turn(n), Turn(n + 1);
            var s := Passing(Passing(Filled(size, n), t, b, []), u, c, v);
            && t in s.ops && u in s.ops
            && Appended(Appended(s, t, b), u, c) == Raced(size, n, v)
  {
    hide Blks, Blk, Turns, Turn, Zeroed, Behind;
    var b, c, t, u := Blk(size, n), Blk(size, n + 1), Turn(n), Turn(n + 1);
    BlksNext(size, n);
    BlksNext(size, n + 1);
    TurnsAt(n);
    TurnsAt(n + 1);
    DiffBlks(size, n);
    var s := Appended(Appended(Passing(Passing(Filled(size, n), t, b, []), u, c, v), t, b), u, c);
    assert s.passed == map[] && s.unlogged == {};
    assert s.ops == Turns(n + 2) && s.lh == Blks(size, n + 2);
    assert s.dirty == Zeroed(Blks(size, n + 2)).Keys;
  }

  /** For a log of 2 to LOGSIZE blocks, header included, some run from boot, with every operation inside
      its reservation, logs one block more than the log area holds. */
  lemma Overrun(size: nat) returns (run: seq<State>, steps: seq<Step>)
    requires 2 <= size <= LOGSIZE
    ensures FrugalRun(run, steps) && run[0] == Fresh(size)
    ensures var s := run[|run| - 1]; |s.lh| == size == |s.disk.slot| + 1 && s.phase == Running
  {
    run, steps := BothAppend(size, size - 2, []);
  }

  /** A run from boot: with every operation inside its reservation, or with any callers. */
  ghost predicate Boots(run: seq<State>, steps: seq<Step>, size: nat, frugal: bool)
    requires size >= 1
  {
    IsRun(run, steps) && run[0] == Fresh(size) && (frugal ==> FrugalRun(run, steps))
  }

  /** Whether some run from boot takes the log past its area. */
  ghost predicate Overruns(size: nat, frugal: bool)
    requires size >= 1
  {
    exists run: seq<State>, steps: seq<Step> :: Boots(run, steps, size, frugal) && Over(run[|run| - 1])
  }

  /** The log can be overrun exactly at the sizes from 2 to LOGSIZE, mkfs's among them: in longer logs the
      reservations, and whatever the callers do the buffers, run out first. */
  lemma OverrunsIff(size: nat, frugal: bool)
    requires size >= 1
    ensures Overruns(size, frugal) <==> 2 <= size <= LOGSIZE
  {
    hide Fresh, Inv, Reserved;
    if 2 <= size <= LOGSIZE {
      var run, steps := Overrun(size);
      assert Boots(run, steps, size, frugal) && Over(run[|run| - 1]);
    } else {
      forall run: seq<State>, steps: seq<Step> | Boots(run, steps, size, frugal) ensures !Over(run[|run| - 1]) {
        NeverOver(run, steps, size, |run| - 1);
      }
    }
  }

  lemma NeverOver(run: seq<State>, steps: seq<Step>, size: nat, n: nat)
    requires size == 1 || size > NBUF
    requires IsRun(run, steps) && run[0] == Fresh(size) && n < |run|
    ensures NoOverrun(run, n)
  {
    FreshInv(size);
    if size > NBUF {
      hide Inv, Buffered;
      NeverOverruns(run, steps, n);
    } else {
      forall i: nat | i <= n ensures !Over(run[i]) {
        NoLogNoOverrun(run, steps, i);
      }
    }
  }

  /** A log without log blocks: the guard lets nobody pass. */
  ghost predicate Shut(s: State) {
    s.size == 1 && s.lh == [] && s.passed == map[] && s.disk.header == [] && |s.disk.slot| == 0
  }

  lemma ShutStep(s: State, step: Step)
    requires Shut(s) && Enabled(s, step)
    ensures Shut(Apply(s, step))
  {
  }

  lemma {:induction false} NoLogNoOverrun(run: seq<State>, steps: seq<Step>, n: nat)
    requires IsRun(run, steps) && run[0] == Fresh(1) && n < |run|
    ensures Shut(run[n])
  {
    hide Apply, Enabled;
    if n > 0 {
      NoLogNoOverrun(run, steps, n - 1);
      hide Shut;
      ShutStep(run[n - 1], steps[n - 1]);
    }
  }

  /** The state once three operations have passed the guard and appended. */
  function Raced3(size: nat): State
    requires 2 <= size < NBUF
  {
    var n := size - 2;
    var b, c, d := Blk(size, n), Blk(size, n + 1), Blk(size, n + 2);
    var t, u, w := Turn(n), Turn(n + 1), Turn(n + 2);
    TurnsAt(n);
    var s := Passing(Passing(Passing(Filled(size, n), t, b, []), u, c, []), w, d, []);
    Appended(Appended(Appended(s, t, b), u, c), w, d)
  }

  lemma ThreeAppend(size: nat) returns (run: seq<State>, steps: seq<Step>)
    requires 2 <= size < NBUF
    ensures From(run, steps, size) && FrugalRun(run, steps) && run[|run| - 1] == Raced3(size)
  {
    var n := size - 2;
    hide Blks, Blk, Turns, Turn, Zeroed, FrugalRun, IsRun, PristineRun, Behind, Fresh, Filled, Room;
    run, steps := PassTwo(size, n, []);
    FilledRoom(size, n);
    FilledIs(size, n);
    BlksNext(size, n);
    BlksNext(size, n + 1);
    BlksNext(size, n + 2);
    HomeHas(size, n + 2);
    TurnsAt(n);
    DiffBlks(size, n);
    run, steps := Passes(run, steps, size, Turn(n + 2), Blk(size, n + 2), []);
    run, steps := Appends(run, steps, size, Turn(n), Blk(size, n));
    run, steps := Appends(run, steps, size, Turn(n + 1), Blk(size, n + 1));
    run, steps := Appends(run, steps, size, Turn(n + 2), Blk(size, n + 2));
  }

  /** Whether some run from boot logs m blocks. */
  ghost predicate Logs(size: nat, m: nat, frugal: bool)
    requires size >= 1
  {
    exists run: seq<State>, steps: seq<Step> ::
      Boots(run, steps, size, frugal) && !Recovering(run[|run| - 1].phase) && |run[|run| - 1].lh| == m
  }

  /** How many blocks can be logged at once: two more than the guard allows, and no more than there are
      buffers, so the array in the header, of LOGSIZE entries, is not overrun. */
  lemma LogsIff(size: nat, m: nat, frugal: bool)
    requires size >= 1
    ensures Logs(size, m, frugal) <==> if size == 1 then m == 0 else m <= Most(size)
    ensures Most(size) <= LOGSIZE
  {
    if if size == 1 then m == 0 else m <= Most(size) {
      LogsSome(size, m, frugal);
    } else {
      forall run: seq<State>, steps: seq<Step> |
        Boots(run, steps, size, frugal) && !Recovering(run[|run| - 1].phase)
        ensures |run[|run| - 1].lh| != m
      {
        FreshInv(size);
        hide Fresh, Inv, Pins, Tidy;
        OverrunBound(run, steps, |run| - 1);
        SizeSame(run, steps, |run| - 1);
        if size == 1 {
          NoLogNoOverrun(run, steps, |run| - 1);
        }
      }
    }
  }

  lemma {:induction false} SizeSame(run: seq<State>, steps: seq<Step>, n: nat)
    requires IsRun(run, steps) && n < |run|
    ensures run[n].size == run[0].size
  {
    hide Enabled, Apply;
    if n > 0 {
      SizeSame(run, steps, n - 1);
      SameSize(run[n - 1], steps[n - 1]);
    }
  }

  lemma LogsSome(size: nat, m: nat, frugal: bool)
    requires size >= 1 && if size == 1 then m == 0 else m <= Most(size)
    ensures Logs(size, m, frugal)
  {
    hide Fresh, Blks, Zeroed, PristineRun, Raced3;
    var run, steps;
    if m <= Limit(size) {
      run, steps := FillLog(size, m);
      FilledIs(size, m);
    } else if m == Limit(size) + 1 {
      run, steps := BothAppend(size, m - 2, []);
      FilledIs(size, m);
    } else {
      run, steps := ThreeAppend(size);
      Raced3Is(size);
    }
    assert Boots(run, steps, size, frugal) && |run[|run| - 1].lh| == m;
  }

  // ---------- what an overrun does ----------

  /** The operations end; commit has copied k of the logged blocks. */
  function Copying(size: nat, v: Block, k: nat): State
    requires 2 <= size <= LOGSIZE
  {
    Raced(size, size - 2, v).(held := map[], ops := map[], outstanding := 0, committing := true, phase := WriteLog(k))
  }

  /** An operation releases a block it has logged. */
  lemma Releases(run: seq<State>, steps: seq<Step>, size: nat, t: Tid, b: nat)
    returns (run': seq<State>, steps': seq<Step>)
    requires size >= 1 && From(run, steps, size) && FrugalRun(run, steps)
    requires var s := run[|run| - 1]; s.passed == map[] && s.unlogged == {} && b in s.held && s.held[b] == t
    ensures From(run', steps', size) && FrugalRun(run', steps')
    ensures run'[|run'| - 1] == run[|run| - 1].(held := run[|run| - 1].held - {b})
  {
    hide FrugalRun, IsRun, PristineRun, Fresh;
    run', steps' := Then(run, steps, size, Brelse(t, b));
  }

  lemma BothRelease(size: nat, v: Block) returns (run: seq<State>, steps: seq<Step>)
    requires 2 <= size <= LOGSIZE
    ensures From(run, steps, size) && FrugalRun(run, steps)
    ensures run[|run| - 1] == Raced(size, size - 2, v).(held := map[])
  {
    hide Blks, Blk, Turn, Zeroed, FrugalRun, IsRun, PristineRun, Behind, Fresh, Filled;
    var n := size - 2;
    run, steps := BothAppend(size, n, v);
    FilledIs(size, size);
    DiffBlks(size, n);
    run, steps := Releases(run, steps, size, Turn(n), Blk(size, n));
    run, steps := Releases(run, steps, size, Turn(n + 1), Blk(size, n + 1));
    assert run[|run| - 1].held == map[];
  }

  /** An operation that holds nothing ends. */
  lemma Ends(run: seq<State>, steps: seq<Step>, size: nat, t: Tid) returns (run': seq<State>, steps': seq<Step>)
    requires size >= 1 && From(run, steps, size) && FrugalRun(run, steps)
    requires var s := run[|run| - 1]; t in s.ops && s.passed == map[] && s.held == map[]
    ensures From(run', steps', size) && FrugalRun(run', steps')
    ensures run'[|run'| - 1] == Apply(run[|run| - 1], End(t))
  {
    hide FrugalRun, IsRun, PristineRun, Fresh;
    run', steps' := Then(run, steps, size, End(t));
  }

  /** The three operations end. */
  function Ended(s: State): State {
    s.(ops := map[], outstanding := 0, committing := true, phase := WriteLog(0))
  }

  lemma AllEnd(run: seq<State>, steps: seq<Step>, size: nat) returns (run': seq<State>, steps': seq<Step>)
    requires size >= 1 && From(run, steps, size) && FrugalRun(run, steps)
    requires var s := run[|run| - 1];
             && s.phase.Running? && s.ops.Keys == {0, 1, 2} && s.outstanding == 3
             && s.passed == map[] && s.held == map[]
    ensures From(run', steps', size) && FrugalRun(run', steps') && run'[|run'| - 1] == Ended(run[|run| - 1])
  {
    hide FrugalRun, From, Zeroed, Fresh, Filled;
    FromSome(run, steps, size);
    run', steps' := Ends(run, steps, size, 0);
    FromSome(run', steps', size);
    run', steps' := Ends(run', steps', size, 1);
    FromSome(run', steps', size);
    run', steps' := Ends(run', steps', size, 2);
    FromSome(run', steps', size);
    assert run'[|run'| - 1].ops == map[];
  }

  lemma FromSome(run: seq<State>, steps: seq<Step>, size: nat)
    requires size >= 1
    ensures From(run, steps, size) ==> |run| > 0
  {
  }

  /** The blocks that fit are copied; only the last of the logged blocks is not empty. */
  lemma {:induction false} Copies(size: nat, v: Block, k: nat) returns (run: seq<State>, steps: seq<Step>)
    requires 2 <= size < NBUF && k < size
    ensures From(run, steps, size) && FrugalRun(run, steps) && run[|run| - 1] == Copying(size, v, k)
  {
    hide FrugalRun, IsRun, PristineRun, Fresh, Enabled, Apply, Blks, Blk, Zeroed;
    if k == 0 {
      run, steps := BothRelease(size, v);
      FilledIs(size, size);
      run, steps := AllEnd(run, steps, size);
    } else {
      run, steps := Copies(size, v, k - 1);
      CopyNext(size, v, k - 1);
      hide Copying;
      run, steps := Then(run, steps, size, PutSlot);
    }
  }

  lemma CopyRoom(size: nat, v: Block, k: nat)
    requires 2 <= size < NBUF && k < size
    ensures var s := Copying(size, v, k);
            Room(s, {s.lh[k]}, 1) && (k == size - 1 ==> Room(s, {s.lh[k], Behind(size)}, 0))
  {
    hide Room;
    var s := Copying(size, v, k);
    assert s.lh[k] in s.dirty;
    Enough(s, size, size, {s.lh[k]}, {}, 1);
    Enough(s, size, size, {s.lh[k], Behind(size)}, {Behind(size)}, 0);
  }

  lemma CopyingIs(size: nat, v: Block, k: nat)
    requires 2 <= size < NBUF && k < size
    ensures var s := Copying(size, v, k);
            && s.phase == WriteLog(k) && |s.lh| == size && s.held == map[] && s.disk == Fresh(size).disk
            && |s.disk.slot| == size - 1 && Behind(size) in s.disk.home && Pristine(s, size)
            && s.lh[size - 1] == Blk(size, size - 1)
            && s.lh[k] in s.cache && s.cache[s.lh[k]] == if k < size - 1 then [] else v
    ensures k < size - 1 ==> Fresh(size).disk.slot[k] == []
  {
    hide Room;
    HomeHas(size, 0);
    assert k < size - 1 ==> Blks(size, size - 1)[k] == Blk(size, k) != Blk(size, size - 1);
  }

  lemma CopyNext(size: nat, v: Block, k: nat)
    requires 2 <= size < NBUF && k < size - 1
    ensures var s := Copying(size, v, k); Enabled(s, PutSlot) && Apply(s, PutSlot) == Copying(size, v, k + 1)
    ensures Pristine(Copying(size, v, k + 1), size)
  {
    hide Room, Fresh, Raced, Blks, Blk, Behind, Enabled, Apply;
    CopyRoom(size, v, k);
    CopyingIs(size, v, k);
    CopyingIs(size, v, k + 1);
    var s := Copying(size, v, k);
    PutSlotIs(s);
    assert s.disk.slot[k := []] == s.disk.slot;
  }

  /** The block that does not fit goes to the block behind the log area. */
  lemma SpillsOver(size: nat, v: Block)
    requires 2 <= size < NBUF
    ensures var s := Copying(size, v, size - 1);
            && Enabled(s, PutSlot)
            && var s' := Apply(s, PutSlot);
            && s'.disk == s.disk.(home := s.disk.home[Behind(size) := v]) && s.disk == Fresh(size).disk
            && Blk(size, size - 1) in s'.cache && s'.cache[Blk(size, size - 1)] == v
  {
    hide Room, Copying, Fresh, Blks, Blk, Enabled, Apply;
    CopyRoom(size, v, size - 1);
    CopyingIs(size, v, size - 1);
    PutSlotIs(Copying(size, v, size - 1));
  }

  /** At these sizes the log does not do what it is for. Some run from boot, with every operation inside
      its reservation, overwrites the first block of inodes, which no operation wrote: what recovery yields
      then is not what the operations saw at any moment of the run. */
  lemma AtomicityFails(size: nat) returns (run: seq<State>, steps: seq<Step>)
    requires 2 <= size < NBUF
    ensures FrugalRun(run, steps) && run[0] == Fresh(size)
    ensures var d := run[|run| - 1].disk;
            |d.header| <= |d.slot| && forall j :: 0 <= j < |run| ==> Recovered(d) != Logical(run[j])
  {
    var v: Block := [1];
    run, steps := Copies(size, v, size - 1);
    SpillsOver(size, v);
    var before := run;
    HomeHas(size, size - 1);
    hide Copying, FrugalRun, IsRun, Apply, Enabled, Blks;
    run, steps := Then(run, steps, size, PutSlot);
    var d := run[|run| - 1].disk;
    assert Recovered(d) == d.home && d.home[Behind(size)] == v && d.home[Blk(size, size - 1)] == [];
    forall j | 0 <= j < |run| ensures Recovered(d) != Logical(run[j]) {
      if j < |before| {
        assert Pristine(before[j], size) && Logical(run[j])[Behind(size)] == [];
      } else {
        assert Logical(run[j])[Blk(size, size - 1)] == v;
      }
    }
  }

  /** Whether in every run from boot what recovery yields is the contents at a moment with no operation
      outstanding. */
  ghost predicate Atomic(size: nat, frugal: bool)
    requires size >= 1
  {
    forall run: seq<State>, steps: seq<Step> :: Boots(run, steps, size, frugal) ==>
      var d := run[|run| - 1].disk;
      |d.header| <= |d.slot| && exists j :: 0 <= j < |run| && run[j].ops == map[] && Recovered(d) == Logical(run[j])
  }

  /** The log keeps its promise exactly with a log area of NBUF blocks or more, header included, as mkfs
      makes it, or with no log block at all; and then whatever the callers do, while in a shorter one even
      operations inside their reservations break it. */
  lemma AtomicIff(size: nat, frugal: bool)
    requires size >= 1
    ensures Atomic(size, frugal) <==> size == 1 || size >= NBUF
  {
    hide Fresh, Recovered, Logical;
    if 2 <= size < NBUF {
      var run, steps := AtomicityFails(size);
      assert Boots(run, steps, size, frugal);
    } else {
      forall run: seq<State>, steps: seq<Step> | Boots(run, steps, size, frugal)
        ensures var d := run[|run| - 1].disk;
                && |d.header| <= |d.slot|
                && exists j :: 0 <= j < |run| && run[j].ops == map[] && Recovered(d) == Logical(run[j])
      {
        FreshInv(size);
        if size == 1 {
          NeverOver(run, steps, size, |run| - 1);
        }
        var j := SystemCallAtomicity(run, steps, 0, |run| - 1);
      }
    }
  }

  // ---------- commit without buffers ----------

  /** Whether in some run from boot the operations end, nobody uses a block, and commit finds no buffer to
      read its first log block into. */
  ghost predicate Starves(size: nat, frugal: bool)
    requires size >= 1
  {
    exists run: seq<State>, steps: seq<Step> :: Boots(run, steps, size, frugal) && Starved(run[|run| - 1])
  }

  predicate Starved(s: State) {
    s.phase == WriteLog(0) && s.lh != [] && s.held == map[] && !Enabled(s, PutSlot)
  }

  /** The logged blocks alone can take every buffer, exactly at the sizes from NBUF - 1 on. */
  lemma StarvesIff(size: nat, frugal: bool)
    requires size >= 1
    ensures Starves(size, frugal) <==> size >= NBUF - 1
  {
    hide Fresh, Enabled;
    if size >= NBUF - 1 {
      var run, steps := FillBuffers(size);
      StarvedWhen(run, steps, size);
      assert Boots(run, steps, size, frugal);
    } else {
      forall run: seq<State>, steps: seq<Step> | Boots(run, steps, size, frugal) ensures !Starved(run[|run| - 1]) {
        StarvedWhen(run, steps, size);
        LogsMost(run, steps, size);
      }
    }
  }

  lemma LogsMost(run: seq<State>, steps: seq<Step>, size: nat)
    requires size >= 1 && IsRun(run, steps) && run[0] == Fresh(size)
    ensures !Recovering(run[|run| - 1].phase) ==> |run[|run| - 1].lh| <= Most(size)
  {
    FreshInv(size);
    hide Fresh, Inv, Pins, Tidy;
    OverrunBound(run, steps, |run| - 1);
    SizeSame(run, steps, |run| - 1);
  }

  lemma StarvedWhen(run: seq<State>, steps: seq<Step>, size: nat)
    requires size >= 1 && IsRun(run, steps) && run[0] == Fresh(size)
    ensures var s := run[|run| - 1];
            s.phase == WriteLog(0) && s.lh != [] && s.held == map[] ==> (Starved(s) <==> |s.lh| >= NBUF)
  {
    var s := run[|run| - 1];
    if s.phase == WriteLog(0) && s.lh != [] && s.held == map[] {
      FreshInv(size);
      OverrunBound(run, steps, |run| - 1);
      SizeSame(run, steps, |run| - 1);
      if size == 1 {
        NoLogNoOverrun(run, steps, |run| - 1);
      }
      hide Fresh, Inv, Pins, Tidy;
      CommitFindsIff(run, steps, |run| - 1);
    }
  }

  /** NBUF blocks are logged and released, and their operations end. */
  lemma FillBuffers(size: nat) returns (run: seq<State>, steps: seq<Step>)
    requires size >= NBUF - 1
    ensures FrugalRun(run, steps) && run[0] == Fresh(size)
    ensures var s := run[|run| - 1]; s.phase == WriteLog(0) && |s.lh| == NBUF && s.held == map[]
  {
    hide Fresh, FrugalRun, PristineRun;
    if size > NBUF {
      run, steps := FillLog(size, NBUF);
      FilledIs(size, NBUF);
    } else if size == NBUF {
      run, steps := BothRelease(size, []);
      FilledIs(size, size);
    } else {
      run, steps := ThreeRelease(size);
    }
    run, steps := AllEnd(run, steps, size);
  }

  lemma Raced3Is(size: nat)
    requires 2 <= size < NBUF
    ensures var s, n := Raced3(size), size - 2;
            && s.phase.Running? && s.ops.Keys == {0, 1, 2} && s.outstanding == 3 && s.passed == map[]
            && s.unlogged == {} && |s.lh| == size + 1
            && s.held == map[Blk(size, n) := Turn(n), Blk(size, n + 1) := Turn(n + 1), Blk(size, n + 2) := Turn(n + 2)]
  {
    hide Blks, Blk, Turn, Zeroed, Behind, Fresh, Filled;
    var n := size - 2;
    assert Turns(n).Keys == {0, 1, 2};
    hide Turns;
    FilledIs(size, n);
    TurnsAt(n);
    DiffBlks(size, n);
    var s := Raced3(size);
    assert s.ops.Keys == Turns(n).Keys && |s.lh| == n + 3;
    assert s.unlogged == {} && s.passed == map[];
  }

  lemma ThreeRelease(size: nat) returns (run: seq<State>, steps: seq<Step>)
    requires 2 <= size < NBUF
    ensures From(run, steps, size) && FrugalRun(run, steps) && run[|run| - 1] == Raced3(size).(held := map[])
    ensures var s := run[|run| - 1];
            && s.phase.Running? && s.ops.Keys == {0, 1, 2} && s.outstanding == 3 && s.passed == map[]
            && |s.lh| == size + 1
  {
    var n := size - 2;
    hide Blks, Blk, Turn, Zeroed, FrugalRun, IsRun, PristineRun, Behind, Fresh, Raced3;
    run, steps := ThreeAppend(size);
    Raced3Is(size);
    DiffBlks(size, n);
    run, steps := Releases(run, steps, size, Turn(n), Blk(size, n));
    run, steps := Releases(run, steps, size, Turn(n + 1), Blk(size, n + 1));
    run, steps := Releases(run, steps, size, Turn(n + 2), Blk(size, n + 2));
    assert run[|run| - 1].held == map[];
  }
}
