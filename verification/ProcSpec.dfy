/**
The process table of src/proc.c in its Project 4 form, as a value: one queue of process
indices per state list and per ready list, and each critical section under ptable.lock as
one function. ProcCode runs the same steps on the linked lists of the source.
*/
module ProcSpec {
  import opened Common

  const NPROC: nat := 64
  const MAXPRIO: nat := 6
  const DEFAULTPRIO: nat := 0
  const BUDGET: nat := 1000000

  datatype PState = UNUSED | EMBRYO | SLEEPING | RUNNABLE | RUNNING | ZOMBIE

  /** wait() sleeps on the address of the caller's own proc; everything else the kernel sleeps
      on (log, buffers, pipes, ticks, sleep locks) is some other address. */
  datatype Chan = NoChan | ProcChan(p: nat) | OtherChan(addr: int)

  /** parent is -1 for NULL. */
  datatype Proc = Proc(state: PState, pid: nat, parent: int, chan: Chan, killed: bool,
                       priority: int, budget: int, ticksIn: nat)

  /** How far fork() has come with a child: the kernel stack is being allocated, allocproc has
      returned, or the child is on no list while its memory is copied. */
  datatype Stage = Allocating | Allocated | InFlight
  datatype Forking = Forking(forker: nat, stage: Stage)

  /** cpu[c] is the process CPU c runs, -1 for none. Queue ids: ListId below. */
  datatype Table = Table(procs: seq<Proc>, q: seq<seq<nat>>, cpu: seq<int>,
                         fork: map<nat, Forking>, nextpid: nat, init: nat)

  // ---------- queues ----------

  /** ptable.list[state] for 0..5, ptable.ready[prio] for 6..6+MAXPRIO. */
  const NLIST: nat := 7 + MAXPRIO
  const READY: nat := 6

  function StateId(s: PState): nat {
    match s
    case UNUSED => 0
    case EMBRYO => 1
    case SLEEPING => 2
    case RUNNABLE => 3
    case RUNNING => 4
    case ZOMBIE => 5
  }

  function ListId(p: Proc): int {
    if p.state == RUNNABLE then READY + p.priority else StateId(p.state)
  }

  function Without(s: seq<nat>, p: nat): seq<nat> {
    if s == [] then [] else if s[0] == p then s[1..] else [s[0]] + Without(s[1..], p)
  }

  predicate Listable(p: Proc) {
    p.state == RUNNABLE ==> 0 <= p.priority <= MAXPRIO
  }

  predicate Shape(t: Table) {
    && |t.procs| == NPROC && |t.q| == NLIST && t.init < NPROC
    && (forall p :: 0 <= p < NPROC ==> Listable(t.procs[p]))
    && (forall c :: 0 <= c < |t.cpu| ==> -1 <= t.cpu[c] < NPROC)
    && (forall p :: p in t.fork ==> p < NPROC && t.fork[p].forker < NPROC)
  }

  /** stateListRemove from the list of p's state and priority. */
  function Leave(t: Table, p: nat): Table
    requires Shape(t) && p < NPROC
  {
    var l := ListId(t.procs[p]);
    t.(q := t.q[l := Without(t.q[l], p)])
  }

  /** p becomes `np` and goes to the tail of the list that fits. */
  function Enter(t: Table, p: nat, np: Proc): Table
    requires Shape(t) && p < NPROC && Listable(np)
  {
    var l := ListId(np);
    t.(procs := t.procs[p := np], q := t.q[l := t.q[l] + [p]])
  }

  function Move(t: Table, p: nat, np: Proc): Table
    requires Shape(t) && p < NPROC && Listable(np)
  {
    Enter(Leave(t, p), p, np)
  }

  function SetProc(t: Table, p: nat, np: Proc): Table
    requires Shape(t) && p < NPROC
  {
    t.(procs := t.procs[p := np])
  }

  // ---------- budgets ----------

  const TWO31: int := 0x8000_0000

  /** The C expression budget - (ticks - cpu_ticks_in): unsigned arithmetic stored in an int. */
  function SpendInt(budget: int, elapsed: nat): int {
    var u := (budget - elapsed) % TWO32;
    if u >= TWO31 then u - TWO32 else u
  }

  /** What yield, sleep and exit do to the budget: demotion and a new budget once it is spent. */
  function Charge(p: Proc, elapsed: nat): Proc {
    var b := SpendInt(p.budget, elapsed);
    if b <= 0 then p.(budget := BUDGET, priority := if p.priority > 0 then p.priority - 1 else p.priority)
    else p.(budget := b)
  }

  // ---------- scheduler ----------

  /** The promotion of one process. */
  function Up(p: Proc): Proc {
    if (p.state == SLEEPING || p.state == RUNNING || p.state == RUNNABLE) && p.priority < MAXPRIO
    then p.(priority := p.priority + 1, budget := BUDGET)
    else p
  }

  /** One promotion pass: ready[i-1] becomes ready[i], the two top queues are joined. */
  function Promote(t: Table): Table
    requires Shape(t)
  {
    t.(procs := seq(NPROC, p requires 0 <= p < NPROC => Up(t.procs[p])),
       q := PromotedTo(t.q, 0))
  }

  function PromotedTo(q: seq<seq<nat>>, from: nat): seq<seq<nat>>
    requires |q| == NLIST && from <= MAXPRIO
  {
    seq(NLIST, l requires 0 <= l < NLIST => PromotedQueue(q, from, l))
  }

  /** Queue l once the ready lists MAXPRIO down to `from` have been promoted. */
  function PromotedQueue(q: seq<seq<nat>>, from: nat, l: nat): seq<nat>
    requires |q| == NLIST && l < NLIST && from <= MAXPRIO
  {
    if l == READY + MAXPRIO then (if from < MAXPRIO then q[l] + q[l - 1] else q[l])
    else if l > READY + from then q[l - 1]
    else if l == READY + from then []
    else q[l]
  }

  /** The queue the scheduler serves: the highest non-empty ready list, READY - 1 for none. */
  function Served(q: seq<seq<nat>>, i: int): int
    requires |q| == NLIST && -1 <= i <= MAXPRIO
    decreases i + 1
  {
    if i < 0 then READY - 1 else if q[READY + i] != [] then READY + i else Served(q, i - 1)
  }

  lemma {:induction false} ServedIs(q: seq<seq<nat>>, i: int)
    requires |q| == NLIST && -1 <= i <= MAXPRIO
    ensures READY - 1 <= Served(q, i) <= READY + i
    ensures Served(q, i) >= READY ==> q[Served(q, i)] != []
    ensures forall l :: Served(q, i) < l <= READY + i ==> q[l] == []
    decreases i + 1
  {
    if i >= 0 && q[READY + i] == [] {
      ServedIs(q, i - 1);
    }
  }

  /** The scheduler's choice on CPU c: the head of the highest non-empty ready list runs. */
  function Dispatch(t: Table, c: nat, ticks: nat): Table
    requires Shape(t) && c < |t.cpu|
  {
    var l := Served(t.q, MAXPRIO);
    ServedIs(t.q, MAXPRIO);
    if l < READY || t.q[l][0] >= NPROC then t
    else
      var p := t.q[l][0];
      Move(t, p, t.procs[p].(state := RUNNING, ticksIn := ticks)).(cpu := t.cpu[c := p])
  }

  /** The process on CPU c gives it up and enters state s, charged for its time. */
  function LeaveCpu(t: Table, c: nat, np: Proc): Table
    requires Shape(t) && c < |t.cpu| && t.cpu[c] >= 0 && Listable(np)
  {
    Move(t, t.cpu[c], np).(cpu := t.cpu[c := -1])
  }

  predicate OnCpu(t: Table, c: nat) {
    c < |t.cpu| && t.cpu[c] >= 0
  }

  predicate Chargeable(p: Proc) {
    0 <= p.priority <= MAXPRIO
  }

  function Yield(t: Table, c: nat, elapsed: nat): Table
    requires Shape(t) && OnCpu(t, c) && Chargeable(t.procs[t.cpu[c]])
  {
    LeaveCpu(t, c, Charge(t.procs[t.cpu[c]], elapsed).(state := RUNNABLE))
  }

  function Sleep(t: Table, c: nat, chan: Chan, elapsed: nat): Table
    requires Shape(t) && OnCpu(t, c)
  {
    LeaveCpu(t, c, Charge(t.procs[t.cpu[c]], elapsed).(state := SLEEPING, chan := chan))
  }

  // ---------- wakeup, kill, setpriority ----------

  /** Position of the first process in s that sleeps on chan; |s| when there is none. */
  function FirstSleeper(procs: seq<Proc>, s: seq<nat>, chan: Chan): (k: nat)
    ensures k <= |s|
    ensures forall i :: 0 <= i < k ==> !(s[i] < |procs| && procs[s[i]].state == SLEEPING && procs[s[i]].chan == chan)
    ensures k < |s| ==> s[k] < |procs| && procs[s[k]].state == SLEEPING && procs[s[k]].chan == chan
  {
    if s == [] then 0
    else if s[0] < |procs| && procs[s[0]].state == SLEEPING && procs[s[0]].chan == chan then 0
    else 1 + FirstSleeper(procs, s[1..], chan)
  }

  /** wakeup1 as the Project 4 code runs it: it follows p->next after p has been linked at the
      tail of a ready list, so it wakes the first sleeper only. */
  function Wake(t: Table, chan: Chan): (r: Table)
    requires Shape(t)
    ensures Shape(r) && r.cpu == t.cpu
  {
    var s := t.q[StateId(SLEEPING)];
    var k := FirstSleeper(t.procs, s, chan);
    if k == |s| || !(0 <= t.procs[s[k]].priority <= MAXPRIO) then t
    else Move(t, s[k], t.procs[s[k]].(state := RUNNABLE))
  }

  function FindPid(procs: seq<Proc>, s: seq<nat>, pid: nat): (k: nat)
    ensures k <= |s|
    ensures forall i :: 0 <= i < k ==> !(s[i] < |procs| && procs[s[i]].pid == pid)
    ensures k < |s| ==> s[k] < |procs| && procs[s[k]].pid == pid
  {
    if s == [] then 0
    else if s[0] < |procs| && procs[s[0]].pid == pid then 0
    else 1 + FindPid(procs, s[1..], pid)
  }

  /** The first process with that pid along the lists `ids`, -1 for none. */
  function Find(t: Table, ids: seq<nat>, pid: nat): (p: int)
    requires Shape(t) && forall i :: 0 <= i < |ids| ==> ids[i] < NLIST
    ensures -1 <= p < NPROC
    ensures p >= 0 ==> t.procs[p].pid == pid && exists i :: 0 <= i < |ids| && p in t.q[ids[i]]
    ensures p == -1 ==> forall i, r: nat :: 0 <= i < |ids| && r in t.q[ids[i]] && r < NPROC ==> t.procs[r].pid != pid
  {
    if ids == [] then -1
    else
      var s := t.q[ids[0]];
      var k := FindPid(t.procs, s, pid);
      if k < |s| then s[k] else Find(t, ids[1..], pid)
  }

  /** The state lists and ready lists in the order kill, exit and wait walk them. */
  const ALL_ORDER: seq<nat> := [1, 2, 4, 5, 12, 11, 10, 9, 8, 7, 6]
  /** The order setpriority searches. */
  const PRIO_ORDER: seq<nat> := [12, 11, 10, 9, 8, 7, 6, 2, 4]

  function KillTarget(t: Table, pid: nat): (p: int)
    requires Shape(t)
    ensures -1 <= p < NPROC
  {
    Find(t, ALL_ORDER, pid)
  }

  function PrioTarget(t: Table, pid: nat): (p: int)
    requires Shape(t)
    ensures -1 <= p < NPROC
  {
    Find(t, PRIO_ORDER, pid)
  }

  function Kill(t: Table, pid: nat): Table
    requires Shape(t)
  {
    var p := KillTarget(t, pid);
    if p < 0 then t
    else if t.procs[p].state == SLEEPING && 0 <= t.procs[p].priority <= MAXPRIO
    then Move(t, p, t.procs[p].(killed := true, state := RUNNABLE))
    else SetProc(t, p, t.procs[p].(killed := true))
  }

  function SetPriority(t: Table, pid: nat, priority: nat): Table
    requires Shape(t) && priority <= MAXPRIO
  {
    var p := PrioTarget(t, pid);
    if p < 0 || t.procs[p].priority == priority then t
    else
      var np := t.procs[p].(priority := priority, budget := BUDGET);
      if np.state == RUNNABLE then Move(t, p, np) else SetProc(t, p, np)
  }

  // ---------- fork ----------

  function AllocProc(t: Table, c: nat): Table
    requires Shape(t) && OnCpu(t, c)
  {
    var s := t.q[StateId(UNUSED)];
    if s == [] || s[0] >= NPROC then t
    else
      Move(t, s[0], t.procs[s[0]].(state := EMBRYO, pid := t.nextpid))
      .(nextpid := t.nextpid + 1, fork := t.fork[s[0] := Forking(t.cpu[c], Allocating)])
  }

  /** kalloc of the kernel stack failed. */
  function AllocFail(t: Table, p: nat): Table
    requires Shape(t) && p < NPROC
  {
    Move(t, p, t.procs[p].(state := UNUSED)).(fork := t.fork - {p})
  }

  /** The rest of allocproc. */
  function AllocDone(t: Table, p: nat): Table
    requires Shape(t) && p in t.fork
  {
    SetProc(t, p, t.procs[p].(priority := DEFAULTPRIO, budget := BUDGET))
    .(fork := t.fork[p := t.fork[p].(stage := Allocated)])
  }

  /** fork takes the child off the EMBRYO list. */
  function TakeChild(t: Table, p: nat): Table
    requires Shape(t) && p in t.fork
  {
    Leave(t, p).(fork := t.fork[p := t.fork[p].(stage := InFlight)])
  }

  /** copyuvm failed. */
  function ForkFail(t: Table, p: nat): Table
    requires Shape(t) && p < NPROC
  {
    Enter(t, p, t.procs[p].(state := UNUSED)).(fork := t.fork - {p})
  }

  function ForkDone(t: Table, p: nat): Table
    requires Shape(t) && p in t.fork && 0 <= t.procs[p].priority <= MAXPRIO
  {
    Enter(t, p, t.procs[p].(state := RUNNABLE, parent := t.fork[p].forker)).(fork := t.fork - {p})
  }

  // ---------- exit and wait ----------

  function Adopt(p: Proc, from: int, to: int): Proc {
    if p.parent == from then p.(parent := to) else p
  }

  /** Every child of `from` becomes a child of init. */
  function Reparent(t: Table, from: nat): (r: Table)
    requires Shape(t)
    ensures Shape(r) && r.cpu == t.cpu
  {
    t.(procs := seq(NPROC, p requires 0 <= p < NPROC => Adopt(t.procs[p], from, t.init)))
  }

  predicate HasKid(t: Table, p: int) {
    exists k :: 0 <= k < |t.procs| && t.procs[k].parent == p
  }

  predicate HasZombieKid(t: Table, p: int) {
    exists k :: 0 <= k < |t.procs| && t.procs[k].parent == p && t.procs[k].state == ZOMBIE
  }

  /** The part of exit before the caller turns into a zombie. */
  function Orphan(t: Table, cur: nat): (r: Table)
    requires Shape(t) && cur < NPROC
    ensures Shape(r) && r.cpu == t.cpu
  {
    var par := t.procs[cur].parent;
    var t1 := if par >= 0 then Wake(t, ProcChan(par)) else t;
    var t2 := Reparent(t1, cur);
    if HasZombieKid(t1, cur) then Wake(t2, ProcChan(t.init)) else t2
  }

  function Exit(t: Table, c: nat, elapsed: nat): Table
    requires Shape(t) && OnCpu(t, c)
  {
    var t' := Orphan(t, t.cpu[c]);
    LeaveCpu(t', c, Charge(t'.procs[t.cpu[c]], elapsed).(state := ZOMBIE))
  }

  function FirstZombie(procs: seq<Proc>, s: seq<nat>, par: nat): (k: nat)
    ensures k <= |s|
    ensures forall i :: 0 <= i < k ==> !(s[i] < |procs| && procs[s[i]].state == ZOMBIE && procs[s[i]].parent == par)
    ensures k < |s| ==> s[k] < |procs| && procs[s[k]].state == ZOMBIE && procs[s[k]].parent == par
  {
    if s == [] then 0
    else if s[0] < |procs| && procs[s[0]].state == ZOMBIE && procs[s[0]].parent == par then 0
    else 1 + FirstZombie(procs, s[1..], par)
  }

  function Reap(t: Table, z: nat): Table
    requires Shape(t) && z < NPROC
  {
    Move(t, z, t.procs[z].(state := UNUSED, pid := 0, parent := -1, killed := false))
  }

  /** One round of the loop in wait: reap a zombie child, return -1, or sleep. */
  function Wait(t: Table, c: nat, elapsed: nat): Table
    requires Shape(t) && OnCpu(t, c)
  {
    var cur := t.cpu[c];
    var s := t.q[StateId(ZOMBIE)];
    var k := FirstZombie(t.procs, s, cur);
    if k < |s| then Reap(t, s[k])
    else if !HasKid(t, cur) || t.procs[cur].killed then t
    else Sleep(t, c, ProcChan(cur), elapsed)
  }

  /** What that round returns: the pid of the zombie reaped, -1, or 0 for going to sleep. */
  function WaitReturns(t: Table, c: nat): int
    requires Shape(t) && OnCpu(t, c)
  {
    var s := t.q[StateId(ZOMBIE)];
    var k := FirstZombie(t.procs, s, t.cpu[c]);
    if k < |s| then t.procs[s[k]].pid else if !HasKid(t, t.cpu[c]) || t.procs[t.cpu[c]].killed then -1 else 0
  }

  // ---------- steps ----------

  /** One critical section under ptable.lock, or one unlocked stretch of fork on its own child. */
  datatype Step =
    | DoPromote | DoDispatch(c: nat, ticks: nat) | DoYield(c: nat, elapsed: nat)
    | DoSleep(c: nat, addr: int, elapsed: nat) | DoWakeup(addr: int) | DoKill(pid: nat)
    | DoSetPriority(pid: nat, priority: nat)
    | DoAlloc(c: nat) | DoAllocFail(p: nat) | DoAllocDone(p: nat) | DoTake(p: nat)
    | DoForkFail(p: nat) | DoForkDone(p: nat)
    | DoExit(c: nat, elapsed: nat) | DoWait(c: nat, elapsed: nat)

  predicate NotForking(t: Table, p: int) {
    forall k :: k in t.fork ==> t.fork[k].forker != p
  }

  predicate Stands(t: Table, p: nat, stage: Stage) {
    p in t.fork && t.fork[p].stage == stage
  }

  /** Ticks advance by less than 2^31 while a process holds a CPU: see SpendIntExact. */
  predicate Timely(elapsed: nat) {
    elapsed < TWO31
  }

  predicate Enabled(t: Table, step: Step)
    requires Shape(t)
  {
    match step
    case DoPromote => true
    case DoDispatch(c, _) => c < |t.cpu| && t.cpu[c] < 0
    case DoYield(c, e) => OnCpu(t, c) && Timely(e)
    case DoSleep(c, _, e) => OnCpu(t, c) && Timely(e)
    case DoWakeup(_) => true
    case DoKill(_) => true
    case DoSetPriority(_, priority) => priority <= MAXPRIO
    case DoAlloc(c) => OnCpu(t, c) && NotForking(t, t.cpu[c])
    case DoAllocFail(p) => Stands(t, p, Allocating)
    case DoAllocDone(p) => Stands(t, p, Allocating)
    case DoTake(p) => Stands(t, p, Allocated)
    case DoForkFail(p) => Stands(t, p, InFlight)
    case DoForkDone(p) => Stands(t, p, InFlight)
    case DoExit(c, e) => OnCpu(t, c) && Timely(e) && t.cpu[c] != t.init && NotForking(t, t.cpu[c])
    case DoWait(c, e) => OnCpu(t, c) && Timely(e) && NotForking(t, t.cpu[c])
  }

  function Apply(t: Table, step: Step): Table
    requires Shape(t) && Enabled(t, step) && Ranges(t)
  {
    match step
    case DoPromote => Promote(t)
    case DoDispatch(c, ticks) => Dispatch(t, c, ticks)
    case DoYield(c, e) => Yield(t, c, e)
    case DoSleep(c, a, e) => Sleep(t, c, OtherChan(a), e)
    case DoWakeup(a) => Wake(t, OtherChan(a))
    case DoKill(pid) => Kill(t, pid)
    case DoSetPriority(pid, priority) => SetPriority(t, pid, priority)
    case DoAlloc(c) => AllocProc(t, c)
    case DoAllocFail(p) => AllocFail(t, p)
    case DoAllocDone(p) => AllocDone(t, p)
    case DoTake(p) => TakeChild(t, p)
    case DoForkFail(p) => ForkFail(t, p)
    case DoForkDone(p) => ForkDone(t, p)
    case DoExit(c, e) => Exit(t, c, e)
    case DoWait(c, e) => Wait(t, c, e)
  }

  // ---------- invariant ----------

  predicate Alive(s: PState) {
    s == SLEEPING || s == RUNNABLE || s == RUNNING
  }

  predicate Active(s: PState) {
    Alive(s) || s == ZOMBIE
  }

  predicate On(q: seq<seq<nat>>, l: int, p: nat) {
    0 <= l < |q| && p in q[l]
  }

  /** Each process that is not `off` the lists is on exactly one list, the one of its state and
      priority, once; nothing else is on a list. */
  ghost predicate Listed(procs: seq<Proc>, q: seq<seq<nat>>, off: set<nat>) {
    && |procs| == NPROC && |q| == NLIST
    && (forall l :: 0 <= l < NLIST ==> Distinct(q[l]))
    && (forall l, p: nat :: On(q, l, p) ==> p < NPROC && p !in off && ListId(procs[p]) == l)
    && (forall p :: 0 <= p < NPROC && p !in off ==> On(q, ListId(procs[p]), p))
  }

  ghost function Flying(t: Table): set<nat> {
    set p | p in t.fork && t.fork[p].stage == InFlight
  }

  predicate InRange(p: Proc) {
    0 <= p.priority <= MAXPRIO && 1 <= p.budget <= BUDGET
  }

  predicate Ranges(t: Table)
    requires Shape(t)
  {
    && (forall p :: 0 <= p < NPROC && Active(t.procs[p].state) ==> InRange(t.procs[p]))
    && (forall p :: p in t.fork && !t.fork[p].stage.Allocating? ==>
          t.procs[p].priority == DEFAULTPRIO && t.procs[p].budget == BUDGET)
    && (forall c :: 0 <= c < |t.cpu| && t.cpu[c] >= 0 ==> t.procs[t.cpu[c]].state == RUNNING)
  }

  /** CPUs with a process and RUNNING processes correspond one to one. */
  ghost predicate CpuMatch(t: Table)
    requires Shape(t)
  {
    && (forall c, d :: 0 <= c < d < |t.cpu| && t.cpu[c] >= 0 ==> t.cpu[c] != t.cpu[d])
    && (forall p :: 0 <= p < NPROC && t.procs[p].state == RUNNING ==> p in t.cpu)
  }

  /** Every process that fork has completed has a live parent; init has none. */
  ghost predicate Family(t: Table)
    requires Shape(t)
  {
    && Alive(t.procs[t.init].state) && t.procs[t.init].parent == -1
    && (forall p :: 0 <= p < NPROC && Active(t.procs[p].state) && p != t.init ==>
          && 0 <= t.procs[p].parent < NPROC && t.procs[p].parent != p
          && Alive(t.procs[t.procs[p].parent].state))
    && (forall p :: 0 <= p < NPROC && !Active(t.procs[p].state) ==> t.procs[p].parent == -1)
  }

  /** The children fork is working on: one per forker, EMBRYO, with a live forker. */
  ghost predicate Forks(t: Table)
    requires Shape(t)
  {
    && (forall p :: p in t.fork ==> t.procs[p].state == EMBRYO && Alive(t.procs[t.fork[p].forker].state))
    && (forall p :: 0 <= p < NPROC && t.procs[p].state == EMBRYO ==> p in t.fork)
    && (forall p, k :: p in t.fork && k in t.fork && p != k ==> t.fork[p].forker != t.fork[k].forker)
  }

  /** A process asleep in wait has a child and no zombie child. */
  ghost predicate Waiters(t: Table)
    requires Shape(t)
  {
    forall p :: 0 <= p < NPROC && t.procs[p].state == SLEEPING && t.procs[p].chan.ProcChan? ==>
      t.procs[p].chan.p == p && HasKid(t, p) && !HasZombieKid(t, p)
  }

  ghost predicate Inv(t: Table) {
    && Shape(t) && Listed(t.procs, t.q, Flying(t)) && Ranges(t) && CpuMatch(t)
    && Family(t) && Forks(t) && Waiters(t)
  }
}
