/**
The buffer cache of src/bio.c as a value, and the steps that processes interleave: bget, the sleep
lock, bread's disk read, changes by the holder, log_write's pin, bwrite and the two halves of brelse.
*/
module BioSteps {
  import opened Common
  import opened BioRing

  datatype Tag = Tag(dev: nat, blockno: nat)

  /** holder is the process that has the buffer's sleep lock. */
  datatype Buf<T> = Buf(tag: Tag, valid: bool, dirty: bool, refcnt: nat, holder: Option<nat>, data: T)

  ghost predicate Pinned<T>(buf: seq<Buf<T>>, t: Tag) {
    exists b :: 0 <= b < |buf| && buf[b].tag == t && buf[b].dirty
  }

  ghost predicate UniqueTags<T>(buf: seq<Buf<T>>) {
    forall a, b :: 0 <= a < |buf| && 0 <= b < |buf| && buf[a].tag == buf[b].tag && buf[a].tag.dev != 0 ==> a == b
  }

  /** view is the latest contents handed to log_write or bwrite, or the disk's. A buffer whose
      holder has changed it and not yet handed it over is touched. Blocks of device 0 are left
      out: every buffer starts with the tag of its block 0. */
  ghost predicate Coherent<T>(buf: seq<Buf<T>>, disk: map<Tag, T>, view: map<Tag, T>, touched: set<nat>) {
    && view.Keys == disk.Keys
    && (forall b :: 0 <= b < |buf| && buf[b].valid && buf[b].tag.dev != 0 ==>
          buf[b].tag in view && (b !in touched ==> buf[b].data == view[buf[b].tag]))
    && (forall b :: 0 <= b < |buf| && buf[b].dirty ==> buf[b].valid)
    && (forall b :: 0 <= b < |buf| && b in touched ==> buf[b].valid && buf[b].holder.Some?)
    && (forall t :: t in view && t.dev != 0 && !Pinned(buf, t) ==> disk[t] == view[t])
  }

  /** users[b] counts the references each process has to buffer b. */
  ghost predicate Counted<T>(buf: seq<Buf<T>>, users: seq<multiset<nat>>) {
    && |users| == |buf|
    && (forall b :: 0 <= b < |buf| ==> |users[b]| == buf[b].refcnt)
    && (forall b :: 0 <= b < |buf| && buf[b].holder.Some? ==> buf[b].holder.value in users[b])
  }

  predicate Idle<T>(b: Buf<T>) {
    b.refcnt == 0 && !b.dirty
  }

  /** What a process sees between its own steps. */
  datatype Snap<T> = Snap(buf: seq<Buf<T>>, users: seq<multiset<nat>>, touched: set<nat>, view: map<Tag, T>)

  ghost predicate Snapped<T>(s: Snap<T>) {
    |s.buf| == |s.users| == NBUF
  }

  /** A step of another process: p's buffers keep their tags, and a buffer p has locked keeps its
      flags and data, as the block it holds keeps its latest contents. */
  ghost predicate Steady<T>(p: nat, s: Snap<T>, s': Snap<T>) {
    && Snapped(s) && Snapped(s')
    && (forall b :: 0 <= b < NBUF ==> s'.users[b][p] == s.users[b][p])
    && (forall b :: 0 <= b < NBUF && p in s.users[b] ==> s'.buf[b].tag == s.buf[b].tag)
    && (forall b :: 0 <= b < NBUF && s.buf[b].holder == Some(p) ==>
          && s'.buf[b] == s.buf[b].(refcnt := s'.buf[b].refcnt) && (b in s'.touched <==> b in s.touched)
          && (s.buf[b].tag.dev != 0 && s.buf[b].tag in s.view ==>
                s.buf[b].tag in s'.view && s'.view[s.buf[b].tag] == s.view[s.buf[b].tag]))
    && (forall b :: 0 <= b < NBUF && s'.buf[b].holder == Some(p) ==> s.buf[b].holder == Some(p))
  }

  // ---------- what each step keeps ----------

  lemma Hit<T>(buf: seq<Buf<T>>, disk: map<Tag, T>, view: map<Tag, T>, touched: set<nat>, users: seq<multiset<nat>>,
               b: nat, p: nat)
    requires Coherent(buf, disk, view, touched) && UniqueTags(buf) && Counted(buf, users) && b < |buf| == NBUF
    ensures var buf', users' := buf[b := buf[b].(refcnt := buf[b].refcnt + 1)], users[b := users[b] + multiset{p}];
            && Coherent(buf', disk, view, touched) && UniqueTags(buf') && Counted(buf', users')
            && forall q :: q != p ==> Steady(q, Snap(buf, users, touched, view), Snap(buf', users', touched, view))
  {
  }

  lemma Recycle<T>(buf: seq<Buf<T>>, disk: map<Tag, T>, view: map<Tag, T>, touched: set<nat>,
                   users: seq<multiset<nat>>, b: nat, p: nat, t: Tag)
    requires Coherent(buf, disk, view, touched) && UniqueTags(buf) && Counted(buf, users) && b < |buf| == NBUF
    requires Idle(buf[b]) && forall a :: 0 <= a < |buf| ==> buf[a].tag != t
    ensures var buf', users' :=
              buf[b := buf[b].(tag := t, valid := false, dirty := false, refcnt := 1)],
                users[b := users[b] + multiset{p}];
            && Coherent(buf', disk, view, touched) && UniqueTags(buf') && Counted(buf', users')
            && forall q :: q != p ==> Steady(q, Snap(buf, users, touched, view), Snap(buf', users', touched, view))
  {
    var buf', users' :=
      buf[b := buf[b].(tag := t, valid := false, dirty := false, refcnt := 1)],
        users[b := users[b] + multiset{p}];
    assert |users[b]| == 0 && users[b] == multiset{} && buf[b].holder == None;
    RecyclePins(buf, buf', b);
    hide Pinned;
    assert UniqueTags(buf') && Counted(buf', users');
    forall q | q != p ensures Steady(q, Snap(buf, users, touched, view), Snap(buf', users', touched, view)) {
    }
  }

  lemma RecyclePins<T>(buf: seq<Buf<T>>, buf': seq<Buf<T>>, b: nat)
    requires b < |buf| == |buf'| && buf' == buf[b := buf'[b]] && !buf[b].dirty && !buf'[b].dirty
    ensures forall t :: Pinned(buf', t) <==> Pinned(buf, t)
  {
    forall t ensures Pinned(buf', t) <==> Pinned(buf, t) {
      KeepPin(buf, buf', t);
      KeepPin(buf', buf, t);
    }
  }

  /** Taking or dropping the sleep lock. */
  lemma Relabel<T>(buf: seq<Buf<T>>, buf': seq<Buf<T>>, disk: map<Tag, T>, view: map<Tag, T>, touched: set<nat>,
                   users: seq<multiset<nat>>, b: nat, p: nat)
    requires Coherent(buf, disk, view, touched) && UniqueTags(buf) && Counted(buf, users) && b < |buf| == NBUF
    requires p in users[b] && (buf[b].holder == None || buf[b].holder == Some(p))
    requires |buf'| == |buf| && buf' == buf[b := buf[b].(holder := buf'[b].holder)]
    requires buf'[b].holder == Some(p) || (buf'[b].holder == None && b !in touched)
    ensures Coherent(buf', disk, view, touched) && UniqueTags(buf') && Counted(buf', users)
    ensures forall q :: q != p ==> Steady(q, Snap(buf, users, touched, view), Snap(buf', users, touched, view))
  {
    SamePins(buf, buf');
  }

  lemma SamePins<T>(buf: seq<Buf<T>>, buf': seq<Buf<T>>)
    requires |buf'| == |buf| && forall b :: 0 <= b < |buf| ==>
               buf'[b].tag == buf[b].tag && buf'[b].dirty == buf[b].dirty
    ensures forall t :: Pinned(buf', t) <==> Pinned(buf, t)
  {
    forall t ensures Pinned(buf', t) <==> Pinned(buf, t) {
      if Pinned(buf, t) {
        var b :| 0 <= b < |buf| && buf[b].tag == t && buf[b].dirty;
        assert buf'[b].tag == t;
      }
      if Pinned(buf', t) {
        var b :| 0 <= b < |buf'| && buf'[b].tag == t && buf'[b].dirty;
        assert buf[b].tag == t;
      }
    }
  }

  lemma KeepPin<T>(buf: seq<Buf<T>>, buf': seq<Buf<T>>, t: Tag)
    requires |buf'| == |buf|
    requires forall a :: 0 <= a < |buf| && buf[a].tag == t && buf[a].dirty ==> buf'[a].tag == t && buf'[a].dirty
    ensures Pinned(buf, t) ==> Pinned(buf', t)
  {
    if Pinned(buf, t) {
      var a :| 0 <= a < |buf| && buf[a].tag == t && buf[a].dirty;
      assert buf'[a].tag == t;
    }
  }

  lemma Loaded<T>(buf: seq<Buf<T>>, disk: map<Tag, T>, view: map<Tag, T>, touched: set<nat>,
                  users: seq<multiset<nat>>, b: nat, p: nat)
    requires Coherent(buf, disk, view, touched) && UniqueTags(buf) && Counted(buf, users) && b < |buf| == NBUF
    requires buf[b].holder == Some(p) && buf[b].tag in disk && !buf[b].valid
    ensures var buf' := buf[b := buf[b].(valid := true, data := disk[buf[b].tag])];
            && Coherent(buf', disk, view, touched) && UniqueTags(buf') && Counted(buf', users)
            && (forall q :: q != p ==> Steady(q, Snap(buf, users, touched, view), Snap(buf', users, touched, view)))
            && (buf[b].tag.dev != 0 ==> disk[buf[b].tag] == view[buf[b].tag])
  {
    var buf' := buf[b := buf[b].(valid := true, data := disk[buf[b].tag])];
    SamePins(buf, buf');
    if buf[b].tag.dev != 0 {
      assert !Pinned(buf, buf[b].tag);
    }
  }

  lemma Changed<T>(buf: seq<Buf<T>>, disk: map<Tag, T>, view: map<Tag, T>, touched: set<nat>,
                   users: seq<multiset<nat>>, b: nat, p: nat, data: T)
    requires Coherent(buf, disk, view, touched) && UniqueTags(buf) && Counted(buf, users) && b < |buf| == NBUF
    requires buf[b].holder == Some(p) && buf[b].valid
    ensures var buf', touched' := buf[b := buf[b].(data := data)], touched + {b};
            && Coherent(buf', disk, view, touched') && UniqueTags(buf') && Counted(buf', users)
            && (forall q :: q != p ==> Steady(q, Snap(buf, users, touched, view), Snap(buf', users, touched', view)))
  {
    SamePins(buf, buf[b := buf[b].(data := data)]);
  }

  lemma Logged<T>(buf: seq<Buf<T>>, disk: map<Tag, T>, view: map<Tag, T>, touched: set<nat>,
                  users: seq<multiset<nat>>, b: nat, p: nat)
    requires Coherent(buf, disk, view, touched) && UniqueTags(buf) && Counted(buf, users) && b < |buf| == NBUF
    requires buf[b].holder == Some(p) && buf[b].valid && buf[b].tag in disk
    ensures var buf', touched', view' :=
              buf[b := buf[b].(dirty := true)], touched - {b}, view[buf[b].tag := buf[b].data];
            && Coherent(buf', disk, view', touched') && UniqueTags(buf') && Counted(buf', users)
            && (forall q :: q != p ==> Steady(q, Snap(buf, users, touched, view), Snap(buf', users, touched', view')))
  {
    var buf' := buf[b := buf[b].(dirty := true)];
    var view' := view[buf[b].tag := buf[b].data];
    forall t | t in view' && t.dev != 0 && !Pinned(buf', t) ensures disk[t] == view'[t] {
      assert buf'[b].tag != t;
      KeepPin(buf, buf', t);
    }
  }

  lemma Stored<T>(buf: seq<Buf<T>>, disk: map<Tag, T>, view: map<Tag, T>, touched: set<nat>,
                  users: seq<multiset<nat>>, b: nat, p: nat)
    requires Coherent(buf, disk, view, touched) && UniqueTags(buf) && Counted(buf, users) && b < |buf| == NBUF
    requires buf[b].holder == Some(p) && buf[b].tag in disk
    ensures var t := buf[b].tag;
            var buf', touched' := buf[b := buf[b].(valid := true, dirty := false)], touched - {b};
            var disk', view' := disk[t := buf[b].data], view[t := buf[b].data];
            && Coherent(buf', disk', view', touched') && UniqueTags(buf') && Counted(buf', users)
            && (forall q :: q != p ==> Steady(q, Snap(buf, users, touched, view), Snap(buf', users, touched', view')))
  {
    var t := buf[b].tag;
    var buf' := buf[b := buf[b].(valid := true, dirty := false)];
    var disk', view' := disk[t := buf[b].data], view[t := buf[b].data];
    forall u | u in view' && u.dev != 0 && !Pinned(buf', u) ensures disk'[u] == view'[u] {
      if u != t {
        KeepPin(buf, buf', u);
      }
    }
  }

  lemma Dropped<T>(buf: seq<Buf<T>>, disk: map<Tag, T>, view: map<Tag, T>, touched: set<nat>,
                   users: seq<multiset<nat>>, b: nat, p: nat)
    requires Coherent(buf, disk, view, touched) && UniqueTags(buf) && Counted(buf, users) && b < |buf| == NBUF
    requires p in users[b] && buf[b].holder != Some(p)
    ensures buf[b].refcnt > 0
    ensures var buf', users' := buf[b := buf[b].(refcnt := buf[b].refcnt - 1)], users[b := users[b] - multiset{p}];
            && Coherent(buf', disk, view, touched) && UniqueTags(buf') && Counted(buf', users')
            && forall q :: q != p ==> Steady(q, Snap(buf, users, touched, view), Snap(buf', users', touched, view))
  {
    assert users[b] == users[b] - multiset{p} + multiset{p};
    SamePins(buf, buf[b := buf[b].(refcnt := buf[b].refcnt - 1)]);
  }

  // ---------- the steps ----------

  datatype Cache<T> = Cache(s: Snap<T>, disk: map<Tag, T>)

  /** Get is the critical section of bget that gives p a reference to buffer b. */
  datatype Step<T> =
    | Get(p: nat, b: nat, t: Tag) | Lock(p: nat, b: nat) | Fill(p: nat, b: nat) | Modify(p: nat, b: nat, data: T)
    | Log(p: nat, b: nat) | Write(p: nat, b: nat) | Unlock(p: nat, b: nat) | Drop(p: nat, b: nat)

  ghost predicate Ok<T>(c: Cache<T>) {
    Snapped(c.s) && UniqueTags(c.s.buf) && Counted(c.s.buf, c.s.users)
      && Coherent(c.s.buf, c.disk, c.s.view, c.s.touched)
  }

  ghost predicate Enabled<T>(c: Cache<T>, st: Step<T>)
    requires Snapped(c.s)
  {
    var buf := c.s.buf;
    && st.b < NBUF
    && var me := buf[st.b];
    match st
    case Get(_, _, t) => me.tag == t || (Idle(me) && forall a :: 0 <= a < NBUF ==> buf[a].tag != t)
    case Lock(p, b) => p in c.s.users[b] && me.holder == None
    case Fill(p, _) => me.holder == Some(p) && me.tag in c.disk
    case Modify(p, _, _) => me.holder == Some(p) && me.valid
    case Log(p, _) => me.holder == Some(p) && me.valid && me.tag in c.disk
    case Write(p, _) => me.holder == Some(p) && me.tag in c.disk
    case Unlock(p, b) => me.holder == Some(p) && b !in c.s.touched
    case Drop(p, b) => p in c.s.users[b] && me.holder != Some(p) && me.refcnt > 0
  }

  function Put<T>(c: Cache<T>, b: nat, me: Buf<T>): Cache<T>
    requires b < |c.s.buf|
  {
    c.(s := c.s.(buf := c.s.buf[b := me]))
  }

  ghost function Apply<T>(c: Cache<T>, st: Step<T>): Cache<T>
    requires Snapped(c.s) && Enabled(c, st)
  {
    var me := c.s.buf[st.b];
    match st
    case Get(p, b, t) =>
      var c' := Put(c, b, if me.tag == t then me.(refcnt := me.refcnt + 1)
                          else me.(tag := t, valid := false, dirty := false, refcnt := 1));
      c'.(s := c'.s.(users := c.s.users[b := c.s.users[b] + multiset{p}]))
    case Lock(p, b) => Put(c, b, me.(holder := Some(p)))
    case Fill(_, b) => if me.valid then c else Put(c, b, me.(valid := true, data := c.disk[me.tag]))
    case Modify(_, b, data) =>
      var c' := Put(c, b, me.(data := data));
      c'.(s := c'.s.(touched := c.s.touched + {b}))
    case Log(_, b) =>
      var c' := Put(c, b, me.(dirty := true));
      c'.(s := c'.s.(touched := c.s.touched - {b}, view := c.s.view[me.tag := me.data]))
    case Write(_, b) =>
      var c' := Put(c, b, me.(valid := true, dirty := false));
      Cache(c'.s.(touched := c.s.touched - {b}, view := c.s.view[me.tag := me.data]), c.disk[me.tag := me.data])
    case Unlock(_, b) => Put(c, b, me.(holder := None))
    case Drop(p, b) =>
      var c' := Put(c, b, me.(refcnt := me.refcnt - 1));
      c'.(s := c'.s.(users := c.s.users[b := c.s.users[b] - multiset{p}]))
  }

  /** Every step keeps tags unique, references counted and the cache coherent, and leaves what the
      other processes refer to and hold as it was. */
  lemma StepOk<T>(c: Cache<T>, st: Step<T>)
    requires Ok(c) && Enabled(c, st)
    ensures Ok(Apply(c, st)) && forall q :: q != st.p ==> Steady(q, c.s, Apply(c, st).s)
  {
    var buf, users, touched, view, disk, p, b := c.s.buf, c.s.users, c.s.touched, c.s.view, c.disk, st.p, st.b;
    hide Coherent, UniqueTags, Counted, Steady;
    match st
    case Get(_, _, t) =>
      if buf[b].tag == t {
        Hit(buf, disk, view, touched, users, b, p);
      } else {
        Recycle(buf, disk, view, touched, users, b, p, t);
      }
    case Lock(_, _) =>
      Relabel(buf, buf[b := buf[b].(holder := Some(p))], disk, view, touched, users, b, p);
    case Fill(_, _) =>
      if buf[b].valid {
        SteadySame(c.s);
      } else {
        Loaded(buf, disk, view, touched, users, b, p);
      }
    case Modify(_, _, data) => Changed(buf, disk, view, touched, users, b, p, data);
    case Log(_, _) => Logged(buf, disk, view, touched, users, b, p);
    case Write(_, _) => Stored(buf, disk, view, touched, users, b, p);
    case Unlock(_, _) =>
      Holds(buf, users, b);
      Relabel(buf, buf[b := buf[b].(holder := None)], disk, view, touched, users, b, p);
    case Drop(_, _) => Dropped(buf, disk, view, touched, users, b, p);
  }

  lemma SteadySame<T>(s: Snap<T>)
    requires Snapped(s)
    ensures forall q :: Steady(q, s, s)
  {
  }

  lemma Holds<T>(buf: seq<Buf<T>>, users: seq<multiset<nat>>, b: nat)
    requires Counted(buf, users) && b < |buf| && buf[b].holder.Some?
    ensures buf[b].holder.value in users[b]
  {
  }

  // ---------- runs ----------

  ghost predicate IsRun<T>(run: seq<Cache<T>>, steps: seq<Step<T>>) {
    && |run| == |steps| + 1 && Ok(run[0])
    && forall i :: 0 <= i < |steps| ==>
         Snapped(run[i].s) && Enabled(run[i], steps[i]) && run[i + 1] == Apply(run[i], steps[i])
  }

  lemma {:induction false} RunOk<T>(run: seq<Cache<T>>, steps: seq<Step<T>>, n: nat)
    requires IsRun(run, steps) && n < |run|
    ensures Ok(run[n])
  {
    hide Ok, Enabled, Apply;
    if n > 0 {
      RunOk(run, steps, n - 1);
      StepOk(run[n - 1], steps[n - 1]);
    }
  }

  /** Any number of steps of other processes leave a process's buffers tagged as they were, and a
      buffer it has locked untouched. */
  lemma {:induction false} OthersSteady<T>(run: seq<Cache<T>>, steps: seq<Step<T>>, i: nat, n: nat, p: nat)
    requires IsRun(run, steps) && i <= n < |run| && forall j :: i <= j < n ==> steps[j].p != p
    ensures Steady(p, run[i].s, run[n].s)
  {
    hide Ok, Enabled, Apply;
    if i == n {
      RunOk(run, steps, n);
      OkSnapped(run[n]);
      SteadySame(run[n].s);
    } else {
      OthersSteady(run, steps, i, n - 1, p);
      RunOk(run, steps, n - 1);
      StepOk(run[n - 1], steps[n - 1]);
      assert Steady(p, run[n - 1].s, run[n].s);
    }
  }

  lemma OkSnapped<T>(c: Cache<T>)
    requires Ok(c)
    ensures Snapped(c.s)
  {
  }

  /** One step, of whatever process: the buffers p refers to keep their tags, stay valid, and p keeps
      its references, unless it is p that drops one. */
  lemma StepRefers<T>(c: Cache<T>, st: Step<T>, p: nat, b: nat)
    requires Ok(c) && Enabled(c, st) && b < NBUF && p in c.s.users[b] && !(st.Drop? && st.p == p && st.b == b)
    ensures var c' := Apply(c, st);
            && Snapped(c'.s) && p in c'.s.users[b] && c'.s.buf[b].tag == c.s.buf[b].tag
            && (c.s.buf[b].valid || st == Fill(p, b) ==> c'.s.buf[b].valid)
  {
    InUse(c, p, b);
    hide Ok;
  }

  lemma InUse<T>(c: Cache<T>, p: nat, b: nat)
    requires Ok(c) && b < NBUF && p in c.s.users[b]
    ensures c.s.buf[b].refcnt > 0 && Snapped(c.s)
  {
  }

  lemma GetRefers<T>(c: Cache<T>, p: nat, b: nat, t: Tag)
    requires Snapped(c.s) && Enabled(c, Get(p, b, t))
    ensures var c' := Apply(c, Get(p, b, t)); Snapped(c'.s) && b < NBUF && p in c'.s.users[b] && c'.s.buf[b].tag == t
  {
  }

  /** From bget to brelse the buffer is that of the block asked for, and valid once bread filled it. */
  lemma {:induction false} StaysOfBlock<T>(run: seq<Cache<T>>, steps: seq<Step<T>>, i: nat, n: nat, p: nat, b: nat,
                                           t: Tag)
    requires IsRun(run, steps) && i < n < |run| && steps[i] == Get(p, b, t)
    requires forall j :: i < j < n ==> steps[j] != Drop(p, b)
    ensures Snapped(run[n].s) && b < NBUF && p in run[n].s.users[b] && run[n].s.buf[b].tag == t
    ensures (exists k :: i < k < n && steps[k] == Fill(p, b)) ==> run[n].s.buf[b].valid
  {
    hide Ok, Enabled, Apply;
    if n == i + 1 {
      GetRefers(run[i], p, b, t);
    } else {
      StaysOfBlock(run, steps, i, n - 1, p, b, t);
      RunOk(run, steps, n - 1);
      StepRefers(run[n - 1], steps[n - 1], p, b);
    }
  }

  /** bread under any interleaving: p got buffer b for block t in step i and filled it in step k, and has
      not released it. Whatever steps it and the other processes took before, between and since, b is the
      one buffer of t; unless p has changed it since it last handed it over, its data is the latest
      contents of t given to log_write or bwrite, and these are on the disk unless the buffer is pinned. */
  lemma BreadLatest<T>(run: seq<Cache<T>>, steps: seq<Step<T>>, i: nat, k: nat, n: nat, p: nat, b: nat, t: Tag)
    requires IsRun(run, steps) && i < k < n < |run| && t.dev != 0 && steps[i] == Get(p, b, t) && steps[k] == Fill(p, b)
    requires forall j :: i < j < n ==> steps[j] != Drop(p, b)
    ensures var s := run[n].s;
            && Snapped(s) && b < NBUF && s.buf[b].tag == t && s.buf[b].valid && t in s.view && t in run[n].disk
            && (forall a :: 0 <= a < NBUF && s.buf[a].tag == t ==> a == b)
            && (b !in s.touched ==> s.buf[b].data == s.view[t])
            && (!s.buf[b].dirty ==> run[n].disk[t] == s.view[t])
  {
    StaysOfBlock(run, steps, i, n, p, b, t);
    RunOk(run, steps, n);
  }
}
