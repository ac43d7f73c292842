/**
The buffer cache of src/bio.c: bget, bread, bwrite and brelse on the linked list of buffers, with the
pinning of log_write (src/log.c) and iderw as one atomic block read or write.
*/
module BioCode {
  import opened Common
  import opened BioRing
  import opened BioSteps

  /** The list holds every buffer, the most recently released first. */
  ghost predicate Sorted(order: seq<nat>, stamp: seq<nat>, clock: nat) {
    && |stamp| == NBUF && (forall i :: 0 <= i < |order| ==> order[i] < NBUF)
    && (forall b :: 0 <= b < NBUF ==> b in order && stamp[b] < clock)
    && (forall i, j :: 0 <= i < j < |order| ==> stamp[order[i]] > stamp[order[j]])
  }

  class BufferCache<T(0)> {
    var buf: seq<Buf<T>>
    var next: seq<nat>
    var prev: seq<nat>
    var disk: map<Tag, T>
    ghost var order: seq<nat>
    ghost var stamp: seq<nat>
    ghost var clock: nat
    ghost var view: map<Tag, T>
    ghost var touched: set<nat>
    ghost var users: seq<multiset<nat>>

    ghost function S(): Snap<T>
      reads this
    {
      Snap(buf, users, touched, view)
    }

    ghost function C(): Cache<T>
      reads this
    {
      Cache(S(), disk)
    }

    ghost predicate Valid()
      reads this
    {
      && |buf| == NBUF && Ring(next, prev, order) && Sorted(order, stamp, clock)
      && UniqueTags(buf) && Counted(buf, users) && Coherent(buf, disk, view, touched)
    }

    /** binit: an empty cache, all buffers tagged (0, 0). */
    constructor (disk: map<Tag, T>, zero: T)
      ensures Valid() && Ok(C()) && this.disk == disk == view && touched == {}
      ensures forall b :: 0 <= b < NBUF ==> buf[b] == Buf(Tag(0, 0), false, false, 0, None, zero)
    {
      buf := seq(NBUF, _ => Buf(Tag(0, 0), false, false, 0, None, zero));
      next := seq(NBUF + 1, _ => HEAD);
      prev := seq(NBUF + 1, _ => HEAD);
      this.disk := disk;
      order := [];
      stamp := seq(NBUF, i => i);
      clock := NBUF;
      view := disk;
      touched := {};
      users := seq(NBUF, _ => multiset{});
      new;
      LinkAll();
      AllListed(order, stamp, clock);
      hide Ring, Sorted;
    }

    /** The loop of binit: each buffer in turn goes to the front of the list. */
    method LinkAll()
      requires next == prev == seq(NBUF + 1, _ => HEAD) && order == []
      modifies this`next, this`prev, this`order
      ensures Ring(next, prev, order) && |order| == NBUF && forall i :: 0 <= i < NBUF ==> order[i] == NBUF - 1 - i
    {
      var b := 0;
      while b < NBUF
        invariant 0 <= b <= NBUF && Ring(next, prev, order) && |order| == b
        invariant forall i :: 0 <= i < b ==> order[i] == b - 1 - i
      {
        PushRing(next, prev, order, b);
        hide Ring;
        Push(b);
        b := b + 1;
      }
    }

    /** b goes to the front of the list. */
    method Push(b: nat)
      requires |next| == |prev| == NBUF + 1 && b < NBUF && next[HEAD] <= NBUF
      modifies this`next, this`prev, this`order
      ensures next == PushNext(old(next), b) && prev == PushPrev(old(next), old(prev), b) && order == [b] + old(order)
    {
      next := next[b := next[HEAD]];
      prev := prev[b := HEAD];
      prev := prev[next[HEAD] := b];
      next := next[HEAD := b];
      order := [b] + order;
    }

    /** The first loop of bget: a buffer with the tag, if there is one. */
    method FindCached(t: Tag) returns (r: Option<nat>)
      requires Valid()
      ensures r.Some? ==> r.value < NBUF && buf[r.value].tag == t
      ensures r.None? ==> forall b :: 0 <= b < NBUF ==> buf[b].tag != t
    {
      hide Coherent, Counted, UniqueTags;
      var b := next[HEAD];
      ghost var i := 0;
      assert Node(order, -1) == HEAD;
      while b != HEAD
        invariant 0 <= i <= |order| && b == Node(order, i)
        invariant forall j :: 0 <= j < i ==> buf[order[j]].tag != t
        decreases |order| - i
      {
        if buf[b].tag == t {
          return Some(b);
        }
        b := next[b];
        i := i + 1;
      }
      forall a | 0 <= a < NBUF ensures buf[a].tag != t {
        assert a in order;
        var j :| 0 <= j < |order| && order[j] == a;
      }
      return None;
    }

    /** The second loop of bget: of the unreferenced clean buffers, the least recently released. */
    method FindVictim() returns (r: Option<nat>)
      requires Valid()
      ensures r.Some? ==> r.value < NBUF && Idle(buf[r.value])
      ensures r.Some? ==> forall b :: 0 <= b < NBUF && Idle(buf[b]) && b != r.value ==> stamp[r.value] < stamp[b]
      ensures r.None? ==> forall b :: 0 <= b < NBUF ==> !Idle(buf[b])
    {
      hide Coherent, Counted, UniqueTags;
      var b := prev[HEAD];
      ghost var i := |order| - 1;
      assert Node(order, |order|) == HEAD;
      while b != HEAD
        invariant -1 <= i < |order| && b == Node(order, i)
        invariant forall j :: i < j < |order| ==> !Idle(buf[order[j]])
        decreases i
      {
        if buf[b].refcnt == 0 && !buf[b].dirty {
          return Some(b);
        }
        b := prev[b];
        i := i - 1;
      }
      forall a | 0 <= a < NBUF ensures !Idle(buf[a]) {
        assert a in order;
        var j :| 0 <= j < |order| && order[j] == a;
      }
      return None;
    }

    /** The critical section of bget: a reference to the buffer of that block, recycled from the
        least recently released idle buffer on a miss. None stands for the panic. */
    method Bget(p: nat, t: Tag) returns (r: Option<nat>)
      requires Valid()
      modifies this`buf, this`users
      ensures Valid() && forall q :: q != p ==> Steady(q, old(S()), S())
      ensures r.None? <==> (forall b :: 0 <= b < NBUF ==> old(buf)[b].tag != t && !Idle(old(buf)[b]))
      ensures r.None? ==> buf == old(buf)
      ensures r.Some? ==> Enabled(old(C()), Get(p, r.value, t)) && C() == Apply(old(C()), Get(p, r.value, t))
      ensures r.Some? ==>
                && var b := r.value;
                && b < NBUF && buf[b].tag == t && users == old(users)[b := old(users)[b] + multiset{p}]
                && (forall a :: 0 <= a < NBUF && a != b ==> buf[a] == old(buf)[a])
                && (old(buf)[b].tag == t ==> buf[b] == old(buf)[b].(refcnt := old(buf)[b].refcnt + 1))
                && (old(buf)[b].tag != t ==>
                      && (forall a :: 0 <= a < NBUF ==> old(buf)[a].tag != t)
                      && Idle(old(buf)[b]) && !buf[b].valid && buf[b].refcnt == 1
                      && forall a :: 0 <= a < NBUF && Idle(old(buf)[a]) && a != b ==> stamp[b] < stamp[a])
    {
      hide Ring, Sorted, Coherent, UniqueTags;
      r := FindCached(t);
      if r.Some? {
        var b := r.value;
        Hit(buf, disk, view, touched, users, b, p);
        buf := buf[b := buf[b].(refcnt := buf[b].refcnt + 1)];
        users := users[b := users[b] + multiset{p}];
        return;
      }
      r := FindVictim();
      if r.Some? {
        var b := r.value;
        Recycle(buf, disk, view, touched, users, b, p, t);
        buf := buf[b := buf[b].(tag := t, valid := false, dirty := false, refcnt := 1)];
        users := users[b := users[b] + multiset{p}];
      }
    }

    /** acquiresleep on a buffer p refers to, once the lock is free. */
    method Lock(p: nat, b: nat)
      requires Valid() && b < NBUF && p in users[b] && buf[b].holder == None
      modifies this`buf
      ensures Enabled(old(C()), BioSteps.Lock(p, b)) && C() == Apply(old(C()), BioSteps.Lock(p, b))
      ensures Valid() && buf == old(buf)[b := old(buf)[b].(holder := Some(p))] && b !in touched
      ensures forall q :: q != p ==> Steady(q, old(S()), S())
    {
      hide Ring, Sorted;
      Relabel(buf, buf[b := buf[b].(holder := Some(p))], disk, view, touched, users, b, p);
      buf := buf[b := buf[b].(holder := Some(p))];
    }

    /** The rest of bread: a buffer that is not valid is read from the disk. */
    method Fill(p: nat, b: nat)
      requires Valid() && b < NBUF && buf[b].holder == Some(p) && buf[b].tag in disk
      modifies this`buf
      ensures Enabled(old(C()), BioSteps.Fill(p, b)) && C() == Apply(old(C()), BioSteps.Fill(p, b))
      ensures Valid() && buf == old(buf)[b := old(buf)[b].(valid := true, data := buf[b].data)]
      ensures buf[b].tag.dev != 0 && b !in touched ==> buf[b].data == view[buf[b].tag]
      ensures old(buf)[b].valid ==> buf == old(buf)
      ensures forall q :: q != p ==> Steady(q, old(S()), S())
    {
      hide Ring, Sorted;
      if !buf[b].valid {
        Loaded(buf, disk, view, touched, users, b, p);
        buf := buf[b := buf[b].(valid := true, data := disk[buf[b].tag])];
      }
    }

    /** The holder changes the data in memory. */
    method Modify(p: nat, b: nat, data: T)
      requires Valid() && b < NBUF && buf[b].holder == Some(p) && buf[b].valid
      modifies this`buf, this`touched
      ensures Enabled(old(C()), BioSteps.Modify(p, b, data)) && C() == Apply(old(C()), BioSteps.Modify(p, b, data))
      ensures Valid() && buf == old(buf)[b := old(buf)[b].(data := data)] && touched == old(touched) + {b}
      ensures forall q :: q != p ==> Steady(q, old(S()), S())
    {
      hide Ring, Sorted;
      Changed(buf, disk, view, touched, users, b, p, data);
      buf := buf[b := buf[b].(data := data)];
      touched := touched + {b};
    }

    /** log_write: the buffer is pinned, and its data is now the latest contents of its block. */
    method LogWrite(p: nat, b: nat)
      requires Valid() && b < NBUF && buf[b].holder == Some(p) && buf[b].valid && buf[b].tag in disk
      modifies this`buf, this`touched, this`view
      ensures Enabled(old(C()), Log(p, b)) && C() == Apply(old(C()), Log(p, b))
      ensures Valid() && buf == old(buf)[b := old(buf)[b].(dirty := true)] && touched == old(touched) - {b}
      ensures view == old(view)[buf[b].tag := buf[b].data]
      ensures forall q :: q != p ==> Steady(q, old(S()), S())
    {
      hide Ring, Sorted;
      Logged(buf, disk, view, touched, users, b, p);
      buf := buf[b := buf[b].(dirty := true)];
      touched := touched - {b};
      view := view[buf[b].tag := buf[b].data];
    }

    /** bwrite: the data goes to the disk and the pin is dropped. */
    method Bwrite(p: nat, b: nat)
      requires Valid() && b < NBUF && buf[b].holder == Some(p) && buf[b].tag in disk
      modifies this`buf, this`touched, this`view, this`disk
      ensures Enabled(old(C()), Write(p, b)) && C() == Apply(old(C()), Write(p, b))
      ensures Valid() && buf == old(buf)[b := old(buf)[b].(valid := true, dirty := false)]
              && touched == old(touched) - {b}
      ensures disk == old(disk)[buf[b].tag := buf[b].data] && view == old(view)[buf[b].tag := buf[b].data]
      ensures forall q :: q != p ==> Steady(q, old(S()), S())
    {
      hide Ring, Sorted, Coherent, UniqueTags, Counted, Steady;
      Stored(buf, disk, view, touched, users, b, p);
      buf := buf[b := buf[b].(dirty := true)];
      disk := disk[buf[b].tag := buf[b].data];
      buf := buf[b := buf[b].(valid := true, dirty := false)];
      touched := touched - {b};
      view := view[buf[b].tag := buf[b].data];
      assert buf == old(buf)[b := old(buf)[b].(valid := true, dirty := false)];
    }

    /** The first half of brelse: the sleep lock is dropped; changed data must have been handed to
        log_write or bwrite. */
    method Unlock(p: nat, b: nat)
      requires Valid() && b < NBUF && buf[b].holder == Some(p) && b !in touched
      modifies this`buf
      ensures Enabled(old(C()), BioSteps.Unlock(p, b)) && C() == Apply(old(C()), BioSteps.Unlock(p, b))
      ensures Valid() && buf == old(buf)[b := old(buf)[b].(holder := None)]
      ensures forall q :: q != p ==> Steady(q, old(S()), S())
    {
      hide Ring, Sorted;
      Relabel(buf, buf[b := buf[b].(holder := None)], disk, view, touched, users, b, p);
      buf := buf[b := buf[b].(holder := None)];
    }

    /** The second half of brelse: the reference is dropped; with the last one the buffer becomes the
        most recently released. */
    method Drop(p: nat, b: nat)
      requires Valid() && b < NBUF == |users| && p in users[b] && buf[b].holder != Some(p)
      modifies this`buf, this`users, this`next, this`prev, this`order, this`stamp, this`clock
      ensures Enabled(old(C()), BioSteps.Drop(p, b)) && C() == Apply(old(C()), BioSteps.Drop(p, b))
      ensures Valid() && buf == old(buf)[b := old(buf)[b].(refcnt := old(buf)[b].refcnt - 1)]
      ensures users == old(users)[b := old(users)[b] - multiset{p}]
      ensures old(clock) <= clock && forall a :: 0 <= a < NBUF ==> a in old(order) && old(stamp)[a] < old(clock)
      ensures stamp == if buf[b].refcnt == 0 then old(stamp)[b := old(clock)] else old(stamp)
      ensures forall q :: q != p ==> Steady(q, old(S()), S())
    {
      hide Ring, Sorted, Coherent, UniqueTags, Counted, Steady;
      Dropped(buf, disk, view, touched, users, b, p);
      SortedAll(order, stamp, clock);
      buf := buf[b := buf[b].(refcnt := buf[b].refcnt - 1)];
      users := users[b := users[b] - multiset{p}];
      if buf[b].refcnt == 0 {
        ToFront(b);
      }
    }

    /** The last reference is gone: b is unlinked and linked again behind the head. */
    method ToFront(b: nat)
      requires Ring(next, prev, order) && Sorted(order, stamp, clock) && b < NBUF
      modifies this`next, this`prev, this`order, this`stamp, this`clock
      ensures Ring(next, prev, order) && Sorted(order, stamp, clock)
      ensures |old(stamp)| == NBUF && stamp == old(stamp)[b := old(clock)] && clock == old(clock) + 1
    {
      hide Ring, Sorted;
      SortedAll(order, stamp, clock);
      assert b in order;
      ghost var k :| 0 <= k < |order| && order[k] == b;
      DropRing(next, prev, order, k);
      RingShape(next, prev, order);
      MoveFront(order, stamp, clock, k);
      prev := prev[next[b] := prev[b]];
      next := next[prev[b] := next[b]];
      order := Without(order, k);
      PushRing(next, prev, order, b);
      Push(b);
      stamp := stamp[b := clock];
      clock := clock + 1;
    }
  }

  lemma AllListed(order: seq<nat>, stamp: seq<nat>, clock: nat)
    requires |order| == NBUF && forall i :: 0 <= i < NBUF ==> order[i] == NBUF - 1 - i
    requires stamp == seq(NBUF, i => i) && clock == NBUF
    ensures Sorted(order, stamp, clock)
  {
    forall b | 0 <= b < NBUF ensures b in order {
      assert order[NBUF - 1 - b] == b;
    }
  }

  lemma SortedAll(order: seq<nat>, stamp: seq<nat>, clock: nat)
    requires Sorted(order, stamp, clock)
    ensures |stamp| == NBUF && forall b :: 0 <= b < NBUF ==> b in order && stamp[b] < clock
  {
  }

  lemma RingShape(next: seq<nat>, prev: seq<nat>, order: seq<nat>)
    requires Ring(next, prev, order)
    ensures |next| == |prev| == NBUF + 1 && Distinct(order)
    ensures forall i :: 0 <= i < |order| ==> order[i] < NBUF && next[order[i]] <= NBUF && prev[order[i]] <= NBUF
    ensures forall i :: 0 <= i < |order| ==> next[order[i]] != order[i] && prev[order[i]] != order[i]
  {
    forall i | 0 <= i < |order| ensures next[order[i]] == Node(order, i + 1) && prev[order[i]] == Node(order, i - 1) {
      assert Node(order, i) == order[i];
    }
  }

  lemma MoveFront(order: seq<nat>, stamp: seq<nat>, clock: nat, k: nat)
    requires Sorted(order, stamp, clock) && k < |order| && Distinct(order)
    ensures order[k] !in Without(order, k)
    ensures Sorted([order[k]] + Without(order, k), stamp[order[k] := clock], clock + 1)
  {
    var b, rest := order[k], Without(order, k);
    WithoutAt(order, k);
    MoveAll(order, k);
    hide Without;
    var order', stamp' := [b] + rest, stamp[b := clock];
    forall i | 0 <= i < |rest| ensures stamp'[rest[i]] == stamp[rest[i]] < clock {
    }
    forall i, j | 0 <= i < j < |rest| ensures stamp[rest[i]] > stamp[rest[j]] {
    }
    SortedCons(b, rest, stamp');
  }

  lemma WithoutAt(order: seq<nat>, k: nat)
    requires k < |order| && Distinct(order)
    ensures var rest := Without(order, k);
            && |rest| == |order| - 1
            && (forall i {:trigger rest[i]} :: 0 <= i < |rest| ==>
                  rest[i] == (if i < k then order[i] else order[i + 1]) && rest[i] != order[k])
  {
  }

  lemma SortedCons(b: nat, rest: seq<nat>, stamp: seq<nat>)
    requires b < |stamp| && forall i :: 0 <= i < |rest| ==> rest[i] < |stamp| && stamp[rest[i]] < stamp[b]
    requires forall i, j :: 0 <= i < j < |rest| ==> stamp[rest[i]] > stamp[rest[j]]
    ensures forall i, j :: 0 <= i < j < |[b] + rest| ==> stamp[([b] + rest)[i]] > stamp[([b] + rest)[j]]
  {
  }

  lemma MoveAll(order: seq<nat>, k: nat)
    requires k < |order|
    ensures forall a :: a in order ==> a in [order[k]] + Without(order, k)
  {
    var order' := [order[k]] + Without(order, k);
    forall a | a in order ensures a in order' {
      var j :| 0 <= j < |order| && order[j] == a;
      if j < k {
        assert order'[j + 1] == a;
      } else if j == k {
        assert order'[0] == a;
      } else {
        assert order'[j] == a;
      }
    }
  }
}
