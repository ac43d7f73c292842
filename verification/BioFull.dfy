/** When bget finds a buffer: the log may pin almost all of the cache (src/log.c, src/param.h), and commit
    itself reads blocks through the cache. */
module BioFull {
  import opened Common
  import opened BioRing
  import opened BioSteps

  /** The buffers that are pinned or referred to. */
  ghost function Taken<T>(buf: seq<Buf<T>>): set<nat> {
    set b: nat | b < |buf| && !Idle(buf[b])
  }

  /** Some buffer can be given to a process that asks for block t; bget panics otherwise. */
  ghost predicate Finds<T>(c: Cache<T>, t: Tag)
    requires Snapped(c.s)
  {
    exists b: nat :: Enabled(c, Get(0, b, t))
  }

  ghost predicate Cached<T>(c: Cache<T>, t: Tag)
    requires Snapped(c.s)
  {
    exists b :: 0 <= b < NBUF && c.s.buf[b].tag == t
  }

  /** bget finds a buffer exactly when the block is cached or fewer than NBUF buffers are pinned or
      referred to. */
  lemma FindsIff<T>(c: Cache<T>, t: Tag)
    requires Snapped(c.s)
    ensures Finds(c, t) <==> Cached(c, t) || |Taken(c.s.buf)| < NBUF
  {
    hide Upto;
    var buf, taken, all := c.s.buf, Taken(c.s.buf), Upto(NBUF);
    assert taken <= all;
    Rest(taken, all);
    if Cached(c, t) {
      var b :| 0 <= b < NBUF && buf[b].tag == t;
      assert Enabled(c, Get(0, b, t));
    } else if |taken| < NBUF {
      var b :| b in all - taken;
      assert Enabled(c, Get(0, b, t));
    } else {
      forall b: nat ensures !Enabled(c, Get(0, b, t)) {
        assert b in all ==> b in taken;
      }
    }
  }

  /** The blocks whose buffers are pinned or referred to. */
  ghost function TakenTags<T>(buf: seq<Buf<T>>): set<Tag> {
    TagsOf(buf, Taken(buf))
  }

  ghost function TagsOf<T>(buf: seq<Buf<T>>, bs: set<nat>): set<Tag> {
    set b | b in bs && b < |buf| :: buf[b].tag
  }

  lemma {:induction false} TagsCount<T>(buf: seq<Buf<T>>, bs: set<nat>)
    requires UniqueTags(buf) && forall b :: b in bs ==> b < |buf| && buf[b].tag.dev != 0
    ensures |TagsOf(buf, bs)| == |bs|
  {
    if bs != {} {
      var b :| b in bs;
      TagsCount(buf, bs - {b});
      assert TagsOf(buf, bs) == TagsOf(buf, bs - {b}) + {buf[b].tag};
    } else {
      assert TagsOf(buf, bs) == {};
    }
  }

  /** In terms of blocks: bget finds a buffer for t exactly when t and the blocks pinned or referred to are
      no more than there are buffers. */
  lemma FindsByBlock<T>(c: Cache<T>, t: Tag)
    requires Ok(c) && Snapped(c.s) && t.dev != 0
    requires forall b :: 0 <= b < NBUF && !Idle(c.s.buf[b]) ==> c.s.buf[b].tag.dev != 0
    ensures Finds(c, t) <==> |TakenTags(c.s.buf) + {t}| <= NBUF
  {
    var buf, taken, all := c.s.buf, Taken(c.s.buf), Upto(NBUF);
    FindsIff(c, t);
    TagsCount(buf, taken);
    assert taken <= all;
    Fewer(taken, all);
    hide Upto, Finds, Ok;
    if t in TakenTags(buf) {
      var b :| b in taken && buf[b].tag == t;
      assert TakenTags(buf) + {t} == TakenTags(buf);
    } else if Cached(c, t) {
      var b :| 0 <= b < NBUF && buf[b].tag == t;
      assert b !in taken && b in all;
    }
  }

  ghost function Upto(n: nat): (r: set<nat>)
    ensures |r| == n && forall b :: b in r <==> 0 <= b < n
  {
    if n == 0 then {} else Upto(n - 1) + {n - 1}
  }

  lemma Rest(a: set<nat>, b: set<nat>)
    requires a <= b
    ensures |b - a| == |b| - |a| && (|a| < |b| <==> b - a != {})
  {
    assert b == a + (b - a);
  }

  // ---------- a run in which commit finds none ----------

  function Blk(i: nat): Tag {
    Tag(1, i)
  }

  /** After binit. */
  function Empty<T>(disk: map<Tag, T>, z: T): Cache<T> {
    Cache(Snap(seq(NBUF, _ => Buf(Tag(0, 0), false, false, 0, None, z)), seq(NBUF, _ => multiset{}), {}, disk), disk)
  }

  /** Buffer i holds block i, pinned by log_write and released. */
  function PinnedBuf<T>(disk: map<Tag, T>, i: nat): Buf<T>
    requires Blk(i) in disk
  {
    Buf(Blk(i), true, true, 0, None, disk[Blk(i)])
  }

  predicate HasBlocks<T>(disk: map<Tag, T>) {
    forall i: nat :: i <= NBUF ==> Blk(i) in disk
  }

  /** Buffers 0 .. n-1 are pinned, the others as after binit. */
  function PinnedTo<T>(disk: map<Tag, T>, z: T, n: nat): Cache<T>
    requires HasBlocks(disk) && n <= NBUF
  {
    Empty(disk, z).(s := Empty(disk, z).s.(buf :=
      seq(NBUF, b requires 0 <= b < NBUF => if b < n then PinnedBuf(disk, b)
          else Buf(Tag(0, 0), false, false, 0, None, z))))
  }

  lemma EmptyOk<T>(disk: map<Tag, T>, z: T)
    ensures Ok(Empty(disk, z))
  {
  }

  lemma Then<T>(run: seq<Cache<T>>, steps: seq<Step<T>>, st: Step<T>)
    returns (run': seq<Cache<T>>, steps': seq<Step<T>>)
    requires IsRun(run, steps) && Ok(run[|run| - 1]) && Enabled(run[|run| - 1], st)
    ensures IsRun(run', steps') && run'[0] == run[0] && |run'| > 0
    ensures run'[|run'| - 1] == Apply(run[|run| - 1], st) && Ok(run'[|run'| - 1])
  {
    StepOk(run[|run| - 1], st);
    OkSnapped(run[|run| - 1]);
    hide Ok, Apply, Enabled, Snapped;
    run', steps' := run + [Apply(run[|run| - 1], st)], steps + [st];
  }

  /** A process reads block i into buffer i, logs it and releases it. */
  lemma PinOne<T>(run: seq<Cache<T>>, steps: seq<Step<T>>, disk: map<Tag, T>, z: T, i: nat)
    returns (run': seq<Cache<T>>, steps': seq<Step<T>>)
    requires HasBlocks(disk) && i < NBUF && IsRun(run, steps) && Ok(run[|run| - 1])
             && run[|run| - 1] == PinnedTo(disk, z, i)
    ensures IsRun(run', steps') && run'[0] == run[0] && |run'| > 0
    ensures Ok(run'[|run'| - 1]) && run'[|run'| - 1] == PinnedTo(disk, z, i + 1)
  {
    hide Ok, IsRun;
    run', steps' := Then(run, steps, Get(0, i, Blk(i)));
    run', steps' := Then(run', steps', Lock(0, i));
    run', steps' := Then(run', steps', Fill(0, i));
    run', steps' := Then(run', steps', Log(0, i));
    run', steps' := Then(run', steps', Unlock(0, i));
    run', steps' := Then(run', steps', Drop(0, i));
    var c, c' := run'[|run'| - 1], PinnedTo(disk, z, i + 1);
    assert c.s.users == c'.s.users && c.s.view == c'.s.view && c.s.touched == c'.s.touched;
    assert c.s.buf == c'.s.buf;
  }

  lemma {:induction false} PinMany<T>(disk: map<Tag, T>, z: T, n: nat) returns (run: seq<Cache<T>>, steps: seq<Step<T>>)
    requires HasBlocks(disk) && n <= NBUF
    ensures IsRun(run, steps) && run[0] == Empty(disk, z) && |run| > 0
    ensures Ok(run[|run| - 1]) && run[|run| - 1] == PinnedTo(disk, z, n)
  {
    if n == 0 {
      EmptyOk(disk, z);
      run, steps := [Empty(disk, z)], [];
      assert PinnedTo(disk, z, 0).s.buf == Empty(disk, z).s.buf;
    } else {
      run, steps := PinMany(disk, z, n - 1);
      hide Ok, IsRun, PinnedTo, Empty;
      run, steps := PinOne(run, steps, disk, z, n - 1);
    }
  }

  /** From boot: the log pins as many blocks as mkfs's log area holds, one process reads another block and
      has not released it yet, and commit's bread of a log block makes bget panic. */
  lemma CommitFindsNone<T>(disk: map<Tag, T>, z: T) returns (run: seq<Cache<T>>, steps: seq<Step<T>>)
    requires HasBlocks(disk)
    ensures IsRun(run, steps) && run[0] == Empty(disk, z) && |run| > 0
    ensures var c := run[|run| - 1];
            && Snapped(c.s) && !Finds(c, Blk(NBUF))
            && (forall b :: 0 <= b < NBUF - 1 ==> c.s.buf[b].dirty && c.s.buf[b].refcnt == 0)
            && c.s.buf[NBUF - 1].refcnt == 1
  {
    hide IsRun, Ok;
    run, steps := PinMany(disk, z, NBUF - 1);
    run, steps := Then(run, steps, Get(1, NBUF - 1, Blk(NBUF - 1)));
    var c := run[|run| - 1];
    forall b: nat | b < NBUF ensures !Idle(c.s.buf[b]) && c.s.buf[b].tag == Blk(b) {
    }
    assert forall b: nat :: b < NBUF ==> c.s.buf[b].tag != Blk(NBUF);
  }
}
