/**
dirlookup, dirlink and skipelem of src/fs.c, the entry clear of sys_unlink, and the string loops
they use, on the file system of module FsCode.
*/
module DirCode {
  import opened Common
  import opened FsBits
  import opened FsModel
  import opened FsCode
  import opened DirModel

  /** strncmp on two name buffers: 0 exactly when they hold the same name. */
  method NameCmp(p: seq<byte>, q: seq<byte>) returns (r: int)
    requires NameBuf(p) && NameBuf(q)
    ensures r == 0 <==> Key(p) == Key(q)
  {
    var i := 0;
    assert p[0..] == p && q[0..] == q;
    hide Cut;
    while i < DIRSIZ && p[i] != 0 && p[i] == q[i]
      invariant 0 <= i <= DIRSIZ && i <= |p| && i <= |q| && 0 !in p[..i] && 0 !in q[..i]
      invariant i < DIRSIZ ==> i < |p| && i < |q|
      invariant Key(p) == Key(q) <==> Cut(p[i..], DIRSIZ - i) == Cut(q[i..], DIRSIZ - i)
    {
      CutBoth(p, q, i);
      i := i + 1;
      Enough(p, i);
      Enough(q, i);
    }
    if i == DIRSIZ {
      CutNone(p, q);
      return 0;
    }
    CutDiffer(p, q, i);
    return p[i] as int - q[i] as int;
  }

  lemma CutBoth(p: seq<byte>, q: seq<byte>, i: nat)
    requires i < |p| && i < |q| && i < DIRSIZ && p[i] == q[i] != 0
    ensures Cut(p[i..], DIRSIZ - i) == Cut(q[i..], DIRSIZ - i) <==>
            Cut(p[i + 1..], DIRSIZ - (i + 1)) == Cut(q[i + 1..], DIRSIZ - (i + 1))
  {
    var a, b := Cut(p[i + 1..], DIRSIZ - (i + 1)), Cut(q[i + 1..], DIRSIZ - (i + 1));
    assert p[i..][1..] == p[i + 1..] && q[i..][1..] == q[i + 1..];
    assert ([p[i]] + a)[1..] == a && ([q[i]] + b)[1..] == b;
  }

  lemma CutDiffer(p: seq<byte>, q: seq<byte>, i: nat)
    requires i < |p| && i < |q| && i < DIRSIZ && (p[i] == 0 || p[i] != q[i])
    ensures Cut(p[i..], DIRSIZ - i) == Cut(q[i..], DIRSIZ - i) <==> p[i] == q[i]
  {
    var a, b := Cut(p[i..], DIRSIZ - i), Cut(q[i..], DIRSIZ - i);
    assert (p[i] != 0 ==> a != [] && a[0] == p[i]) && (q[i] != 0 ==> b != [] && b[0] == q[i]);
  }

  lemma CutNone(p: seq<byte>, q: seq<byte>)
    requires DIRSIZ <= |p| && DIRSIZ <= |q|
    ensures Cut(p[DIRSIZ..], 0) == Cut(q[DIRSIZ..], 0)
  {
  }

  /** A name buffer without a NUL so far has a byte left, up to DIRSIZ. */
  lemma Enough(p: seq<byte>, i: nat)
    requires NameBuf(p) && i <= |p| && 0 !in p[..i]
    ensures i < DIRSIZ ==> i < |p|
  {
    if |p| == i { assert p[..i] == p; }
  }

  lemma CutStep(p: seq<byte>, i: nat)
    requires i < |p| && i < DIRSIZ && p[i] != 0
    ensures p[..i] + Cut(p[i..], DIRSIZ - i) == p[..i + 1] + Cut(p[i + 1..], DIRSIZ - (i + 1))
  {
    assert p[i..][1..] == p[i + 1..];
    assert p[..i + 1] == p[..i] + [p[i]];
  }

  lemma CutHead(p: seq<byte>, i: nat)
    requires i < |p| && i < DIRSIZ
    ensures p[i] == 0 ==> p[..i] + Cut(p[i..], DIRSIZ - i) == p[..i]
    ensures p[i] != 0 ==> |p[..i] + Cut(p[i..], DIRSIZ - i)| > i && (p[..i] + Cut(p[i..], DIRSIZ - i))[i] == p[i]
  {
  }

  /** strncpy into a name field: the name, padded with NULs. */
  method CopyName(t: seq<byte>) returns (s: seq<byte>)
    requires NameBuf(t)
    ensures s == Pad(Key(t))
  {
    s := [];
    var i := 0;
    var ended := false;
    KeyStart(t);
    hide Key, Cut;
    while i < DIRSIZ && !ended
      invariant 0 <= i <= DIRSIZ && i <= |t| && |s| == i
      invariant !ended ==>
                  && s == t[..i] && 0 !in t[..i] && (i < DIRSIZ ==> i < |t|)
                  && Key(t) == t[..i] + Cut(t[i..], DIRSIZ - i)
      invariant ended ==> i > 0 && s == Key(t) + [0]
      decreases DIRSIZ - i, !ended
    {
      s := s + [t[i]];
      ended := t[i] == 0;
      if ended {
        CutHead(t, i);
      } else {
        CutStep(t, i);
        Enough(t, i + 1);
      }
      i := i + 1;
    }
    CopiedSoFar(t, s, ended);
    while i < DIRSIZ
      invariant 0 <= i <= DIRSIZ && |s| == i && s <= Pad(Key(t)) && |Key(t)| <= i
    {
      s := s + [0];
      i := i + 1;
    }
  }

  lemma KeyStart(t: seq<byte>)
    requires NameBuf(t)
    ensures |t| > 0 && Key(t) == t[..0] + Cut(t[0..], DIRSIZ) && |Key(t)| <= DIRSIZ
  {
    assert t[0..] == t;
  }

  lemma CopiedSoFar(t: seq<byte>, s: seq<byte>, ended: bool)
    requires |s| <= DIRSIZ
    requires if ended then s == Key(t) + [0] else |s| == DIRSIZ <= |t| && Key(t) == s + Cut(t[DIRSIZ..], 0)
    ensures |Key(t)| <= |s| && s <= Pad(Key(t))
  {
  }

  // ---------- searching ----------

  datatype Lookup = Absent | Found(inum: nat, off: nat)

  /** A directory whose last entry is cut short, and no entry before it has the name. */
  predicate Broken(c: seq<byte>, k: seq<byte>) {
    |c| % DESIZE != 0 && LookupOf(c, k).Absent?
  }

  /** A directory dirlink cannot add the name to, whatever is free on the disk. */
  predicate Stuck(c: seq<byte>, k: seq<byte>) {
    Broken(c, k) || (LookupOf(c, k).Absent? && FindEmpty(c, 0) == Count(c) && |c| == MAXFILE * BSIZE)
  }

  /** The bytes a search has read once it has looked at entry e. */
  function Upto(size: nat, e: nat): nat {
    if DESIZE * (e + 1) <= size then DESIZE * (e + 1) else size
  }

  /** The bytes dirlink reads or writes: up to the entry with the name, or all of them and one more entry
      if none is empty. */
  function LinkUpto(c: seq<byte>, k: seq<byte>): nat {
    if LookupOf(c, k).Found? then Upto(|c|, FindName(c, k, 0))
    else if FindEmpty(c, 0) < Count(c) then |c|
    else |c| + DESIZE
  }

  /** The first n bytes of dp need more blocks than are free. */
  ghost predicate Short(fs: FS, dp: nat, n: nat)
    requires Shape(fs) && dp < |fs.inode|
  {
    n <= MAXFILE * BSIZE && Reach(0, n) <= MAXFILE && Free(fs) < Need(fs, dp, 0, Reach(0, n))
  }

  function LookupOf(c: seq<byte>, k: seq<byte>): Lookup {
    var e := FindName(c, k, 0);
    if e < Count(c) then Found(InumOf(EntryAt(c, e)), DESIZE * e) else Absent
  }

  /** dirlookup: the first live entry with that name. None stands for a panic: the search ran into
      a broken last entry, or a hole in the directory could not be filled. */
  method Dirlookup(fs: FileSystem, dp: nat, name: seq<byte>) returns (r: Option<Lookup>)
    requires fs.Valid() && dp < |fs.inode| && NameBuf(name)
    modifies fs`bits, fs`block, fs`inode, fs`own, fs`logged
    ensures r.Some? ==> fs.Valid() && Unmoved(old(fs.V()), fs.V(), dp)
    ensures r.Some? ==> r.value == LookupOf(Contents(old(fs.V()), dp), Key(name))
    ensures var c := Contents(old(fs.V()), dp);
            var n := Upto(|c|, FindName(c, Key(name), 0));
            && (r.None? <==> Broken(c, Key(name)) || Short(old(fs.V()), dp, n))
            && (r.Some? ==> Spent(old(fs.V()), fs.V(), dp, 0, Reach(0, n)))
    ensures Dense(old(fs.V()), dp) ==> fs.V() == old(fs.V()) && fs.logged == old(fs.logged)
    ensures Recorded(fs.bmapstart, fs.inodestart, old(fs.D()), old(fs.logged), fs.D(), fs.logged)
  {
    hide FileSystem.Valid, SameBytes, Dense, Contents, Slice, ByteAt, InumOf, EntryAt, Key, Need, Free, Reach, Spent,
      Recorded;
    RecordedSame(fs.bmapstart, fs.inodestart, fs.D(), fs.logged);
    ghost var fs0 := fs.V();
    ValidParts(fs);
    UnmovedStart(fs0, dp);
    ghost var c := Contents(fs0, dp);
    ContentsLen(fs0, dp);
    SearchStart(fs0, dp);
    var off := 0;
    while off < fs.inode[dp].size
      invariant off % DESIZE == 0 && 0 <= off <= |c| + DESIZE && off / DESIZE <= Count(c)
      invariant fs.Valid() && Unmoved(fs0, fs.V(), dp)
      invariant FindName(c, Key(name), 0) == FindName(c, Key(name), off / DESIZE)
      invariant off <= |c| && Spent(fs0, fs.V(), dp, 0, Reach(0, off))
      invariant Dense(fs0, dp) ==> fs.V() == fs0 && fs.logged == old(fs.logged)
      invariant Recorded(fs.bmapstart, fs.inodestart, old(fs.D()), old(fs.logged), fs.D(), fs.logged)
    {
      ghost var fs1, d1, l1 := fs.V(), fs.D(), fs.logged;
      SizeStays(fs0, fs1, dp);
      var n, de := fs.Readi(dp, off, DESIZE);
      RecordedTrans(fs.bmapstart, fs.inodestart, old(fs.D()), old(fs.logged), d1, l1, fs.D(), fs.logged);
      if n.None? {
        SearchShort(fs0, fs1, dp, off, |c|, FindName(c, Key(name), 0));
        return None;
      }
      ReadEntry(fs0, fs1, dp, off, de);
      ValidParts(fs);
      if n != Some(DESIZE) {
        return None;
      }
      SearchNext(fs0, fs1, fs.V(), dp, off);
      Chain(fs0, fs1, fs.V(), dp);
      if InumOf(de) != 0 {
        var d := NameCmp(name, de[2..]);
        if d == 0 {
          Searched(fs0, fs.V(), dp, off + DESIZE);
          return Some(Found(InumOf(de), off));
        }
      }
      off := off + DESIZE;
    }
    Searched(fs0, fs.V(), dp, |c|);
    return Some(Absent);
  }

  /** The second loop of dirlink: the offset of the first empty entry, or the end. */
  method FindFree(fs: FileSystem, dp: nat) returns (r: Option<nat>)
    requires fs.Valid() && dp < |fs.inode|
    modifies fs`bits, fs`block, fs`inode, fs`own, fs`logged
    ensures r.Some? ==> fs.Valid() && Unmoved(old(fs.V()), fs.V(), dp)
    ensures r.Some? ==> var c := Contents(old(fs.V()), dp);
                        r.value == DESIZE * FindEmpty(c, 0) && (FindEmpty(c, 0) == Count(c) ==> |c| % DESIZE == 0)
    ensures var c := Contents(old(fs.V()), dp);
            && (r.None? <==>
                  || (|c| % DESIZE != 0 && FindEmpty(c, 0) == Count(c))
                  || Short(old(fs.V()), dp, Upto(|c|, FindEmpty(c, 0))))
    ensures Dense(old(fs.V()), dp) ==> fs.V() == old(fs.V()) && fs.logged == old(fs.logged)
    ensures Recorded(fs.bmapstart, fs.inodestart, old(fs.D()), old(fs.logged), fs.D(), fs.logged)
  {
    hide FileSystem.Valid, SameBytes, Dense, Contents, Slice, ByteAt, InumOf, EntryAt, Need, Free, Reach, Spent,
      Recorded;
    RecordedSame(fs.bmapstart, fs.inodestart, fs.D(), fs.logged);
    ghost var fs0 := fs.V();
    ValidParts(fs);
    UnmovedStart(fs0, dp);
    ghost var c := Contents(fs0, dp);
    ContentsLen(fs0, dp);
    SearchStart(fs0, dp);
    var off := 0;
    while off < fs.inode[dp].size
      invariant off % DESIZE == 0 && 0 <= off <= |c| && off / DESIZE <= Count(c)
      invariant fs.Valid() && Unmoved(fs0, fs.V(), dp)
      invariant FindEmpty(c, 0) == FindEmpty(c, off / DESIZE)
      invariant Spent(fs0, fs.V(), dp, 0, Reach(0, off))
      invariant Dense(fs0, dp) ==> fs.V() == fs0 && fs.logged == old(fs.logged)
      invariant Recorded(fs.bmapstart, fs.inodestart, old(fs.D()), old(fs.logged), fs.D(), fs.logged)
    {
      ghost var fs1, d1, l1 := fs.V(), fs.D(), fs.logged;
      SizeStays(fs0, fs1, dp);
      var n, de := fs.Readi(dp, off, DESIZE);
      RecordedTrans(fs.bmapstart, fs.inodestart, old(fs.D()), old(fs.logged), d1, l1, fs.D(), fs.logged);
      if n.None? {
        SearchShort(fs0, fs1, dp, off, |c|, FindEmpty(c, 0));
        return None;
      }
      ReadEntry(fs0, fs1, dp, off, de);
      ValidParts(fs);
      if n != Some(DESIZE) {
        return None;
      }
      SearchNext(fs0, fs1, fs.V(), dp, off);
      Chain(fs0, fs1, fs.V(), dp);
      if InumOf(de) == 0 {
        Searched(fs0, fs.V(), dp, off + DESIZE);
        return Some(off);
      }
      off := off + DESIZE;
    }
    Searched(fs0, fs.V(), dp, |c|);
    return Some(off);
  }

  lemma SizeStays(fs: FS, fs': FS, dp: nat)
    requires Unmoved(fs, fs', dp)
    ensures fs'.inode[dp].size == fs.inode[dp].size == |Contents(fs, dp)| <= MAXFILE * BSIZE
  {
  }

  lemma SearchStart(fs: FS, dp: nat)
    requires Fits(fs) && dp < |fs.inode|
    ensures Spent(fs, fs, dp, 0, Reach(0, 0))
  {
    SpentNone(fs, dp, 0);
  }

  lemma SearchNext(fs0: FS, fs1: FS, fs2: FS, dp: nat, off: nat)
    requires Spent(fs0, fs1, dp, 0, Reach(0, off)) && Spent(fs1, fs2, dp, off / BSIZE, Reach(off, DESIZE))
    ensures Spent(fs0, fs2, dp, 0, Reach(0, off + DESIZE))
  {
    hide Spent, Reach;
    ChunkSpent(fs0, fs1, fs2, dp, 0, off, DESIZE);
  }

  /** A search that cannot fill a hole was doomed from the start. */
  lemma SearchShort(fs0: FS, fs1: FS, dp: nat, off: nat, size: nat, e: nat)
    requires Spent(fs0, fs1, dp, 0, Reach(0, off)) && off < size <= MAXFILE * BSIZE && off % DESIZE == 0
             && off / DESIZE <= e
    requires Free(fs1) < Need(fs1, dp, off / BSIZE, Reach(off, Clip(size, off, DESIZE)))
    ensures Shape(fs0) && dp < |fs0.inode| && Short(fs0, dp, Upto(size, e))
  {
    var m, all := Clip(size, off, DESIZE), Upto(size, e);
    assert 0 < m <= all - off;
    ReachEnd(0, off, all);
    hide Reach, Clip, Upto;
    SpentIs(fs0, fs1, dp, 0, Reach(0, off));
    hide Spent, Need, Free;
    ChunkShort(fs0, fs1, dp, 0, off, m, all);
  }

  lemma Searched(fs0: FS, fs: FS, dp: nat, n: nat)
    requires Spent(fs0, fs, dp, 0, Reach(0, n))
    ensures Shape(fs0) && dp < |fs0.inode| && !Short(fs0, dp, n)
  {
    SpentIs(fs0, fs, dp, 0, Reach(0, n));
  }

  /** dirlink: None stands for a panic, Some(-1) for a name that is already there. There is a panic
      exactly when the directory is stuck, or the bytes dirlink gets to need more blocks than are free. */
  method Dirlink(fs: FileSystem, dp: nat, name: seq<byte>, inum: nat) returns (r: Option<int>)
    requires fs.Valid() && dp < |fs.inode| && NameBuf(name) && inum < TWO32
    modifies fs`bits, fs`block, fs`inode, fs`dinode, fs`own, fs`logged
    ensures r.Some? ==> fs.Valid() && Fits(old(fs.V())) && Fits(fs.V()) && dp < |fs.inode| == |old(fs.inode)|
    ensures r.Some? ==> r == Some(if LookupOf(Contents(old(fs.V()), dp), Key(name)).Found? then -1 else 0)
    ensures r == Some(-1) ==> Unmoved(old(fs.V()), fs.V(), dp)
    ensures var c := Contents(old(fs.V()), dp);
            r.None? <==> Stuck(c, Key(name)) || Short(old(fs.V()), dp, LinkUpto(c, Key(name)))
    ensures var c := Contents(old(fs.V()), dp);
            Dense(old(fs.V()), dp) && |c| % DESIZE == 0 ==>
              (r.None? <==> && LookupOf(c, Key(name)).Absent? && FindEmpty(c, 0) == Count(c)
                            && (|c| == MAXFILE * BSIZE || NoRoom(old(fs.V()), dp, |c|)))
    ensures r == Some(0) ==>
              var c := Contents(old(fs.V()), dp);
              && DESIZE * FindEmpty(c, 0) <= |c|
              && Contents(fs.V(), dp) == Splice(c, DESIZE * FindEmpty(c, 0), Pack(inum, Key(name)))
    ensures r.Some? ==>
              && (forall n :: 0 <= n < |fs.inode| && n != dp ==> Contents(fs.V(), n) == Contents(old(fs.V()), n))
              && (Dense(old(fs.V()), dp) ==> Dense(fs.V(), dp))
    ensures r.Some? && DirOk(Contents(old(fs.V()), dp)) ==>
              var was, now := Contents(old(fs.V()), dp), Contents(fs.V(), dp);
              && DirOk(now) && (r == Some(-1) <==> Key(name) in Dir(was))
              && Dir(now) == if Key(name) in Dir(was) || inum % 65536 == 0 then Dir(was)
                             else Dir(was)[Key(name) := inum % 65536]
    ensures Recorded(fs.bmapstart, fs.inodestart, old(fs.D()), old(fs.logged), fs.D(), fs.logged)
  {
    hide FileSystem.Valid, SameBytes, Dense, Contents, Splice, ByteAt, InumOf, EntryAt, Dir, DirOk, FindEmpty,
      FindName, Pack, Key, Shape, Need, Free, Spent, Lacks, Reach, Short, NoRoom, Stuck, LinkUpto, Recorded;
    ghost var fs0 := fs.V();
    ValidParts(fs);
    ContentsLen(fs0, dp);
    ghost var c := Contents(fs0, dp);
    LookupMeans(c, Key(name));
    DenseShort(fs0, dp, |c|, c, Key(name));
    LinkCases(fs0, dp, c, Key(name));
    var l := Dirlookup(fs, dp, name);
    if l.None? {
      return None;
    }
    if l.value.Found? {
      return Some(-1);
    }
    ghost var fs1, d1, l1 := fs.V(), fs.D(), fs.logged;
    LinkPlace(fs0, fs1, dp, c, Key(name));
    var off := FindFree(fs, dp);
    RecordedTrans(fs.bmapstart, fs.inodestart, old(fs.D()), old(fs.logged), d1, l1, fs.D(), fs.logged);
    assert off.Some?;  // dirlookup has filled every hole, so the panic of the second loop cannot fire
    var s := CopyName(name);
    LinkMeans(c, name, inum);
    var de := PackBytes(inum, s, Key(name));
    ghost var d2, l2 := fs.D(), fs.logged;
    var n := fs.Writei(dp, de, off.value);
    RecordedTrans(fs.bmapstart, fs.inodestart, old(fs.D()), old(fs.logged), d2, l2, fs.D(), fs.logged);
    if n != Some(DESIZE) {
      return None;
    }
    ValidParts(fs);
    return Some(0);
  }

  /** The entry as bytes, the inode number little-endian. */
  method PackBytes(inum: nat, s: seq<byte>, ghost k: seq<byte>) returns (de: seq<byte>)
    requires |k| <= DIRSIZ && s == Pad(k) && inum < TWO32
    ensures de == Pack(inum, k)
  {
    var cut := inum % 65536;
    de := [cut % 256, cut / 256] + s;
    assert cut % 256 == inum % 256 && cut / 256 == inum / 256 % 256;
  }

  /** A file of n bytes cannot grow for want of free blocks. */
  ghost predicate NoRoom(fs: FS, dp: nat, n: nat)
    requires Shape(fs) && dp < |fs.inode|
  {
    n / BSIZE < MAXFILE && Free(fs) < Lacks(fs, dp, n / BSIZE)
  }

  /** A directory all of whose blocks are there. */
  lemma FilledDense(fs0: FS, fs: FS, dp: nat)
    requires dp < |fs.inode| && fs.inode[dp].size <= MAXFILE * BSIZE
             && Spent(fs0, fs, dp, 0, Reach(0, fs.inode[dp].size))
    ensures Dense(fs, dp)
  {
    hide SlotVal;
    SpentIs(fs0, fs, dp, 0, Reach(0, fs.inode[dp].size));
  }

  /** Writing a new entry behind the last needs what the longer file needed at the start. */
  lemma AppendShort(fs0: FS, fs: FS, dp: nat, n: nat)
    requires Spent(fs0, fs, dp, 0, Reach(0, n)) && n % DESIZE == 0 && n + DESIZE <= MAXFILE * BSIZE
    ensures Shape(fs0) && Shape(fs) && dp < |fs0.inode| == |fs.inode| && Reach(n, DESIZE) <= MAXFILE
    ensures Short(fs0, dp, n + DESIZE) <==> Free(fs) < Need(fs, dp, n / BSIZE, Reach(n, DESIZE))
  {
    hide Free, SlotVal, Lacks, Share;
    ChunkReach(0, n, DESIZE);
    ReachEnd(0, n, n + DESIZE);
    NeedJoin(fs0, fs, dp, 0, Reach(0, n), n / BSIZE, Reach(0, n + DESIZE));
  }

  /** When dirlookup panics, so does dirlink; and it finds the name only if it could look that far. */
  lemma LinkCases(fs: FS, dp: nat, c: seq<byte>, k: seq<byte>)
    requires Shape(fs) && dp < |fs.inode| && |c| <= MAXFILE * BSIZE
    ensures Broken(c, k) || Short(fs, dp, Upto(|c|, FindName(c, k, 0))) ==> Stuck(c, k) || Short(fs, dp, LinkUpto(c, k))
    ensures LookupOf(c, k).Found? && (Stuck(c, k) || Short(fs, dp, LinkUpto(c, k))) ==>
              Short(fs, dp, Upto(|c|, FindName(c, k, 0)))
  {
    hide FindName, FindEmpty, Free;
    if LookupOf(c, k).Absent? && |c| % DESIZE == 0 && LinkUpto(c, k) <= MAXFILE * BSIZE {
      ReachGrows(|c|, LinkUpto(c, k));
      NeedGrows(fs, dp, 0, Reach(0, |c|), Reach(0, LinkUpto(c, k)));
    }
  }

  lemma ReachGrows(n: nat, m: nat)
    requires n <= m <= MAXFILE * BSIZE
    ensures Reach(0, n) <= Reach(0, m) <= MAXFILE
  {
  }

  /** After dirlookup has read a whole directory in vain, dirlink fails exactly for want of room. */
  lemma LinkPlace(fs0: FS, fs: FS, dp: nat, c: seq<byte>, k: seq<byte>)
    requires Unmoved(fs0, fs, dp) && c == Contents(fs0, dp) && |c| == fs0.inode[dp].size
    requires LookupOf(c, k).Absent? && !Broken(c, k) && Spent(fs0, fs, dp, 0, Reach(0, Upto(|c|, FindName(c, k, 0))))
    ensures Dense(fs, dp) && |c| % DESIZE == 0 && !Short(fs, dp, Upto(|c|, FindEmpty(c, 0)))
    ensures var off := DESIZE * FindEmpty(c, 0);
            && (off < |c| ==> off + DESIZE <= |c|)
              && (off + DESIZE <= MAXFILE * BSIZE ==> Reach(off, DESIZE) <= MAXFILE)
            && (Stuck(c, k) || Short(fs0, dp, LinkUpto(c, k)) <==>
                  || off + DESIZE > MAXFILE * BSIZE
                  || (off == |c| && Free(fs) < Need(fs, dp, off / BSIZE, Reach(off, DESIZE))))
  {
    hide FindName, FindEmpty, Free, Contents, SlotVal, Need, FreeBlocks, Reach;
    var e, n := FindEmpty(c, 0), |c|;
    assert Upto(n, FindName(c, k, 0)) == n;
    FilledDense(fs0, fs, dp);
    InsideDense(fs, dp, 0, Upto(n, e));
    Searched(fs0, fs, dp, n);
    if e < Count(c) {
      ReachEnd(DESIZE * e, 0, DESIZE);
    } else if n < MAXFILE * BSIZE {
      AppendShort(fs0, fs, dp, n);
    }
  }

  /** In a directory without holes only a new block can be missing. */
  lemma DenseShort(fs: FS, dp: nat, n: nat, c: seq<byte>, k: seq<byte>)
    requires Shape(fs) && dp < |fs.inode| && n == fs.inode[dp].size == |c| <= MAXFILE * BSIZE
    ensures Dense(fs, dp) && n % DESIZE == 0 ==>
              (Stuck(c, k) || Short(fs, dp, LinkUpto(c, k)) <==>
                 && LookupOf(c, k).Absent? && FindEmpty(c, 0) == Count(c)
                 && (n == MAXFILE * BSIZE || NoRoom(fs, dp, n)))
  {
    hide SlotVal, FindName, FindEmpty;
    if Dense(fs, dp) && n % DESIZE == 0 {
      var all := LinkUpto(c, k);
      if all <= n {
        InsideDense(fs, dp, 0, all);
      } else if n < MAXFILE * BSIZE {
        InsideDense(fs, dp, 0, n);
        DenseSpent(fs, dp, n);
        AppendShort(fs, fs, dp, n);
        RoomFor(fs, dp, n);
      }
    }
  }

  lemma DenseSpent(fs: FS, dp: nat, n: nat)
    requires Dense(fs, dp) && n <= fs.inode[dp].size <= MAXFILE * BSIZE && Reach(0, n) <= MAXFILE
             && Need(fs, dp, 0, Reach(0, n)) == 0
    ensures Spent(fs, fs, dp, 0, Reach(0, n))
  {
    hide SlotVal, Need, Slots;
  }

  /** One entry lies in one block. */
  lemma RoomFor(fs: FS, dp: nat, off: nat)
    requires Shape(fs) && dp < |fs.inode| && off % DESIZE == 0 && off < MAXFILE * BSIZE
    ensures off + DESIZE <= MAXFILE * BSIZE && off / BSIZE < MAXFILE && Reach(off, DESIZE) == off / BSIZE + 1
    ensures Need(fs, dp, off / BSIZE, Reach(off, DESIZE)) == Lacks(fs, dp, off / BSIZE)
  {
    var bn := off / BSIZE;
    NoTable(fs, dp, bn);
    hide SlotVal;
    assert Reach(off, DESIZE) == bn + 1;
    assert Need(fs, dp, bn, bn) == 0 && Need(fs, dp, bn, bn + 1) == Share(fs, dp, bn, bn);
  }

  lemma LookupMeans(c: seq<byte>, k: seq<byte>)
    ensures DirOk(c) ==> (LookupOf(c, k).Found? <==> k in Dir(c))
    ensures DirOk(c) && k in Dir(c) ==> LookupOf(c, k).inum == Dir(c)[k]
  {
    if DirOk(c) {
      LookupIs(c, k);
    }
  }

  lemma LinkMeans(c: seq<byte>, name: seq<byte>, inum: nat)
    ensures |Key(name)| <= DIRSIZ && DESIZE * FindEmpty(c, 0) <= |c|
    ensures DirOk(c) && Key(name) !in Dir(c) ==>
              var c' := Splice(c, DESIZE * FindEmpty(c, 0), Pack(inum, Key(name)));
              && DirOk(c')
              && Dir(c') == if inum % 65536 == 0 then Dir(c) else Dir(c)[Key(name) := inum % 65536]
  {
    if DirOk(c) && Key(name) !in Dir(c) {
      LinkMap(c, name, inum);
    }
  }

  /** The part of sys_unlink that removes a name: "." and ".." are refused, a missing name is an
      error, and the entry of any other name is zeroed. */
  method Unlink(fs: FileSystem, dp: nat, name: seq<byte>) returns (r: Option<int>)
    requires fs.Valid() && dp < |fs.inode| && NameBuf(name)
    modifies fs`bits, fs`block, fs`inode, fs`dinode, fs`own, fs`logged
    ensures r.Some? ==> fs.Valid() && Fits(old(fs.V())) && Fits(fs.V()) && dp < |fs.inode| == |old(fs.inode)|
    ensures var c := Contents(old(fs.V()), dp);
            && (r.None? <==>
                  && !IsDot(Key(name))
                  && (Broken(c, Key(name)) || Short(old(fs.V()), dp, Upto(|c|, FindName(c, Key(name), 0)))))
            && (Dense(old(fs.V()), dp) && |c| % DESIZE == 0 ==> r.Some?)
    ensures r.Some? ==>
              && (forall n :: 0 <= n < |fs.inode| && n != dp ==> Contents(fs.V(), n) == Contents(old(fs.V()), n))
              && |Contents(fs.V(), dp)| == |Contents(old(fs.V()), dp)| && (Dense(old(fs.V()), dp) ==> Dense(fs.V(), dp))
    ensures r.Some? && DirOk(Contents(old(fs.V()), dp)) ==>
              var was, now := Contents(old(fs.V()), dp), Contents(fs.V(), dp);
              && DirOk(now) && r == Some(if Key(name) !in Dir(was) || IsDot(Key(name)) then -1 else 0)
              && Dir(now) == if r == Some(0) then Dir(was) - {Key(name)} else Dir(was)
    ensures Recorded(fs.bmapstart, fs.inodestart, old(fs.D()), old(fs.logged), fs.D(), fs.logged)
  {
    hide FileSystem.Valid, SameBytes, Dense, Contents, Splice, ByteAt, InumOf, EntryAt, Dir, DirOk, FindName, Key,
      Shape, Cut, Need, Free, Spent, Reach, Short, Recorded;
    RecordedSame(fs.bmapstart, fs.inodestart, fs.D(), fs.logged);
    ghost var fs0 := fs.V();
    ValidParts(fs);
    ContentsLen(fs0, dp);
    ghost var c := Contents(fs0, dp);
    LookupMeans(c, Key(name));
    DenseSearch(fs0, dp, |c|, FindName(c, Key(name), 0));
    DotKeys();
    var d1 := NameCmp(name, DOT);
    var d2 := NameCmp(name, DOTDOT);
    if d1 == 0 || d2 == 0 {
      return Some(-1);
    }
    var l := Dirlookup(fs, dp, name);
    if l.None? {
      return None;
    }
    if l.value.Absent? {
      return Some(-1);
    }
    ghost var fs1, disk1, l1 := fs.V(), fs.D(), fs.logged;
    ContentsLen(fs1, dp);
    var de := seq<byte>(DESIZE, _ => 0);
    ClearMeans(c, Key(name), de);
    EntryThere(fs0, fs1, dp, l.value.off);
    var n := fs.Writei(dp, de, l.value.off);
    RecordedTrans(fs.bmapstart, fs.inodestart, old(fs.D()), old(fs.logged), disk1, l1, fs.D(), fs.logged);
    assert n == Some(DESIZE);  // the panic "unlink: writei" cannot fire
    ValidParts(fs);
    return Some(0);
  }

  lemma DenseSearch(fs: FS, dp: nat, n: nat, e: nat)
    requires Shape(fs) && dp < |fs.inode| && n == fs.inode[dp].size <= MAXFILE * BSIZE
    ensures Dense(fs, dp) ==> !Short(fs, dp, Upto(n, e))
  {
    InsideDense(fs, dp, 0, Upto(n, e));
  }

  /** The block of an entry that was read is there. */
  lemma EntryThere(fs0: FS, fs: FS, dp: nat, off: nat)
    requires Spent(fs0, fs, dp, 0, Reach(0, off + DESIZE)) && off % DESIZE == 0 && off + DESIZE <= MAXFILE * BSIZE
    ensures Shape(fs) && dp < |fs.inode| && Reach(off, DESIZE) <= MAXFILE
            && Need(fs, dp, off / BSIZE, Reach(off, DESIZE)) == 0
  {
    RoomFor(fs, dp, off);
    hide SlotVal;
  }

  const DOT: seq<byte> := [46, 0]
  const DOTDOT: seq<byte> := [46, 46, 0]

  predicate IsDot(k: seq<byte>) {
    k == [46] || k == [46, 46]
  }

  lemma DotKeys()
    ensures Key(DOT) == [46] && Key(DOTDOT) == [46, 46]
  {
    assert DOT[1..] == [0] && DOTDOT[1..] == [46, 0] && DOTDOT[1..][1..] == [0];
    assert Cut(DOTDOT[1..][1..], 12) == [];
    assert Cut(DOTDOT[1..], 13) == [46];
    assert Cut(DOT[1..], 13) == [];
  }

  lemma ClearMeans(c: seq<byte>, k: seq<byte>, zero: seq<byte>)
    requires LookupOf(c, k).Found? && |zero| == DESIZE && forall i :: 0 <= i < DESIZE ==> zero[i] == 0
    ensures var off := LookupOf(c, k).off;
            && off + DESIZE <= |c| && |Splice(c, off, zero)| == |c|
            && (DirOk(c) ==> DirOk(Splice(c, off, zero)) && Dir(Splice(c, off, zero)) == Dir(c) - {k})
  {
    FindNameIs(c, k, 0);
    if DirOk(c) {
      ClearMap(c, FindName(c, k, 0), zero);
    }
  }

  ghost predicate Fits(fs: FS) {
    Shape(fs) && forall n :: 0 <= n < |fs.inode| ==> fs.inode[n].size <= MAXFILE * BSIZE
  }

  /** Two states in which every file reads the same. */
  ghost predicate Unmoved(fs: FS, fs': FS, dp: nat) {
    && Fits(fs) && Fits(fs') && dp < |fs.inode| == |fs'.inode|
    && (forall n :: 0 <= n < |fs.inode| ==>
          fs'.inode[n].size == fs.inode[n].size && Contents(fs', n) == Contents(fs, n))
    && (Dense(fs, dp) ==> Dense(fs', dp))
  }

  lemma ValidParts(fs: FileSystem)
    requires fs.Valid()
    ensures Fits(fs.V())
  {
  }

  lemma ContentsLen(fs: FS, dp: nat)
    requires Fits(fs) && dp < |fs.inode|
    ensures |Contents(fs, dp)| == fs.inode[dp].size
  {
  }

  lemma UnmovedStart(fs: FS, dp: nat)
    requires Fits(fs) && dp < |fs.inode|
    ensures Unmoved(fs, fs, dp)
  {
  }

  lemma Chain(fs: FS, fs1: FS, fs2: FS, dp: nat)
    requires Unmoved(fs, fs1, dp) && Fits(fs2) && SameBytes(fs1, fs2) && (Dense(fs1, dp) ==> fs2 == fs1)
    ensures Unmoved(fs, fs2, dp)
  {
    hide ByteAt, Dense, Shape;
    forall n | 0 <= n < |fs.inode| ensures Contents(fs2, n) == Contents(fs1, n) {
    }
  }

  lemma ReadEntry(fs: FS, fs1: FS, dp: nat, off: nat, de: seq<byte>)
    requires Unmoved(fs, fs1, dp) && off % DESIZE == 0 && off < fs1.inode[dp].size
    requires off <= |Contents(fs1, dp)| && de == Slice(Contents(fs1, dp), off, DESIZE)
    ensures |Contents(fs, dp)| == fs.inode[dp].size == fs1.inode[dp].size
    ensures (off + DESIZE) / DESIZE == off / DESIZE + 1
    ensures |de| != DESIZE ==> off / DESIZE == Count(Contents(fs, dp)) && |Contents(fs, dp)| % DESIZE != 0
    ensures |de| == DESIZE ==> off / DESIZE < Count(Contents(fs, dp)) && de == EntryAt(Contents(fs, dp), off / DESIZE)
  {
    hide Dense, Shape, ByteAt;
    assert |Contents(fs1, dp)| == fs1.inode[dp].size;
  }
}
