/**
filewrite of src/file.c: a long write is cut into transactions small enough for the log.
*/
module FileCode {
  import opened Common
  import opened FsBits
  import opened FsModel
  import opened FsCode

  /** The bytes of one transaction: 1536. */
  const MAXCHUNK: nat := (MAXOPBLOCKS - 1 - 1 - 2) / 2 * 512

  /** writei refuses to start past the end of the file, or to pass the largest file. */
  predicate Refused(size: nat, off: nat, n: nat) {
    off > size || off + n > MAXFILE * BSIZE
  }

  /** filewrite goes on at multiples of MAXCHUNK until it is through. */
  predicate OnChunk(i: nat, n: nat) {
    i == n || i % MAXCHUNK == 0
  }

  /** The bytes filewrite gets through before writei refuses a chunk. */
  function Accepted(size: nat, off: nat, n: nat): (r: nat)
    requires size <= MAXFILE * BSIZE
    ensures r <= n && (off <= size ==> off + r <= MAXFILE * BSIZE)
    ensures (off > size ==> r == 0) && (r == n <==> n == 0 || !Refused(size, off, n))
  {
    if off > size then 0
    else if off + n <= MAXFILE * BSIZE then n
    else (MAXFILE * BSIZE - off) / MAXCHUNK * MAXCHUNK
  }

  ghost predicate Good(fs: FS, dinode: seq<Inode>) {
    Shape(fs) && |dinode| == |fs.inode| && forall n :: 0 <= n < |fs.inode| ==> fs.inode[n].size <= MAXFILE * BSIZE
  }

  /** From (fs, d) to (fs', d') the bytes s were written at offset off of inode i, and nothing else
      happened to any file; a dense file stays dense and in step with its copy on disk. */
  ghost predicate Wrote(fs: FS, d: seq<Inode>, fs': FS, d': seq<Inode>, i: nat, off: nat, s: seq<byte>) {
    && Good(fs, d) && Good(fs', d') && i < |fs.inode| == |fs'.inode| && |fs'.block| == |fs.block|
    && (if s == [] then Contents(fs', i) == Contents(fs, i)
        else off <= |Contents(fs, i)| && Contents(fs', i) == Splice(Contents(fs, i), off, s))
    && (forall n :: 0 <= n < |fs.inode| && n != i ==>
          fs'.inode[n] == fs.inode[n] && d'[n] == d[n] && Contents(fs', n) == Contents(fs, n))
    && (Dense(fs, i) ==> Dense(fs', i))
    && (Dense(fs, i) && fs.inode[i] == d[i] ==> fs'.inode[i] == d'[i])
  }

  lemma WroteJoin(fs: FS, d: seq<Inode>, fs1: FS, d1: seq<Inode>, fs2: FS, d2: seq<Inode>, i: nat, off: nat,
                  s: seq<byte>, t: seq<byte>)
    requires Wrote(fs, d, fs1, d1, i, off, s) && Wrote(fs1, d1, fs2, d2, i, off + |s|, t) && t != []
    ensures Wrote(fs, d, fs2, d2, i, off, s + t)
  {
    hide Shape, Dense, Contents, Splice;
    if s == [] {
      assert s + t == t;
    } else {
      SpliceJoin(Contents(fs, i), off, s, t);
      assert s + t != [];
    }
  }

  lemma SpliceJoin(c: seq<byte>, off: nat, s: seq<byte>, t: seq<byte>)
    requires off <= |c|
    ensures off + |s| <= |Splice(c, off, s)| && Splice(Splice(c, off, s), off + |s|, t) == Splice(c, off, s + t)
  {
  }

  /** An open file: its inode and its offset. */
  class File {
    const inum: nat
    var off: nat

    /** filewrite: None stands for a panic, and there is one exactly when the bytes up to the first
        refused chunk need more blocks than are free; Some(-1) stands for the error return. Ghost
        result ops holds the set of blocks logged by each transaction, and disks the disk before the first
        of them, between them, and after the last. */
    method Filewrite(fs: FileSystem, src: seq<byte>)
      returns (rc: Option<int>, ghost ops: seq<set<nat>>, ghost disks: seq<Disk>)
      requires fs.Valid() && inum < |fs.inode| && off < TWO32 && |src| < 0x8000_0000
      modifies this`off, fs`bits, fs`block, fs`inode, fs`dinode, fs`own, fs`logged
      ensures rc.None? <==>
                && old(off) <= old(fs.inode)[inum].size
                && Free(old(fs.V())) < Need(old(fs.V()), inum, old(off) / BSIZE,
                                            Reach(old(off), Accepted(old(fs.inode)[inum].size, old(off), |src|)))
      ensures rc.None? ==> Free(fs.V()) == 0
      ensures rc.Some? ==>
                rc == Some(if src != [] && Refused(old(fs.inode)[inum].size, old(off), |src|) then -1 else |src|)
      ensures rc.Some? ==>
                && fs.Valid() && off == old(off) + Accepted(old(fs.inode)[inum].size, old(off), |src|)
                && Wrote(old(fs.V()), old(fs.dinode), fs.V(), fs.dinode, inum, old(off), src[..off - old(off)])
      ensures rc.Some? && |old(fs.block)| <= BPB ==> forall o :: 0 <= o < |ops| ==> |ops[o]| <= MAXOPBLOCKS - 3
      ensures rc.Some? ==> Transactions(fs.bmapstart, fs.inodestart, old(fs.D()), ops, disks, fs.D())
    {
      hide FileSystem.Valid, Wrote, Good, Dense, Shape, Contents, Splice, Spent, Need, Free, Reach, Accepted, OnChunk,
        Recorded, Transactions;
      ghost var fs0, d0 := fs.V(), fs.dinode;
      var i := 0;
      ops, disks := [], [fs.D()];
      NoTransactions(fs.bmapstart, fs.inodestart, fs.D());
      ValidGood(fs);
      WroteNothing(fs0, d0, inum, off);
      ghost var size, lo := fs0.inode[inum].size, off / BSIZE;
      ghost var all := Accepted(size, off, |src|);
      AcceptedReach(fs0, inum, off, all);
      ChunkZero(|src|);
      while i < |src|
        invariant 0 <= i <= |src| && off == old(off) + i < TWO32 && OnChunk(i, |src|)
        invariant fs.Valid() && Wrote(fs0, d0, fs.V(), fs.dinode, inum, old(off), src[..i])
        invariant i > 0 ==> !Refused(size, old(off), i)
        invariant old(off) <= size ==> i <= all && Spent(fs0, fs.V(), inum, lo, Reach(old(off), i))
        invariant |fs0.block| <= BPB ==> forall o :: 0 <= o < |ops| ==> |ops[o]| <= MAXOPBLOCKS - 3
        invariant Transactions(fs.bmapstart, fs.inodestart, old(fs.D()), ops, disks, fs.D())
      {
        ghost var disk1 := fs.D();
        var n1 := if |src| - i > MAXCHUNK then MAXCHUNK else |src| - i;
        ghost var fs1, d1 := fs.V(), fs.dinode;
        SizeAfter(fs0, d0, fs1, d1, inum, old(off), src[..i]);
        ChunkFits(size, old(off), |src|, i, n1);
        var r := WriteOnce(fs, src[i..i + n1]);
        if r.None? {
          ChunkShort(fs0, fs1, inum, old(off), i, n1, all);
          return None, ops, disks;
        }
        OneMore(fs.bmapstart, fs.inodestart, old(fs.D()), ops, disks, disk1, fs.logged, fs.D());
        ops, disks := ops + [fs.logged], disks + [fs.D()];
        if r.value < 0 {
          AllSpent(fs0, fs.V(), inum, old(off), all);
          return Some(-1), ops, disks;
        }
        ChunkSpent(fs0, fs1, fs.V(), inum, old(off), i, n1);
        assert r.value == n1;  // the panic "short filewrite" cannot fire
        WroteJoin(fs0, d0, fs1, d1, fs.V(), fs.dinode, inum, old(off), src[..i], src[i..i + n1]);
        assert src[..i] + src[i..i + n1] == src[..i + n1];
        i := i + r.value;
        SizeAfter(fs0, d0, fs.V(), fs.dinode, inum, old(off), src[..i]);
      }
      AllSpent(fs0, fs.V(), inum, old(off), all);
      return Some(|src|), ops, disks;
    }

    /** One transaction of filewrite, from begin_op to end_op. */
    method WriteOnce(fs: FileSystem, s: seq<byte>) returns (r: Option<int>)
      requires fs.Valid() && inum < |fs.inode| && off < TWO32 && 0 < |s| <= MAXCHUNK
      modifies this`off, fs`bits, fs`block, fs`inode, fs`dinode, fs`own, fs`logged
      ensures r == Some(-1) <==> Refused(old(fs.inode)[inum].size, old(off), |s|)
      ensures r.None? <==>
                && !Refused(old(fs.inode)[inum].size, old(off), |s|)
                && Free(old(fs.V())) < Need(old(fs.V()), inum, old(off) / BSIZE, Reach(old(off), |s|))
      ensures r.None? ==> Free(fs.V()) == 0
      ensures r == Some(-1) ==> fs.V() == old(fs.V()) && fs.dinode == old(fs.dinode) && off == old(off)
      ensures r.Some? ==> fs.Valid() && (|old(fs.block)| <= BPB ==> |fs.logged| <= MAXOPBLOCKS - 3)
      ensures r.Some? && r != Some(-1) ==>
                && r.value == |s| && off == old(off) + |s| < TWO32
                && Wrote(old(fs.V()), old(fs.dinode), fs.V(), fs.dinode, inum, old(off), s)
                && Spent(old(fs.V()), fs.V(), inum, old(off) / BSIZE, Reach(old(off), |s|))
      ensures Recorded(fs.bmapstart, fs.inodestart, old(fs.D()), {}, fs.D(), fs.logged)
    {
      hide FileSystem.Valid, Wrote, Dense, Shape, Contents, Splice, Spent, Need, Free, Recorded;
      ghost var fs1, d1 := fs.V(), fs.dinode;
      ValidGood(fs);
      fs.logged := {};
      r := fs.Writei(inum, s, off);
      if r.Some? && r.value > 0 {
        ValidGood(fs);
        WroteIs(fs1, d1, fs.V(), fs.dinode, inum, off, s);
        LogBound(fs.V(), fs.own, inum, fs.bmapstart, fs.inodestart, off, |s|, fs.logged);
        off := off + r.value;
      }
    }
  }

  /** Each transaction logs every block it changes. */
  ghost predicate Transactions(bm: nat, im: nat, d: Disk, ops: seq<set<nat>>, disks: seq<Disk>, d': Disk) {
    && |disks| == |ops| + 1 && disks[0] == d && disks[|ops|] == d'
    && forall o :: 0 <= o < |ops| ==> Recorded(bm, im, disks[o], {}, disks[o + 1], ops[o])
  }

  lemma NoTransactions(bm: nat, im: nat, d: Disk)
    ensures Transactions(bm, im, d, [], [d], d)
  {
  }

  lemma OneMore(bm: nat, im: nat, d: Disk, ops: seq<set<nat>>, disks: seq<Disk>, d1: Disk, op: set<nat>, d2: Disk)
    requires Transactions(bm, im, d, ops, disks, d1) && Recorded(bm, im, d1, {}, d2, op)
    ensures Transactions(bm, im, d, ops + [op], disks + [d2], d2)
  {
    hide Recorded;
    var ops', disks' := ops + [op], disks + [d2];
    forall o | 0 <= o < |ops'| ensures Recorded(bm, im, disks'[o], {}, disks'[o + 1], ops'[o]) {
      if o < |ops| {
        assert Recorded(bm, im, disks[o], {}, disks[o + 1], ops[o]);
      }
    }
  }

  // ---------- the blocks of a whole write ----------

  lemma AcceptedReach(fs: FS, i: nat, off: nat, n: nat)
    requires Shape(fs) && i < |fs.inode| && fs.inode[i].size <= MAXFILE * BSIZE
    requires off <= fs.inode[i].size ==> off + n <= MAXFILE * BSIZE
    ensures off <= fs.inode[i].size ==> Spent(fs, fs, i, off / BSIZE, Reach(off, 0)) && Reach(off, n) <= MAXFILE
  {
    if off <= fs.inode[i].size {
      SpentNone(fs, i, off / BSIZE);
    }
  }

  /** Chunk by chunk, writei refuses exactly past the accepted bytes. */
  lemma ChunkFits(size: nat, off: nat, n: nat, i: nat, n1: nat)
    requires size <= MAXFILE * BSIZE && i < n && OnChunk(i, n) && n1 == if n - i > MAXCHUNK then MAXCHUNK else n - i
    requires off <= size ==> i <= Accepted(size, off, n)
    ensures OnChunk(i + n1, n)
    ensures off <= size ==> (off + i + n1 <= MAXFILE * BSIZE <==> i + n1 <= Accepted(size, off, n))
    ensures off <= size && off + i + n1 > MAXFILE * BSIZE ==> i == Accepted(size, off, n)
  {
    if off <= size && off + n > MAXFILE * BSIZE {
      Chunks(MAXFILE * BSIZE - off, i);
    }
  }

  /** A chunk after i bytes ends within m bytes exactly when it ends within the whole chunks of m. */
  lemma Chunks(m: nat, i: nat)
    requires i % MAXCHUNK == 0 && i <= m
    ensures var q := m / MAXCHUNK * MAXCHUNK;
            i <= q <= m < q + MAXCHUNK && (i + MAXCHUNK <= m <==> i + MAXCHUNK <= q) && (i + MAXCHUNK > m ==> i == q)
  {
    var k, d := i / 1536, m / 1536;
    assert i == 1536 * k && m / MAXCHUNK * MAXCHUNK == 1536 * d;
  }

  lemma ChunkZero(n: nat)
    ensures OnChunk(0, n)
  {
  }

  lemma AllSpent(fs0: FS, fs: FS, inum: nat, off: nat, all: nat)
    requires Shape(fs0) && inum < |fs0.inode|
    requires off <= fs0.inode[inum].size ==>
               Reach(off, all) <= MAXFILE && Spent(fs0, fs, inum, off / BSIZE, Reach(off, all))
    ensures off <= fs0.inode[inum].size ==> Need(fs0, inum, off / BSIZE, Reach(off, all)) <= Free(fs0)
  {
  }

  lemma ValidGood(fs: FileSystem)
    requires fs.Valid()
    ensures Good(fs.V(), fs.dinode) && Inv(fs.V(), fs.own, {}) && Shape(fs.V())
  {
  }

  lemma WroteNothing(fs: FS, d: seq<Inode>, i: nat, off: nat)
    requires Good(fs, d) && i < |fs.inode|
    ensures Wrote(fs, d, fs, d, i, off, [])
  {
  }

  /** After a write the file reaches at least to its end. */
  lemma SizeAfter(fs: FS, d: seq<Inode>, fs': FS, d': seq<Inode>, i: nat, off: nat, s: seq<byte>)
    requires Wrote(fs, d, fs', d', i, off, s)
    ensures i < |fs.inode| == |fs'.inode| && |fs'.block| == |fs.block| && Good(fs', d')
    ensures s == [] ==> fs'.inode[i].size == fs.inode[i].size
    ensures s != [] ==> !Refused(fs.inode[i].size, off, |s|) && off + |s| <= fs'.inode[i].size
  {
    hide Shape, ByteAt;
    assert |Contents(fs, i)| == fs.inode[i].size && |Contents(fs', i)| == fs'.inode[i].size;
  }

  lemma WroteIs(fs: FS, d: seq<Inode>, fs': FS, d': seq<Inode>, i: nat, off: nat, s: seq<byte>)
    requires Good(fs, d) && Good(fs', d') && i < |fs.inode| == |fs'.inode| && |fs'.block| == |fs.block| && s != []
    requires off <= fs.inode[i].size && Contents(fs', i) == Splice(Contents(fs, i), off, s)
    requires forall n :: 0 <= n < |fs.inode| && n != i ==>
               fs'.inode[n] == fs.inode[n] && d'[n] == d[n] && Contents(fs', n) == Contents(fs, n)
    requires Dense(fs, i) ==> Dense(fs', i)
    requires Dense(fs, i) && fs.inode[i] == d[i] ==> fs'.inode[i] == d'[i]
    ensures Wrote(fs, d, fs', d', i, off, s)
  {
    hide Shape, Dense, ByteAt;
  }

  // ---------- the log ----------

  /** A chunk touches at most four data blocks, one block of the free map, the indirect block and
      the block of the inode. */
  lemma LogBound(fs: FS, own: map<nat, Slot>, i: nat, bmapstart: nat, inodestart: nat, off: nat, n: nat,
                 logged: set<nat>)
    requires Shape(fs) && i < |fs.inode| && 0 < n <= MAXCHUNK
    requires logged <= {} + Bitmap(bmapstart, |fs.block|) + Table(fs, i)
                       + DataBlocks(fs, i, off / BSIZE, Reach(off, n)) + {InodeBlock(inodestart, i)}
    ensures |fs.block| <= BPB ==> |logged| <= MAXOPBLOCKS - 3
  {
    hide Bitmap, Reach, DataBlocks;
    if |fs.block| <= BPB {
      var lo, hi := off / BSIZE, Reach(off, n);
      FourBlocks(off, n);
      OneMapBlock(bmapstart, |fs.block|);
      var data := DataBlocks(fs, i, lo, hi);
      FewBlocks(fs, i, lo, hi);
      var others := {bmapstart, fs.inode[i].addrs[NDIRECT], InodeBlock(inodestart, i)};
      assert logged <= data + others;
      Fewer(logged, data + others);
      assert |data + others| <= |data| + |others|;
    }
  }

  lemma FourBlocks(off: nat, n: nat)
    requires 0 < n <= MAXCHUNK
    ensures off / BSIZE <= Reach(off, n) <= off / BSIZE + 4
  {
  }

  lemma OneMapBlock(start: nat, n: nat)
    requires n <= BPB
    ensures Bitmap(start, n) <= {start}
  {
  }

  lemma {:induction false} FewBlocks(fs: FS, i: nat, lo: nat, hi: nat)
    requires Shape(fs) && i < |fs.inode| && lo <= hi
    ensures |DataBlocks(fs, i, lo, hi)| <= hi - lo
  {
    hide SlotVal;
    if lo == hi {
      assert DataBlocks(fs, i, lo, hi) == {};
    } else {
      FewBlocks(fs, i, lo, hi - 1);
      var few := DataBlocks(fs, i, lo, hi - 1);
      if hi - 1 < MAXFILE {
        assert DataBlocks(fs, i, lo, hi) == few + {SlotVal(fs, i, SlotOf(hi - 1))};
      } else {
        assert DataBlocks(fs, i, lo, hi) == few;
      }
    }
  }
}
