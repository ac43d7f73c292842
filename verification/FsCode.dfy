/**
balloc, bfree, bmap, itrunc, iupdate, readi and writei of src/fs.c on one file system: the free
map, the disk blocks and the cached inodes are fields, updated in place.
*/
module FsCode {
  import opened Common
  import opened FsBits
  import opened FsModel

  const BPB: nat := BSIZE * 8

  /** The block of the free map that holds the bit of block b. */
  function MapBlock(start: nat, b: nat): nat {
    start + b / BPB
  }

  /** What is on disk: the free map, the blocks, the inodes. */
  datatype Disk = Disk(bits: seq<bv8>, block: seq<seq<byte>>, dinode: seq<Inode>)

  /** Every block that changed from d to d' was handed to log_write: the block itself, the block of the free map
      that holds a bit, the block that holds an inode. bm and im are where the free map and the inodes start. */
  ghost predicate Recorded(bm: nat, im: nat, d: Disk, logged: set<nat>, d': Disk, logged': set<nat>) {
    && logged <= logged' && |d'.block| == |d.block| && |d'.dinode| == |d.dinode|
    && (forall b :: 0 <= b < |d.block| && d'.block[b] != d.block[b] ==> b in logged')
    && (forall b: nat :: Bit(d'.bits, b) != Bit(d.bits, b) ==> MapBlock(bm, b) in logged')
    && (forall i :: 0 <= i < |d.dinode| && d'.dinode[i] != d.dinode[i] ==> InodeBlock(im, i) in logged')
  }

  lemma RecordedSame(bm: nat, im: nat, d: Disk, logged: set<nat>)
    ensures Recorded(bm, im, d, logged, d, logged)
  {
  }

  lemma RecordedTrans(bm: nat, im: nat, d: Disk, l: set<nat>, d1: Disk, l1: set<nat>, d2: Disk, l2: set<nat>)
    requires Recorded(bm, im, d, l, d1, l1) && Recorded(bm, im, d1, l1, d2, l2)
    ensures Recorded(bm, im, d, l, d2, l2)
  {
    hide Bit;
  }

  /** One block. */
  lemma RecordedBlock(bm: nat, im: nat, d: Disk, logged: set<nat>, b: nat, data: seq<byte>)
    requires b < |d.block|
    ensures Recorded(bm, im, d, logged, d.(block := d.block[b := data]), logged + {b})
  {
    hide Bit;
  }

  /** balloc. */
  lemma RecordedTaken(bm: nat, im: nat, d: Disk, logged: set<nat>, b: nat)
    requires b < |d.block| && b / 8 < |d.bits|
    ensures Recorded(bm, im, d, logged, d.(bits := SetBit(d.bits, b), block := d.block[b := Zeros()]),
                     logged + {MapBlock(bm, b), b})
  {
    forall c: nat ensures Bit(SetBit(d.bits, b), c) <==> c == b || Bit(d.bits, c) {
      SetBitAt(d.bits, b, c);
    }
    hide Bit, SetBit;
  }

  /** bfree. */
  lemma RecordedFreed(bm: nat, im: nat, d: Disk, logged: set<nat>, b: nat)
    requires b / 8 < |d.bits|
    ensures Recorded(bm, im, d, logged, d.(bits := ClearBit(d.bits, b)), logged + {MapBlock(bm, b)})
  {
    forall c: nat ensures Bit(ClearBit(d.bits, b), c) <==> c != b && Bit(d.bits, c) {
      ClearBitAt(d.bits, b, c);
    }
    hide Bit, ClearBit;
  }

  /** iupdate. */
  lemma RecordedInode(bm: nat, im: nat, d: Disk, logged: set<nat>, i: nat, x: Inode)
    requires i < |d.dinode|
    ensures Recorded(bm, im, d, logged, d.(dinode := d.dinode[i := x]), logged + {InodeBlock(im, i)})
  {
    hide Bit;
  }

  class FileSystem {
    const nmeta: nat
    const bmapstart: nat
    const inodestart: nat
    var bits: seq<bv8>
    var block: seq<seq<byte>>
    var inode: seq<Inode>
    /** The inodes on disk. */
    var dinode: seq<Inode>
    ghost var own: map<nat, Slot>
    /** Blocks passed to log_write. */
    ghost var logged: set<nat>

    ghost function V(): FS
      reads this`bits, this`block, this`inode
    {
      FS(nmeta, bits, block, inode)
    }

    ghost function D(): Disk
      reads this`bits, this`block, this`dinode
    {
      Disk(bits, block, dinode)
    }

    ghost predicate Valid()
      reads this`bits, this`block, this`inode, this`dinode, this`own
    {
      && Inv(V(), own, {}) && |dinode| == |inode|
      && forall i :: 0 <= i < |inode| ==> inode[i].size <= MAXFILE * BSIZE
    }

    /** A fresh image: the blocks before nmeta are in use, every file is empty. */
    constructor (nmeta: nat, bmapstart: nat, inodestart: nat, nblocks: nat, ninodes: nat)
      requires 0 < nmeta <= nblocks < TWO32
      ensures Valid() && own == map[] && logged == {} && this.nmeta == nmeta && |block| == nblocks && |inode| == ninodes
      ensures dinode == inode && forall i :: 0 <= i < ninodes ==> inode[i].size == 0 && Dense(V(), i)
    {
      this.nmeta := nmeta;
      this.bmapstart := bmapstart;
      this.inodestart := inodestart;
      bits := seq((nblocks + 7) / 8, _ => 0);
      block := seq(nblocks, _ => Zeros());
      inode := seq(ninodes, _ => Inode(0, seq<nat>(NDIRECT + 1, _ => 0)));
      dinode := seq(ninodes, _ => Inode(0, seq<nat>(NDIRECT + 1, _ => 0)));
      own := map[];
      logged := {};
      new;
      MarkMeta();
      EmptyImage(V());
    }

    /** mkfs marks the blocks of the boot sector, the super block, the log, the inodes and the free map. */
    method MarkMeta()
      requires 8 * |bits| >= nmeta && forall c :: 0 <= c < |bits| ==> bits[c] == 0
      modifies this`bits
      ensures |bits| == |old(bits)| && forall c: nat :: Bit(bits, c) <==> c < nmeta
    {
      var b := 0;
      NoBits(bits);
      hide Bit;
      while b < nmeta
        invariant 0 <= b <= nmeta && |bits| == |old(bits)| && forall c: nat :: Bit(bits, c) <==> c < b
      {
        forall c: nat ensures Bit(SetBit(bits, b), c) <==> c < b + 1 {
          SetBitAt(bits, b, c);
        }
        bits := SetBit(bits, b);
        b := b + 1;
      }
    }

    // ---------- blocks ----------

    /** balloc: the first free block, marked and zeroed; None stands for the panic. */
    method Balloc() returns (r: Option<nat>)
      requires Shape(V())
      modifies this`bits, this`block, this`logged
      ensures r.None? <==> Free(old(V())) == 0
      ensures r.None? ==> V() == old(V()) && own == old(own) && forall c :: 0 <= c < |block| ==> Bit(bits, c)
      ensures r.Some? ==>
                && r.value < |old(block)| && !Bit(old(bits), r.value) && V() == Taken(old(V()), r.value)
                && (forall c :: 0 <= c < r.value ==> Bit(old(bits), c)) && Free(V()) == Free(old(V())) - 1
                && logged == old(logged) + {MapBlock(bmapstart, r.value), r.value}
      ensures Recorded(bmapstart, inodestart, old(D()), old(logged), D(), logged)
    {
      hide Bit, SetBit, Recorded, MapBlock;
      var b := 0;
      RecordedSame(bmapstart, inodestart, D(), logged);
      while b < |block|
        invariant 0 <= b && forall c :: 0 <= c < b && c < |block| ==> Bit(bits, c)
        invariant V() == old(V()) && logged == old(logged)
        decreases |block| - b
      {
        var bi := 0;
        while bi < BPB && b + bi < |block|
          invariant 0 <= bi <= BPB && forall c :: 0 <= c < b + bi && c < |block| ==> Bit(bits, c)
          invariant V() == old(V()) && logged == old(logged)
        {
          if !Bit(bits, b + bi) {
            TakenFree(V(), b + bi);
            RecordedTaken(bmapstart, inodestart, D(), logged, b + bi);
            bits := SetBit(bits, b + bi);
            block := block[b + bi := Zeros()];
            logged := logged + {MapBlock(bmapstart, b + bi), b + bi};
            return Some(b + bi);
          }
          bi := bi + 1;
        }
        b := b + BPB;
      }
      NoneFree(V());
      return None;
    }

    /** bfree: panics exactly when the block is already free. */
    method Bfree(b: nat) returns (panics: bool)
      requires b / 8 < |bits|
      modifies this`bits, this`logged
      ensures panics <==> !Bit(old(bits), b)
      ensures panics ==> V() == old(V())
      ensures !panics ==> V() == Freed(old(V()), b) && logged == old(logged) + {MapBlock(bmapstart, b)}
      ensures Recorded(bmapstart, inodestart, old(D()), old(logged), D(), logged)
    {
      hide Bit, ClearBit, Recorded;
      if !Bit(bits, b) {
        RecordedSame(bmapstart, inodestart, D(), logged);
        return true;
      }
      RecordedFreed(bmapstart, inodestart, D(), logged, b);
      bits := ClearBit(bits, b);
      logged := logged + {MapBlock(bmapstart, b)};
      return false;
    }

    // ---------- slots ----------

    /** balloc, then the block is hung into slot k <= NDIRECT of inode i. */
    method AllocAddr(i: nat, k: nat) returns (r: Option<nat>)
      requires Inv(V(), own, {}) && i < |inode| && k <= NDIRECT && inode[i].addrs[k] == 0
      modifies this`bits, this`block, this`inode, this`own, this`logged
      ensures r.None? <==> Free(old(V())) == 0
      ensures r.None? ==> V() == old(V())
      ensures r.Some? ==>
                && Free(V()) == Free(old(V())) - 1
                && r.value != 0 && Inv(V(), own, {}) && SameBytes(old(V()), V()) && Grows(old(V()), V(), i, k)
                && SlotVal(V(), i, k) == r.value && block[r.value] == Zeros()
                && logged == old(logged) + {MapBlock(bmapstart, r.value), r.value}
      ensures Recorded(bmapstart, inodestart, old(D()), old(logged), D(), logged)
    {
      hide Bit, SlotVal, SetBit, Recorded, Inv, SameBytes, Grows, Taken;
      ShapeOf(V(), own);
      r := Balloc();
      if r.None? { return; }
      var b := r.value;
      AddrHung(old(V()), own, i, k, b);
      inode := inode[i := inode[i].(addrs := inode[i].addrs[k := b])];
      own := own[b := Slot(i, k)];
    }

    /** bmap: the disk block of the bn-th block of inode i, allocated if need be. None stands for
        a panic, and there is one exactly when bn is out of range or the disk has too few free
        blocks. */
    method Bmap(i: nat, bn: nat) returns (r: Option<nat>)
      requires Inv(V(), own, {}) && i < |inode|
      modifies this`bits, this`block, this`inode, this`own, this`logged
      ensures r.Some? <==> bn < MAXFILE && Lacks(old(V()), i, bn) <= Free(old(V()))
      ensures r.None? && bn < MAXFILE ==> Free(V()) == 0
      ensures r.Some? ==> Free(V()) + Lacks(old(V()), i, bn) == Free(old(V())) && OnlyAt(old(V()), V(), i, bn)
      ensures r.Some? ==>
                && bn < MAXFILE && r.value != 0 && Inv(V(), own, {})
                && SameBytes(old(V()), V()) && Extends(old(V()), V(), i) && SlotVal(V(), i, SlotOf(bn)) == r.value
                && logged <= old(logged) + Bitmap(bmapstart, |block|) + {r.value} + Table(V(), i)
      ensures bn < MAXFILE && SlotVal(old(V()), i, SlotOf(bn)) != 0 ==>
                r.Some? && V() == old(V()) && own == old(own) && logged == old(logged)
      ensures Recorded(bmapstart, inodestart, old(D()), old(logged), D(), logged)
    {
      hide Bit, SlotVal, SetBit, Entry, PutEntry, Bitmap, Recorded;
      RecordedSame(bmapstart, inodestart, D(), logged);
      if bn < NDIRECT {
        SlotIs(V(), i, bn);
        var addr := inode[i].addrs[bn];
        if addr == 0 {
          r := AllocAddr(i, bn);
          if r.Some? {
            GrowsExtends(old(V()), V(), i, bn);
            InBitmap(bmapstart, |block|, r.value);
          }
          return;
        }
        SameRefl(V(), i);
        return Some(addr);
      }
      if bn - NDIRECT < NINDIRECT {
        r := BmapIndirect(i, bn - NDIRECT);
        return;
      }
      return None;
    }

    /** The address of the indirect block, allocated if need be. */
    method LoadIndirect(i: nat) returns (r: Option<nat>)
      requires Inv(V(), own, {}) && i < |inode|
      modifies this`bits, this`block, this`inode, this`own, this`logged
      ensures r.None? <==> old(inode)[i].addrs[NDIRECT] == 0 && Free(old(V())) == 0
      ensures r.None? ==> V() == old(V())
      ensures r.Some? ==> Free(V()) + (if old(inode)[i].addrs[NDIRECT] == 0 then 1 else 0) == Free(old(V()))
      ensures r.Some? ==> Keeps(old(V()), V(), i, {NDIRECT})
      ensures r.Some? ==>
                && Inv(V(), own, {}) && SameBytes(old(V()), V()) && Extends(old(V()), V(), i)
                && inode[i].addrs[NDIRECT] == r.value != 0
                && logged <= old(logged) + Bitmap(bmapstart, |block|) + {r.value}
      ensures old(inode)[i].addrs[NDIRECT] != 0 ==>
                r.Some? && V() == old(V()) && own == old(own) && logged == old(logged)
      ensures Recorded(bmapstart, inodestart, old(D()), old(logged), D(), logged)
    {
      hide Bit, SlotVal, SetBit, Entry, PutEntry, Bitmap, Recorded;
      RecordedSame(bmapstart, inodestart, D(), logged);
      SameRefl(V(), i);
      SlotIs(V(), i, NDIRECT);
      var addr := inode[i].addrs[NDIRECT];
      if addr != 0 {
        return Some(addr);
      }
      r := AllocAddr(i, NDIRECT);
      if r.None? { return; }
      SlotIs(V(), i, NDIRECT);
      GrowsExtends(old(V()), V(), i, NDIRECT);
      InBitmap(bmapstart, |block|, r.value);
    }

    /** The second half of bmap: entry j of the indirect block. */
    method BmapIndirect(i: nat, j: nat) returns (r: Option<nat>)
      requires Inv(V(), own, {}) && i < |inode| && j < NINDIRECT
      modifies this`bits, this`block, this`inode, this`own, this`logged
      ensures r.Some? <==> Lacks(old(V()), i, NDIRECT + j) <= Free(old(V()))
      ensures r.None? ==> Free(V()) == 0
      ensures r.Some? ==>
                && Free(V()) + Lacks(old(V()), i, NDIRECT + j) == Free(old(V()))
                && Keeps(old(V()), V(), i, {NDIRECT, NDIRECT + 1 + j})
      ensures r.Some? ==>
                && r.value != 0 && Inv(V(), own, {}) && SameBytes(old(V()), V()) && Extends(old(V()), V(), i)
                && SlotVal(V(), i, NDIRECT + 1 + j) == r.value
                && logged <= old(logged) + Bitmap(bmapstart, |block|) + {r.value} + Table(V(), i)
      ensures SlotVal(old(V()), i, NDIRECT + 1 + j) != 0 ==>
                r.Some? && V() == old(V()) && own == old(own) && logged == old(logged)
      ensures Recorded(bmapstart, inodestart, old(D()), old(logged), D(), logged)
    {
      hide Bit, SlotVal, SetBit, Entry, PutEntry, Bitmap, SameBytes, Extends, Inv, Grows, Recorded;
      ShapeOf(V(), own);
      SameRefl(V(), i);
      EntryIs(V(), own, i, j);
      r := LoadIndirect(i);
      if r.None? { return; }
      var t := r.value;
      ghost var fs1 := V();
      ExtendsShape(old(V()), fs1, i);
      EntryIs(fs1, own, i, j);
      var addr := Entry(block[t], j);
      if addr != 0 {
        return Some(addr);
      }
      ghost var d1, l1 := D(), logged;
      r := AllocEntry(i, j);
      RecordedTrans(bmapstart, inodestart, old(D()), old(logged), d1, l1, D(), logged);
      if r.None? { return; }
      assert HasSlot(fs1, i, NDIRECT + 1 + j);
      GrowsExtends(fs1, V(), i, NDIRECT + 1 + j);
      ExtendsShape(fs1, V(), i);
      ExtendsTrans(old(V()), fs1, V(), i);
      SlotBound(V(), own, i, NDIRECT + j);
      InBitmap(bmapstart, |block|, r.value);
    }

    /** balloc, then the block is hung into entry j of the indirect block of inode i. */
    method AllocEntry(i: nat, j: nat) returns (r: Option<nat>)
      requires Inv(V(), own, {}) && i < |inode| && j < NINDIRECT && inode[i].addrs[NDIRECT] != 0
      requires SlotVal(V(), i, NDIRECT + 1 + j) == 0
      modifies this`bits, this`block, this`own, this`logged
      ensures r.None? <==> Free(old(V())) == 0
      ensures r.None? ==> V() == old(V())
      ensures r.Some? ==>
                && Free(V()) == Free(old(V())) - 1
                && r.value != 0 && Inv(V(), own, {}) && SameBytes(old(V()), V())
                && Grows(old(V()), V(), i, NDIRECT + 1 + j) && SlotVal(V(), i, NDIRECT + 1 + j) == r.value
                && logged == old(logged) + {MapBlock(bmapstart, r.value), r.value, inode[i].addrs[NDIRECT]}
      ensures Recorded(bmapstart, inodestart, old(D()), old(logged), D(), logged)
    {
      hide Bit, SlotVal, SetBit, Entry, PutEntry, ByteAt, Clear, Inv, SameBytes, Grows, Taken, Recorded;
      ShapeOf(V(), own);
      var t := inode[i].addrs[NDIRECT];
      r := Balloc();
      if r.None? { return; }
      var b := r.value;
      EntryHung(old(V()), own, i, j, b);
      ghost var d1, l1 := D(), logged;
      RecordedBlock(bmapstart, inodestart, d1, l1, t, PutEntry(block[t], j, b));
      block := block[t := PutEntry(block[t], j, b)];
      logged := logged + {t};
      own := own[b := Slot(i, NDIRECT + 1 + j)];
      RecordedTrans(bmapstart, inodestart, old(D()), old(logged), d1, l1, D(), logged);
    }

    // ---------- reading ----------

    /** readi of a file: None stands for a panic, Some(-1) for the error return, Some(n) for n bytes
        read into data. */
    method Readi(i: nat, off: nat, n: nat) returns (r: Option<int>, data: seq<byte>)
      requires Valid() && i < |inode| && off < TWO32 && n < TWO32
      modifies this`bits, this`block, this`inode, this`own, this`logged
      ensures r == Some(-1) <==> off > old(inode)[i].size || off + n >= TWO32
      ensures r.None? <==>
                && off <= old(inode)[i].size && off + n < TWO32
                && Free(old(V())) < Need(old(V()), i, off / BSIZE, Reach(off, Clip(old(inode)[i].size, off, n)))
      ensures r.None? ==> Free(V()) == 0
      ensures r == Some(-1) ==> V() == old(V())
      ensures r.Some? ==> Valid() && SameBytes(old(V()), V())
      ensures r.Some? && r.value != -1 ==> data == Slice(Contents(old(V()), i), off, n) && r.value == |data|
      ensures r.Some? && r.value != -1 ==>
                Spent(old(V()), V(), i, off / BSIZE, Reach(off, Clip(old(inode)[i].size, off, n)))
      ensures r.Some? && r.value != -1 && old(inode)[i] == dinode[i] ==>
                (inode[i] == dinode[i] <==>
                   AddrsThere(old(V()), i, off / BSIZE, Reach(off, Clip(old(inode)[i].size, off, n))))
      ensures Dense(old(V()), i) ==> r.Some? && V() == old(V()) && own == old(own) && logged == old(logged)
      ensures dinode == old(dinode) && Recorded(bmapstart, inodestart, old(D()), old(logged), D(), logged)
    {
      hide Inv, SlotVal, ByteAt, Bitmap, Table, Extends, Bytes, Spent, Lacks, Free, OnlyAt, Need, Reach, Slice,
        SameBytes, AddrsThere, Recorded, Wraps;
      RecordedSame(bmapstart, inodestart, D(), logged);
      data := [];
      ghost var fs0 := V();
      ShapeOf(fs0, own);
      SameRefl(fs0, i);
      WrapsIff(off, n);
      if off > inode[i].size || Wraps(off, n) {
        return Some(-1), [];
      }
      var left := if off + n > inode[i].size then inode[i].size - off else n;
      assert left == Clip(inode[i].size, off, n) && off + left < TWO32;
      hide Clip;
      var tot := 0;
      ReachNone(off);
      NoBytes(fs0, i, off);
      SpentNone(fs0, i, off / BSIZE);
      while tot < left
        invariant 0 <= tot == |data| <= left && Inv(V(), own, {}) && SameBytes(fs0, V())
        invariant |dinode| == |inode| == |fs0.inode|
        invariant forall n :: 0 <= n < |inode| ==> inode[n].size == fs0.inode[n].size
        invariant data == Bytes(fs0, i, off, tot) && Spent(fs0, V(), i, off / BSIZE, Reach(off, tot))
        invariant Extends(fs0, V(), i)
        invariant Dense(fs0, i) ==> V() == fs0 && own == old(own) && logged == old(logged)
        invariant Recorded(bmapstart, inodestart, old(D()), old(logged), D(), logged)
      {
        var at := off + tot;
        ghost var d1, l1 := D(), logged;
        ShapeOf(V(), own);
        DenseAt(fs0, i, at);
        var m := if left - tot < BSIZE - at % BSIZE then left - tot else BSIZE - at % BSIZE;
        ReachNext(off, tot, m);
        ReachEnd(off, tot, left);
        ghost var fs := V();
        var v := Bmap(i, at / BSIZE);
        RecordedTrans(bmapstart, inodestart, old(D()), old(logged), d1, l1, D(), logged);
        if v.None? {
          SpentShort(fs0, fs, i, off / BSIZE, Reach(off, tot), at / BSIZE, Reach(off, left));
          return None, [];
        }
        SpentNext(fs0, fs, V(), i, off / BSIZE, Reach(off, tot), at / BSIZE);
        SameTrans(fs0, fs, V());
        ExtendsChain(fs0, fs, V(), i);
        SlotBound(V(), own, i, at / BSIZE);
        ReadChunk(V(), i, at, m);
        SameRun(fs0, V(), i, at, m);
        BytesJoin(fs0, i, off, tot, m);
        data := data + block[v.value][at % BSIZE..at % BSIZE + m];
        tot := tot + m;
      }
      SliceIs(fs0, i, off, n, left);
      SpentIs(fs0, V(), i, off / BSIZE, Reach(off, left));
      InodeSameIff(fs0, V(), i, off / BSIZE, Reach(off, left));
      return Some(left), data;
    }

    // ---------- writing ----------

    /** iupdate: the cached inode goes to disk. */
    method Iupdate(i: nat)
      requires i < |inode| == |dinode|
      modifies this`dinode, this`logged
      ensures dinode == old(dinode)[i := inode[i]] && logged == old(logged) + {InodeBlock(inodestart, i)}
      ensures Recorded(bmapstart, inodestart, old(D()), old(logged), D(), logged)
    {
      hide Recorded;
      RecordedInode(bmapstart, inodestart, D(), logged, i, inode[i]);
      dinode := dinode[i := inode[i]];
      logged := logged + {InodeBlock(inodestart, i)};
    }

    /** One round of writei's loop: m bytes of src go to offset at, within one block. */
    method WriteChunk(i: nat, at: nat, src: seq<byte>) returns (ok: bool)
      requires Inv(V(), own, {}) && i < |inode| && at / BSIZE < MAXFILE && at % BSIZE + |src| <= BSIZE
      modifies this`bits, this`block, this`inode, this`own, this`logged
      ensures ok <==> Lacks(old(V()), i, at / BSIZE) <= Free(old(V()))
      ensures !ok ==> Free(V()) == 0
      ensures ok ==>
                && Free(V()) + Lacks(old(V()), i, at / BSIZE) == Free(old(V())) && OnlyAt(old(V()), V(), i, at / BSIZE)
      ensures ok ==>
                && Inv(V(), own, {}) && Extends(old(V()), V(), i) && Patched(old(V()), V(), i, at, src)
                && SlotVal(V(), i, SlotOf(at / BSIZE)) != 0
                && logged <= old(logged) + Bitmap(bmapstart, |block|) + {SlotVal(V(), i, SlotOf(at / BSIZE))}
                  + Table(V(), i)
      ensures SlotVal(old(V()), i, SlotOf(at / BSIZE)) != 0 ==> ok && inode == old(inode)
      ensures Recorded(bmapstart, inodestart, old(D()), old(logged), D(), logged)
    {
      hide SlotVal, ByteAt, Bitmap, Bit, Lacks, Slots, FreeBlocks, Recorded;
      ghost var fs0, bn := V(), at / BSIZE;
      var v := Bmap(i, at / BSIZE);
      if v.None? {
        return false;
      }
      ghost var fs1 := V();
      SlotBound(fs1, own, i, bn);
      var o := at % BSIZE;
      var data := block[v.value][..o] + src + block[v.value][o + |src|..];
      DataBytes(fs1, own, {}, i, bn, data);
      PatchIs(fs0, fs1, SetBlock(fs1, v.value, data), i, at, src, data);
      SlotsExtend(fs0, fs1, SetBlock(fs1, v.value, data), i);
      KeepsSame(fs0, fs1, SetBlock(fs1, v.value, data), i, Slots(bn));
      ghost var d1, l1 := D(), logged;
      RecordedBlock(bmapstart, inodestart, d1, l1, v.value, data);
      block := block[v.value := data];
      logged := logged + {v.value};
      RecordedTrans(bmapstart, inodestart, old(D()), old(logged), d1, l1, D(), logged);
      assert HasSlot(fs1, i, SlotOf(bn));
      return true;
    }

    /** The loop of writei. */
    method WriteAll(i: nat, src: seq<byte>, off: nat) returns (ok: bool)
      requires Inv(V(), own, {}) && i < |inode| && off + |src| <= MAXFILE * BSIZE
      modifies this`bits, this`block, this`inode, this`own, this`logged
      ensures ok <==> Need(old(V()), i, off / BSIZE, Reach(off, |src|)) <= Free(old(V()))
      ensures !ok ==> Free(V()) == 0
      ensures ok ==>
                && Inv(V(), own, {}) && Extends(old(V()), V(), i) && Patched(old(V()), V(), i, off, src)
                && Spent(old(V()), V(), i, off / BSIZE, Reach(off, |src|))
                && logged <= old(logged) + Bitmap(bmapstart, |block|) + Table(V(), i)
                             + DataBlocks(V(), i, off / BSIZE, Reach(off, |src|))
      ensures ok && Dense(old(V()), i) && off + |src| <= old(inode)[i].size ==> inode == old(inode)
      ensures Recorded(bmapstart, inodestart, old(D()), old(logged), D(), logged)
    {
      hide SlotVal, Bitmap, Table, DataBlocks, Patched, Extends, Inv, Filled, ByteAt, Spent, Lacks, Free, OnlyAt, Need,
        Recorded;
      RecordedSame(bmapstart, inodestart, D(), logged);
      ghost var fs0 := V();
      ShapeOf(fs0, own);
      WriteStart(fs0, i, off, src);
      SpentNone(fs0, i, off / BSIZE);
      var tot := 0;
      while tot < |src|
        invariant 0 <= tot <= |src| && Inv(V(), own, {}) && Shape(V()) && i < |inode|
        invariant Extends(fs0, V(), i) && Patched(fs0, V(), i, off, src[..tot])
        invariant |block| == |fs0.block|
        invariant Spent(fs0, V(), i, off / BSIZE, Reach(off, tot))
        invariant logged <= old(logged) + Bitmap(bmapstart, |block|) + Table(V(), i)
                            + DataBlocks(V(), i, off / BSIZE, Reach(off, tot))
        invariant Dense(fs0, i) && off + tot <= fs0.inode[i].size ==> inode == fs0.inode
        invariant Recorded(bmapstart, inodestart, old(D()), old(logged), D(), logged)
      {
        var at := off + tot;
        ghost var d1, l1 := D(), logged;
        var m := if |src| - tot < BSIZE - at % BSIZE then |src| - tot else BSIZE - at % BSIZE;
        ghost var fs := V();
        StillDense(fs0, fs, i, at);
        ReachNext(off, tot, m);
        ReachEnd(off, tot, |src|);
        SpentIs(fs0, fs, i, off / BSIZE, Reach(off, tot));
        ok := WriteChunk(i, at, src[tot..tot + m]);
        RecordedTrans(bmapstart, inodestart, old(D()), old(logged), d1, l1, D(), logged);
        if !ok {
          SpentShort(fs0, fs, i, off / BSIZE, Reach(off, tot), at / BSIZE, Reach(off, |src|));
          return;
        }
        ShapeOf(V(), own);
        SpentNext(fs0, fs, V(), i, off / BSIZE, Reach(off, tot), at / BSIZE);
        WriteStep(fs0, fs, V(), i, off, src, tot, m);
        tot := tot + m;
      }
      assert src[..tot] == src;
      SpentIs(fs0, V(), i, off / BSIZE, Reach(off, |src|));
      return true;
    }

    /** writei of a file: None stands for a panic, Some(-1) for the error return, Some(n) for n
        bytes written at offset off. */
    method Writei(i: nat, src: seq<byte>, off: nat) returns (rc: Option<int>)
      requires Valid() && i < |inode| && off < TWO32 && |src| < TWO32
      modifies this`bits, this`block, this`inode, this`dinode, this`own, this`logged
      ensures rc == Some(-1) <==> off > old(inode)[i].size || off + |src| > MAXFILE * BSIZE
      ensures rc.None? <==>
                && off <= old(inode)[i].size && off + |src| <= MAXFILE * BSIZE
                && Free(old(V())) < Need(old(V()), i, off / BSIZE, Reach(off, |src|))
      ensures rc.None? ==> Free(V()) == 0
      ensures Dense(old(V()), i) && off + |src| <= old(inode)[i].size ==> rc == Some(|src|)
      ensures rc == Some(-1) ==> V() == old(V()) && dinode == old(dinode) && own == old(own) && logged == old(logged)
      ensures rc.Some? && rc.value != -1 ==>
                && rc.value == |src| && Valid() && |inode| == |old(inode)| && |block| == |old(block)|
                && Spent(old(V()), V(), i, off / BSIZE, Reach(off, |src|))
                && Contents(V(), i) == Splice(Contents(old(V()), i), off, src)
                && (forall n :: 0 <= n < |inode| && n != i ==>
                      inode[n] == old(inode)[n] && dinode[n] == old(dinode)[n]
                        && Contents(V(), n) == Contents(old(V()), n))
                && (Dense(old(V()), i) ==> Dense(V(), i))
                && (Dense(old(V()), i) && old(inode)[i] == old(dinode)[i] ==> inode[i] == dinode[i])
                && (old(inode)[i] == old(dinode)[i] ==>
                      (inode[i] == dinode[i] <==>
                         || (src != [] && off + |src| > old(inode)[i].size)
                         || AddrsThere(old(V()), i, off / BSIZE, Reach(off, |src|))))
                && logged <= old(logged) + Bitmap(bmapstart, |block|) + Table(V(), i)
                             + DataBlocks(V(), i, off / BSIZE, Reach(off, |src|)) + {InodeBlock(inodestart, i)}
      ensures Recorded(bmapstart, inodestart, old(D()), old(logged), D(), logged)
    {
      hide SlotVal, Bitmap, Table, DataBlocks, Patched, Extends, Inv, Filled, ByteAt, Dense, Contents, Splice,
        Spent, Free, Need, AddrsThere, Recorded, Wraps;
      RecordedSame(bmapstart, inodestart, D(), logged);
      ghost var fs0 := V();
      ShapeOf(fs0, own);
      WrapsIff(off, |src|);
      if off > inode[i].size || Wraps(off, |src|) {
        return Some(-1);
      }
      if off + |src| > MAXFILE * BSIZE {
        return Some(-1);
      }
      InsideDense(fs0, i, off, |src|);
      var ok := WriteAll(i, src, off);
      if !ok {
        return None;
      }
      ghost var fs1 := V();
      ExtendsShape(fs0, fs1, i);
      SpentIs(fs0, fs1, i, off / BSIZE, Reach(off, |src|));
      InodeSameIff(fs0, fs1, i, off / BSIZE, Reach(off, |src|));
      if |src| > 0 && off + |src| > inode[i].size {
        inode := inode[i := inode[i].(size := off + |src|)];
        Resized(fs1, own, i, off + |src|, off / BSIZE, Reach(off, |src|));
        ghost var d1, l1 := D(), logged;
        Iupdate(i);
        RecordedTrans(bmapstart, inodestart, old(D()), old(logged), d1, l1, D(), logged);
      } else {
        SameSize(fs1, i);
      }
      SpentSize(fs0, fs1, V(), i, off / BSIZE, Reach(off, |src|));
      WriteDone(fs0, fs1, V(), i, off, src);
      return Some(|src|);
    }

    // ---------- truncation ----------

    /** itrunc: every block of inode i goes back to the free map, and the panic of bfree cannot
        fire; no other inode changes. */
    method Itrunc(i: nat) returns (panics: bool)
      requires Valid() && i < |inode|
      modifies this`bits, this`inode, this`dinode, this`own, this`logged
      ensures !panics && Valid() && |inode| == |old(inode)| && inode[i] == dinode[i] && inode[i].size == 0
      ensures forall k :: 0 <= k < NSLOT ==> SlotVal(V(), i, k) == 0
      ensures forall n :: 0 <= n < |inode| && n != i ==>
                inode[n] == old(inode)[n] && dinode[n] == old(dinode)[n] && Contents(V(), n) == Contents(old(V()), n)
      ensures Inv(old(V()), old(own), {}) && own.Keys == set b | b in old(own) && old(own)[b].inum != i
      ensures Recorded(bmapstart, inodestart, old(D()), old(logged), D(), logged)
    {
      hide Inv, SlotVal, ByteAt, Bit, Recorded;
      ghost var fs0, own0 := V(), own;
      panics := FreeDirect(i);
      ghost var hadTable := inode[i].addrs[NDIRECT] != 0;
      if inode[i].addrs[NDIRECT] != 0 {
        ghost var d1, l1 := D(), logged;
        var p := FreeIndirect(i);
        RecordedTrans(bmapstart, inodestart, old(D()), old(logged), d1, l1, D(), logged);
        panics := panics || p;
      }
      ghost var fs1 := V();
      ShapeOf(fs1, own);
      Resized(fs1, own, i, 0, 0, 0);
      inode := inode[i := inode[i].(size := 0)];
      ghost var d1, l1 := D(), logged;
      Iupdate(i);
      RecordedTrans(bmapstart, inodestart, old(D()), old(logged), d1, l1, D(), logged);
      Emptied(fs0, own0, V(), own, i, hadTable);
    }

    /** The direct blocks. */
    method FreeDirect(i: nat) returns (panics: bool)
      requires Inv(V(), own, {}) && i < |inode|
      modifies this`bits, this`inode, this`own, this`logged
      ensures !panics && Inv(V(), own, {}) && |inode| == |old(inode)| && inode == old(inode)[i := inode[i]]
      ensures inode[i].size == old(inode)[i].size && |inode[i].addrs| == NDIRECT + 1
      ensures inode[i].addrs[NDIRECT] == old(inode)[i].addrs[NDIRECT]
      ensures forall k :: 0 <= k < NDIRECT ==> inode[i].addrs[k] == 0
      ensures own == old(own) - DirectOwned(old(own), i, NDIRECT)
      ensures Recorded(bmapstart, inodestart, old(D()), old(logged), D(), logged)
    {
      hide Inv, SlotVal, Bit, Recorded;
      RecordedSame(bmapstart, inodestart, D(), logged);
      ghost var fs0 := V();
      ShapeOf(fs0, own);
      assert fs0.inode == fs0.inode[i := fs0.inode[i]];
      var k := 0;
      panics := false;
      DirectStart(own, i);
      while k < NDIRECT
        invariant 0 <= k <= NDIRECT && !panics && Inv(V(), own, {}) && |inode| == |fs0.inode|
                  && inode == fs0.inode[i := inode[i]]
        invariant |inode[i].addrs| == NDIRECT + 1 && inode[i].size == fs0.inode[i].size
        invariant (forall l :: 0 <= l < k ==> inode[i].addrs[l] == 0)
        invariant (forall l :: k <= l <= NDIRECT ==> inode[i].addrs[l] == fs0.inode[i].addrs[l])
        invariant own == old(own) - DirectOwned(old(own), i, k)
        invariant Recorded(bmapstart, inodestart, old(D()), old(logged), D(), logged)
      {
        ghost var d1, l1 := D(), logged;
        var v := inode[i].addrs[k];
        DirectNext(V(), own, old(own), i, k);
        if v != 0 {
          DropAddr(V(), own, i, k);
          FreedInv(SetAddr(V(), i, k, 0), own - {v}, {v}, v);
          assert {v} - {v} == {};
          var p := Bfree(v);
          RecordedTrans(bmapstart, inodestart, old(D()), old(logged), d1, l1, D(), logged);
          panics := panics || p;
          inode := inode[i := inode[i].(addrs := inode[i].addrs[k := 0])];
          own := own - {v};
        }
        k := k + 1;
      }
    }

    /** The blocks listed in the indirect block, then the indirect block. */
    method FreeIndirect(i: nat) returns (panics: bool)
      requires Inv(V(), own, {}) && i < |inode| && |inode[i].addrs| == NDIRECT + 1 && inode[i].addrs[NDIRECT] != 0
      modifies this`bits, this`inode, this`own, this`logged
      ensures !panics && Inv(V(), own, {})
              && inode == old(inode)[i := old(inode)[i].(addrs := old(inode)[i].addrs[NDIRECT := 0])]
      ensures own == old(own) - TableOwned(old(own), i)
      ensures Recorded(bmapstart, inodestart, old(D()), old(logged), D(), logged)
    {
      hide Inv, SlotVal, Bit, Entry, Rest, TableOwned, Recorded;
      RecordedSame(bmapstart, inodestart, D(), logged);
      var t := inode[i].addrs[NDIRECT];
      DropTable(V(), own, i);
      own := own - TableOwned(own, i);
      var a := block[t];
      var j := 0;
      panics := false;
      while j < NINDIRECT
        invariant 0 <= j <= NINDIRECT && !panics && inode == old(inode) && own == old(own) - TableOwned(old(own), i)
        invariant Inv(SetAddr(V(), i, NDIRECT, 0), own, Rest(a, t, j))
        invariant Recorded(bmapstart, inodestart, old(D()), old(logged), D(), logged)
      {
        ghost var d1, l1 := D(), logged;
        var e := Entry(a, j);
        RestNext(old(V()), old(own), i, j);
        if e != 0 {
          FreedInv(SetAddr(V(), i, NDIRECT, 0), own, Rest(a, t, j), e);
          LentBound(SetAddr(V(), i, NDIRECT, 0), own, Rest(a, t, j), e);
          var p := Bfree(e);
          RecordedTrans(bmapstart, inodestart, old(D()), old(logged), d1, l1, D(), logged);
          panics := panics || p;
        }
        j := j + 1;
      }
      RestDone(a, t);
      FreedInv(SetAddr(V(), i, NDIRECT, 0), own, {t}, t);
      LentBound(SetAddr(V(), i, NDIRECT, 0), own, {t}, t);
      ghost var d1, l1 := D(), logged;
      var p := Bfree(t);
      RecordedTrans(bmapstart, inodestart, old(D()), old(logged), d1, l1, D(), logged);
      panics := panics || p;
      assert {t} - {t} == {};
      inode := inode[i := inode[i].(addrs := inode[i].addrs[NDIRECT := 0])];
    }
  }

  /** The indirect block of inode i, if it has one. */
  ghost function Table(fs: FS, i: nat): set<nat>
    requires Shape(fs) && i < |fs.inode|
  {
    if fs.inode[i].addrs[NDIRECT] == 0 then {} else {fs.inode[i].addrs[NDIRECT]}
  }

  /** The blocks of the free map of a disk with n blocks. */
  ghost function Bitmap(start: nat, n: nat): set<nat> {
    set b | 0 <= b < n :: MapBlock(start, b)
  }

  lemma InBitmap(start: nat, n: nat, b: nat)
    requires b < n
    ensures MapBlock(start, b) in Bitmap(start, n)
  {
  }

  /** From fs to fs' inode i may have gained blocks; no slot lost or changed one. */
  ghost predicate Extends(fs: FS, fs': FS, i: nat) {
    && Shape(fs) && Shape(fs') && |fs'.inode| == |fs.inode| && |fs'.block| == |fs.block| && fs'.nmeta == fs.nmeta
    && i < |fs.inode| && fs'.inode == fs.inode[i := fs'.inode[i]] && fs'.inode[i].size == fs.inode[i].size
    && (forall j, l :: HasSlot(fs, j, l) && SlotVal(fs, j, l) != 0 ==> SlotVal(fs', j, l) == SlotVal(fs, j, l))
  }

  lemma GrowsExtends(fs: FS, fs': FS, i: nat, k: nat)
    requires Grows(fs, fs', i, k) && HasSlot(fs, i, k) && SlotVal(fs, i, k) == 0
    ensures Extends(fs, fs', i) && Keeps(fs, fs', i, {k})
  {
    hide SlotVal;
  }

  /** From fs to fs' no slot changed but, at most, those of inode i in ks. */
  ghost predicate Keeps(fs: FS, fs': FS, i: nat, ks: set<nat>) {
    && Shape(fs) && Shape(fs') && |fs'.inode| == |fs.inode|
    && (forall j, l :: HasSlot(fs, j, l) && !(j == i && l in ks) ==> SlotVal(fs', j, l) == SlotVal(fs, j, l))
  }

  lemma KeepsJoin(fs: FS, fs1: FS, fs2: FS, i: nat, ks: set<nat>, ls: set<nat>, ms: set<nat>)
    requires Keeps(fs, fs1, i, ks) && Keeps(fs1, fs2, i, ls) && ks + ls <= ms
    ensures Keeps(fs, fs2, i, ms)
  {
    hide SlotVal;
    assert forall j, l :: HasSlot(fs1, j, l) <==> HasSlot(fs, j, l);
  }

  lemma KeepsSame(fs: FS, fs1: FS, fs2: FS, i: nat, ks: set<nat>)
    requires Keeps(fs, fs1, i, ks) && SameSlots(fs1, fs2) && fs2.bits == fs1.bits
    ensures Keeps(fs, fs2, i, ks) && Free(fs2) == Free(fs1)
  {
    hide SlotVal;
    assert forall j, l :: HasSlot(fs1, j, l) <==> HasSlot(fs, j, l);
  }

  /** The slots bmap may fill for block bn. */
  ghost function Slots(bn: nat): set<nat> {
    if bn < NDIRECT then {SlotOf(bn)} else {NDIRECT, SlotOf(bn)}
  }

  ghost predicate OnlyAt(fs: FS, fs': FS, i: nat, bn: nat) {
    Keeps(fs, fs', i, Slots(bn))
  }

  lemma SameRefl(fs: FS, i: nat)
    requires Shape(fs) && i < |fs.inode|
    ensures SameBytes(fs, fs) && Extends(fs, fs, i)
  {
    hide SlotVal;
    assert fs.inode == fs.inode[i := fs.inode[i]];
  }

  lemma ExtendsTrans(fs: FS, fs1: FS, fs2: FS, i: nat)
    requires Extends(fs, fs1, i) && Extends(fs1, fs2, i) && SameBytes(fs, fs1) && SameBytes(fs1, fs2)
    ensures Extends(fs, fs2, i) && SameBytes(fs, fs2)
  {
    ExtendsChain(fs, fs1, fs2, i);
    SameTrans(fs, fs1, fs2);
  }

  /** What slot NDIRECT + 1 + j is in terms of the indirect block. */
  lemma EntryIs(fs: FS, own: map<nat, Slot>, i: nat, j: nat)
    requires Inv(fs, own, {}) && i < |fs.inode| && j < NINDIRECT
    ensures var t := fs.inode[i].addrs[NDIRECT];
            && (t == 0 ==> SlotVal(fs, i, NDIRECT + 1 + j) == 0)
            && (t != 0 ==> t < |fs.block| && SlotVal(fs, i, NDIRECT + 1 + j) == Entry(fs.block[t], j))
  {
    assert HasSlot(fs, i, NDIRECT) && SlotVal(fs, i, NDIRECT) == fs.inode[i].addrs[NDIRECT];
  }

  /** From fs to fs' inode i gained blocks; nothing else about the slots changed. */
  ghost predicate Grows(fs: FS, fs': FS, i: nat, k: nat) {
    && Shape(fs) && Shape(fs') && |fs'.inode| == |fs.inode| && |fs'.block| == |fs.block| && fs'.nmeta == fs.nmeta
    && i < |fs.inode| && fs'.inode == fs.inode[i := fs'.inode[i]] && fs'.inode[i].size == fs.inode[i].size
    && (forall j, l :: HasSlot(fs, j, l) && !(j == i && l == k) ==> SlotVal(fs', j, l) == SlotVal(fs, j, l))
  }

  lemma SlotIs(fs: FS, i: nat, k: nat)
    requires Shape(fs) && i < |fs.inode| && k <= NDIRECT
    ensures SlotVal(fs, i, k) == fs.inode[i].addrs[k]
  {
  }

  // ---------- the blocks a transfer takes ----------

  ghost function SlotsOf(lo: nat, hi: nat): set<nat> {
    if lo >= hi then {} else SlotsOf(lo, hi - 1) + Slots(hi - 1)
  }

  /** The block balloc took is hung into slot k of the inode. */
  lemma AddrHung(fs0: FS, own: map<nat, Slot>, i: nat, k: nat, b: nat)
    requires Inv(fs0, own, {}) && i < |fs0.inode| && k <= NDIRECT && fs0.inode[i].addrs[k] == 0
    requires b < |fs0.block| && b / 8 < |fs0.bits| && !Bit(fs0.bits, b)
    ensures var fs := Taken(fs0, b);
            && b != 0 && i < |fs.inode| && k < |fs.inode[i].addrs| && fs.inode == fs0.inode && fs.nmeta == fs0.nmeta
            && var fs' := SetAddr(fs, i, k, b);
            && Inv(fs', own[b := Slot(i, k)], {}) && SameBytes(fs0, fs') && Grows(fs0, fs', i, k)
            && SlotVal(fs', i, k) == b && |fs'.block| == |fs0.block| && fs'.block[b] == Zeros() && Free(fs') == Free(fs)
  {
    hide Bit, SlotVal, SetBit;
    var fs := Taken(fs0, b);
    TakenInv(fs0, own, {}, b);
    TakenBytes(fs0, own, {}, b);
    assert fs.block[b] == Zeros() && HasSlot(fs, i, k);
    AttachAddr(fs, own, {} + {b}, i, k, b);
    SlotIs(fs, i, k);
    AttachBytes(fs, SetAddr(fs, i, k, b), own, {} + {b}, i, k, b, 0);
    assert {} + {b} - {b} == {};
  }

  /** The block balloc took is hung into entry j of the indirect block. */
  lemma EntryHung(fs0: FS, own: map<nat, Slot>, i: nat, j: nat, b: nat)
    requires Inv(fs0, own, {}) && i < |fs0.inode| && j < NINDIRECT && fs0.inode[i].addrs[NDIRECT] != 0
    requires SlotVal(fs0, i, NDIRECT + 1 + j) == 0 && b < |fs0.block| && b / 8 < |fs0.bits| && !Bit(fs0.bits, b)
    ensures var fs, t, k := Taken(fs0, b), fs0.inode[i].addrs[NDIRECT], NDIRECT + 1 + j;
            && b != 0 && t < |fs.block| == |fs0.block| && |fs.block[t]| == BSIZE && b < TWO32
            && fs.inode == fs0.inode && fs.nmeta == fs0.nmeta
            && var fs' := SetBlock(fs, t, PutEntry(fs.block[t], j, b));
            && Inv(fs', own[b := Slot(i, k)], {}) && SameBytes(fs0, fs') && Grows(fs0, fs', i, k)
            && SlotVal(fs', i, k) == b && Free(fs') == Free(fs)
  {
    hide Bit, SlotVal, SetBit, Entry, PutEntry, ByteAt, Clear;
    var fs, t, k := Taken(fs0, b), fs0.inode[i].addrs[NDIRECT], NDIRECT + 1 + j;
    TakenInv(fs0, own, {}, b);
    TakenBytes(fs0, own, {}, b);
    assert fs.block[b] == Zeros() && HasSlot(fs, i, k);
    AttachEntry(fs, own, {} + {b}, i, j, b);
    var fs' := SetBlock(fs, t, PutEntry(fs.block[t], j, b));
    AttachBytes(fs, fs', own, {} + {b}, i, k, b, t);
    assert {} + {b} - {b} == {};
    SameTrans(fs0, fs, fs');
  }

  lemma SameTrans(fs: FS, fs1: FS, fs2: FS)
    requires SameBytes(fs, fs1) && SameBytes(fs1, fs2)
    ensures SameBytes(fs, fs2) && Shape(fs2) && |fs2.inode| == |fs.inode|
    ensures forall i :: 0 <= i < |fs.inode| ==> fs2.inode[i].size == fs.inode[i].size
  {
    hide ByteAt;
    forall n, pos | 0 <= n < |fs.inode| && 0 <= pos < MAXFILE * BSIZE
      ensures ByteAt(fs2, n, pos) == ByteAt(fs, n, pos)
    {
      assert ByteAt(fs1, n, pos) == ByteAt(fs, n, pos);
    }
  }

  /** From fs0 to fs exactly the blocks lo .. hi-1 of inode i were filled in, each with what it
      lacked, and the free map shrank by as much. */
  ghost predicate Spent(fs0: FS, fs: FS, i: nat, lo: nat, hi: nat) {
    && Keeps(fs0, fs, i, SlotsOf(lo, hi)) && i < |fs0.inode| && hi <= MAXFILE
    && Filled(fs, i, lo, hi) && Free(fs) + Need(fs0, i, lo, hi) == Free(fs0)
  }

  lemma SpentNone(fs: FS, i: nat, lo: nat)
    requires Shape(fs) && i < |fs.inode| && lo <= MAXFILE
    ensures Spent(fs, fs, i, lo, lo)
  {
    hide SlotVal;
  }

  lemma {:induction false} SlotsIn(lo: nat, hi: nat, k: nat)
    ensures k in SlotsOf(lo, hi) <==> (exists bn :: lo <= bn < hi && k in Slots(bn))
  {
    if lo < hi {
      SlotsIn(lo, hi - 1, k);
    }
  }

  /** What block bn lacks once the blocks lo .. bn-1 are there is its share of the whole range. */
  lemma LacksShare(fs0: FS, fs: FS, i: nat, lo: nat, bn: nat)
    requires Spent(fs0, fs, i, lo, bn) && lo <= bn < MAXFILE
    ensures Lacks(fs, i, bn) == Share(fs0, i, lo, bn)
  {
    var k := SlotOf(bn);
    SlotIs(fs0, i, NDIRECT);
    SlotIs(fs, i, NDIRECT);
    NoTable(fs0, i, bn);
    NoTable(fs, i, bn);
    SlotsIn(lo, bn, k);
    SlotsIn(lo, bn, NDIRECT);
    assert HasSlot(fs0, i, k) && HasSlot(fs0, i, NDIRECT);
    if lo < bn && NDIRECT < bn {
      assert SlotVal(fs, i, SlotOf(bn - 1)) != 0;
      NoTable(fs, i, bn - 1);
    }
    hide SlotVal;
  }

  lemma NoTable(fs: FS, i: nat, bn: nat)
    requires Shape(fs) && i < |fs.inode| && bn < MAXFILE
    ensures fs.inode[i].addrs[NDIRECT] == 0 && bn >= NDIRECT ==> SlotVal(fs, i, SlotOf(bn)) == 0
  {
  }

  /** bmap fills in the next block of the range, or finds the last one it filled in. */
  lemma SpentNext(fs0: FS, fs: FS, fs': FS, i: nat, lo: nat, hi: nat, bn: nat)
    requires Spent(fs0, fs, i, lo, hi) && lo <= bn < MAXFILE && bn <= hi <= bn + 1
    requires Extends(fs, fs', i) && OnlyAt(fs, fs', i, bn) && Free(fs') + Lacks(fs, i, bn) == Free(fs)
    requires SlotVal(fs', i, SlotOf(bn)) != 0
    ensures Spent(fs0, fs', i, lo, bn + 1)
  {
    if hi == bn {
      LacksShare(fs0, fs, i, lo, bn);
    } else {
      assert Lacks(fs, i, bn) == 0;
    }
    hide SlotVal, Lacks, Share, Free, Keeps, Slots;
    KeepsJoin(fs0, fs, fs', i, SlotsOf(lo, hi), Slots(bn), SlotsOf(lo, bn + 1));
    FilledNext(fs, fs', i, lo, hi, bn);
  }

  /** Rewriting data blocks or sizes keeps the account. */
  lemma SpentSame(fs0: FS, fs: FS, fs': FS, i: nat, lo: nat, hi: nat)
    requires Spent(fs0, fs, i, lo, hi) && SameSlots(fs, fs') && fs'.bits == fs.bits
    ensures Spent(fs0, fs', i, lo, hi)
  {
    hide SlotVal, Need;
    assert forall j, l :: HasSlot(fs, j, l) <==> HasSlot(fs0, j, l);
    assert forall bn :: 0 <= bn < MAXFILE ==> HasSlot(fs, i, SlotOf(bn));
  }

  lemma SpentIs(fs0: FS, fs: FS, i: nat, lo: nat, hi: nat)
    requires Spent(fs0, fs, i, lo, hi)
    ensures Filled(fs, i, lo, hi) && Shape(fs0) && i < |fs0.inode| && hi <= MAXFILE
    ensures Need(fs0, i, lo, hi) <= Free(fs0)
  {
  }

  lemma FilledNext(fs: FS, fs': FS, i: nat, lo: nat, hi: nat, bn: nat)
    requires Filled(fs, i, lo, hi) && Extends(fs, fs', i) && lo <= bn < MAXFILE && bn <= hi
    requires SlotVal(fs', i, SlotOf(bn)) != 0
    ensures Filled(fs', i, lo, bn + 1)
  {
    hide SlotVal;
    forall b | lo <= b < bn + 1 && b < MAXFILE ensures SlotVal(fs', i, SlotOf(b)) != 0 {
      assert HasSlot(fs, i, SlotOf(b));
    }
  }

  /** Every address in the inode that blocks lo .. hi-1 go through is there: those of the direct blocks, and
      that of the indirect block if one of them is behind it. */
  ghost predicate AddrsThere(fs: FS, i: nat, lo: nat, hi: nat) {
    Shape(fs) && i < |fs.inode| && forall k :: k in SlotsOf(lo, hi) && k <= NDIRECT ==> fs.inode[i].addrs[k] != 0
  }

  /** Filling in the blocks of a range changes the inode itself exactly when one of these is missing. */
  lemma InodeSameIff(fs0: FS, fs: FS, i: nat, lo: nat, hi: nat)
    requires Spent(fs0, fs, i, lo, hi) && Extends(fs0, fs, i)
    ensures fs.inode[i] == fs0.inode[i] <==> AddrsThere(fs0, i, lo, hi)
  {
    var a0, a := fs0.inode[i].addrs, fs.inode[i].addrs;
    forall k: nat | k <= NDIRECT
      ensures k !in SlotsOf(lo, hi) || a0[k] != 0 ==> a[k] == a0[k]
      ensures k in SlotsOf(lo, hi) ==> a[k] != 0
    {
      SlotIs(fs0, i, k);
      SlotIs(fs, i, k);
      assert HasSlot(fs0, i, k);
      if k in SlotsOf(lo, hi) {
        SlotsIn(lo, hi, k);
        var bn :| lo <= bn < hi && k in Slots(bn);
        assert SlotVal(fs, i, SlotOf(bn)) != 0;
        NoTable(fs, i, bn);
      }
    }
    hide SlotVal;
    if AddrsThere(fs0, i, lo, hi) {
      assert a == a0;
    } else {
      var k :| k in SlotsOf(lo, hi) && k <= NDIRECT && a0[k] == 0;
      assert a[k] != a0[k];
    }
  }

  lemma {:induction false} NeedGrows(fs: FS, i: nat, lo: nat, mid: nat, hi: nat)
    requires Shape(fs) && i < |fs.inode| && mid <= hi <= MAXFILE
    ensures Need(fs, i, lo, mid) <= Need(fs, i, lo, hi)
  {
    if mid < hi {
      NeedGrows(fs, i, lo, mid, hi - 1);
    }
  }

  /** bmap panics on the way only if the whole range needs more than was free. */
  lemma SpentShort(fs0: FS, fs: FS, i: nat, lo: nat, hi: nat, bn: nat, end: nat)
    requires Spent(fs0, fs, i, lo, hi) && lo <= bn < end <= MAXFILE && bn <= hi <= bn + 1
    requires Free(fs) < Lacks(fs, i, bn)
    ensures Free(fs0) < Need(fs0, i, lo, end)
  {
    assert hi == bn;
    LacksShare(fs0, fs, i, lo, bn);
    NeedGrows(fs0, i, lo, bn + 1, end);
  }

  /** A second transfer that starts in the last block of the first, or right after it, needs what
      the first left of the joined range. */
  lemma {:induction false} NeedJoin(fs0: FS, fs: FS, i: nat, lo: nat, mid: nat, b: nat, hi: nat)
    requires Spent(fs0, fs, i, lo, mid) && lo <= b <= mid <= b + 1 && mid <= hi <= MAXFILE && lo <= mid
    ensures Need(fs0, i, lo, hi) == Need(fs0, i, lo, mid) + Need(fs, i, b, hi)
  {
    if hi > mid {
      NeedJoin(fs0, fs, i, lo, mid, b, hi - 1);
      ShareJoin(fs0, fs, i, lo, mid, b, hi - 1);
    } else if b < mid {
      NoTable(fs, i, b);
      assert Share(fs, i, b, b) == 0 && Need(fs, i, b, b) == 0;
    }
  }

  lemma ShareJoin(fs0: FS, fs: FS, i: nat, lo: nat, mid: nat, b: nat, bn: nat)
    requires Spent(fs0, fs, i, lo, mid) && lo <= b <= mid <= b + 1 && mid <= bn < MAXFILE
    ensures Share(fs0, i, lo, bn) == Share(fs, i, b, bn)
  {
    var k := SlotOf(bn);
    SlotIs(fs0, i, NDIRECT);
    SlotIs(fs, i, NDIRECT);
    SlotsIn(lo, mid, k);
    SlotsIn(lo, mid, NDIRECT);
    assert HasSlot(fs0, i, k) && HasSlot(fs0, i, NDIRECT);
    if lo < mid && NDIRECT < mid {
      assert SlotVal(fs, i, SlotOf(mid - 1)) != 0;
      NoTable(fs, i, mid - 1);
    }
    hide SlotVal;
  }

  lemma SpentJoin(fs0: FS, fs1: FS, fs2: FS, i: nat, lo: nat, mid: nat, b: nat, hi: nat)
    requires Spent(fs0, fs1, i, lo, mid) && Spent(fs1, fs2, i, b, hi) && lo <= b <= mid <= b + 1 && mid <= hi
    ensures Spent(fs0, fs2, i, lo, hi)
  {
    NeedJoin(fs0, fs1, i, lo, mid, b, hi);
    forall k | k in SlotsOf(lo, mid) + SlotsOf(b, hi) ensures k in SlotsOf(lo, hi) {
      SlotsIn(lo, mid, k);
      SlotsIn(b, hi, k);
      SlotsIn(lo, hi, k);
    }
    KeepsJoin(fs0, fs1, fs2, i, SlotsOf(lo, mid), SlotsOf(b, hi), SlotsOf(lo, hi));
    hide SlotVal;
    forall bn | lo <= bn < hi && bn < MAXFILE ensures SlotVal(fs2, i, SlotOf(bn)) != 0 {
      assert HasSlot(fs1, i, SlotOf(bn));
      SlotsIn(b, hi, SlotOf(bn));
    }
  }

  /** A range inside a dense file needs no block. */
  lemma {:induction false} DenseNeed(fs: FS, i: nat, lo: nat, hi: nat)
    requires Dense(fs, i) && hi <= MAXFILE && (hi - 1) * BSIZE < fs.inode[i].size
    ensures Need(fs, i, lo, hi) == 0
  {
    if lo < hi {
      DenseNeed(fs, i, lo, hi - 1);
      NoTable(fs, i, hi - 1);
    }
  }

  /** Reading or writing inside a dense file needs no block. */
  lemma InsideDense(fs: FS, i: nat, off: nat, n: nat)
    requires Shape(fs) && i < |fs.inode| && off + n <= MAXFILE * BSIZE
    ensures Reach(off, n) <= MAXFILE
    ensures Dense(fs, i) && off + n <= fs.inode[i].size ==> Need(fs, i, off / BSIZE, Reach(off, n)) == 0
  {
    hide SlotVal;
    if Dense(fs, i) && off + n <= fs.inode[i].size && n > 0 {
      DenseNeed(fs, i, off / BSIZE, Reach(off, n));
    }
  }

  /** A transfer that goes on where one of i bytes from offset off stopped. */
  lemma ChunkReach(off: nat, i: nat, n1: nat)
    requires n1 > 0
    ensures Reach(off + i, n1) == Reach(off, i + n1)
    ensures off / BSIZE <= (off + i) / BSIZE <= Reach(off, i) <= (off + i) / BSIZE + 1
            && Reach(off, i) <= Reach(off, i + n1)
  {
  }

  lemma ChunkSpent(fs0: FS, fs1: FS, fs2: FS, inum: nat, off: nat, i: nat, n1: nat)
    requires n1 > 0 && Spent(fs0, fs1, inum, off / BSIZE, Reach(off, i))
    requires Spent(fs1, fs2, inum, (off + i) / BSIZE, Reach(off + i, n1))
    ensures Spent(fs0, fs2, inum, off / BSIZE, Reach(off, i + n1))
  {
    hide Spent, Reach;
    ChunkReach(off, i, n1);
    SpentJoin(fs0, fs1, fs2, inum, off / BSIZE, Reach(off, i), (off + i) / BSIZE, Reach(off, i + n1));
  }

  /** A chunk that finds too few free blocks was doomed from the start. */
  lemma ChunkShort(fs0: FS, fs1: FS, inum: nat, off: nat, i: nat, n1: nat, all: nat)
    requires 0 < n1 <= all - i && Spent(fs0, fs1, inum, off / BSIZE, Reach(off, i)) && off + all <= MAXFILE * BSIZE
    requires Free(fs1) < Need(fs1, inum, (off + i) / BSIZE, Reach(off + i, n1))
    ensures Free(fs0) < Need(fs0, inum, off / BSIZE, Reach(off, all))
  {
    ChunkReach(off, i, n1);
    var lo, hi := off / BSIZE, Reach(off, i + n1);
    NeedJoin(fs0, fs1, inum, lo, Reach(off, i), (off + i) / BSIZE, hi);
    NeedGrows(fs0, inum, lo, hi, Reach(off, all));
  }

  lemma SpentSize(fs0: FS, fs: FS, fs': FS, i: nat, lo: nat, hi: nat)
    requires Spent(fs0, fs, i, lo, hi) && i < |fs.inode| == |fs'.inode| && fs' == SetSize(fs, i, fs'.inode[i].size)
    ensures Spent(fs0, fs', i, lo, hi)
  {
    SizeSlots(fs, fs', i);
    SpentSame(fs0, fs, fs', i, lo, hi);
  }

  // ---------- bytes ----------

  /** The bytes readi can give of the n it was asked for. */
  /** off + n < off in 32-bit arithmetic. */
  predicate Wraps(off: nat, n: nat) {
    (off + n) % TWO32 < off
  }

  lemma WrapsIff(off: nat, n: nat)
    requires off < TWO32 && n < TWO32
    ensures Wraps(off, n) <==> off + n >= TWO32
  {
  }

  function Clip(size: nat, off: nat, n: nat): nat
    requires off <= size
  {
    if off + n > size then size - off else n
  }

  function Slice(c: seq<byte>, off: nat, n: nat): seq<byte>
    requires off <= |c|
  {
    if off + n > |c| then c[off..] else c[off..off + n]
  }

  /** Every block below the end of the file is allocated. */
  ghost predicate Dense(fs: FS, i: nat) {
    && Shape(fs) && i < |fs.inode|
    && forall bn :: 0 <= bn < MAXFILE && bn * BSIZE < fs.inode[i].size ==> SlotVal(fs, i, SlotOf(bn)) != 0
  }

  lemma DenseAt(fs: FS, i: nat, pos: nat)
    requires Shape(fs) && i < |fs.inode| && pos < fs.inode[i].size <= MAXFILE * BSIZE
    ensures pos / BSIZE < MAXFILE
    ensures Dense(fs, i) ==> SlotVal(fs, i, SlotOf(pos / BSIZE)) != 0
  {
  }

  lemma ShapeOf(fs: FS, own: map<nat, Slot>)
    requires Inv(fs, own, {})
    ensures Shape(fs)
  {
  }

  lemma SlotBound(fs: FS, own: map<nat, Slot>, i: nat, bn: nat)
    requires Inv(fs, own, {}) && i < |fs.inode| && bn < MAXFILE
    ensures SlotVal(fs, i, SlotOf(bn)) < |fs.block|
  {
    assert HasSlot(fs, i, SlotOf(bn));
  }

  lemma Within(at: nat, q: nat)
    requires at % BSIZE + q < BSIZE
    ensures (at + q) / BSIZE == at / BSIZE && (at + q) % BSIZE == at % BSIZE + q
  {
  }

  /** m bytes of inode i from offset at on. */
  ghost function Bytes(fs: FS, i: nat, at: nat, m: nat): (r: seq<byte>)
    requires Shape(fs) && i < |fs.inode| && at + m <= MAXFILE * BSIZE
    ensures |r| == m
  {
    seq<byte>(m, q requires 0 <= q < m => ByteAt(fs, i, at + q))
  }

  lemma NoBytes(fs: FS, i: nat, at: nat)
    requires Shape(fs) && i < |fs.inode| && at <= MAXFILE * BSIZE
    ensures Bytes(fs, i, at, 0) == []
  {
  }

  lemma BytesJoin(fs: FS, i: nat, at: nat, m: nat, n: nat)
    requires Shape(fs) && i < |fs.inode| && at + m + n <= MAXFILE * BSIZE
    ensures Bytes(fs, i, at, m) + Bytes(fs, i, at + m, n) == Bytes(fs, i, at, m + n)
  {
    hide ByteAt;
  }

  /** Up to the end of a block, the bytes of the file are those of the block. */
  lemma ReadChunk(fs: FS, i: nat, at: nat, m: nat)
    requires Shape(fs) && i < |fs.inode| && at / BSIZE < MAXFILE && at % BSIZE + m <= BSIZE
    requires 0 < SlotVal(fs, i, SlotOf(at / BSIZE)) < |fs.block|
    ensures at + m <= MAXFILE * BSIZE
    ensures Bytes(fs, i, at, m) == fs.block[SlotVal(fs, i, SlotOf(at / BSIZE))][at % BSIZE..at % BSIZE + m]
  {
    hide SlotVal;
    var data := fs.block[SlotVal(fs, i, SlotOf(at / BSIZE))][at % BSIZE..at % BSIZE + m];
    forall q | 0 <= q < m ensures Bytes(fs, i, at, m)[q] == data[q] {
      Within(at, q);
    }
  }

  lemma SameRun(fs: FS, fs': FS, i: nat, at: nat, m: nat)
    requires SameBytes(fs, fs') && i < |fs.inode| && at + m <= MAXFILE * BSIZE
    ensures Bytes(fs', i, at, m) == Bytes(fs, i, at, m)
  {
    hide ByteAt;
  }

  lemma SliceIs(fs: FS, i: nat, off: nat, n: nat, left: nat)
    requires Shape(fs) && i < |fs.inode| && off <= fs.inode[i].size <= MAXFILE * BSIZE
    requires left == if off + n > fs.inode[i].size then fs.inode[i].size - off else n
    ensures Bytes(fs, i, off, left) == Slice(Contents(fs, i), off, n)
  {
    hide ByteAt;
  }

  // ---------- writing ----------

  /** 64-byte inodes, eight to a block. */
  function InodeBlock(start: nat, i: nat): nat {
    i / 8 + start
  }

  /** fs' has src at offset at of inode i, and the bytes of fs everywhere else. */
  ghost predicate Patched(fs: FS, fs': FS, i: nat, at: nat, src: seq<byte>) {
    && Shape(fs) && Shape(fs') && |fs'.inode| == |fs.inode| && i < |fs.inode| && at + |src| <= MAXFILE * BSIZE
    && (forall n, pos {:trigger ByteAt(fs', n, pos)} ::
          0 <= n < |fs.inode| && 0 <= pos < MAXFILE * BSIZE ==>
            ByteAt(fs', n, pos) == if n == i && at <= pos < at + |src| then src[pos - at] else ByteAt(fs, n, pos))
  }

  lemma PatchIs(fs: FS, fs1: FS, fs2: FS, i: nat, at: nat, src: seq<byte>, data: seq<byte>)
    requires SameBytes(fs, fs1) && Shape(fs2) && |fs2.inode| == |fs.inode| && i < |fs.inode|
    requires at / BSIZE < MAXFILE && at % BSIZE + |src| <= BSIZE
    requires 0 < SlotVal(fs1, i, SlotOf(at / BSIZE)) < |fs1.block|
    requires var b := fs1.block[SlotVal(fs1, i, SlotOf(at / BSIZE))];
             data == b[..at % BSIZE] + src + b[at % BSIZE + |src|..]
    requires forall n, pos {:trigger ByteAt(fs2, n, pos)} ::
               0 <= n < |fs.inode| && 0 <= pos < MAXFILE * BSIZE ==>
                 ByteAt(fs2, n, pos) ==
                   if n == i && pos / BSIZE == at / BSIZE then data[pos % BSIZE] else ByteAt(fs1, n, pos)
    ensures Patched(fs, fs2, i, at, src)
  {
    hide SlotVal;
    var bn := at / BSIZE;
    var b := fs1.block[SlotVal(fs1, i, SlotOf(bn))];
    assert at + |src| <= MAXFILE * BSIZE;
    forall n, pos | 0 <= n < |fs.inode| && 0 <= pos < MAXFILE * BSIZE
      ensures ByteAt(fs2, n, pos) == if n == i && at <= pos < at + |src| then src[pos - at] else ByteAt(fs, n, pos)
    {
      assert ByteAt(fs1, n, pos) == ByteAt(fs, n, pos);
      if n == i && pos / BSIZE == bn {
        assert pos - at == pos % BSIZE - at % BSIZE;
        assert ByteAt(fs1, i, pos) == b[pos % BSIZE];
      }
    }
  }

  lemma SlotsExtend(fs: FS, fs1: FS, fs2: FS, i: nat)
    requires Extends(fs, fs1, i) && SameSlots(fs1, fs2) && fs2.inode == fs1.inode
    ensures Extends(fs, fs2, i)
  {
    hide SlotVal;
    assert forall j, l :: HasSlot(fs1, j, l) <==> HasSlot(fs, j, l);
  }

  function Ceil(n: nat): nat {
    (n + BSIZE - 1) / BSIZE
  }

  /** The first block a write from off has not touched after tot bytes. */
  function Reach(off: nat, tot: nat): nat {
    if tot == 0 then off / BSIZE else Ceil(off + tot)
  }

  /** Blocks lo .. hi-1 of inode i are allocated. */
  ghost predicate Filled(fs: FS, i: nat, lo: nat, hi: nat) {
    Shape(fs) && i < |fs.inode| && forall bn :: lo <= bn < hi && bn < MAXFILE ==> SlotVal(fs, i, SlotOf(bn)) != 0
  }

  ghost function DataBlocks(fs: FS, i: nat, lo: nat, hi: nat): set<nat>
    requires Shape(fs) && i < |fs.inode|
  {
    set bn | lo <= bn < hi && bn < MAXFILE :: SlotVal(fs, i, SlotOf(bn))
  }

  lemma WriteStart(fs: FS, i: nat, off: nat, src: seq<byte>)
    requires Shape(fs) && i < |fs.inode| && off + |src| <= MAXFILE * BSIZE
    ensures Extends(fs, fs, i) && Patched(fs, fs, i, off, src[..0]) && Filled(fs, i, off / BSIZE, off / BSIZE)
  {
    hide SlotVal, ByteAt;
    SameRefl(fs, i);
  }

  /** Below the old end of a dense file the blocks are still there. */
  lemma StillDense(fs0: FS, fs: FS, i: nat, at: nat)
    requires Extends(fs0, fs, i) && at < MAXFILE * BSIZE
    ensures at / BSIZE < MAXFILE
    ensures Dense(fs0, i) && at < fs0.inode[i].size ==> SlotVal(fs, i, SlotOf(at / BSIZE)) != 0
  {
    assert HasSlot(fs0, i, SlotOf(at / BSIZE));
    hide SlotVal;
  }

  lemma ReachNext(off: nat, tot: nat, m: nat)
    requires m > 0 && (off + tot) % BSIZE + m <= BSIZE
    ensures Reach(off, tot + m) == (off + tot) / BSIZE + 1
    ensures off / BSIZE <= (off + tot) / BSIZE <= Reach(off, tot) <= (off + tot) / BSIZE + 1
  {
  }

  lemma ReachNone(off: nat)
    ensures Reach(off, 0) == off / BSIZE
  {
  }

  lemma ReachEnd(off: nat, tot: nat, n: nat)
    requires tot < n
    ensures (off + tot) / BSIZE < Reach(off, n)
    ensures off + n <= MAXFILE * BSIZE ==> Reach(off, n) <= MAXFILE
  {
  }

  lemma PatchJoin(fs0: FS, fs: FS, fs': FS, i: nat, off: nat, src: seq<byte>, tot: nat, m: nat)
    requires tot + m <= |src|
    requires Patched(fs0, fs, i, off, src[..tot]) && Patched(fs, fs', i, off + tot, src[tot..tot + m])
    ensures Patched(fs0, fs', i, off, src[..tot + m])
  {
    hide ByteAt;
    forall n, pos | 0 <= n < |fs0.inode| && 0 <= pos < MAXFILE * BSIZE
      ensures ByteAt(fs', n, pos) == if n == i && off <= pos < off + tot + m then src[..tot + m][pos - off]
              else ByteAt(fs0, n, pos)
    {
      assert ByteAt(fs, n, pos) == if n == i && off <= pos < off + tot then src[..tot][pos - off]
             else ByteAt(fs0, n, pos);
    }
  }

  lemma BlocksJoin(fs: FS, fs': FS, i: nat, off: nat, tot: nat, m: nat)
    requires Extends(fs, fs', i) && m > 0 && (off + tot) % BSIZE + m <= BSIZE && (off + tot) / BSIZE < MAXFILE
    requires Filled(fs, i, off / BSIZE, Reach(off, tot)) && SlotVal(fs', i, SlotOf((off + tot) / BSIZE)) != 0
    ensures Filled(fs', i, off / BSIZE, Reach(off, tot + m))
    ensures SlotVal(fs', i, SlotOf((off + tot) / BSIZE)) in DataBlocks(fs', i, off / BSIZE, Reach(off, tot + m))
    ensures DataBlocks(fs, i, off / BSIZE, Reach(off, tot)) <= DataBlocks(fs', i, off / BSIZE, Reach(off, tot + m))
    ensures Table(fs, i) <= Table(fs', i)
  {
    ReachNext(off, tot, m);
    SlotIs(fs, i, NDIRECT);
    SlotIs(fs', i, NDIRECT);
    assert HasSlot(fs, i, NDIRECT);
    hide SlotVal, Reach;
    forall bn | off / BSIZE <= bn < Reach(off, tot) && bn < MAXFILE
      ensures SlotVal(fs, i, SlotOf(bn)) != 0 && SlotVal(fs', i, SlotOf(bn)) == SlotVal(fs, i, SlotOf(bn))
    {
      assert HasSlot(fs, i, SlotOf(bn));
    }
  }

  lemma WriteStep(fs0: FS, fs: FS, fs': FS, i: nat, off: nat, src: seq<byte>, tot: nat, m: nat)
    requires Extends(fs0, fs, i) && Extends(fs, fs', i) && 0 < m && tot + m <= |src|
    requires Patched(fs0, fs, i, off, src[..tot]) && Patched(fs, fs', i, off + tot, src[tot..tot + m])
    requires (off + tot) % BSIZE + m <= BSIZE && (off + tot) / BSIZE < MAXFILE
    requires Filled(fs, i, off / BSIZE, Reach(off, tot)) && SlotVal(fs', i, SlotOf((off + tot) / BSIZE)) != 0
    ensures Extends(fs0, fs', i) && Patched(fs0, fs', i, off, src[..tot + m])
    ensures |fs'.block| == |fs0.block| && |fs'.inode| == |fs0.inode|
    ensures Filled(fs', i, off / BSIZE, Reach(off, tot + m))
    ensures SlotVal(fs', i, SlotOf((off + tot) / BSIZE)) in DataBlocks(fs', i, off / BSIZE, Reach(off, tot + m))
    ensures DataBlocks(fs, i, off / BSIZE, Reach(off, tot)) <= DataBlocks(fs', i, off / BSIZE, Reach(off, tot + m))
    ensures Table(fs, i) <= Table(fs', i)
  {
    hide SlotVal, ByteAt, Filled, DataBlocks, Table, Patched, Reach;
    PatchJoin(fs0, fs, fs', i, off, src, tot, m);
    BlocksJoin(fs, fs', i, off, tot, m);
    ExtendsChain(fs0, fs, fs', i);
  }

  lemma ExtendsChain(fs: FS, fs1: FS, fs2: FS, i: nat)
    requires Extends(fs, fs1, i) && Extends(fs1, fs2, i)
    ensures Extends(fs, fs2, i)
  {
    hide SlotVal;
    assert forall j, l :: HasSlot(fs1, j, l) <==> HasSlot(fs, j, l);
    assert fs2.inode == fs.inode[i := fs2.inode[i]];
  }

  /** c with src at offset off, grown if src reaches past the end. */
  function Splice(c: seq<byte>, off: nat, src: seq<byte>): seq<byte>
    requires off <= |c|
  {
    c[..off] + src + if off + |src| < |c| then c[off + |src|..] else []
  }

  lemma ExtendsShape(fs: FS, fs': FS, i: nat)
    requires Extends(fs, fs', i)
    ensures |fs'.inode| == |fs.inode| && |fs'.block| == |fs.block| && Shape(fs) && Shape(fs') && i < |fs.inode|
    ensures fs'.inode == fs.inode[i := fs'.inode[i]] && fs'.inode[i].size == fs.inode[i].size
  {
  }

  function SetSize(fs: FS, i: nat, n: nat): FS
    requires i < |fs.inode|
  {
    fs.(inode := fs.inode[i := fs.inode[i].(size := n)])
  }

  lemma Resized(fs: FS, own: map<nat, Slot>, i: nat, n: nat, lo: nat, hi: nat)
    requires Inv(fs, own, {}) && i < |fs.inode|
    ensures var fs' := SetSize(fs, i, n);
            && Inv(fs', own, {}) && SameSlots(fs, fs')
            && Table(fs', i) == Table(fs, i) && DataBlocks(fs', i, lo, hi) == DataBlocks(fs, i, lo, hi)
  {
    var fs' := SetSize(fs, i, n);
    assert SameSlots(fs, fs');
    SlotsInv(fs, fs', own, {});
    hide Inv;
    assert forall bn :: 0 <= bn < MAXFILE ==> HasSlot(fs, i, SlotOf(bn));
    hide SlotVal;
  }

  lemma SameSize(fs: FS, i: nat)
    requires i < |fs.inode|
    ensures SetSize(fs, i, fs.inode[i].size) == fs
  {
  }

  /** The bytes and blocks after the loop, with the new size, are the spliced file. */
  lemma WriteDone(fs0: FS, fs1: FS, fs: FS, i: nat, off: nat, src: seq<byte>)
    requires Extends(fs0, fs1, i) && Patched(fs0, fs1, i, off, src) && Filled(fs1, i, off / BSIZE, Reach(off, |src|))
    requires off <= fs0.inode[i].size && off + |src| <= MAXFILE * BSIZE
    requires forall n :: 0 <= n < |fs0.inode| ==> fs0.inode[n].size <= MAXFILE * BSIZE
    requires fs ==
               SetSize(fs1, i, if |src| > 0 && off + |src| > fs0.inode[i].size then off + |src| else fs0.inode[i].size)
    ensures Shape(fs) && |fs.inode| == |fs0.inode| && fs.inode[i].size <= MAXFILE * BSIZE
    ensures Contents(fs, i) == Splice(Contents(fs0, i), off, src)
    ensures forall n :: 0 <= n < |fs.inode| && n != i ==>
              fs.inode[n] == fs0.inode[n] && Contents(fs, n) == Contents(fs0, n)
    ensures Dense(fs0, i) ==> Dense(fs, i)
  {
    SizeSlots(fs1, fs, i);
    ExtendsShape(fs0, fs1, i);
    hide SlotVal, ByteAt;
    SpliceIs(fs0, fs1, fs, i, off, src);
    if Dense(fs0, i) {
      DenseKept(fs0, fs1, fs, i, off, |src|);
    }
  }

  lemma SpliceIs(fs0: FS, fs1: FS, fs: FS, i: nat, off: nat, src: seq<byte>)
    requires Patched(fs0, fs1, i, off, src) && Shape(fs) && |fs.inode| == |fs0.inode| && off <= fs0.inode[i].size
    requires forall n :: 0 <= n < |fs0.inode| ==> fs0.inode[n].size <= MAXFILE * BSIZE
    requires forall n :: 0 <= n < |fs0.inode| && n != i ==> fs.inode[n] == fs0.inode[n]
    requires fs.inode[i].size == if |src| > 0 && off + |src| > fs0.inode[i].size then off + |src| else fs0.inode[i].size
    requires forall n, pos {:trigger ByteAt(fs, n, pos)} ::
               0 <= n < |fs.inode| && 0 <= pos < MAXFILE * BSIZE ==> ByteAt(fs, n, pos) == ByteAt(fs1, n, pos)
    ensures Contents(fs, i) == Splice(Contents(fs0, i), off, src)
    ensures forall n :: 0 <= n < |fs.inode| && n != i ==> Contents(fs, n) == Contents(fs0, n)
  {
    hide Shape, ByteAt;
    assert Contents(fs, i) == Splice(Contents(fs0, i), off, src);
    forall n | 0 <= n < |fs.inode| && n != i ensures Contents(fs, n) == Contents(fs0, n) {
    }
  }

  lemma SizeSlots(fs: FS, fs': FS, i: nat)
    requires Shape(fs) && i < |fs.inode| == |fs'.inode| && fs' == SetSize(fs, i, fs'.inode[i].size)
    ensures SameSlots(fs, fs')
    ensures forall n, pos {:trigger ByteAt(fs', n, pos)} ::
              0 <= n < |fs.inode| && 0 <= pos < MAXFILE * BSIZE ==> ByteAt(fs', n, pos) == ByteAt(fs, n, pos)
  {
    assert SameSlots(fs, fs');
    hide SlotVal;
    forall n, pos | 0 <= n < |fs.inode| && 0 <= pos < MAXFILE * BSIZE
      ensures ByteAt(fs', n, pos) == ByteAt(fs, n, pos)
    {
      assert HasSlot(fs, n, SlotOf(pos / BSIZE));
    }
  }

  lemma DenseKept(fs0: FS, fs1: FS, fs: FS, i: nat, off: nat, n: nat)
    requires Dense(fs0, i) && Extends(fs0, fs1, i) && SameSlots(fs1, fs) && off <= fs0.inode[i].size
    requires Filled(fs1, i, off / BSIZE, Reach(off, n))
    requires fs.inode[i].size <= if n > 0 && off + n > fs0.inode[i].size then off + n else fs0.inode[i].size
    ensures Dense(fs, i)
  {
    hide SlotVal;
    forall bn | 0 <= bn < MAXFILE && bn * BSIZE < fs.inode[i].size ensures SlotVal(fs, i, SlotOf(bn)) != 0 {
      assert HasSlot(fs0, i, SlotOf(bn)) && HasSlot(fs1, i, SlotOf(bn));
      if bn * BSIZE >= fs0.inode[i].size {
        assert off / BSIZE <= bn < Reach(off, n);
      }
    }
  }

  // ---------- truncation ----------

  ghost function DirectOwned(own: map<nat, Slot>, i: nat, k: nat): set<nat> {
    set b | b in own && own[b].inum == i && own[b].k < k
  }

  lemma DirectStart(own: map<nat, Slot>, i: nat)
    ensures own - DirectOwned(own, i, 0) == own
  {
  }

  lemma DirectNext(fs: FS, own: map<nat, Slot>, own0: map<nat, Slot>, i: nat, k: nat)
    requires Inv(fs, own, {}) && i < |fs.inode| && k < NDIRECT && own == own0 - DirectOwned(own0, i, k)
    ensures var v := fs.inode[i].addrs[k];
            own0 - DirectOwned(own0, i, k + 1) == if v != 0 then own - {v} else own
  {
    var v := fs.inode[i].addrs[k];
    SlotIs(fs, i, k);
    assert HasSlot(fs, i, k);
    forall b | b in own && own[b] == Slot(i, k) ensures b == v {
    }
    assert v != 0 ==> v in own && own[v] == Slot(i, k);
  }

  /** Slot k <= NDIRECT - 1 of inode i is emptied: its block is lent. */
  lemma DropAddr(fs: FS, own: map<nat, Slot>, i: nat, k: nat)
    requires Inv(fs, own, {}) && i < |fs.inode| && k < NDIRECT && fs.inode[i].addrs[k] != 0
    ensures var v := fs.inode[i].addrs[k];
            v in own && v / 8 < |fs.bits| && Inv(SetAddr(fs, i, k, 0), own - {v}, {v})
  {
    var v, fs' := fs.inode[i].addrs[k], SetAddr(fs, i, k, 0);
    SlotIs(fs, i, k);
    assert HasSlot(fs, i, k);
    forall j: nat, l: nat | HasSlot(fs, j, l)
      ensures SlotVal(fs', j, l) == if SlotVal(fs, j, l) in {v} then 0 else SlotVal(fs, j, l)
    {
    }
    DetachInv(fs, fs', own, {}, {v});
    assert {} + {v} == {v};
  }

  ghost function TableOwned(own: map<nat, Slot>, i: nat): set<nat> {
    set b | b in own && own[b].inum == i && own[b].k >= NDIRECT
  }

  /** The indirect block t and what its entries from j on name. */
  ghost function Rest(a: seq<byte>, t: nat, j: nat): set<nat>
    requires |a| == BSIZE
  {
    {t} + set l | j <= l < NINDIRECT && Entry(a, l) != 0 :: Entry(a, l)
  }

  lemma LentBound(fs: FS, own: map<nat, Slot>, lent: set<nat>, b: nat)
    requires Inv(fs, own, lent) && b in lent
    ensures b / 8 < |fs.bits|
  {
  }

  lemma DropTable(fs: FS, own: map<nat, Slot>, i: nat)
    requires Inv(fs, own, {}) && i < |fs.inode| && fs.inode[i].addrs[NDIRECT] != 0
    ensures var t := fs.inode[i].addrs[NDIRECT];
            t < |fs.block| && |fs.block[t]| == BSIZE
            && Inv(SetAddr(fs, i, NDIRECT, 0), own - TableOwned(own, i), Rest(fs.block[t], t, 0))
  {
    var t, fs', gone := fs.inode[i].addrs[NDIRECT], SetAddr(fs, i, NDIRECT, 0), TableOwned(own, i);
    SlotIs(fs, i, NDIRECT);
    assert HasSlot(fs, i, NDIRECT);
    var a := fs.block[t];
    hide Entry, Bit;
    forall l | NDIRECT < l < NSLOT ensures HasSlot(fs, i, l) && SlotVal(fs, i, l) == Entry(a, l - NDIRECT - 1) {
    }
    assert gone == Rest(a, t, 0) by {
      forall b | b in gone ensures b in Rest(a, t, 0) {
        assert SlotVal(fs, i, own[b].k) == b;
      }
      forall l | 0 <= l < NINDIRECT && Entry(a, l) != 0 ensures Entry(a, l) in gone {
        assert SlotVal(fs, i, NDIRECT + 1 + l) == Entry(a, l) && HasSlot(fs, i, NDIRECT + 1 + l);
      }
    }
    forall j: nat, l: nat | HasSlot(fs, j, l)
      ensures SlotVal(fs', j, l) == if SlotVal(fs, j, l) in gone then 0 else SlotVal(fs, j, l)
    {
      if j == i && l > NDIRECT && SlotVal(fs, j, l) != 0 {
        assert own[SlotVal(fs, j, l)] == Slot(i, l);
      }
    }
    DetachInv(fs, fs', own, {}, gone);
    assert {} + gone == gone;
  }

  /** The entries of an indirect block are distinct: freeing one leaves the others lent. */
  lemma RestNext(fs: FS, own: map<nat, Slot>, i: nat, j: nat)
    requires Inv(fs, own, {}) && i < |fs.inode| && j < NINDIRECT && 0 != fs.inode[i].addrs[NDIRECT] < |fs.block|
    ensures var t := fs.inode[i].addrs[NDIRECT];
            && |fs.block[t]| == BSIZE
            && var a, e := fs.block[t], Entry(fs.block[t], j);
            && (e != 0 ==> e in Rest(a, t, j) && Rest(a, t, j + 1) == Rest(a, t, j) - {e})
            && (e == 0 ==> Rest(a, t, j + 1) == Rest(a, t, j))
  {
    var t := fs.inode[i].addrs[NDIRECT];
    var a := fs.block[t];
    SlotIs(fs, i, NDIRECT);
    assert HasSlot(fs, i, NDIRECT);
    hide Entry, Bit;
    forall l | 0 <= l < NINDIRECT && Entry(a, l) != 0
      ensures Entry(a, l) in own && own[Entry(a, l)] == Slot(i, NDIRECT + 1 + l)
    {
      assert HasSlot(fs, i, NDIRECT + 1 + l) && SlotVal(fs, i, NDIRECT + 1 + l) == Entry(a, l);
    }
  }

  lemma RestDone(a: seq<byte>, t: nat)
    requires |a| == BSIZE
    ensures Rest(a, t, NINDIRECT) == {t}
  {
  }

  lemma Emptied(fs0: FS, own0: map<nat, Slot>, fs: FS, own: map<nat, Slot>, i: nat, hadTable: bool)
    requires Inv(fs0, own0, {}) && Inv(fs, own, {}) && i < |fs.inode| == |fs0.inode| && fs.block == fs0.block
    requires fs.inode == fs0.inode[i := fs.inode[i]] && fs.inode[i].addrs[NDIRECT] == 0
    requires var own1 := own0 - DirectOwned(own0, i, NDIRECT);
             own == if hadTable then own1 - TableOwned(own1, i) else own1
    ensures own.Keys == set b | b in own0 && own0[b].inum != i
    ensures forall k :: 0 <= k < NSLOT ==> SlotVal(fs, i, k) == 0
    ensures forall n :: 0 <= n < |fs.inode| && n != i ==> fs.inode[n] == fs0.inode[n]
    ensures forall n, pos {:trigger ByteAt(fs, n, pos)} ::
              0 <= n < |fs.inode| && n != i && 0 <= pos < MAXFILE * BSIZE ==> ByteAt(fs, n, pos) == ByteAt(fs0, n, pos)
  {
    forall l: nat | NDIRECT <= l < NSLOT ensures HasSlot(fs, i, l) && SlotVal(fs, i, l) == 0 {
    }
    OthersKept(fs0, fs, i);
    hide SlotVal, Bit, ByteAt;
    forall b | b in own ensures own[b].inum != i {
      assert SlotVal(fs, own[b].inum, own[b].k) == b != 0;
    }
    forall k: nat | k < NSLOT ensures SlotVal(fs, i, k) == 0 {
      assert HasSlot(fs, i, k);
    }
  }

  lemma OthersKept(fs0: FS, fs: FS, i: nat)
    requires Shape(fs0) && Shape(fs) && i < |fs.inode| == |fs0.inode| && fs.block == fs0.block
    requires fs.inode == fs0.inode[i := fs.inode[i]]
    ensures forall n :: 0 <= n < |fs.inode| && n != i ==> fs.inode[n] == fs0.inode[n]
    ensures forall n, pos {:trigger ByteAt(fs, n, pos)} ::
              0 <= n < |fs.inode| && n != i && 0 <= pos < MAXFILE * BSIZE ==> ByteAt(fs, n, pos) == ByteAt(fs0, n, pos)
  {
    forall n: nat, l: nat | HasSlot(fs, n, l) && n != i ensures SlotVal(fs, n, l) == SlotVal(fs0, n, l) {
    }
    hide SlotVal;
    forall n, pos | 0 <= n < |fs.inode| && n != i && 0 <= pos < MAXFILE * BSIZE
      ensures ByteAt(fs, n, pos) == ByteAt(fs0, n, pos)
    {
      assert HasSlot(fs, n, SlotOf(pos / BSIZE));
    }
  }

  // ---------- a fresh image ----------

  lemma NoBits(bits: seq<bv8>)
    requires forall c :: 0 <= c < |bits| ==> bits[c] == 0
    ensures forall c: nat :: !Bit(bits, c)
  {
  }

  lemma EmptyImage(fs: FS)
    requires 0 < fs.nmeta <= |fs.block| < TWO32 && |fs.block| <= 8 * |fs.bits|
    requires forall c: nat :: Bit(fs.bits, c) <==> c < fs.nmeta
    requires forall b :: 0 <= b < |fs.block| ==> fs.block[b] == Zeros()
    requires forall i :: 0 <= i < |fs.inode| ==> fs.inode[i] == Inode(0, seq<nat>(NDIRECT + 1, _ => 0))
    ensures Inv(fs, map[], {}) && forall i :: 0 <= i < |fs.inode| ==> Dense(fs, i)
  {
    hide Bit;
    assert Shape(fs);
    forall i: nat, k: nat | HasSlot(fs, i, k) ensures SlotVal(fs, i, k) == 0 {
    }
    hide SlotVal;
  }
}
