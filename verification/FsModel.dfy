/**
The block and inode layers of src/fs.c as values: which disk block each slot of each inode
holds, who owns every block, and the byte each inode has at each offset.
*/
module FsModel {
  import opened Common
  import opened FsBits

  const NDIRECT: nat := 12
  const NINDIRECT: nat := BSIZE / 4
  const MAXFILE: nat := NDIRECT + NINDIRECT
  /** 12 direct addresses, the address of the indirect block, and its 128 entries. */
  const NSLOT: nat := NDIRECT + 1 + NINDIRECT

  datatype Inode = Inode(size: nat, addrs: seq<nat>)
  datatype Slot = Slot(inum: nat, k: nat)

  /** The free map, all blocks of the disk (data blocks start at nmeta), the cached inodes. */
  datatype FS = FS(nmeta: nat, bits: seq<bv8>, block: seq<seq<byte>>, inode: seq<Inode>)

  ghost predicate Shape(fs: FS) {
    && 0 < fs.nmeta <= |fs.block| < 0x1_0000_0000 && |fs.block| <= 8 * |fs.bits|
    && (forall b :: 0 <= b < |fs.block| ==> |fs.block[b]| == BSIZE)
    && (forall i :: 0 <= i < |fs.inode| ==> |fs.inode[i].addrs| == NDIRECT + 1)
  }

  /** The block number in slot k of inode i, 0 for none. */
  ghost function SlotVal(fs: FS, i: nat, k: nat): nat
    requires Shape(fs) && i < |fs.inode| && k < NSLOT
  {
    var addrs := fs.inode[i].addrs;
    if k <= NDIRECT then addrs[k]
    else if addrs[NDIRECT] == 0 || addrs[NDIRECT] >= |fs.block| then 0
    else Entry(fs.block[addrs[NDIRECT]], k - NDIRECT - 1)
  }

  /** The slot of the bn-th block of a file. */
  function SlotOf(bn: nat): nat {
    if bn < NDIRECT then bn else bn + 1
  }

  ghost predicate HasSlot(fs: FS, i: nat, k: nat) {
    i < |fs.inode| && k < NSLOT
  }

  /** own names the one slot that holds each block; lent are blocks marked in use that no slot
      holds yet (or any more), while a call is between its steps. */
  ghost predicate Inv(fs: FS, own: map<nat, Slot>, lent: set<nat>) {
    && Shape(fs)
    && (forall b :: b in own ==>
          && fs.nmeta <= b < |fs.block| && Bit(fs.bits, b) && b !in lent
          && HasSlot(fs, own[b].inum, own[b].k) && SlotVal(fs, own[b].inum, own[b].k) == b)
    && (forall i, k :: HasSlot(fs, i, k) && SlotVal(fs, i, k) != 0 ==>
          SlotVal(fs, i, k) in own && own[SlotVal(fs, i, k)] == Slot(i, k))
    && (forall b :: b in lent ==> fs.nmeta <= b < |fs.block| && Bit(fs.bits, b))
    && (forall b :: 0 <= b < |fs.block| && Bit(fs.bits, b) ==> b < fs.nmeta || b in own || b in lent)
    && (forall b :: 0 <= b < fs.nmeta ==> Bit(fs.bits, b))
  }

  // ---------- bytes ----------

  ghost function BlockAt(fs: FS, v: nat): seq<byte>
    requires Shape(fs)
    ensures |BlockAt(fs, v)| == BSIZE
  {
    if 0 < v < |fs.block| then fs.block[v] else Zeros()
  }

  /** The byte inode i holds at an offset; an unallocated block reads as zeros. */
  ghost function ByteAt(fs: FS, i: nat, pos: nat): byte
    requires Shape(fs) && i < |fs.inode| && pos < MAXFILE * BSIZE
  {
    BlockAt(fs, SlotVal(fs, i, SlotOf(pos / BSIZE)))[pos % BSIZE]
  }

  ghost predicate SameBytes(fs: FS, fs': FS) {
    && Shape(fs) && Shape(fs') && |fs'.inode| == |fs.inode|
    && (forall i :: 0 <= i < |fs.inode| ==> fs'.inode[i].size == fs.inode[i].size)
    && (forall i, pos {:trigger ByteAt(fs', i, pos)} ::
          0 <= i < |fs.inode| && 0 <= pos < MAXFILE * BSIZE ==> ByteAt(fs', i, pos) == ByteAt(fs, i, pos))
  }

  /** The file contents of inode i. */
  ghost function Contents(fs: FS, i: nat): seq<byte>
    requires Shape(fs) && i < |fs.inode| && fs.inode[i].size <= MAXFILE * BSIZE
  {
    seq(fs.inode[i].size, pos requires 0 <= pos < fs.inode[i].size => ByteAt(fs, i, pos))
  }

  // ---------- steps ----------

  function Taken(fs: FS, b: nat): FS
    requires b / 8 < |fs.bits| && b < |fs.block|
  {
    fs.(bits := SetBit(fs.bits, b), block := fs.block[b := Zeros()])
  }

  function Freed(fs: FS, b: nat): FS
    requires b / 8 < |fs.bits|
  {
    fs.(bits := ClearBit(fs.bits, b))
  }

  function SetAddr(fs: FS, i: nat, k: nat, v: nat): FS
    requires i < |fs.inode| && k < |fs.inode[i].addrs|
  {
    fs.(inode := fs.inode[i := fs.inode[i].(addrs := fs.inode[i].addrs[k := v])])
  }

  function SetBlock(fs: FS, b: nat, data: seq<byte>): FS
    requires b < |fs.block|
  {
    fs.(block := fs.block[b := data])
  }

  /** Two states whose slots hold the same blocks. */
  ghost predicate SameSlots(fs: FS, fs': FS) {
    && Shape(fs) && Shape(fs') && |fs'.inode| == |fs.inode| && |fs'.block| == |fs.block| && fs'.nmeta == fs.nmeta
    && (forall i, k :: HasSlot(fs, i, k) ==> SlotVal(fs', i, k) == SlotVal(fs, i, k))
  }

  lemma SlotsInv(fs: FS, fs': FS, own: map<nat, Slot>, lent: set<nat>)
    requires Inv(fs, own, lent) && SameSlots(fs, fs') && fs'.bits == fs.bits
    ensures Inv(fs', own, lent)
  {
    assert forall i, k :: HasSlot(fs', i, k) <==> HasSlot(fs, i, k);
  }

  /** A block that is no indirect block can be rewritten without moving any slot. */
  lemma DataSlots(fs: FS, own: map<nat, Slot>, lent: set<nat>, b: nat, data: seq<byte>)
    requires Inv(fs, own, lent) && 0 < b < |fs.block| && |data| == BSIZE
    requires b in own ==> own[b].k != NDIRECT
    ensures SameSlots(fs, SetBlock(fs, b, data))
  {
    var fs' := SetBlock(fs, b, data);
    forall i: nat, k: nat | HasSlot(fs, i, k) ensures SlotVal(fs', i, k) == SlotVal(fs, i, k) {
      assert HasSlot(fs, i, NDIRECT) && SlotVal(fs, i, NDIRECT) == fs.inode[i].addrs[NDIRECT];
    }
  }

  /** balloc: a free block is marked and zeroed. */
  lemma TakenInv(fs: FS, own: map<nat, Slot>, lent: set<nat>, b: nat)
    requires Inv(fs, own, lent) && b < |fs.block| && !Bit(fs.bits, b)
    ensures b >= fs.nmeta && b !in own && b !in lent
    ensures Inv(Taken(fs, b), own, lent + {b}) && SameSlots(fs, Taken(fs, b))
  {
    var fs1 := SetBlock(fs, b, Zeros());
    DataSlots(fs, own, lent, b, Zeros());
    SlotsInv(fs, fs1, own, lent);
    hide SlotVal, Entry;
    var fs' := Taken(fs, b);
    assert SameSlots(fs1, fs') && SameSlots(fs, fs');
    forall c: nat ensures Bit(fs'.bits, c) <==> c == b || Bit(fs.bits, c) {
      SetBitAt(fs.bits, b, c);
    }
  }

  /** bfree: a lent block goes back to the free map. */
  lemma FreedInv(fs: FS, own: map<nat, Slot>, lent: set<nat>, b: nat)
    requires Inv(fs, own, lent) && b in lent
    ensures Bit(fs.bits, b) && Inv(Freed(fs, b), own, lent - {b}) && SameSlots(fs, Freed(fs, b))
  {
    var fs' := Freed(fs, b);
    assert SameSlots(fs, fs');
    hide SlotVal, Entry;
    forall c: nat ensures Bit(fs'.bits, c) <==> c != b && Bit(fs.bits, c) {
      ClearBitAt(fs.bits, b, c);
    }
  }

  // ---------- hanging blocks into slots and taking them out ----------

  ghost predicate SameFrame(fs: FS, fs': FS) {
    && Shape(fs) && Shape(fs') && fs'.bits == fs.bits && fs'.nmeta == fs.nmeta
    && |fs'.block| == |fs.block| && |fs'.inode| == |fs.inode|
  }

  lemma AttachInv(fs: FS, fs': FS, own: map<nat, Slot>, lent: set<nat>, i: nat, k: nat, b: nat)
    requires Inv(fs, own, lent) && b in lent && HasSlot(fs, i, k) && SlotVal(fs, i, k) == 0 && SameFrame(fs, fs')
    requires forall j, l :: HasSlot(fs, j, l) ==>
               SlotVal(fs', j, l) == if j == i && l == k then b else SlotVal(fs, j, l)
    ensures Inv(fs', own[b := Slot(i, k)], lent - {b})
  {
    hide SlotVal, Bit;
    assert forall j, l :: HasSlot(fs', j, l) <==> HasSlot(fs, j, l);
  }

  lemma DetachInv(fs: FS, fs': FS, own: map<nat, Slot>, lent: set<nat>, gone: set<nat>)
    requires Inv(fs, own, lent) && SameFrame(fs, fs') && gone <= own.Keys
    requires forall j, l :: HasSlot(fs, j, l) ==>
               SlotVal(fs', j, l) == if SlotVal(fs, j, l) in gone then 0 else SlotVal(fs, j, l)
    ensures Inv(fs', own - gone, lent + gone)
  {
    hide SlotVal, Bit;
    assert forall j, l :: HasSlot(fs', j, l) <==> HasSlot(fs, j, l);
  }

  /** ip->addrs[k] = b. */
  lemma AttachAddr(fs: FS, own: map<nat, Slot>, lent: set<nat>, i: nat, k: nat, b: nat)
    requires Inv(fs, own, lent) && b in lent && i < |fs.inode| && k <= NDIRECT && fs.inode[i].addrs[k] == 0
    requires fs.block[b] == Zeros()
    ensures Inv(SetAddr(fs, i, k, b), own[b := Slot(i, k)], lent - {b})
    ensures forall j, l :: HasSlot(fs, j, l) ==>
              SlotVal(SetAddr(fs, i, k, b), j, l) == if j == i && l == k then b else SlotVal(fs, j, l)
  {
    var fs' := SetAddr(fs, i, k, b);
    forall j: nat, l: nat | HasSlot(fs, j, l)
      ensures SlotVal(fs', j, l) == if j == i && l == k then b else SlotVal(fs, j, l)
    {
      if j == i && k == NDIRECT < l {
        ZeroEntry(l - NDIRECT - 1);
      }
    }
    AttachInv(fs, fs', own, lent, i, k, b);
  }

  /** a[j] = b in the indirect block. */
  lemma AttachEntry(fs: FS, own: map<nat, Slot>, lent: set<nat>, i: nat, j: nat, b: nat)
    requires Inv(fs, own, lent) && b in lent && i < |fs.inode| && j < NINDIRECT
    requires fs.inode[i].addrs[NDIRECT] != 0 && SlotVal(fs, i, NDIRECT + 1 + j) == 0
    ensures var t := fs.inode[i].addrs[NDIRECT];
            && t < |fs.block| && t in own && own[t] == Slot(i, NDIRECT)
            && var fs' := SetBlock(fs, t, PutEntry(fs.block[t], j, b));
            && Inv(fs', own[b := Slot(i, NDIRECT + 1 + j)], lent - {b})
            && (forall n, l :: HasSlot(fs, n, l) ==>
                  SlotVal(fs', n, l) == if n == i && l == NDIRECT + 1 + j then b else SlotVal(fs, n, l))
  {
    hide Entry, PutEntry, Bit;
    var t := fs.inode[i].addrs[NDIRECT];
    assert HasSlot(fs, i, NDIRECT) && SlotVal(fs, i, NDIRECT) == t;
    var fs' := SetBlock(fs, t, PutEntry(fs.block[t], j, b));
    forall n: nat, l: nat | HasSlot(fs, n, l)
      ensures SlotVal(fs', n, l) == if n == i && l == NDIRECT + 1 + j then b else SlotVal(fs, n, l)
    {
      assert HasSlot(fs, n, NDIRECT) && SlotVal(fs, n, NDIRECT) == fs.inode[n].addrs[NDIRECT];
      if n == i && l > NDIRECT {
        PutEntryAt(fs.block[t], j, b, l - NDIRECT - 1);
      }
    }
    AttachInv(fs, fs', own, lent, i, NDIRECT + 1 + j, b);
  }

  // ---------- bytes kept ----------

  /** Bytes survive when every data slot keeps its block, or gains a zeroed one, and the blocks
      of data slots keep their contents. */
  lemma BytesKept(fs: FS, fs': FS)
    requires Shape(fs) && Shape(fs') && |fs'.inode| == |fs.inode|
    requires forall i :: 0 <= i < |fs.inode| ==> fs'.inode[i].size == fs.inode[i].size
    requires forall i, k :: HasSlot(fs, i, k) && k != NDIRECT ==>
               BlockAt(fs', SlotVal(fs', i, k)) == BlockAt(fs, SlotVal(fs, i, k))
    ensures SameBytes(fs, fs')
  {
    hide SlotVal;
    forall i, pos | 0 <= i < |fs.inode| && 0 <= pos < MAXFILE * BSIZE
      ensures ByteAt(fs', i, pos) == ByteAt(fs, i, pos)
    {
      assert HasSlot(fs, i, SlotOf(pos / BSIZE));
    }
  }

  lemma TakenBytes(fs: FS, own: map<nat, Slot>, lent: set<nat>, b: nat)
    requires Inv(fs, own, lent) && b < |fs.block| && !Bit(fs.bits, b) && SameSlots(fs, Taken(fs, b))
    ensures SameBytes(fs, Taken(fs, b))
  {
    hide SlotVal, Bit;
    BytesKept(fs, Taken(fs, b));
  }

  /** Hanging a zeroed block into a slot leaves every byte alone. */
  lemma AttachBytes(fs: FS, fs': FS, own: map<nat, Slot>, lent: set<nat>, i: nat, k: nat, b: nat, t: nat)
    requires Inv(fs, own, lent) && b in lent && HasSlot(fs, i, k) && SlotVal(fs, i, k) == 0 && SameFrame(fs, fs')
    requires fs.block[b] == Zeros() && (t in own ==> own[t].k == NDIRECT) && t != b && t !in lent
    requires forall n :: 0 <= n < |fs.inode| ==> fs'.inode[n].size == fs.inode[n].size
    requires forall c :: 0 <= c < |fs.block| && c != t ==> fs'.block[c] == fs.block[c]
    requires forall j, l :: HasSlot(fs, j, l) ==>
               SlotVal(fs', j, l) == if j == i && l == k then b else SlotVal(fs, j, l)
    ensures SameBytes(fs, fs')
  {
    hide SlotVal, Bit;
    BytesKept(fs, fs');
  }

  /** Writing one data block of inode i changes the bytes of that block of that inode alone. */
  lemma DataBytes(fs: FS, own: map<nat, Slot>, lent: set<nat>, i: nat, bn: nat, data: seq<byte>)
    requires Inv(fs, own, lent) && i < |fs.inode| && bn < MAXFILE && |data| == BSIZE
    requires SlotVal(fs, i, SlotOf(bn)) != 0
    ensures var v := SlotVal(fs, i, SlotOf(bn));
            && v < |fs.block| && SameSlots(fs, SetBlock(fs, v, data)) && Inv(SetBlock(fs, v, data), own, lent)
            && forall n, pos {:trigger ByteAt(SetBlock(fs, v, data), n, pos)} ::
                 0 <= n < |fs.inode| && 0 <= pos < MAXFILE * BSIZE ==>
                 ByteAt(SetBlock(fs, v, data), n, pos) ==
                   if n == i && pos / BSIZE == bn then data[pos % BSIZE] else ByteAt(fs, n, pos)
  {
    var k := SlotOf(bn);
    var v := SlotVal(fs, i, k);
    assert HasSlot(fs, i, k);
    DataSlots(fs, own, lent, v, data);
    var fs' := SetBlock(fs, v, data);
    SlotsInv(fs, fs', own, lent);
    hide SlotVal, Bit;
    forall n, pos | 0 <= n < |fs.inode| && 0 <= pos < MAXFILE * BSIZE
      ensures ByteAt(fs', n, pos) == if n == i && pos / BSIZE == bn then data[pos % BSIZE] else ByteAt(fs, n, pos)
    {
      assert HasSlot(fs, n, SlotOf(pos / BSIZE));
    }
  }

  // ---------- conservation ----------

  ghost function Range(lo: nat, hi: nat): (r: set<nat>)
    requires lo <= hi
    ensures |r| == hi - lo && forall b :: b in r <==> lo <= b < hi
  {
    if lo == hi then {} else Range(lo, hi - 1) + {hi - 1}
  }

  ghost function FreeBlocks(fs: FS): set<nat> {
    Clear(fs.bits, |fs.block|)
  }

  ghost function Clear(bits: seq<bv8>, n: nat): set<nat> {
    set b: nat | b < n && !Bit(bits, b)
  }

  /** Every data block is free or held by exactly one slot, so the two counts always add up. */
  lemma Conserved(fs: FS, own: map<nat, Slot>)
    requires Inv(fs, own, {})
    ensures own.Keys !! FreeBlocks(fs)
    ensures forall b :: fs.nmeta <= b < |fs.block| ==> b in own || b in FreeBlocks(fs)
    ensures forall i, k, j, l ::
              HasSlot(fs, i, k) && HasSlot(fs, j, l) && SlotVal(fs, i, k) == SlotVal(fs, j, l) != 0 ==> i == j && k == l
    ensures |own| + |FreeBlocks(fs)| == |fs.block| - fs.nmeta
  {
    hide SlotVal, Bit;
    var free := FreeBlocks(fs);
    assert own.Keys + free == Range(fs.nmeta, |fs.block|);
    assert |own.Keys| == |own|;
    assert |own.Keys + free| == |own.Keys| + |free|;
  }

  // ---------- counting free blocks ----------

  ghost function Free(fs: FS): nat {
    |FreeBlocks(fs)|
  }

  lemma TakenFree(fs: FS, b: nat)
    requires b < |fs.block| && b / 8 < |fs.bits| && !Bit(fs.bits, b)
    ensures Free(Taken(fs, b)) == Free(fs) - 1
  {
    hide Bit, SetBit;
    forall c: nat ensures Bit(SetBit(fs.bits, b), c) <==> c == b || Bit(fs.bits, c) {
      SetBitAt(fs.bits, b, c);
    }
    assert FreeBlocks(Taken(fs, b)) == FreeBlocks(fs) - {b};
  }

  lemma NoneFree(fs: FS)
    requires forall c :: 0 <= c < |fs.block| ==> Bit(fs.bits, c)
    ensures Free(fs) == 0
  {
    hide Bit;
    assert FreeBlocks(fs) == {};
  }

  /** The blocks bmap must allocate to give inode i a bn-th block. */
  ghost function Lacks(fs: FS, i: nat, bn: nat): nat
    requires Shape(fs) && i < |fs.inode| && bn < MAXFILE
  {
    if SlotVal(fs, i, SlotOf(bn)) != 0 then 0
    else if bn < NDIRECT || fs.inode[i].addrs[NDIRECT] != 0 then 1
    else 2
  }

  /** The share of block bn in the blocks needed for a range that starts at lo: itself if it is
      missing, and the indirect block if it is missing and bn is the first to need it. */
  ghost function Share(fs: FS, i: nat, lo: nat, bn: nat): nat
    requires Shape(fs) && i < |fs.inode| && bn < MAXFILE
  {
    (if SlotVal(fs, i, SlotOf(bn)) == 0 then 1 else 0)
    + if bn >= NDIRECT && fs.inode[i].addrs[NDIRECT] == 0 && (bn == NDIRECT || bn == lo) then 1 else 0
  }

  /** The blocks that must be allocated before blocks lo .. hi-1 of inode i exist. */
  ghost function Need(fs: FS, i: nat, lo: nat, hi: nat): nat
    requires Shape(fs) && i < |fs.inode| && hi <= MAXFILE
  {
    if lo >= hi then 0 else Need(fs, i, lo, hi - 1) + Share(fs, i, lo, hi - 1)
  }
}
