/** The encodings src/fs.c puts in disk blocks: the bits of the free map and the little-endian
    block numbers of an indirect block. */
module FsBits {
  import opened Common

  // ---------- free map ----------

  /** 1 << k for a bit number within a byte. */
  function Mask(k: nat): bv8
    requires k < 8
  {
    if k == 0 then 1 else if k == 1 then 2 else if k == 2 then 4 else if k == 3 then 8
    else if k == 4 then 16 else if k == 5 then 32 else if k == 6 then 64 else 128
  }

  predicate Bit(map_: seq<bv8>, b: nat) {
    b / 8 < |map_| && (map_[b / 8] & Mask(b % 8)) != 0
  }

  function SetBit(map_: seq<bv8>, b: nat): seq<bv8>
    requires b / 8 < |map_|
  {
    map_[b / 8 := map_[b / 8] | Mask(b % 8)]
  }

  function ClearBit(map_: seq<bv8>, b: nat): seq<bv8>
    requires b / 8 < |map_|
  {
    map_[b / 8 := map_[b / 8] & !Mask(b % 8)]
  }

  lemma MaskOr(x: bv8, i: nat, j: nat)
    requires i < 8 && j < 8
    ensures ((x | Mask(i)) & Mask(j)) != 0 <==> i == j || (x & Mask(j)) != 0
  {
    var a, b := Mask(i), Mask(j);
    assert a & b == if i == j then b else 0;
    assert (x | a) & b == (x & b) | (a & b);
    if i == j {
      assert b != 0;
    }
  }

  lemma MaskAndNot(x: bv8, i: nat, j: nat)
    requires i < 8 && j < 8
    ensures ((x & !Mask(i)) & Mask(j)) != 0 <==> i != j && (x & Mask(j)) != 0
  {
    var a, b := Mask(i), Mask(j);
    assert a & b == if i == j then b else 0;
    assert (x & !a) & b == (x & b) & !(a & b);
    if i == j {
      assert (x & b) & !b == 0;
    }
  }

  /** Setting one bit changes that bit alone. */
  lemma SetBitAt(map_: seq<bv8>, b: nat, c: nat)
    requires b / 8 < |map_|
    ensures Bit(SetBit(map_, b), c) <==> c == b || Bit(map_, c)
  {
    hide Mask;
    if c / 8 == b / 8 {
      MaskOr(map_[b / 8], b % 8, c % 8);
    }
  }

  lemma ClearBitAt(map_: seq<bv8>, b: nat, c: nat)
    requires b / 8 < |map_|
    ensures Bit(ClearBit(map_, b), c) <==> c != b && Bit(map_, c)
  {
    hide Mask;
    if c / 8 == b / 8 {
      MaskAndNot(map_[b / 8], b % 8, c % 8);
    }
  }

  // ---------- indirect blocks ----------

  const BSIZE: nat := 512
  /** The j-th 32-bit number of a block. */
  function Entry(b: seq<byte>, j: nat): nat
    requires |b| == BSIZE && j < BSIZE / 4
  {
    b[4 * j] as int + 256 * b[4 * j + 1] as int + 65536 * b[4 * j + 2] as int + 16777216 * b[4 * j + 3] as int
  }

  function PutEntry(b: seq<byte>, j: nat, v: nat): (r: seq<byte>)
    requires |b| == BSIZE && j < BSIZE / 4 && v < 0x1_0000_0000
    ensures |r| == BSIZE
  {
    b[4 * j := v % 256][4 * j + 1 := v / 256 % 256][4 * j + 2 := v / 65536 % 256][4 * j + 3 := v / 16777216]
  }

  /** Storing one number changes that number alone. */
  lemma PutEntryAt(b: seq<byte>, j: nat, v: nat, k: nat)
    requires |b| == BSIZE && j < BSIZE / 4 && k < BSIZE / 4 && v < 0x1_0000_0000
    ensures Entry(PutEntry(b, j, v), k) == if k == j then v else Entry(b, k)
  {
    var r := PutEntry(b, j, v);
    if k == j {
      assert r[4 * j] == v % 256 && r[4 * j + 1] == v / 256 % 256;
      assert r[4 * j + 2] == v / 65536 % 256 && r[4 * j + 3] == v / 16777216;
      Bytes4(v);
    } else {
      assert 4 * k + 3 < 4 * j || 4 * j + 3 < 4 * k;
    }
  }

  lemma Bytes4(v: nat)
    requires v < 0x1_0000_0000
    ensures v == v % 256 + 256 * (v / 256 % 256) + 65536 * (v / 65536 % 256) + 16777216 * (v / 16777216)
  {
    assert v / 65536 == v / 256 / 256 && v / 16777216 == v / 65536 / 256;
  }

  function Zeros(): (z: seq<byte>)
    ensures |z| == BSIZE && forall i :: 0 <= i < BSIZE ==> z[i] == 0
  {
    seq(BSIZE, _ => 0)
  }

  lemma ZeroEntry(j: nat)
    requires j < BSIZE / 4
    ensures Entry(Zeros(), j) == 0
  {
  }
}
