/**
Directories of src/fs.c as values: the contents of a directory are 16-byte entries, a 16-bit inode
number (0 for an empty entry) and a name of up to 14 bytes, padded with NULs. A directory denotes
a finite map from names to inode numbers.
*/
module DirModel {
  import opened Common
  import opened FsCode

  const DIRSIZ: nat := 14
  const DESIZE: nat := 16

  /** The name a buffer holds: its bytes up to the first NUL, at most n of them. */
  function Cut(b: seq<byte>, n: nat): (r: seq<byte>)
    ensures |r| <= n
  {
    if n == 0 || b == [] || b[0] == 0 then [] else [b[0]] + Cut(b[1..], n - 1)
  }

  function Key(b: seq<byte>): seq<byte> {
    Cut(b, DIRSIZ)
  }

  /** A C string, or a full name field without terminator. */
  predicate NameBuf(b: seq<byte>) {
    |b| >= DIRSIZ || 0 in b
  }

  function Pad(k: seq<byte>): (r: seq<byte>)
    requires |k| <= DIRSIZ
    ensures |r| == DIRSIZ
  {
    k + seq<byte>(DIRSIZ - |k|, _ => 0)
  }

  // ---------- entries ----------

  function Count(c: seq<byte>): nat {
    |c| / DESIZE
  }

  function EntryAt(c: seq<byte>, j: nat): (r: seq<byte>)
    requires j < Count(c)
    ensures |r| == DESIZE
  {
    c[DESIZE * j..DESIZE * j + DESIZE]
  }

  function InumOf(de: seq<byte>): nat
    requires |de| == DESIZE
  {
    de[0] as int + 256 * de[1] as int
  }

  function NameOf(de: seq<byte>): seq<byte>
    requires |de| == DESIZE
  {
    Key(de[2..])
  }

  /** The entry dirlink writes: the inode number is cut to 16 bits. */
  function Pack(inum: nat, k: seq<byte>): (r: seq<byte>)
    requires |k| <= DIRSIZ
    ensures |r| == DESIZE
  {
    [inum % 256, inum / 256 % 256] + Pad(k)
  }

  predicate Live(c: seq<byte>, j: nat) {
    j < Count(c) && InumOf(EntryAt(c, j)) != 0
  }

  ghost predicate DirOk(c: seq<byte>) {
    && |c| % DESIZE == 0
    && forall j, l :: Live(c, j) && Live(c, l) && NameOf(EntryAt(c, j)) == NameOf(EntryAt(c, l)) ==> j == l
  }

  /** What the first n entries map each name to. */
  ghost function DirUpto(c: seq<byte>, n: nat): map<seq<byte>, nat>
    requires n <= Count(c)
  {
    if n == 0 then map[]
    else if Live(c, n - 1) then DirUpto(c, n - 1)[NameOf(EntryAt(c, n - 1)) := InumOf(EntryAt(c, n - 1))]
    else DirUpto(c, n - 1)
  }

  /** What the directory maps each name to. */
  ghost function Dir(c: seq<byte>): map<seq<byte>, nat> {
    DirUpto(c, Count(c))
  }

  lemma {:induction false} DirHas(c: seq<byte>, j: nat, n: nat)
    requires DirOk(c) && Live(c, j) && j < n <= Count(c)
    ensures NameOf(EntryAt(c, j)) in DirUpto(c, n) && DirUpto(c, n)[NameOf(EntryAt(c, j))] == InumOf(EntryAt(c, j))
    decreases n
  {
    hide InumOf, NameOf, EntryAt;
    if j < n - 1 {
      DirHas(c, j, n - 1);
    }
  }

  lemma {:induction false} DirFrom(c: seq<byte>, k: seq<byte>, n: nat) returns (j: nat)
    requires DirOk(c) && n <= Count(c) && k in DirUpto(c, n)
    ensures Live(c, j) && NameOf(EntryAt(c, j)) == k && DirUpto(c, n)[k] == InumOf(EntryAt(c, j))
    decreases n
  {
    hide InumOf, NameOf, EntryAt;
    if Live(c, n - 1) && NameOf(EntryAt(c, n - 1)) == k {
      j := n - 1;
    } else {
      j := DirFrom(c, k, n - 1);
    }
  }

  /** The map of a directory is the only map that agrees with its live entries. */
  lemma DirIs(c: seq<byte>, m: map<seq<byte>, nat>)
    requires DirOk(c)
    requires forall j :: Live(c, j) ==> NameOf(EntryAt(c, j)) in m && m[NameOf(EntryAt(c, j))] == InumOf(EntryAt(c, j))
    requires forall k :: k in m ==> exists j :: Live(c, j) && NameOf(EntryAt(c, j)) == k
    ensures Dir(c) == m
  {
    hide InumOf, NameOf, EntryAt;
    forall k | k in m ensures k in Dir(c) {
      var j :| Live(c, j) && NameOf(EntryAt(c, j)) == k;
      DirHas(c, j, Count(c));
    }
    forall k | k in Dir(c) ensures k in m && m[k] == Dir(c)[k] {
      var j := DirFrom(c, k, Count(c));
    }
  }

  /** The first live entry named k from j on, Count(c) if there is none. */
  function FindName(c: seq<byte>, k: seq<byte>, j: nat): (r: nat)
    requires j <= Count(c)
    ensures j <= r <= Count(c)
    decreases Count(c) - j
  {
    if j == Count(c) then j
    else if Live(c, j) && NameOf(EntryAt(c, j)) == k then j
    else FindName(c, k, j + 1)
  }

  /** The first empty entry from j on, Count(c) if there is none. */
  function FindEmpty(c: seq<byte>, j: nat): (r: nat)
    requires j <= Count(c)
    ensures j <= r <= Count(c)
    decreases Count(c) - j
  {
    if j == Count(c) || !Live(c, j) then j else FindEmpty(c, j + 1)
  }

  // ---------- what the searches mean ----------

  lemma {:induction false} FindNameIs(c: seq<byte>, k: seq<byte>, j: nat)
    requires j <= Count(c)
    ensures var e := FindName(c, k, j);
            && (forall l :: j <= l < e ==> !(Live(c, l) && NameOf(EntryAt(c, l)) == k))
            && (e < Count(c) ==> Live(c, e) && NameOf(EntryAt(c, e)) == k)
    decreases Count(c) - j
  {
    if j < Count(c) && !(Live(c, j) && NameOf(EntryAt(c, j)) == k) {
      FindNameIs(c, k, j + 1);
    }
  }

  /** A name is found exactly when the map has it, with the inode number the map gives. */
  lemma LookupIs(c: seq<byte>, k: seq<byte>)
    requires DirOk(c)
    ensures FindName(c, k, 0) < Count(c) <==> k in Dir(c)
    ensures k in Dir(c) ==> InumOf(EntryAt(c, FindName(c, k, 0))) == Dir(c)[k]
  {
    FindNameIs(c, k, 0);
    var e := FindName(c, k, 0);
    if e < Count(c) {
      DirHas(c, e, Count(c));
    }
    if k in Dir(c) {
      var j := DirFrom(c, k, Count(c));
    }
  }

  lemma {:induction false} FindEmptyIs(c: seq<byte>, j: nat)
    requires j <= Count(c)
    ensures var e := FindEmpty(c, j);
            && (forall l :: j <= l < e ==> Live(c, l))
            && (e < Count(c) ==> !Live(c, e))
    decreases Count(c) - j
  {
    if j < Count(c) && Live(c, j) {
      FindEmptyIs(c, j + 1);
    }
  }

  // ---------- names ----------

  lemma {:induction false} CutPad(b: seq<byte>, n: nat, m: nat)
    requires n <= m
    ensures Cut(Cut(b, n) + seq<byte>(m - |Cut(b, n)|, _ => 0), m) == Cut(b, n)
    decreases n
  {
    var k := Cut(b, n);
    var z := k + seq<byte>(m - |k|, _ => 0);
    if k != [] {
      assert k == [b[0]] + Cut(b[1..], n - 1);
      CutPad(b[1..], n - 1, m - 1);
      assert z[1..] == Cut(b[1..], n - 1) + seq<byte>(m - 1 - |Cut(b[1..], n - 1)|, _ => 0);
    }
  }

  /** Packing an entry and reading it back. */
  lemma PackRoundTrip(inum: nat, name: seq<byte>)
    ensures InumOf(Pack(inum, Key(name))) == inum % 65536 && NameOf(Pack(inum, Key(name))) == Key(name)
  {
    var de := Pack(inum, Key(name));
    assert de[2..] == Pad(Key(name));
    CutPad(name, DIRSIZ, DIRSIZ);
    assert inum % 65536 == inum % 256 + 256 * (inum / 256 % 256);
  }

  // ---------- writing one entry ----------

  lemma SpliceEntry(c: seq<byte>, e: nat, de: seq<byte>, j: nat)
    requires |c| % DESIZE == 0 && e <= Count(c) && |de| == DESIZE
    ensures DESIZE * e <= |c|
    ensures var c' := Splice(c, DESIZE * e, de);
            && |c'| % DESIZE == 0 && Count(c') == (if e < Count(c) then Count(c) else Count(c) + 1)
            && (j < Count(c') ==> EntryAt(c', j) == if j == e then de else EntryAt(c, j))
  {
    var c' := Splice(c, DESIZE * e, de);
    assert |c'| == if e < Count(c) then |c| else |c| + DESIZE;
    if j < Count(c') {
      if j < e {
        assert c'[DESIZE * j..DESIZE * j + DESIZE] == c[DESIZE * j..DESIZE * j + DESIZE];
      } else if j == e {
        assert c'[DESIZE * j..DESIZE * j + DESIZE] == de;
      } else {
        assert c'[DESIZE * j..DESIZE * j + DESIZE] == c[DESIZE * j..DESIZE * j + DESIZE];
      }
    }
  }

  /** Filling an empty or new entry with an absent name inserts that name alone; an inode number
      whose low 16 bits are 0 inserts nothing. */
  lemma LinkMap(c: seq<byte>, name: seq<byte>, inum: nat)
    requires DirOk(c) && Key(name) !in Dir(c)
    ensures var c' := Splice(c, DESIZE * FindEmpty(c, 0), Pack(inum, Key(name)));
            && DirOk(c')
            && Dir(c') == if inum % 65536 == 0 then Dir(c) else Dir(c)[Key(name) := inum % 65536]
  {
    var e, k := FindEmpty(c, 0), Key(name);
    var de := Pack(inum, k);
    var c' := Splice(c, DESIZE * e, de);
    FindEmptyIs(c, 0);
    PackRoundTrip(inum, name);
    SpliceEntry(c, e, de, 0);
    forall j: nat ensures Live(c', j) <==> if j == e then inum % 65536 != 0 else Live(c, j) {
      SpliceEntry(c, e, de, j);
    }
    forall j: nat | Live(c', j) ensures EntryAt(c', j) == if j == e then de else EntryAt(c, j) {
      SpliceEntry(c, e, de, j);
    }
    hide Splice, Pack, Key, FindEmpty, Cut;
    forall j | Live(c, j) ensures NameOf(EntryAt(c, j)) != k && j != e {
      DirHas(c, j, Count(c));
    }
    assert DirOk(c');
    var m := if inum % 65536 == 0 then Dir(c) else Dir(c)[k := inum % 65536];
    forall j | Live(c', j)
      ensures NameOf(EntryAt(c', j)) in m && m[NameOf(EntryAt(c', j))] == InumOf(EntryAt(c', j))
    {
      if j != e { DirHas(c, j, Count(c)); }
    }
    forall x | x in m ensures exists j :: Live(c', j) && NameOf(EntryAt(c', j)) == x {
      if x == k {
        assert Live(c', e);
      } else {
        var j := DirFrom(c, x, Count(c));
        assert Live(c', j);
      }
    }
    DirIs(c', m);
  }

  /** Clearing a live entry removes its name alone. */
  lemma ClearMap(c: seq<byte>, e: nat, zero: seq<byte>)
    requires DirOk(c) && Live(c, e) && |zero| == DESIZE && InumOf(zero) == 0
    ensures DESIZE * e <= |c| && DirOk(Splice(c, DESIZE * e, zero))
    ensures Dir(Splice(c, DESIZE * e, zero)) == Dir(c) - {NameOf(EntryAt(c, e))}
  {
    SpliceEntry(c, e, zero, 0);
    var c' := Splice(c, DESIZE * e, zero);
    forall j: nat ensures Live(c', j) <==> j != e && Live(c, j) {
      SpliceEntry(c, e, zero, j);
    }
    forall j: nat | Live(c', j) ensures EntryAt(c', j) == EntryAt(c, j) {
      SpliceEntry(c, e, zero, j);
    }
    hide Splice, Cut;
    var k := NameOf(EntryAt(c, e));
    assert DirOk(c');
    var m := Dir(c) - {k};
    forall j | Live(c', j)
      ensures NameOf(EntryAt(c', j)) in m && m[NameOf(EntryAt(c', j))] == InumOf(EntryAt(c', j))
    {
      DirHas(c, j, Count(c));
    }
    forall x | x in m ensures exists j :: Live(c', j) && NameOf(EntryAt(c', j)) == x {
      var j := DirFrom(c, x, Count(c));
      assert Live(c', j);
    }
    DirIs(c', m);
  }
}
