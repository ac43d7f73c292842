/**
Two-level page tables over a pool of 4096-byte frames (src/vm.c, src/kalloc.c) as values: what each
frame is used for, and what each page directory maps each virtual page to.
*/
module VmModel {
  const NENT: nat := 1024
  const PGSIZE: nat := 4096
  const KERNBASE: nat := 0x8000_0000
  /** Directory entries below this one belong to user space. */
  const KDX: nat := 512
  const NPAGES: nat := 0x10_0000

  /** A frame that is no part of an address space is Raw. */
  datatype Use = Raw | Dir | Table(dir: nat, idx: nat) | User(tab: nat, slot: nat)

  /** Frames lo .. hi-1 are the pool; every frame is 1024 words. */
  datatype Pool = Pool(lo: nat, hi: nat)

  const PTE_P: nat := 1
  const PTE_W: nat := 2
  const PTE_U: nat := 4

  predicate Present(w: nat) {
    w % 2 == 1
  }

  function Frame(w: nat): nat {
    w / PGSIZE
  }

  function Flags(w: nat): nat {
    w % PGSIZE
  }

  /** pa | perm | PTE_P */
  function MakePte(f: nat, perm: nat): (w: nat)
    requires perm < PGSIZE
    ensures Present(w) && Frame(w) == f && Flags(w) == if perm % 2 == 1 then perm else perm + 1
  {
    var bits := if perm % 2 == 1 then perm else perm + 1;
    PteParts(f, bits);
    f * PGSIZE + bits
  }

  lemma PteParts(f: nat, bits: nat)
    requires bits < PGSIZE
    ensures var w := f * PGSIZE + bits; w / PGSIZE == f && w % PGSIZE == bits && w % 2 == bits % 2
  {
    assert f * PGSIZE + bits == 2 * (f * 2048 + bits / 2) + bits % 2;
  }

  function Blank(): (p: seq<nat>)
    ensures |p| == NENT && forall i :: 0 <= i < NENT ==> p[i] == 0
  {
    seq<nat>(NENT, _ => 0)
  }

  ghost predicate Shape(page: seq<seq<nat>>, pool: Pool) {
    0 < pool.lo <= pool.hi <= |page| && forall f :: 0 <= f < |page| ==> |page[f]| == NENT
  }

  /** Every used frame is where its use says, and every entry of a directory or of a user page
      table names a frame used for it alone; directory entries allow everything, so that the entries of the
      tables decide. */
  ghost predicate Inv(page: seq<seq<nat>>, own: map<nat, Use>, pool: Pool) {
    && Shape(page, pool)
    && (forall f :: f in own ==> pool.lo <= f < pool.hi)
    && (forall f :: f in own && own[f].Table? ==> HasTable(page, own, f))
    && (forall f :: f in own && own[f].User? ==> HasUser(page, own, f))
    && (forall d: nat, i: nat :: IsDir(own, d) && i < NENT && Present(page[d][i]) ==>
          && Frame(page[d][i]) in own && own[Frame(page[d][i])] == Table(d, i)
          && Flags(page[d][i]) == PTE_P + PTE_W + PTE_U)
    && (forall t: nat, j: nat :: IsUserTable(own, t) && j < NENT && Present(page[t][j]) ==>
          Frame(page[t][j]) in own && own[Frame(page[t][j])] == User(t, j))
  }

  ghost predicate IsDir(own: map<nat, Use>, d: nat) {
    d in own && own[d].Dir?
  }

  ghost predicate IsTable(own: map<nat, Use>, t: nat) {
    t in own && own[t].Table?
  }

  ghost predicate IsUserTable(own: map<nat, Use>, t: nat) {
    t in own && own[t].Table? && own[t].idx < KDX
  }

  ghost predicate HasTable(page: seq<seq<nat>>, own: map<nat, Use>, f: nat)
    requires (forall g :: 0 <= g < |page| ==> |page[g]| == NENT) && f in own && own[f].Table?
  {
    var d, i := own[f].dir, own[f].idx;
    IsDir(own, d) && i < NENT && d < |page| && Present(page[d][i]) && Frame(page[d][i]) == f
  }

  ghost predicate HasUser(page: seq<seq<nat>>, own: map<nat, Use>, f: nat)
    requires (forall g :: 0 <= g < |page| ==> |page[g]| == NENT) && f in own && own[f].User?
  {
    var t, j := own[f].tab, own[f].slot;
    IsUserTable(own, t) && j < NENT && t < |page| && Present(page[t][j]) && Frame(page[t][j]) == f
  }

  /** The page-table entry of virtual page v, 0 if its table is missing. */
  ghost function Pte(page: seq<seq<nat>>, pool: Pool, d: nat, v: nat): nat
    requires Shape(page, pool) && d < |page| && v < NPAGES
  {
    var pde := page[d][v / NENT];
    if Present(pde) && Frame(pde) < |page| then page[Frame(pde)][v % NENT] else 0
  }

  ghost predicate SameMaps(page: seq<seq<nat>>, page': seq<seq<nat>>, own: map<nat, Use>, pool: Pool) {
    && Shape(page, pool) && Shape(page', pool) && |page'| == |page|
    && forall e: nat, v: nat :: IsDir(own, e) && e < |page| && v < NPAGES ==>
        Pte(page', pool, e, v) == Pte(page, pool, e, v)
  }

  // ---------- frames outside the tables ----------

  lemma RawPage(page: seq<seq<nat>>, own: map<nat, Use>, pool: Pool, f: nat, x: seq<nat>)
    requires Inv(page, own, pool) && f < |page| && |x| == NENT && !IsDir(own, f) && !IsTable(own, f)
    ensures Inv(page[f := x], own, pool) && SameMaps(page, page[f := x], own, pool)
  {
    var page' := page[f := x];
    forall e: nat, v: nat | IsDir(own, e) && v < NPAGES ensures Pte(page', pool, e, v) == Pte(page, pool, e, v) {
      var i := v / NENT;
      assert 0 <= i < NENT && page'[e] == page[e];
    }
  }

  lemma AddRaw(page: seq<seq<nat>>, own: map<nat, Use>, pool: Pool, f: nat)
    requires Inv(page, own, pool) && pool.lo <= f < pool.hi && f !in own
    ensures Inv(page, own[f := Raw], pool)
  {
  }

  lemma DropRaw(page: seq<seq<nat>>, own: map<nat, Use>, pool: Pool, f: nat)
    requires Inv(page, own, pool) && f in own && own[f] == Raw
    ensures Inv(page, own - {f}, pool)
  {
  }

  // ---------- entries ----------

  function SetWord(page: seq<seq<nat>>, f: nat, i: nat, w: nat): seq<seq<nat>>
    requires f < |page| && i < |page[f]|
  {
    var row: seq<nat> := page[f][i := w];
    page[f := row]
  }

  /** A blank frame becomes table i of directory d: no page is mapped or unmapped. */
  lemma AddTable(page: seq<seq<nat>>, own: map<nat, Use>, pool: Pool, d: nat, i: nat, t: nat)
    requires Inv(page, own, pool) && IsDir(own, d) && i < NENT && !Present(page[d][i])
    requires t in own && own[t] == Raw && page[t] == Blank()
    ensures var page' := SetWord(page, d, i, MakePte(t, PTE_W + PTE_U));
            Inv(page', own[t := Table(d, i)], pool) && SameMaps(page, page', own, pool)
  {
    hide MakePte, Present, Frame, Flags;
    var page', own' := SetWord(page, d, i, MakePte(t, PTE_W + PTE_U)), own[t := Table(d, i)];
    assert forall f :: f in own && own[f].Table? ==> own[f] != Table(d, i);
    NoUserIn(page, t);
    assert Inv(page', own', pool);
    forall e: nat, v: nat | IsDir(own, e) && v < NPAGES ensures Pte(page', pool, e, v) == Pte(page, pool, e, v) {
      var k := v / NENT;
      assert 0 <= k < NENT;
      if Present(page[e][k]) {
        assert page'[e][k] == page[e][k];
      }
    }
  }

  lemma NoUserIn(page: seq<seq<nat>>, t: nat)
    requires t < |page| && page[t] == Blank()
    ensures forall j :: 0 <= j < NENT ==> page[t][j] == 0 && !Present(page[t][j])
  {
  }

  ghost predicate OneMap(page: seq<seq<nat>>, page': seq<seq<nat>>, own: map<nat, Use>, pool: Pool, d: nat, v: nat,
                         w: nat)
  {
    && Shape(page, pool) && Shape(page', pool) && |page'| == |page|
    && forall e: nat, u: nat :: IsDir(own, e) && e < |page| && u < NPAGES ==>
         Pte(page', pool, e, u) == if e == d && u == v then w else Pte(page, pool, e, u)
  }

  /** Writing entry j of table t changes the mapping of one page of one directory. */
  lemma SetEntry(page: seq<seq<nat>>, own: map<nat, Use>, pool: Pool, t: nat, j: nat, w: nat)
    requires Inv(page, own, pool) && IsTable(own, t) && j < NENT
    ensures own[t].idx < NENT
    ensures OneMap(page, SetWord(page, t, j, w), own, pool, own[t].dir, own[t].idx * NENT + j, w)
  {
    var page' := SetWord(page, t, j, w);
    var d, i := own[t].dir, own[t].idx;
    assert HasTable(page, own, t);
    forall e: nat, u: nat | IsDir(own, e) && u < NPAGES
      ensures Pte(page', pool, e, u) == if e == d && u == i * NENT + j then w else Pte(page, pool, e, u)
    {
      var k := u / NENT;
      assert 0 <= k < NENT && u == k * NENT + u % NENT && page'[e] == page[e];
      if Present(page[e][k]) {
        var s := Frame(page[e][k]);
        assert own[s] == Table(e, k);
      }
    }
  }

  /** A kernel table may map anything. */
  lemma SetKernel(page: seq<seq<nat>>, own: map<nat, Use>, pool: Pool, t: nat, j: nat, w: nat)
    requires Inv(page, own, pool) && IsTable(own, t) && own[t].idx >= KDX && j < NENT
    ensures Inv(SetWord(page, t, j, w), own, pool)
  {
  }

  /** A Raw frame is mapped as a user page. */
  lemma SetUser(page: seq<seq<nat>>, own: map<nat, Use>, pool: Pool, t: nat, j: nat, f: nat, perm: nat)
    requires Inv(page, own, pool) && IsUserTable(own, t) && j < NENT && !Present(page[t][j]) && perm < PGSIZE
    requires f in own && own[f] == Raw
    ensures Inv(SetWord(page, t, j, MakePte(f, perm)), own[f := User(t, j)], pool)
  {
    hide MakePte, Present, Frame, Flags;
    assert forall g :: g in own && own[g].User? ==> own[g] != User(t, j);
  }

  /** A user page is unmapped: its frame is Raw again. */
  lemma ClearUser(page: seq<seq<nat>>, own: map<nat, Use>, pool: Pool, t: nat, j: nat)
    requires Inv(page, own, pool) && IsUserTable(own, t) && j < NENT && Present(page[t][j])
    ensures var f := Frame(page[t][j]);
            f in own && own[f] == User(t, j) && Inv(SetWord(page, t, j, 0), own[f := Raw], pool)
  {
  }
}
