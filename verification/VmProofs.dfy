/**
The state and the proofs behind src/vm.c and src/kalloc.c: the free list, what mapping and unmapping
pages do to every directory, and which frames they take and give back.
*/
module VmProofs {
  import opened VmModel

  datatype MapResult = Mapped | NoMemory | Remap

  /** Failed gives everything back, Leaked all but one frame; Missing stands for the panics on a page
      the parent does not have. */
  datatype CopyResult = Copied(dir: nat) | Failed | Leaked(frame: nat) | Missing

  const JUNK: nat := 0x0101_0101

  function PDX(va: nat): nat {
    va / 0x40_0000 % NENT
  }

  function PTX(va: nat): nat {
    va / PGSIZE % NENT
  }

  lemma Indices(va: nat)
    requires va < 0x1_0000_0000
    ensures va / PGSIZE < NPAGES && PDX(va) == va / PGSIZE / NENT && PTX(va) == va / PGSIZE % NENT
  {
    assert va / PGSIZE / NENT == va / 0x40_0000;
  }

  // ---------- the free list ----------

  function KAddr(f: nat): nat {
    KERNBASE + f * PGSIZE
  }

  function Link(free: seq<nat>, k: nat): nat {
    if k < |free| then KAddr(free[k]) else 0
  }

  /** The free list runs through the first word of each free frame. */
  ghost predicate Chain(page: seq<seq<nat>>, head: nat, free: seq<nat>) {
    && (forall k :: 0 <= k < |free| ==> free[k] < |page| && |page[free[k]]| == NENT)
    && (forall k, l :: 0 <= k < l < |free| ==> free[k] != free[l])
    && head == Link(free, 0)
    && (forall k :: 0 <= k < |free| ==> page[free[k]][0] == Link(free, k + 1))
  }

  /** Every frame of the pool is either free or used. */
  ghost predicate Parted(free: seq<nat>, own: map<nat, Use>, pool: Pool) {
    && (forall f :: f in free ==> pool.lo <= f < pool.hi && f !in own)
    && (forall f :: pool.lo <= f < pool.hi ==> f in free || f in own)
  }

  /** The frames that are no directory and no page table keep their words. */
  ghost predicate Kept(page: seq<seq<nat>>, page': seq<seq<nat>>, own: map<nat, Use>) {
    |page'| == |page| && forall f :: f in own && f < |page| && !own[f].Dir? && !own[f].Table? ==> page'[f] == page[f]
  }

  /** From own to own' page tables of d were added, and Raw frames of [p, p+n) became user pages. */
  ghost predicate Grown(own: map<nat, Use>, own': map<nat, Use>, d: nat, p: nat, n: nat) {
    && (forall f :: f in own ==> f in own' && (own'[f] == own[f] || (own[f] == Raw && own'[f].User? && p <= f < p + n)))
    && (forall f :: f in own' && f !in own ==> own'[f].Table? && own'[f].dir == d)
  }

  /** From page to page' directory d got pages v .. v+n-1 mapped to the frames from p on. */
  ghost predicate RangeMap(page: seq<seq<nat>>, page': seq<seq<nat>>, own: map<nat, Use>, pool: Pool,
                           d: nat, v: nat, n: nat, p: nat, perm: nat)
  {
    && Shape(page, pool) && Shape(page', pool) && |page'| == |page| && perm < PGSIZE
    && forall e: nat, u: nat :: IsDir(own, e) && e < |page| && u < NPAGES ==>
         Pte(page', pool, e, u) == if e == d && v <= u < v + n then MakePte(p + (u - v), perm)
           else Pte(page, pool, e, u)
  }

  /** The user pages among v .. v+n-1 are to be mapped to Raw frames. */
  ghost predicate RawRange(own: map<nat, Use>, v: nat, n: nat, p: nat) {
    forall f: nat :: p <= f < p + n && v + (f - p) < KDX * NENT ==> f in own && own[f] == Raw
  }

  function Pages(va: nat, size: nat): nat
    requires size > 0
  {
    (va + size - 1) / PGSIZE - va / PGSIZE + 1
  }

  lemma Still(page: seq<seq<nat>>, own: map<nat, Use>, pool: Pool, d: nat)
    requires Inv(page, own, pool)
    ensures SameMaps(page, page, own, pool) && Kept(page, page, own) && Grown(own, own, d, 0, 0)
  {
  }

  lemma PopFree(page: seq<seq<nat>>, own: map<nat, Use>, pool: Pool, head: nat, free: seq<nat>)
    requires Inv(page, own, pool) && Chain(page, head, free) && Parted(free, own, pool) && free != []
    ensures pool.lo <= free[0] < |page| && |page[free[0]]| == NENT
    ensures Inv(page, own[free[0] := Raw], pool) && Parted(free[1..], own[free[0] := Raw], pool)
    ensures Chain(page, page[free[0]][0], free[1..])
  {
    assert free[0] in free;
    AddRaw(page, own, pool, free[0]);
    hide Inv;
    var rest := free[1..];
    forall k | 0 <= k < |rest| ensures page[rest[k]][0] == Link(rest, k + 1) {
      assert rest[k] == free[k + 1] && Link(free, k + 2) == Link(rest, k + 1);
    }
    assert Link(free, 1) == Link(rest, 0);
    forall f | f in rest ensures f in free && f != free[0] {
      var k :| 0 <= k < |rest| && rest[k] == f;
      assert free[k + 1] == f;
    }
    forall f | pool.lo <= f < pool.hi ensures f in rest || f in own[free[0] := Raw] {
      if f in free && f != free[0] {
        var k :| 0 <= k < |free| && free[k] == f;
        assert rest[k - 1] == f;
      }
    }
  }

  function Overwritten(page: seq<seq<nat>>, f: nat, head: nat): (r: seq<seq<nat>>)
    requires f < |page|
    ensures |r| == |page| && |r[f]| == NENT && r == page[f := r[f]]
  {
    var filled: seq<seq<nat>> := page[f := seq<nat>(NENT, _ => JUNK)];
    SetWord(filled, f, 0, head)
  }

  lemma PushChain(page: seq<seq<nat>>, head: nat, free: seq<nat>, f: nat)
    requires Chain(page, head, free) && f < |page| && f !in free
    ensures Chain(Overwritten(page, f, head), KAddr(f), [f] + free)
  {
    var page', free' := Overwritten(page, f, head), [f] + free;
    forall k | 0 <= k < |free'| ensures page'[free'[k]][0] == Link(free', k + 1) {
      if k > 0 {
        assert free'[k] == free[k - 1] != f && Link(free', k + 1) == Link(free, k);
      } else {
        assert Link(free', 1) == Link(free, 0);
      }
    }
  }

  /** A Raw frame is freed. */
  lemma FreeRaw(page: seq<seq<nat>>, own: map<nat, Use>, pool: Pool, head: nat, free: seq<nat>, f: nat)
    requires Inv(page, own, pool) && Parted(free, own, pool) && f in own && own[f] == Raw
    ensures f < |page| && Inv(Overwritten(page, f, head), own - {f}, pool) && Parted([f] + free, own - {f}, pool)
    ensures SameMaps(page, Overwritten(page, f, head), own, pool)
  {
    var page' := Overwritten(page, f, head);
    RawPage(page, own, pool, f, page'[f]);
    DropRaw(page', own, pool, f);
    hide Inv, SameMaps;
  }

  lemma NewTable(page: seq<seq<nat>>, own: map<nat, Use>, pool: Pool, head: nat, free: seq<nat>, d: nat, i: nat, t: nat)
    requires Inv(page, own, pool) && Inv(page, own[t := Raw], pool) && t !in own && t < |page| && IsDir(own, d)
             && i < NENT && !Present(page[d][i])
    requires Chain(page, head, free) && Parted(free, own[t := Raw], pool)
    ensures var own' := own[t := Raw][t := Table(d, i)];
            var page1 := page[t := Blank()];
            var page' := SetWord(page1, d, i, MakePte(t, PTE_W + PTE_U));
            && Inv(page', own', pool) && Chain(page', head, free) && Parted(free, own', pool)
            && SameMaps(page, page', own, pool) && Kept(page, page', own) && Grown(own, own', d, 0, 0)
            && Present(page'[d][i]) && Frame(page'[d][i]) == t
  {
    hide MakePte, Frame, Flags;
    var own1, page1 := own[t := Raw], page[t := Blank()];
    RawPage(page, own1, pool, t, Blank());
    AddTable(page1, own1, pool, d, i, t);
    var page' := SetWord(page1, d, i, MakePte(t, PTE_W + PTE_U));
    hide Pte, Inv, Present;
    forall e: nat, v: nat | IsDir(own, e) && e < |page| && v < NPAGES
      ensures Pte(page', pool, e, v) == Pte(page, pool, e, v)
    {
      assert IsDir(own1, e);
    }
    assert forall k :: 0 <= k < |free| ==> free[k] !in own1;
  }

  lemma GrownMore(own: map<nat, Use>, own': map<nat, Use>, d: nat, f: nat)
    requires Grown(own, own', d, 0, 0)
    ensures Grown(own, own', d, f, 1)
  {
  }

  lemma SameAt(page: seq<seq<nat>>, page': seq<seq<nat>>, own: map<nat, Use>, pool: Pool, d: nat, v: nat)
    requires SameMaps(page, page', own, pool) && IsDir(own, d) && d < |page| && v < NPAGES
    ensures Pte(page', pool, d, v) == Pte(page, pool, d, v)
  {
  }

  lemma MapWord(page0: seq<seq<nat>>, own0: map<nat, Use>, page: seq<seq<nat>>, own: map<nat, Use>, pool: Pool,
                head: nat, free: seq<nat>, d: nat, v: nat, t: nat, f: nat, perm: nat)
    requires Inv(page, own, pool) && Chain(page, head, free) && Parted(free, own, pool)
    requires SameMaps(page0, page, own0, pool) && Kept(page0, page, own0) && Grown(own0, own, d, 0, 0)
    requires t in own && own[t] == Table(d, v / NENT) && v < NPAGES && perm < PGSIZE && !Present(page[t][v % NENT])
    requires v < KDX * NENT ==> f in own0 && own0[f] == Raw
    ensures var page' := SetWord(page, t, v % NENT, MakePte(f, perm));
            var own' := if v < KDX * NENT then own[f := User(t, v % NENT)] else own;
            && Inv(page', own', pool) && Chain(page', head, free) && Parted(free, own', pool)
            && OneMap(page0, page', own0, pool, d, v, MakePte(f, perm)) && Kept(page0, page', own0)
            && Grown(own0, own', d, f, 1)
  {
    var j := v % NENT;
    var page' := SetWord(page, t, j, MakePte(f, perm));
    SetEntry(page, own, pool, t, j, MakePte(f, perm));
    assert v / NENT * NENT + j == v;
    if v < KDX * NENT {
      SetUser(page, own, pool, t, j, f, perm);
    } else {
      SetKernel(page, own, pool, t, j, MakePte(f, perm));
    }
    hide Inv, Pte, MakePte, Present, Frame, Flags;
    assert OneMap(page0, page', own0, pool, d, v, MakePte(f, perm)) by {
      forall e: nat, u: nat | IsDir(own0, e) && e < |page0| && u < NPAGES
        ensures Pte(page', pool, e, u) == if e == d && u == v then MakePte(f, perm) else Pte(page0, pool, e, u)
      {
        assert IsDir(own, e) && Pte(page, pool, e, u) == Pte(page0, pool, e, u);
      }
    }
  }

  lemma NoneMapped(page: seq<seq<nat>>, own: map<nat, Use>, pool: Pool, d: nat, v: nat, p: nat, perm: nat)
    requires Inv(page, own, pool) && perm < PGSIZE
    ensures RangeMap(page, page, own, pool, d, v, 0, p, perm) && Kept(page, page, own)
            && Grown(own, own, d, p, 0) && Shape(page, pool)
    ensures forall e: nat :: IsDir(own, e) ==> e < |page|
  {
    hide Pte;
  }

  lemma RawNext(own0: map<nat, Use>, own: map<nat, Use>, d: nat, v: nat, n: nat, p: nat, done: nat)
    requires RawRange(own0, v, n, p) && Grown(own0, own, d, p, done) 
    ensures done < n && v + done < KDX * NENT ==> p + done in own && own[p + done] == Raw
  {
  }

  lemma GrownTrans(own: map<nat, Use>, own1: map<nat, Use>, own2: map<nat, Use>, d: nat)
    requires Grown(own, own1, d, 0, 0) && Grown(own1, own2, d, 0, 0)
    ensures Grown(own, own2, d, 0, 0)
  {
  }

  lemma KeptTrans(page: seq<seq<nat>>, own: map<nat, Use>, page1: seq<seq<nat>>, own1: map<nat, Use>,
                  page2: seq<seq<nat>>, own2: map<nat, Use>, d: nat, p: nat, n: nat)
    requires Kept(page, page1, own) && Kept(page1, page2, own1) && Grown(own, own1, d, p, n)
             && Grown(own1, own2, d, p + n, 1)
    ensures Kept(page, page2, own) && Grown(own, own2, d, p, n + 1)
    ensures forall e: nat :: IsDir(own, e) ==> IsDir(own1, e) && IsDir(own2, e)
    ensures Grown(own1, own2, d, 0, 0) ==> Grown(own, own2, d, p, n)
  {
  }

  lemma RangeNext(page: seq<seq<nat>>, page1: seq<seq<nat>>, page2: seq<seq<nat>>, own: map<nat, Use>,
                  own1: map<nat, Use>,
                  pool: Pool, d: nat, v: nat, n: nat, p: nat, perm: nat, r: MapResult)
    requires RangeMap(page, page1, own, pool, d, v, n, p, perm) && v + n < NPAGES && IsDir(own, d) && d < |page|
    requires forall e: nat :: IsDir(own, e) ==> IsDir(own1, e)
    requires r.Mapped? ==> OneMap(page1, page2, own1, pool, d, v + n, MakePte(p + n, perm))
    requires !r.Mapped? ==> SameMaps(page1, page2, own1, pool)
    ensures r.Mapped? ==> RangeMap(page, page2, own, pool, d, v, n + 1, p, perm)
    ensures !r.Mapped? ==> RangeMap(page, page2, own, pool, d, v, n, p, perm)
    ensures Pte(page1, pool, d, v + n) == Pte(page, pool, d, v + n)
  {
    hide Pte, MakePte;
  }

  // ---------- unmapping ----------

  /** The frames mapped at pages lo .. hi-1, the last page first. */
  ghost function Freed(page: seq<seq<nat>>, pool: Pool, d: nat, lo: nat, hi: nat): seq<nat>
    requires Shape(page, pool) && d < |page| && lo <= hi <= NPAGES
  {
    if lo == hi then []
    else
      var w := Pte(page, pool, d, hi - 1);
      (if Present(w) then [Frame(w)] else []) + Freed(page, pool, d, lo, hi - 1)
  }

  /** The mapped pages lo .. hi-1 of d, and no others, were unmapped. */
  ghost predicate Cleared(page: seq<seq<nat>>, page': seq<seq<nat>>, own: map<nat, Use>, pool: Pool, d: nat,
                          lo: nat, hi: nat)
  {
    && Shape(page, pool) && Shape(page', pool) && |page'| == |page|
    && forall e: nat, u: nat :: IsDir(own, e) && e < |page| && u < NPAGES ==>
         Pte(page', pool, e, u) ==
           if e == d && lo <= u < hi && Present(Pte(page, pool, e, u)) then 0 else Pte(page, pool, e, u)
  }

  /** The frames of gone were given back; the others keep their use, and user pages their words. */
  ghost predicate Shrunk(page: seq<seq<nat>>, own: map<nat, Use>, page': seq<seq<nat>>, own': map<nat, Use>,
                         gone: seq<nat>)
  {
    && own' == own - (set f | f in gone)
    && (forall f :: f in gone ==> f in own && own[f].User?)
    && Kept(page, page', own')
  }

  lemma UnmapStart(page: seq<seq<nat>>, own: map<nat, Use>, pool: Pool, d: nat, v: nat)
    requires Inv(page, own, pool) && IsDir(own, d) && v <= NPAGES
    ensures Shape(page, pool) && d < |page|
    ensures Cleared(page, page, own, pool, d, v, v) && Freed(page, pool, d, v, v) == []
            && Shrunk(page, own, page, own, [])
  {
    hide Pte;
  }

  /** A missing table: none of its pages is mapped. */
  lemma {:induction false} SkipTable(page: seq<seq<nat>>, pool: Pool, d: nat, lo: nat, v: nat, n: nat)
    requires Shape(page, pool) && d < |page| && lo <= v <= n <= NPAGES
    requires forall u :: v <= u < n ==> !Present(Pte(page, pool, d, u))
    ensures Freed(page, pool, d, lo, n) == Freed(page, pool, d, lo, v)
    decreases n
  {
    hide Pte, Present;
    if v < n {
      SkipTable(page, pool, d, lo, v, n - 1);
    }
  }

  lemma NoTable(page: seq<seq<nat>>, pool: Pool, d: nat, v: nat, u: nat)
    requires Shape(page, pool) && d < |page| && v <= u < (v / NENT + 1) * NENT && u < NPAGES
    requires v / NENT < NENT && !Present(page[d][v / NENT])
    ensures Pte(page, pool, d, u) == 0
  {
    assert u / NENT == v / NENT;
  }

  /** kfree of the frame of page v, then the entry is zeroed. */
  lemma UnmapOne(page: seq<seq<nat>>, own: map<nat, Use>, pool: Pool, head: nat, free: seq<nat>, d: nat, v: nat, t: nat)
    requires Inv(page, own, pool) && Chain(page, head, free) && Parted(free, own, pool)
    requires t in own && own[t] == Table(d, v / NENT) && v < KDX * NENT && Present(page[t][v % NENT])
    ensures var f := Frame(page[t][v % NENT]);
            && pool.lo <= f < pool.hi && f in own && own[f] == User(t, v % NENT) && f !in free && f != t
            && Pte(page, pool, d, v) == page[t][v % NENT]
            && var page1 := Overwritten(page, f, head);
            && |page1[t]| == NENT
            && var page' := SetWord(page1, t, v % NENT, 0);
            && Inv(page', own - {f}, pool) && Parted([f] + free, own - {f}, pool)
            && (Chain(page1, KAddr(f), [f] + free) ==> Chain(page', KAddr(f), [f] + free))
            && OneMap(page, page', own, pool, d, v, 0) && Kept(page, page', own - {f})
  {
    var j := v % NENT;
    var f := Frame(page[t][j]);
    ClearUser(page, own, pool, t, j);
    SetEntry(page, own, pool, t, j, 0);
    assert v / NENT * NENT + j == v;
    assert HasTable(page, own, t);
    assert Pte(page, pool, d, v) == page[t][j];
    var page2, own2 := SetWord(page, t, j, 0), own[f := Raw];
    assert Parted(free, own2, pool);
    FreeRaw(page2, own2, pool, head, free, f);
    assert own2 - {f} == own - {f};
    var page1 := Overwritten(page, f, head);
    assert SetWord(page1, t, j, 0) == Overwritten(page2, f, head);
    hide Inv, Pte, Present, Frame;
    assert OneMap(page, Overwritten(page2, f, head), own, pool, d, v, 0) by {
      assert forall e: nat :: IsDir(own, e) ==> IsDir(own2, e);
    }
    assert t !in free;
  }

  lemma UnmapNext(page: seq<seq<nat>>, own: map<nat, Use>, page1: seq<seq<nat>>, own1: map<nat, Use>,
                  page2: seq<seq<nat>>,
                  pool: Pool, d: nat, lo: nat, v: nat)
    requires lo <= v < NPAGES && IsDir(own, d) && d < |page| && Cleared(page, page1, own, pool, d, lo, v)
    requires Shrunk(page, own, page1, own1, Freed(page, pool, d, lo, v)) && Present(Pte(page1, pool, d, v))
    requires OneMap(page1, page2, own1, pool, d, v, 0)
    requires var f := Frame(Pte(page1, pool, d, v)); f in own1 && own1[f].User? && Kept(page1, page2, own1 - {f})
    ensures var f := Frame(Pte(page1, pool, d, v));
            && Cleared(page, page2, own, pool, d, lo, v + 1)
            && Freed(page, pool, d, lo, v + 1) == [f] + Freed(page, pool, d, lo, v)
            && Shrunk(page, own, page2, own1 - {f}, Freed(page, pool, d, lo, v + 1))
  {
    hide Pte, Present, Frame;
    assert forall e: nat :: IsDir(own, e) ==> IsDir(own1, e);
    assert Pte(page1, pool, d, v) == Pte(page, pool, d, v);
  }

  function Min(a: nat, b: nat): nat {
    if a < b then a else b
  }

  /** PGROUNDUP, as a page number. */
  function Up(sz: nat): nat {
    (sz + PGSIZE - 1) / PGSIZE
  }

  /** The last page of a 4 MB region is no page of the next. */
  lemma RegionEnd(v: nat)
    requires v < KDX * NENT
    ensures v < (v / NENT + 1) * NENT <= KDX * NENT && v / NENT < NENT
    ensures (v / NENT + 1) * 0x40_0000 == (v / NENT + 1) * NENT * PGSIZE
  {
  }

  /** Pages v .. next-1 are not mapped: passing over them changes nothing. */
  lemma SkipRange(page: seq<seq<nat>>, page1: seq<seq<nat>>, own: map<nat, Use>, pool: Pool, d: nat, lo: nat,
                  v: nat, next: nat, hi: nat)
    requires IsDir(own, d) && d < |page| && lo <= v < hi <= NPAGES && v < next <= NPAGES
             && Cleared(page, page1, own, pool, d, lo, v)
    requires forall u :: v <= u < next ==> !Present(Pte(page1, pool, d, u))
    ensures Cleared(page, page1, own, pool, d, lo, Min(next, hi))
    ensures Freed(page, pool, d, lo, Min(next, hi)) == Freed(page, pool, d, lo, v)
  {
    hide Pte;
    assert forall u :: v <= u < next ==> Pte(page1, pool, d, u) == Pte(page, pool, d, u);
    hide Present;
    SkipTable(page, pool, d, lo, v, Min(next, hi));
  }

  // ---------- giving back a whole address space ----------

  ghost predicate TableOf(own: map<nat, Use>, f: nat, d: nat) {
    f in own && own[f].Table? && own[f].dir == d
  }

  ghost predicate UserOf(own: map<nat, Use>, f: nat, d: nat) {
    f in own && own[f].User? && TableOf(own, own[f].tab, d)
  }

  /** The frames of the address space of d: the directory, its tables and its user pages. */
  ghost function SpaceOf(own: map<nat, Use>, d: nat): set<nat> {
    set f | f in own && (f == d || TableOf(own, f, d) || UserOf(own, f, d))
  }

  /** Every directory but d maps what it mapped before. */
  ghost predicate OtherMaps(page: seq<seq<nat>>, page': seq<seq<nat>>, own: map<nat, Use>, pool: Pool, d: nat) {
    && Shape(page, pool) && Shape(page', pool) && |page'| == |page|
    && forall e: nat, u: nat :: IsDir(own, e) && e != d && e < |page| && u < NPAGES ==>
        Pte(page', pool, e, u) == Pte(page, pool, e, u)
  }

  lemma {:induction false} InFreed(page: seq<seq<nat>>, pool: Pool, d: nat, lo: nat, hi: nat, f: nat)
    requires Shape(page, pool) && d < |page| && lo <= hi <= NPAGES
    ensures f in Freed(page, pool, d, lo, hi) <==>
              exists u: nat :: lo <= u < hi && Present(Pte(page, pool, d, u)) && Frame(Pte(page, pool, d, u)) == f
    decreases hi
  {
    hide Pte, Present, Frame;
    if lo < hi {
      InFreed(page, pool, d, lo, hi - 1, f);
    }
  }

  /** What a user page is in terms of its directory. */
  lemma UserAt(page: seq<seq<nat>>, own: map<nat, Use>, pool: Pool, d: nat, f: nat)
    requires Inv(page, own, pool) && IsDir(own, d)
    ensures UserOf(own, f, d) <==>
              exists u: nat :: u < KDX * NENT && Present(Pte(page, pool, d, u)) && Frame(Pte(page, pool, d, u)) == f
  {
    if UserOf(own, f, d) {
      var t, j := own[f].tab, own[f].slot;
      assert HasUser(page, own, f) && HasTable(page, own, t);
      var u := own[t].idx * NENT + j;
      assert u / NENT == own[t].idx && u % NENT == j;
      assert Pte(page, pool, d, u) == page[t][j];
    }
    if u: nat :| u < KDX * NENT && Present(Pte(page, pool, d, u)) && Frame(Pte(page, pool, d, u)) == f {
      var i := u / NENT;
      assert Present(page[d][i]);
      var t := Frame(page[d][i]);
      assert own[t] == Table(d, i);
      assert Present(page[t][u % NENT]);
    }
  }

  /** After deallocuvm of everything below KERNBASE no user page of d is left, and those freed were
      all there were. */
  lemma UsersGone(page: seq<seq<nat>>, own: map<nat, Use>, page1: seq<seq<nat>>, own1: map<nat, Use>, pool: Pool,
                  d: nat)
    requires Inv(page, own, pool) && Inv(page1, own1, pool) && IsDir(own, d) && IsDir(own1, d) && d < |page|
    requires Cleared(page, page1, own, pool, d, 0, KDX * NENT)
    requires Shrunk(page, own, page1, own1, Freed(page, pool, d, 0, KDX * NENT))
    ensures forall f :: f in own ==> (f in own1 <==> !UserOf(own, f, d))
    ensures forall f :: f in own1 ==> f in own && own1[f] == own[f]
    ensures forall f :: !UserOf(own1, f, d)
    ensures OtherMaps(page, page1, own, pool, d) && Kept(page, page1, own1)
  {
    forall f: nat ensures f in Freed(page, pool, d, 0, KDX * NENT) <==> UserOf(own, f, d) {
      InFreed(page, pool, d, 0, KDX * NENT, f);
      UserAt(page, own, pool, d, f);
    }
    forall f: nat ensures !UserOf(own1, f, d) {
      UserAt(page1, own1, pool, d, f);
      assert forall u: nat :: u < KDX * NENT ==> !Present(Pte(page1, pool, d, u)) by {
        hide Pte, Inv;
      }
    }
    hide Pte, Inv, Freed;
  }

  /** The uses while freevm runs: d and its tables are Raw, and tables below entry i are gone. */
  ghost function Left(own: map<nat, Use>, d: nat, i: nat): map<nat, Use> {
    map f | f in own && !(TableOf(own, f, d) && own[f].idx < i) :: if f == d || TableOf(own, f, d) then Raw else own[f]
  }

  lemma LeftZero(own: map<nat, Use>, d: nat)
    ensures Left(own, d, 0).Keys == own.Keys
    ensures forall f :: f in own ==> Left(own, d, 0)[f] == if f == d || TableOf(own, f, d) then Raw else own[f]
  {
  }

  lemma ReleaseInv(page: seq<seq<nat>>, own: map<nat, Use>, pool: Pool, free: seq<nat>, d: nat)
    requires Inv(page, own, pool) && IsDir(own, d) && Parted(free, own, pool) && forall f :: !UserOf(own, f, d)
    ensures Inv(page, Left(own, d, 0), pool) && Parted(free, Left(own, d, 0), pool)
  {
    var own' := Left(own, d, 0);
    LeftZero(own, d);
    hide Left;
    ReleaseUses(page, own, own', pool, d);
    hide Present, Frame;
    forall e: nat, i: nat | IsDir(own', e) && i < NENT && Present(page[e][i])
      ensures Frame(page[e][i]) in own' && own'[Frame(page[e][i])] == Table(e, i)
    {
      assert IsDir(own, e) && own[Frame(page[e][i])] == Table(e, i);
    }
    forall t: nat, j: nat | IsUserTable(own', t) && j < NENT && Present(page[t][j])
      ensures Frame(page[t][j]) in own' && own'[Frame(page[t][j])] == User(t, j)
    {
      assert IsUserTable(own, t) && own[Frame(page[t][j])] == User(t, j);
    }
  }

  lemma ReleaseUses(page: seq<seq<nat>>, own: map<nat, Use>, own': map<nat, Use>, pool: Pool, d: nat)
    requires Inv(page, own, pool) && IsDir(own, d) && (forall f :: !UserOf(own, f, d)) && own'.Keys == own.Keys
    requires forall f :: f in own ==> own'[f] == if f == d || TableOf(own, f, d) then Raw else own[f]
    ensures forall f :: f in own' && own'[f].Table? ==> HasTable(page, own', f)
    ensures forall f :: f in own' && own'[f].User? ==> HasUser(page, own', f)
  {
    forall f | f in own' && own'[f].Table? ensures HasTable(page, own', f) {
      assert HasTable(page, own, f);
    }
    forall f | f in own' && own'[f].User? ensures HasUser(page, own', f) {
      assert HasUser(page, own, f) && !UserOf(own, f, d);
    }
  }

  lemma TableLeft(page: seq<seq<nat>>, own: map<nat, Use>, pool: Pool, d: nat, i: nat)
    requires Inv(page, own, pool) && IsDir(own, d) && i < NENT
    ensures d < |page| && |page[d]| == NENT
    ensures var pde := page[d][i];
            var t := Frame(pde);
            if Present(pde) then
              && pool.lo <= t < pool.hi && t in own && own[t] == Table(d, i) && t != d && t in Left(own, d, i)
              && Left(own, d, i)[t] == Raw
              && Left(own, d, i + 1) == Left(own, d, i) - {t}
            else Left(own, d, i + 1) == Left(own, d, i)
  {
    var pde := page[d][i];
    forall f | TableOf(own, f, d) && own[f].idx == i ensures Present(pde) && Frame(pde) == f {
      assert HasTable(page, own, f);
    }
    if Present(pde) {
      assert own[Frame(pde)] == Table(d, i);
    }
    hide Inv, Present, Frame;
  }

  lemma AllLeft(page: seq<seq<nat>>, own: map<nat, Use>, pool: Pool, d: nat)
    requires Inv(page, own, pool) && IsDir(own, d) && forall f :: !UserOf(own, f, d)
    ensures d in Left(own, d, NENT) && Left(own, d, NENT)[d] == Raw && Left(own, d, NENT) - {d} == own - SpaceOf(own, d)
  {
    forall f | TableOf(own, f, d) ensures own[f].idx < NENT {
      assert HasTable(page, own, f);
    }
    hide Inv;
  }

  lemma SpaceGone(own: map<nat, Use>, own1: map<nat, Use>, d: nat)
    requires forall f :: f in own ==> (f in own1 <==> !UserOf(own, f, d))
    requires forall f :: f in own1 ==> f in own && own1[f] == own[f]
    requires forall f :: !UserOf(own1, f, d)
    ensures own1 - SpaceOf(own1, d) == own - SpaceOf(own, d)
  {
  }

  /** One frame of the address space of d goes back while freevm runs. */
  lemma FreeNext(page0: seq<seq<nat>>, own0: map<nat, Use>, page: seq<seq<nat>>, own: map<nat, Use>, pool: Pool,
                 head: nat, free: seq<nat>, d: nat, f: nat)
    requires Inv(page, own, pool) && Parted(free, own, pool) && f in own && own[f] == Raw
    requires OtherMaps(page0, page, own0, pool, d) && (forall e: nat :: IsDir(own0, e) && e != d ==> IsDir(own, e))
    requires forall g :: g in own0 && g < |page0| && !own0[g].Dir? && !own0[g].Table? ==> g != f && page[g] == page0[g]
    ensures f < |page| && Inv(Overwritten(page, f, head), own - {f}, pool) && Parted([f] + free, own - {f}, pool)
    ensures OtherMaps(page0, Overwritten(page, f, head), own0, pool, d)
    ensures forall g :: g in own0 && g < |page0| && !own0[g].Dir? && !own0[g].Table? ==>
              Overwritten(page, f, head)[g] == page0[g]
  {
    FreeRaw(page, own, pool, head, free, f);
    hide Inv, Pte;
  }

  lemma NotFree(page: seq<seq<nat>>, own: map<nat, Use>, pool: Pool, free: seq<nat>, f: nat)
    requires Inv(page, own, pool) && Parted(free, own, pool) && f in own
    ensures f !in free && Shape(page, pool) && pool.lo <= f < pool.hi
  {
  }

  lemma LeftDirs(page: seq<seq<nat>>, own: map<nat, Use>, pool: Pool, d: nat, i: nat)
    requires Inv(page, own, pool) && IsDir(own, d)
    ensures d < |page| && |page[d]| == NENT && OtherMaps(page, page, own, pool, d)
    ensures forall e: nat :: IsDir(own, e) && e != d ==> IsDir(Left(own, d, i), e)
    ensures forall f :: f in Left(own, d, i) && (f == d || TableOf(own, f, d)) ==> own[f].Dir? || own[f].Table?
  {
    hide Pte;
  }

  lemma FreedAll(page0: seq<seq<nat>>, own0: map<nat, Use>, pageA: seq<seq<nat>>, ownA: map<nat, Use>,
                 page: seq<seq<nat>>, pool: Pool, d: nat)
    requires OtherMaps(page0, pageA, own0, pool, d) && Kept(page0, pageA, ownA)
    requires OtherMaps(pageA, page, ownA, pool, d)
    requires forall g :: g in ownA && g < |pageA| && !ownA[g].Dir? && !ownA[g].Table? ==> page[g] == pageA[g]
    requires forall f :: f in own0 ==> (f in ownA <==> !UserOf(own0, f, d))
    requires forall f :: f in ownA ==> f in own0 && ownA[f] == own0[f]
    ensures OtherMaps(page0, page, own0, pool, d) && Kept(page0, page, own0 - SpaceOf(own0, d))
  {
    hide Pte;
    assert forall e: nat :: IsDir(own0, e) ==> IsDir(ownA, e);
  }

  // ---------- growing ----------

  ghost predicate Unmapped(page: seq<seq<nat>>, pool: Pool, d: nat, lo: nat, hi: nat) {
    Shape(page, pool) && d < |page| && forall u: nat :: lo <= u < hi && u < NPAGES ==> !Present(Pte(page, pool, d, u))
  }

  ghost predicate MapsTo(page: seq<seq<nat>>, pool: Pool, d: nat, u: nat, f: nat)
    requires Shape(page, pool) && d < |page| && u < NPAGES
  {
    Present(Pte(page, pool, d, u)) && Frame(Pte(page, pool, d, u)) == f
  }

  /** The flags and the words a new page is to have. */
  datatype Cell = Cell(flags: nat, words: seq<nat>)

  /** Page u of d is mapped to a frame that was free, with the flags and words of img. */
  ghost predicate NewPage(page: seq<seq<nat>>, own0: map<nat, Use>, pool: Pool, d: nat, u: nat, img: seq<Cell>)
    requires Shape(page, pool) && d < |page| && u < NPAGES
  {
    var w := Pte(page, pool, d, u);
    && u < |img| && Present(w) && Flags(w) == img[u].flags
    && Frame(w) !in own0 && Frame(w) < |page| && page[Frame(w)] == img[u].words
  }

  /** Pages lo .. v-1 of d are new; every other page is mapped as before, every frame has its old use
      and words, and the frames taken are new pages, page tables or in extra. */
  ghost predicate Added(page0: seq<seq<nat>>, own0: map<nat, Use>, page: seq<seq<nat>>, own: map<nat, Use>, pool: Pool,
                        d: nat, lo: nat, v: nat, extra: set<nat>, img: seq<Cell>)
  {
    && Shape(page0, pool) && Shape(page, pool) && |page| == |page0| && lo <= v <= NPAGES && d < |page|
    && (forall e: nat, u: nat :: IsDir(own0, e) && e < |page| && u < NPAGES && !(e == d && lo <= u < v) ==>
          Pte(page, pool, e, u) == Pte(page0, pool, e, u))
    && (forall u: nat :: lo <= u < v ==> NewPage(page, own0, pool, d, u, img))
    && (forall f :: f in own0 ==> f in own && own[f] == own0[f])
    && (forall f :: f in own && f !in own0 ==>
          || (own[f].Table? && own[f].dir == d) || f in extra
          || exists u: nat :: lo <= u < v && MapsTo(page, pool, d, u, f))
    && Kept(page0, page, own0)
  }

  lemma AddedStart(page: seq<seq<nat>>, own: map<nat, Use>, pool: Pool, d: nat, lo: nat, img: seq<Cell>)
    requires Inv(page, own, pool) && IsDir(own, d) && lo <= NPAGES
    ensures Added(page, own, page, own, pool, d, lo, lo, {}, img)
  {
    hide Pte;
  }

  lemma AddedBelow(page0: seq<seq<nat>>, own0: map<nat, Use>, page: seq<seq<nat>>, own: map<nat, Use>, pool: Pool,
                   d: nat, lo: nat, v: nat, img: seq<Cell>)
    requires Added(page0, own0, page, own, pool, d, lo, v, {}, img)
    ensures d < |page|
  {
  }

  /** A new page stays new while its entry and its frame's words stay. */
  lemma NewStays(page: seq<seq<nat>>, own: map<nat, Use>, page': seq<seq<nat>>, own0: map<nat, Use>, pool: Pool,
                 d: nat, u: nat, img: seq<Cell>)
    requires Inv(page, own, pool) && IsDir(own, d) && u < KDX * NENT && NewPage(page, own0, pool, d, u, img)
    requires Shape(page', pool) && Kept(page, page', own) && Pte(page', pool, d, u) == Pte(page, pool, d, u)
    ensures NewPage(page', own0, pool, d, u, img)
  {
    var f := Frame(Pte(page, pool, d, u));
    UserAt(page, own, pool, d, f);
    hide Inv, Pte, Present, Frame;
  }

  /** From v to v' pages: the new entries are new pages, the others stay, and every frame taken since
      is accounted for. */
  lemma AddedMore(page0: seq<seq<nat>>, own0: map<nat, Use>, page: seq<seq<nat>>, own: map<nat, Use>,
                  page': seq<seq<nat>>, own': map<nat, Use>, pool: Pool, d: nat, lo: nat, v: nat, v': nat,
                    extra: set<nat>, extra': set<nat>, img: seq<Cell>)
    requires Added(page0, own0, page, own, pool, d, lo, v, extra, img) && v <= v' <= KDX * NENT && IsDir(own0, d)
    requires Inv(page, own, pool) && Shape(page', pool) && Kept(page, page', own)
    requires forall e: nat, u: nat :: IsDir(own0, e) && e < |page| && u < NPAGES && !(e == d && v <= u < v') ==>
               Pte(page', pool, e, u) == Pte(page, pool, e, u)
    requires forall u: nat :: v <= u < v' ==> NewPage(page', own0, pool, d, u, img)
    requires forall f :: f in own0 ==> f in own' && own'[f] == own[f]
    requires forall f :: f in own' && f !in own0 ==>
               || (own'[f].Table? && own'[f].dir == d) || f in extra' || (f in own && f !in extra && own'[f] == own[f])
               || exists u: nat :: v <= u < v' && MapsTo(page', pool, d, u, f)
    ensures Added(page0, own0, page', own', pool, d, lo, v', extra', img)
  {
    forall u: nat | lo <= u < v ensures NewPage(page', own0, pool, d, u, img) {
      NewStays(page, own, page', own0, pool, d, u, img);
    }
    forall f | f in own' && f !in own0
      ensures || (own'[f].Table? && own'[f].dir == d) || f in extra'
              || exists u: nat :: lo <= u < v' && MapsTo(page', pool, d, u, f)
    {
      if !(own'[f].Table? && own'[f].dir == d) && f !in extra' {
        if u: nat :| v <= u < v' && MapsTo(page', pool, d, u, f) {
        } else {
          var u: nat :| lo <= u < v && MapsTo(page, pool, d, u, f);
          assert MapsTo(page', pool, d, u, f);
        }
      }
    }
    hide Inv, Pte, Present, Frame, Flags, NewPage, MapsTo;
  }

  lemma ChainElse(page: seq<seq<nat>>, head: nat, free: seq<nat>, f: nat, x: seq<nat>)
    requires Chain(page, head, free) && f < |page| && f !in free
    ensures Chain(page[f := x], head, free)
  {
  }

  /** kalloc, then the frame is filled: a Raw frame with the words of the next page. */
  lemma LoadRaw(page0: seq<seq<nat>>, own0: map<nat, Use>, page: seq<seq<nat>>, own: map<nat, Use>, pool: Pool,
                head: nat, free: seq<nat>, d: nat, lo: nat, v: nat, mem: nat, words: seq<nat>, img: seq<Cell>)
    requires Added(page0, own0, page, own, pool, d, lo, v, {}, img) && Inv(page, own, pool)
             && Inv(page, own[mem := Raw], pool)
    requires mem !in own && mem < |page| && Chain(page, head, free) && Parted(free, own[mem := Raw], pool)
             && IsDir(own0, d)
    requires v <= KDX * NENT && |words| == NENT
    ensures var page1, own1 := page[mem := words], own[mem := Raw];
            && Inv(page1, own1, pool) && Chain(page1, head, free)
            && Added(page0, own0, page1, own1, pool, d, lo, v, {mem}, img) && IsDir(own1, d) && mem !in own0
  {
    var page1, own1 := page[mem := words], own[mem := Raw];
    RawPage(page, own1, pool, mem, words);
    ChainElse(page, head, free, mem, words);
    hide Inv, Pte, Present, Frame, Flags, MapsTo, NewPage, Chain, Parted;
    assert forall e: nat :: IsDir(own0, e) ==> IsDir(own1, e);
    AddedMore(page0, own0, page, own, page1, own1, pool, d, lo, v, v, {}, {mem}, img);
  }

  /** mappages of one page: the frame is the next new page, or no memory was left. */
  lemma AddedNext(page0: seq<seq<nat>>, own0: map<nat, Use>, page1: seq<seq<nat>>, own1: map<nat, Use>,
                  page2: seq<seq<nat>>, own2: map<nat, Use>, pool: Pool, d: nat, lo: nat, v: nat, mem: nat, perm: nat,
                  done: nat, img: seq<Cell>)
    requires Added(page0, own0, page1, own1, pool, d, lo, v, {mem}, img) && v < KDX * NENT && IsDir(own0, d)
             && done <= 1
    requires Inv(page1, own1, pool) && mem in own1 && own1[mem] == Raw && mem !in own0
    requires RangeMap(page1, page2, own1, pool, d, v, done, mem, perm) && Kept(page1, page2, own1)
             && Grown(own1, own2, d, mem, done)
    requires v < |img| && mem < |page1| && page1[mem] == img[v].words
             && img[v].flags == if perm % 2 == 1 then perm else perm + 1
    ensures Added(page0, own0, page2, own2, pool, d, lo, v + done, if done == 1 then {} else {mem}, img)
    ensures IsDir(own1, d) ==> IsDir(own2, d)
    ensures done == 0 ==> mem in own2 && own2[mem] == Raw
  {
    hide Inv, Pte, Present, Frame, Flags;
    assert forall e: nat :: IsDir(own0, e) ==> IsDir(own1, e);
    if done == 1 {
      assert Pte(page2, pool, d, v) == MakePte(mem, perm);
      assert NewPage(page2, own0, pool, d, v, img) && MapsTo(page2, pool, d, v, mem);
    }
    forall f | f in own2 && f !in own0 && f != mem
      ensures (own2[f].Table? && own2[f].dir == d) || (f in own1 && own2[f] == own1[f])
    {
    }
    hide NewPage, MapsTo;
    assert done == 1 ==> exists u: nat :: v <= u < v + done && MapsTo(page2, pool, d, u, mem);
    var extra := if done == 1 then {} else {mem};
    AddedMore(page0, own0, page1, own1, page2, own2, pool, d, lo, v, v + done, {mem}, extra, img);
  }

  /** Every translation is as it was. */
  ghost predicate SameTranslations(page: seq<seq<nat>>, page': seq<seq<nat>>, own: map<nat, Use>, pool: Pool) {
    && Shape(page, pool) && Shape(page', pool) && |page'| == |page|
    && forall e: nat, u: nat :: IsDir(own, e) && e < |page| && u < NPAGES ==>
         && (Present(Pte(page', pool, e, u)) <==> Present(Pte(page, pool, e, u)))
         && (Present(Pte(page, pool, e, u)) ==> Pte(page', pool, e, u) == Pte(page, pool, e, u))
  }

  /** Translations, uses and words are as before; frames were taken for page tables only, or are in
      extra. */
  ghost predicate Restored(page0: seq<seq<nat>>, own0: map<nat, Use>, page: seq<seq<nat>>, own: map<nat, Use>,
                           pool: Pool, extra: set<nat>)
  {
    && SameTranslations(page0, page, own0, pool)
    && (forall f :: f in own0 ==> f in own && own[f] == own0[f])
    && (forall f :: f in own && f !in own0 ==> own[f].Table? || f in extra)
    && Kept(page0, page, own0)
  }

  /** Growing by new pages, then deallocuvm of the whole range, restores everything. */
  lemma UndoAdded(page0: seq<seq<nat>>, own0: map<nat, Use>, page: seq<seq<nat>>, own: map<nat, Use>,
                  page': seq<seq<nat>>, own': map<nat, Use>, pool: Pool, d: nat, lo: nat, v: nat, hi: nat,
                    extra: set<nat>, img: seq<Cell>)
    requires Added(page0, own0, page, own, pool, d, lo, v, extra, img) && v <= hi <= NPAGES && IsDir(own0, d)
    requires forall u: nat :: lo <= u < hi ==> !Present(Pte(page0, pool, d, u))
    requires Cleared(page, page', own, pool, d, lo, hi) && Shrunk(page, own, page', own', Freed(page, pool, d, lo, hi))
    ensures Restored(page0, own0, page', own', pool, extra)
  {
    hide Pte, Frame, Flags, Freed;
    assert forall e: nat :: IsDir(own0, e) ==> IsDir(own, e);
    forall f | f in own ensures f in Freed(page, pool, d, lo, hi) ==> f !in own0 {
      InFreed(page, pool, d, lo, hi, f);
      if u: nat :| lo <= u < hi && Present(Pte(page, pool, d, u)) && Frame(Pte(page, pool, d, u)) == f {
        if u < v {
          assert NewPage(page, own0, pool, d, u, img);
        }
      }
    }
    forall f | f in own && f !in own0 ensures own[f].Table? || f in extra || f in Freed(page, pool, d, lo, hi) {
      InFreed(page, pool, d, lo, hi, f);
      if u: nat :| lo <= u < v && MapsTo(page, pool, d, u, f) {
      }
    }
    assert SameTranslations(page0, page', own0, pool);
  }

  /** Zeroed, writable user pages below hi. */
  ghost function Blanks(hi: nat): seq<Cell> {
    seq(hi, _ => Cell(PTE_W + PTE_U + 1, Blank()))
  }

  lemma RestoredStart(page: seq<seq<nat>>, own: map<nat, Use>, pool: Pool)
    requires Inv(page, own, pool)
    ensures Restored(page, own, page, own, pool, {})
  {
    hide Pte;
  }

  lemma OneRaw(own: map<nat, Use>, v: nat, f: nat)
    requires f in own && own[f] == Raw
    ensures RawRange(own, v, 1, f) && f * PGSIZE % PGSIZE == 0 && f * PGSIZE / PGSIZE == f
  {
  }

  /** The next page is still unmapped. */
  lemma StillFree(page0: seq<seq<nat>>, own0: map<nat, Use>, page: seq<seq<nat>>, own: map<nat, Use>, pool: Pool,
                  d: nat, lo: nat, v: nat, extra: set<nat>, img: seq<Cell>)
    requires Added(page0, own0, page, own, pool, d, lo, v, extra, img) && v < NPAGES && IsDir(own0, d)
    ensures Pte(page, pool, d, v) == Pte(page0, pool, d, v)
  {
    hide Pte;
  }

  lemma RestoredRaw(page0: seq<seq<nat>>, own0: map<nat, Use>, page: seq<seq<nat>>, own: map<nat, Use>, pool: Pool,
                    head: nat, free: seq<nat>, f: nat)
    requires Restored(page0, own0, page, own, pool, {f}) && f in own && own[f] == Raw && f !in own0
    requires Inv(page, own, pool) && Parted(free, own, pool)
    ensures f < |page| && Inv(Overwritten(page, f, head), own - {f}, pool) && Parted([f] + free, own - {f}, pool)
    ensures Restored(page0, own0, Overwritten(page, f, head), own - {f}, pool, {})
  {
    FreeRaw(page, own, pool, head, free, f);
    hide Inv, Pte;
    assert forall e: nat :: IsDir(own0, e) ==> IsDir(own, e);
  }

  // ---------- new address spaces ----------

  /** A row of kmap: virt .. is mapped to start .. end. */
  datatype KMap = KMap(virt: nat, start: nat, end: nat, perm: nat)

  const EXTMEM: nat := 0x10_0000
  const PHYSTOP: nat := 0xE00_0000
  const DEVSPACE: nat := 0xFE00_0000

  /** kmap; data is where the kernel's data section starts. */
  function Kmaps(data: nat): (rows: seq<KMap>)
    ensures |rows| == 4
  {
    [KMap(KERNBASE, 0, EXTMEM, PTE_W), KMap(KERNBASE + EXTMEM, EXTMEM, data, 0),
     KMap(KERNBASE + data, data, PHYSTOP, PTE_W), KMap(DEVSPACE, DEVSPACE, 0, PTE_W)]
  }

  /** phys_end - phys_start in 32 bits. */
  function KSize(k: KMap): nat {
    (k.end - k.start) % 0x1_0000_0000
  }

  /** Where the linker script puts the data section. */
  predicate DataOk(data: nat) {
    data % PGSIZE == 0 && EXTMEM < data < PHYSTOP
  }

  /** The entry the first n rows give page u. */
  ghost function KPte(data: nat, n: nat, u: nat): nat
    requires n <= 4 && DataOk(data)
  {
    if n == 0 then 0
    else
      var k := Kmaps(data)[n - 1];
      if k.virt / PGSIZE <= u < (k.virt + KSize(k)) / PGSIZE
      then MakePte(k.start / PGSIZE + (u - k.virt / PGSIZE), k.perm)
      else KPte(data, n - 1, u)
  }

  /** The kernel half: physical memory at KERNBASE, the text read-only, and the devices in place. */
  lemma KernelHalf(data: nat, u: nat)
    requires DataOk(data) && u < NPAGES
    ensures KPte(data, 4, u) ==
              if 0x80000 <= u < 0x8E000
              then MakePte(u - 0x80000, if 0x100 <= u - 0x80000 < data / PGSIZE then 0 else PTE_W)
              else if 0xFE000 <= u then MakePte(u, PTE_W)
              else 0
  {
    var ks := Kmaps(data);
    assert KSize(ks[0]) == EXTMEM && KSize(ks[1]) == data - EXTMEM && KSize(ks[2]) == PHYSTOP - data
           && KSize(ks[3]) == 0x200_0000;
    assert (KERNBASE + data) / PGSIZE == 0x80000 + data / PGSIZE;
    hide MakePte;
    assert KPte(data, 1, u) == if 0x80000 <= u < 0x80100 then MakePte(u - 0x80000, PTE_W) else 0;
    assert KPte(data, 2, u) == if 0x80100 <= u < 0x80000 + data / PGSIZE then MakePte(u - 0x80000, 0)
           else KPte(data, 1, u);
    assert KPte(data, 3, u) == if 0x80000 + data / PGSIZE <= u < 0x8E000 then MakePte(u - 0x80000, PTE_W)
           else KPte(data, 2, u);
    assert KPte(data, 4, u) == if 0xFE000 <= u < 0x100000 then MakePte(u, PTE_W) else KPte(data, 3, u);
  }

  // ---------- access rights ----------

  predicate Has(w: nat, bit: nat)
    requires bit > 0
  {
    Flags(w) / bit % 2 == 1
  }

  /** The hardware lets page v be written (PTE_W) or used from user mode (PTE_U): both levels say so. */
  ghost predicate Allows(page: seq<seq<nat>>, pool: Pool, d: nat, v: nat, bit: nat)
    requires Shape(page, pool) && d < |page| && v < NPAGES && bit > 0
  {
    && Present(page[d][v / NENT]) && Has(page[d][v / NENT], bit)
    && Present(Pte(page, pool, d, v)) && Has(Pte(page, pool, d, v), bit)
  }

  lemma AllSet(w: nat)
    requires Flags(w) == PTE_P + PTE_W + PTE_U
    ensures Has(w, PTE_W) && Has(w, PTE_U)
  {
    hide Flags;
  }

  /** In every address space a page is writable, and usable from user mode, exactly when its own entry says so. */
  lemma RightsAre(page: seq<seq<nat>>, own: map<nat, Use>, pool: Pool, d: nat, v: nat)
    requires Inv(page, own, pool) && IsDir(own, d) && v < NPAGES
    ensures var w := Pte(page, pool, d, v);
            && (Allows(page, pool, d, v, PTE_W) <==> Present(w) && Has(w, PTE_W))
            && (Allows(page, pool, d, v, PTE_U) <==> Present(w) && Has(w, PTE_U))
  {
    var pde := page[d][v / NENT];
    if Present(pde) {
      AllSet(pde);
    } else {
      assert !Present(0);
    }
    hide Has;
  }

  lemma MadeRights(f: nat, perm: nat)
    requires perm == 0 || perm == PTE_W || perm == PTE_W + PTE_U
    ensures var w := MakePte(f, perm);
            Present(w) && (Has(w, PTE_W) <==> perm != 0) && (Has(w, PTE_U) <==> perm == PTE_W + PTE_U)
  {
    hide MakePte, Flags;
    assert Flags(MakePte(f, perm)) == perm + 1;
  }

  /** No page of the kernel half can be used from user mode, and the kernel text cannot be written. */
  lemma KernelRights(page: seq<seq<nat>>, own: map<nat, Use>, pool: Pool, d: nat, data: nat, u: nat)
    requires Inv(page, own, pool) && IsDir(own, d) && DataOk(data) && u < NPAGES
    requires Pte(page, pool, d, u) == KPte(data, 4, u)
    ensures !Allows(page, pool, d, u, PTE_U)
    ensures Allows(page, pool, d, u, PTE_W) <==>
              (0x80000 <= u < 0x8E000 && !(0x80100 <= u < 0x80000 + data / PGSIZE)) || 0xFE000 <= u
  {
    RightsAre(page, own, pool, d, u);
    KernelHalf(data, u);
    hide Inv, Allows, Has, MakePte, KPte, Pte, Present;
    if 0x80000 <= u < 0x8E000 {
      MadeRights(u - 0x80000, if 0x100 <= u - 0x80000 < data / PGSIZE then 0 else PTE_W);
    } else if 0xFE000 <= u {
      MadeRights(u, PTE_W);
    } else {
      NothingThere();
    }
  }

  lemma NothingThere()
    ensures !Present(0)
  {
  }

  /** The rows are whole pages, in the kernel half, in order. */
  lemma RowOk(data: nat, n: nat)
    requires DataOk(data) && n < 4
    ensures var k := Kmaps(data)[n];
            && KERNBASE <= k.virt && k.virt % PGSIZE == 0 && k.start % PGSIZE == 0 && KSize(k) > 0
            && KSize(k) % PGSIZE == 0
            && k.virt + KSize(k) <= 0x1_0000_0000 && k.perm < PGSIZE && Pages(k.virt, KSize(k)) == KSize(k) / PGSIZE
            && forall u :: k.virt / PGSIZE <= u < NPAGES ==> KPte(data, n, u) == 0
  {
    var k := Kmaps(data)[n];
    RowShape(data, n);
    hide MakePte, KSize, KPte;
    forall u | k.virt / PGSIZE <= u < NPAGES ensures KPte(data, n, u) == 0 {
      RowsBelow(data, n, u);
    }
  }

  lemma RowShape(data: nat, n: nat)
    requires DataOk(data) && n < 4
    ensures var k := Kmaps(data)[n];
            && KERNBASE <= k.virt && k.virt % PGSIZE == 0 && k.start % PGSIZE == 0 && KSize(k) > 0
            && KSize(k) % PGSIZE == 0
            && k.virt + KSize(k) <= 0x1_0000_0000 && k.perm < PGSIZE && Pages(k.virt, KSize(k)) == KSize(k) / PGSIZE
  {
    var k := Kmaps(data)[n];
    assert KSize(k) == if n == 0 then EXTMEM else if n == 1 then data - EXTMEM else if n == 2 then PHYSTOP - data
           else 0x200_0000;
    hide KSize;
    var m := data / PGSIZE;
    assert data == PGSIZE * m;
    hide Pages;
    WholePages(k.virt, KSize(k));
  }

  lemma WholePages(va: nat, size: nat)
    requires size > 0 && va % PGSIZE == 0 && size % PGSIZE == 0
    ensures Pages(va, size) == size / PGSIZE
  {
    var a, n := va / PGSIZE, size / PGSIZE;
    assert va == PGSIZE * a && size == PGSIZE * n;
  }

  lemma RowsBelow(data: nat, n: nat, u: nat)
    requires DataOk(data) && n < 4 && Kmaps(data)[n].virt / PGSIZE <= u < NPAGES
    ensures KPte(data, n, u) == 0
  {
    var ks := Kmaps(data);
    assert KSize(ks[0]) == EXTMEM && KSize(ks[1]) == data - EXTMEM && KSize(ks[2]) == PHYSTOP - data;
    hide MakePte;
    if n >= 1 {
      assert KPte(data, 1, u) == 0;
    }
    if n >= 2 {
      assert KPte(data, 2, u) == 0;
    }
  }

  /** d is a new directory; it and its tables are the only frames taken. */
  ghost predicate Fresh(page0: seq<seq<nat>>, own0: map<nat, Use>, page: seq<seq<nat>>, own: map<nat, Use>,
                        pool: Pool, d: nat)
  {
    && SameMaps(page0, page, own0, pool) && Kept(page0, page, own0) && d !in own0 && IsDir(own, d) && d < |page|
    && (forall f :: f in own0 ==> f in own && own[f] == own0[f])
    && (forall f :: f in own && f !in own0 ==> f == d || TableOf(own, f, d))
  }

  ghost predicate Maps(page: seq<seq<nat>>, pool: Pool, d: nat, data: nat, n: nat)
    requires n <= 4 && DataOk(data)
  {
    Shape(page, pool) && d < |page| && forall u: nat :: u < NPAGES ==> Pte(page, pool, d, u) == KPte(data, n, u)
  }

  lemma DirInv(page: seq<seq<nat>>, own: map<nat, Use>, pool: Pool, d: nat)
    requires Inv(page, own, pool) && d in own && own[d] == Raw && page[d] == Blank()
    ensures Inv(page, own[d := Dir], pool)
  {
    NoUserIn(page, d);
    forall f | f in own && own[f].Table? ensures own[f].dir != d {
      assert HasTable(page, own, f);
    }
    hide Present, Frame;
  }

  lemma NewDir(page: seq<seq<nat>>, own: map<nat, Use>, pool: Pool, head: nat, free: seq<nat>, d: nat, data: nat)
    requires Inv(page, own, pool) && Inv(page, own[d := Raw], pool) && d !in own && d < |page|
    requires Chain(page, head, free) && Parted(free, own[d := Raw], pool) && DataOk(data)
    ensures var page1, own1 := page[d := Blank()], own[d := Dir];
            && Inv(page1, own1, pool) && Chain(page1, head, free) && Parted(free, own1, pool)
            && Fresh(page, own, page1, own1, pool, d) && Maps(page1, pool, d, data, 0)
  {
    var page1 := page[d := Blank()];
    RawPage(page, own[d := Raw], pool, d, Blank());
    ChainElse(page, head, free, d, Blank());
    DirInv(page1, own[d := Raw], pool, d);
    assert own[d := Raw][d := Dir] == own[d := Dir];
    assert SameMaps(page, page1, own, pool) by {
      hide Pte, Inv;
      assert forall e: nat :: IsDir(own, e) ==> IsDir(own[d := Raw], e);
    }
  }

  /** One more row is mapped, or page tables ran out. */
  lemma FreshNext(page0: seq<seq<nat>>, own0: map<nat, Use>, page: seq<seq<nat>>, own: map<nat, Use>,
                  page': seq<seq<nat>>, own': map<nat, Use>,
                  pool: Pool, d: nat, data: nat, n: nat, done: nat)
    requires Fresh(page0, own0, page, own, pool, d) && n < 4 && DataOk(data) && Maps(page, pool, d, data, n)
    requires var k := Kmaps(data)[n];
             k.perm < PGSIZE && RangeMap(page, page', own, pool, d, k.virt / PGSIZE, done, k.start / PGSIZE, k.perm)
    requires Kept(page, page', own) && Grown(own, own', d, 0, 0)
    ensures Fresh(page0, own0, page', own', pool, d)
    ensures var k := Kmaps(data)[n];
            k.virt / PGSIZE + done == (k.virt + KSize(k)) / PGSIZE ==> Maps(page', pool, d, data, n + 1)
  {
    hide Pte, MakePte;
    assert forall e: nat :: IsDir(own0, e) ==> IsDir(own, e) && e != d;
  }

  /** No frame used before belongs to a directory added since. */
  lemma OldOutside(page0: seq<seq<nat>>, own0: map<nat, Use>, own: map<nat, Use>, pool: Pool, d: nat)
    requires Inv(page0, own0, pool) && d !in own0 && forall f :: f in own0 ==> f in own && own[f] == own0[f]
    ensures forall f :: f in own0 ==> f !in SpaceOf(own, d)
  {
    forall f | f in own0 ensures f !in SpaceOf(own, d) {
      if own0[f].Table? {
        assert HasTable(page0, own0, f);
      }
      if own0[f].User? {
        assert HasUser(page0, own0, f) && HasTable(page0, own0, own0[f].tab);
      }
    }
  }

  /** Giving the new address space back leaves the frames as they were. */
  lemma SpaceNew(page0: seq<seq<nat>>, own0: map<nat, Use>, page: seq<seq<nat>>, own: map<nat, Use>, pool: Pool, d: nat)
    requires Inv(page0, own0, pool) && Fresh(page0, own0, page, own, pool, d)
    ensures own - SpaceOf(own, d) == own0
  {
    OldOutside(page0, own0, own, pool, d);
  }

  lemma FreshIs(page0: seq<seq<nat>>, own0: map<nat, Use>, page: seq<seq<nat>>, own: map<nat, Use>, pool: Pool, d: nat)
    requires Fresh(page0, own0, page, own, pool, d)
    ensures IsDir(own, d) && d < |page|
  {
  }

  lemma NoUsers(own: map<nat, Use>, v: nat, n: nat, p: nat)
    requires v >= KDX * NENT
    ensures RawRange(own, v, n, p)
  {
  }

  lemma NotRemap(page: seq<seq<nat>>, pool: Pool, d: nat, data: nat, n: nat, m: MapResult, u: nat)
    requires DataOk(data) && n < 4 && Maps(page, pool, d, data, n) && Kmaps(data)[n].virt / PGSIZE <= u < NPAGES
    requires m.Remap? ==> Present(Pte(page, pool, d, u))
    ensures !m.Remap?
  {
    RowsBelow(data, n, u);
    hide Pte;
  }

  /** After freevm of the new directory everything reads as before. */
  lemma NewGone(page0: seq<seq<nat>>, own0: map<nat, Use>, page: seq<seq<nat>>, own: map<nat, Use>,
                page': seq<seq<nat>>, pool: Pool, d: nat)
    requires Fresh(page0, own0, page, own, pool, d) && OtherMaps(page, page', own, pool, d) && Kept(page, page', own0)
    ensures SameMaps(page0, page', own0, pool) && Kept(page0, page', own0)
  {
    hide Pte;
    assert forall e: nat :: IsDir(own0, e) ==> IsDir(own, e) && e != d;
  }

  // ---------- copying ----------

  /** Flags and words of pages 0 .. hi-1 of a directory. */
  ghost function Image(page: seq<seq<nat>>, pool: Pool, d: nat, hi: nat): (img: seq<Cell>)
    requires Shape(page, pool) && d < |page| && hi <= NPAGES
    ensures |img| == hi
  {
    seq(hi, u requires 0 <= u < hi =>
      var w := Pte(page, pool, d, u); Cell(Flags(w), if Frame(w) < |page| then page[Frame(w)] else []))
  }

  /** d is a copy of src below page hi, in frames that were free, and has the kernel half; nothing that
      was there before changed, and every frame taken belongs to the address space of d. */
  ghost predicate Clone(page0: seq<seq<nat>>, own0: map<nat, Use>, page: seq<seq<nat>>, own: map<nat, Use>, pool: Pool,
                        src: nat, d: nat, hi: nat, data: nat)
  {
    && DataOk(data) && SameMaps(page0, page, own0, pool) && Kept(page0, page, own0) && d !in own0 && IsDir(own, d)
    && src < |page0| && d < |page| && hi <= NPAGES
    && (forall f :: f in own0 ==> f in own && own[f] == own0[f])
    && (forall u: nat :: u < hi ==> NewPage(page, own0, pool, d, u, Image(page0, pool, src, hi)))
    && (forall u: nat :: hi <= u < NPAGES ==> Pte(page, pool, d, u) == KPte(data, 4, u))
    && own - SpaceOf(own, d) == own0
  }

  lemma CloneIs(page0: seq<seq<nat>>, own0: map<nat, Use>, pageB: seq<seq<nat>>, ownB: map<nat, Use>,
                page: seq<seq<nat>>, own: map<nat, Use>,
                pool: Pool, src: nat, d: nat, hi: nat, data: nat)
    requires Fresh(page0, own0, pageB, ownB, pool, d) && DataOk(data) && Maps(pageB, pool, d, data, 4)
             && src < |page0| && hi <= NPAGES
    requires Added(pageB, ownB, page, own, pool, d, 0, hi, {}, Image(page0, pool, src, hi))
    requires Inv(page0, own0, pool) && Inv(page, own, pool) && hi <= KDX * NENT
    ensures Clone(page0, own0, page, own, pool, src, d, hi, data)
  {
    hide Pte, KPte, Image, Frame, Flags, Present, Inv, SpaceOf;
    ChildGone(page0, own0, pageB, ownB, page, own, pool, d, hi, {}, Image(page0, pool, src, hi));
    assert own0 + RawAll({}) == own0;
    assert forall e: nat :: IsDir(own0, e) ==> IsDir(ownB, e) && e != d;
    forall u: nat | u < hi ensures NewPage(page, own0, pool, d, u, Image(page0, pool, src, hi)) {
      assert NewPage(page, ownB, pool, d, u, Image(page0, pool, src, hi));
    }
  }

  ghost function RawAll(s: set<nat>): map<nat, Use> {
    map f | f in s :: Raw
  }

  /** The parent's next page: its entry and words are those of the image. */
  lemma ParentPage(page0: seq<seq<nat>>, own0: map<nat, Use>, pageB: seq<seq<nat>>, ownB: map<nat, Use>,
                   page: seq<seq<nat>>, own: map<nat, Use>,
                   pool: Pool, src: nat, d: nat, v: nat, hi: nat, extra: set<nat>)
    requires Inv(page0, own0, pool) && Fresh(page0, own0, pageB, ownB, pool, d) && IsDir(own0, src)
             && src < |page0| && v < hi <= KDX * NENT
    requires Added(pageB, ownB, page, own, pool, d, 0, v, extra, Image(page0, pool, src, hi))
    ensures IsDir(own, src) && src < |page| && Pte(page, pool, src, v) == Pte(page0, pool, src, v)
    ensures Present(Pte(page0, pool, src, v)) ==>
              var f := Frame(Pte(page0, pool, src, v));
              f < |page| && |page[f]| == NENT
                && Image(page0, pool, src, hi)[v] == Cell(Flags(Pte(page0, pool, src, v)), page[f])
  {
    assert IsDir(ownB, src) && src != d;
    assert Pte(pageB, pool, src, v) == Pte(page0, pool, src, v);
    if Present(Pte(page0, pool, src, v)) {
      UserAt(page0, own0, pool, src, Frame(Pte(page0, pool, src, v)));
    }
    hide Inv, Pte, Present, Frame, Flags;
  }

  /** The child's page is not mapped yet. */
  lemma ChildPage(page0: seq<seq<nat>>, own0: map<nat, Use>, pageB: seq<seq<nat>>, ownB: map<nat, Use>,
                  page: seq<seq<nat>>, own: map<nat, Use>,
                  pool: Pool, d: nat, v: nat, data: nat, extra: set<nat>, img: seq<Cell>)
    requires DataOk(data) && Fresh(page0, own0, pageB, ownB, pool, d) && Maps(pageB, pool, d, data, 4) && v < KDX * NENT
    requires Added(pageB, ownB, page, own, pool, d, 0, v, extra, img)
    ensures IsDir(ownB, d) && IsDir(own, d) && d < |page| && Shape(page, pool) && !Present(Pte(page, pool, d, v))
  {
    KernelHalf(data, v);
    hide Pte, KPte;
  }

  /** Freeing the half-built child gives back every frame taken since, but those in extra. */
  lemma ChildGone(page0: seq<seq<nat>>, own0: map<nat, Use>, pageB: seq<seq<nat>>, ownB: map<nat, Use>,
                  page: seq<seq<nat>>, own: map<nat, Use>,
                  pool: Pool, d: nat, v: nat, extra: set<nat>, img: seq<Cell>)
    requires Inv(page0, own0, pool) && Fresh(page0, own0, pageB, ownB, pool, d) && Inv(page, own, pool)
             && v <= KDX * NENT
    requires Added(pageB, ownB, page, own, pool, d, 0, v, extra, img)
    requires forall f :: f in extra ==> f in own && own[f] == Raw && f !in ownB
    ensures own - SpaceOf(own, d) == own0 + RawAll(extra)
  {
    OldOutside(page0, own0, own, pool, d);
    assert IsDir(own, d);
    hide Inv, Pte, Present, Frame, NewPage, MapsTo, SameMaps, Kept;
    forall f | f in own && f !in own0 && f !in extra ensures f in SpaceOf(own, d) {
      NewInside(page, own, pool, d, v, f);
      assert f in ownB ==> own[f] == ownB[f];
    }
  }

  lemma NewInside(page: seq<seq<nat>>, own: map<nat, Use>, pool: Pool, d: nat, v: nat, f: nat)
    requires Inv(page, own, pool) && IsDir(own, d) && v <= KDX * NENT
    ensures (exists u: nat :: 0 <= u < v && MapsTo(page, pool, d, u, f)) ==> f in SpaceOf(own, d)
  {
    UserAt(page, own, pool, d, f);
    hide Inv, Pte, Present, Frame;
  }

  /** What was there before the copy reads as before. */
  lemma CopyUndone(page0: seq<seq<nat>>, own0: map<nat, Use>, pageB: seq<seq<nat>>, ownB: map<nat, Use>,
                   page: seq<seq<nat>>, own: map<nat, Use>,
                   page': seq<seq<nat>>, pool: Pool, d: nat, v: nat, extra: set<nat>, img: seq<Cell>)
    requires Fresh(page0, own0, pageB, ownB, pool, d) && Added(pageB, ownB, page, own, pool, d, 0, v, extra, img)
    requires OtherMaps(page, page', own, pool, d) && Kept(page, page', own0 + RawAll(extra))
    requires forall f :: f in extra ==> f !in own0
    ensures SameMaps(page0, page', own0, pool) && Kept(page0, page', own0)
  {
    hide Pte, NewPage, MapsTo;
    assert forall e: nat :: IsDir(own0, e) ==> IsDir(ownB, e) && IsDir(own, e) && e != d;
  }

  lemma FlagsOdd(w: nat)
    requires Present(w)
    ensures Flags(w) % 2 == 1
  {
  }

  lemma LostFrame(page0: seq<seq<nat>>, own0: map<nat, Use>, pageB: seq<seq<nat>>, ownB: map<nat, Use>, pool: Pool,
                  d: nat, f: nat)
    requires Fresh(page0, own0, pageB, ownB, pool, d) && f !in ownB
    ensures f !in own0 && own0 + RawAll({f}) == own0[f := Raw]
  {
  }

  // ---------- conservation ----------

  ghost function Span(lo: nat, hi: nat): (r: set<nat>)
    requires lo <= hi
    ensures |r| == hi - lo && forall f :: f in r <==> lo <= f < hi
  {
    if lo == hi then {} else Span(lo, hi - 1) + {hi - 1}
  }

  ghost function Elems(s: seq<nat>): set<nat> {
    set f | f in s
  }

  lemma {:induction false} DistinctCount(s: seq<nat>)
    requires forall k, l :: 0 <= k < l < |s| ==> s[k] != s[l]
    ensures |Elems(s)| == |s|
  {
    if s == [] {
      assert Elems(s) == {};
    } else {
      var rest := Elems(s[1..]);
      DistinctCount(s[1..]);
      assert s[0] !in rest;
      assert Elems(s) == rest + {s[0]};
    }
  }

  /** Free frames and used frames always add up to the pool. */
  lemma FramesConserved(page: seq<seq<nat>>, own: map<nat, Use>, pool: Pool, head: nat, free: seq<nat>)
    requires Inv(page, own, pool) && Chain(page, head, free) && Parted(free, own, pool)
    ensures |free| + |own| == pool.hi - pool.lo
  {
    DistinctCount(free);
    PoolFrames(page, own, pool, free);
    Disjoint(Elems(free), own.Keys);
    assert |own.Keys| == |own|;
  }

  lemma PoolFrames(page: seq<seq<nat>>, own: map<nat, Use>, pool: Pool, free: seq<nat>)
    requires Inv(page, own, pool) && Parted(free, own, pool)
    ensures pool.lo <= pool.hi && Elems(free) !! own.Keys && Elems(free) + own.Keys == Span(pool.lo, pool.hi)
  {
    assert forall f :: f in own ==> pool.lo <= f < pool.hi;
    hide Inv;
  }

  lemma Disjoint(a: set<nat>, b: set<nat>)
    requires a !! b
    ensures |a + b| == |a| + |b|
  {
  }

  lemma BootInv(page: seq<seq<nat>>, own: map<nat, Use>, pool: Pool)
    requires Shape(page, pool) && own == RawAll(Span(pool.lo, pool.hi))
    ensures Inv(page, own, pool) && Chain(page, 0, []) && Parted([], own, pool)
  {
  }

  lemma BootNext(f: nat, hi: nat)
    requires f < hi
    ensures var own := RawAll(Span(f, hi)); f in own && own[f] == Raw && own - {f} == RawAll(Span(f + 1, hi))
  {
  }
}
