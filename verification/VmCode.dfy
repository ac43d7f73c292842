/**
kalloc and kfree of src/kalloc.c, and walkpgdir, mappages, setupkvm, allocuvm, deallocuvm, freevm and
copyuvm of src/vm.c, on one physical memory.
*/
module VmCode {
  import opened Common
  import opened VmModel
  import opened VmProofs
  import opened VmCount

  class Memory {
    const pool: Pool
    var page: seq<seq<nat>>
    var freelist: nat
    ghost var free: seq<nat>
    ghost var own: map<nat, Use>

    ghost predicate Valid()
      reads this
    {
      Inv(page, own, pool) && Chain(page, freelist, free) && Parted(free, own, pool)
    }

    /** freerange over the pool at boot: every frame is freed, so none is used. */
    constructor (pool: Pool, frames: nat)
      requires 0 < pool.lo <= pool.hi <= frames
      ensures Valid() && this.pool == pool && own == map[] && |free| == pool.hi - pool.lo
    {
      this.pool := pool;
      page := seq(frames, _ => Blank());
      freelist := 0;
      free := [];
      own := RawAll(Span(pool.lo, pool.hi));
      new;
      BootInv(page, own, pool);
      hide Inv, Chain, Parted, SameMaps, RawAll, Span, Overwritten, Shape;
      var f := pool.lo;
      while f < pool.hi
        invariant pool.lo <= f <= pool.hi && Valid() && own == RawAll(Span(f, pool.hi))
      {
        BootNext(f, pool.hi);
        NotFree(page, own, pool, free, f);
        FreeRaw(page, own, pool, freelist, free, f);
        var panics := Kfree(f);
        own := own - {f};
        f := f + 1;
      }
      assert own == map[] by { assert RawAll(Span(f, f)) == map[]; }
      FramesConserved(page, own, pool, freelist, free);
    }

    /** kalloc: the first free frame, None if there is none. */
    method Kalloc() returns (r: Option<nat>)
      requires Valid()
      modifies this`freelist, this`free, this`own
      ensures Valid() && (r.None? <==> old(free) == [])
      ensures r.None? ==> free == old(free) && own == old(own)
      ensures r.Some? ==>
                && r.value == old(free)[0] && pool.lo <= r.value < |page| && r.value !in old(own)
                && free == old(free)[1..] && own == old(own)[r.value := Raw]
    {
      hide Inv;
      if freelist == 0 {
        return None;
      }
      var f := (freelist - KERNBASE) / PGSIZE;
      assert free != [] && f == free[0];
      PopFree(page, own, pool, freelist, free);
      freelist := page[f][0];
      free := free[1..];
      own := own[f := Raw];
      return Some(f);
    }

    /** kfree: the frame is overwritten and goes to the front of the free list; panics exactly when
        it is outside the pool. */
    method Kfree(f: nat) returns (panics: bool)
      requires Shape(page, pool) && Chain(page, freelist, free) && f !in free
      modifies this`page, this`freelist, this`free
      ensures panics <==> !(pool.lo <= f < pool.hi)
      ensures panics ==> page == old(page) && freelist == old(freelist) && free == old(free)
      ensures !panics ==>
                && page == Overwritten(old(page), f, old(freelist)) && freelist == KAddr(f) && free == [f] + old(free)
                && Chain(page, freelist, free)
    {
      if f < pool.lo || f >= pool.hi {
        return true;
      }
      PushChain(page, freelist, free, f);
      hide Chain;
      page := page[f := seq<nat>(NENT, _ => JUNK)];
      page := SetWord(page, f, 0, freelist);
      freelist := KAddr(f);
      free := [f] + free;
      return false;
    }

    // ---------- page tables ----------

    /** walkpgdir: the table that holds the entry of va, added if alloc says so. The entry itself is
        word PTX(va) of it. */
    method Walk(d: nat, va: nat, alloc: bool) returns (r: Option<nat>)
      requires Valid() && IsDir(own, d) && va < 0x1_0000_0000
      modifies this`page, this`freelist, this`free, this`own
      ensures Valid() && SameMaps(old(page), page, old(own), pool) && Kept(old(page), page, old(own))
              && Grown(old(own), own, d, 0, 0)
      ensures r.None? ==> page == old(page) && own == old(own) && free == old(free) && (!alloc || free == [])
      ensures r.None? ==> d < |page| && |page[d]| == NENT && !Present(page[d][va / PGSIZE / NENT])
      ensures r.Some? ==>
                && r.value < |page| && |page[r.value]| == NENT && va / PGSIZE < NPAGES && d < |page|
                && r.value in own && own[r.value] == Table(d, va / PGSIZE / NENT)
                && Pte(page, pool, d, va / PGSIZE) == page[r.value][PTX(va)]
      ensures !alloc ==> page == old(page) && own == old(own) && free == old(free)
      ensures free == old(free) || (old(free) != [] && free == old(free)[1..])
      ensures r.Some? ==> Took(old(page), |old(free)|, page, |free|, d, {va / PGSIZE / NENT})
    {
      hide Kept, Grown, SameMaps, Chain, Parted, Took, Flags;
      Indices(va);
      Still(page, own, pool, d);
      var i := PDX(va);
      if Present(page[d][i]) {
        TookNone(page, |free|, d, i);
        return Some(Frame(page[d][i]));
      }
      if !alloc {
        return None;
      }
      var t := Kalloc();
      if t.None? {
        return None;
      }
      r := t;
      NewTable(old(page), old(own), pool, freelist, free, d, i, t.value);
      page := page[t.value := Blank()];
      page := SetWord(page, d, i, MakePte(t.value, PTE_W + PTE_U));
      own := own[t.value := Table(d, i)];
      TookTable(old(page), |old(free)|, page, d, i, MakePte(t.value, PTE_W + PTE_U));
    }

    /** The body of mappages' loop: one page. */
    method MapOne(d: nat, a: nat, f: nat, perm: nat) returns (r: MapResult)
      requires Valid() && IsDir(own, d) && a < 0x1_0000_0000 && perm < PGSIZE
      requires a < KERNBASE ==> f in own && own[f] == Raw
      modifies this`page, this`freelist, this`free, this`own
      ensures Valid() && IsDir(old(own), d) && a / PGSIZE < NPAGES && d < |old(page)| && Shape(old(page), pool)
      ensures Kept(old(page), page, old(own)) && Grown(old(own), own, d, f, 1)
      ensures r.Mapped? ==> !Present(Pte(old(page), pool, d, a / PGSIZE))
      ensures r.Mapped? ==> OneMap(old(page), page, old(own), pool, d, a / PGSIZE, MakePte(f, perm))
      ensures a >= KERNBASE ==> Grown(old(own), own, d, 0, 0)
      ensures !r.Mapped? ==> SameMaps(old(page), page, old(own), pool) && Grown(old(own), own, d, 0, 0)
      ensures r.NoMemory? ==>
                page == old(page) && own == old(own) && free == old(free) == [] && a / PGSIZE / NENT !in Tabs(page, d)
      ensures !r.NoMemory? ==> Took(old(page), |old(free)|, page, |free|, d, {a / PGSIZE / NENT})
      ensures r.Remap? ==> Present(Pte(old(page), pool, d, a / PGSIZE))
    {
      hide Kept, Chain, Parted, Pte, Took;
      Indices(a);
      var t := Walk(d, a, true);
      Still(old(page), old(own), pool, d);
      GrownMore(old(own), own, d, f);
      if t.None? {
        return NoMemory;
      }
      var j := PTX(a);
      ghost var page1, own1, v := page, own, a / PGSIZE;
      SameAt(old(page), page1, old(own), pool, d, v);
      if Present(page[t.value][j]) {
        return Remap;
      }
      MapWord(old(page), old(own), page1, own1, pool, freelist, free, d, v, t.value, f, perm);
      page := SetWord(page, t.value, j, MakePte(f, perm));
      TookSame(old(page), |old(free)|, page1, |free|, page, d, {v / NENT});
      if a < KERNBASE {
        own := own[f := User(t.value, j)];
      }
      return Mapped;
    }

    /** mappages: maps the pages of [va, va+size) to the frames from pa on. Ghost result done counts
        the pages mapped before it ran out of memory or met a page that was mapped already (the
        panic "remap"). */
    method Mappages(d: nat, va: nat, size: nat, pa: nat, perm: nat) returns (r: MapResult, ghost done: nat)
      requires Valid() && IsDir(own, d) && 0 < size && va + size <= 0x1_0000_0000 && pa % PGSIZE == 0 && perm < PGSIZE
      requires RawRange(own, va / PGSIZE, Pages(va, size), pa / PGSIZE)
      modifies this`page, this`freelist, this`free, this`own
      ensures Valid() && Shape(old(page), pool) && d < |old(page)| && va / PGSIZE + done <= NPAGES
      ensures RangeMap(old(page), page, old(own), pool, d, va / PGSIZE, done, pa / PGSIZE, perm)
      ensures Kept(old(page), page, old(own)) && Grown(old(own), own, d, pa / PGSIZE, done)
      ensures va >= KERNBASE ==> Grown(old(own), own, d, 0, 0)
      ensures if r.Mapped? then done == Pages(va, size) else done < Pages(va, size) && va / PGSIZE + done < NPAGES
      ensures r.Remap? ==> Present(Pte(old(page), pool, d, va / PGSIZE + done))
      ensures r.NoMemory? ==> free == [] && (va / PGSIZE + done) / NENT !in Tabs(page, d)
      ensures !r.Remap? ==> Took(old(page), |old(free)|, page, |free|, d, Regions(va / PGSIZE, done))
    {
      hide Kept, Grown, Inv, Chain, Parted, Pte, RangeMap, RawRange, OneMap, Took, Regions, Tabs;
      var a := va / PGSIZE * PGSIZE;
      var last := (va + size - 1) / PGSIZE * PGSIZE;
      var p := pa;
      done := 0;
      NoneMapped(page, own, pool, d, va / PGSIZE, pa / PGSIZE, perm);
      Still(page, own, pool, d);
      RawNext(own, own, d, va / PGSIZE, Pages(va, size), pa / PGSIZE, 0);
      TookStart(page, |free|, d, va / PGSIZE);
      while true
        invariant a == (va / PGSIZE + done) * PGSIZE && a <= last && p == (pa / PGSIZE + done) * PGSIZE
        invariant Valid() && IsDir(own, d)
        invariant RangeMap(old(page), page, old(own), pool, d, va / PGSIZE, done, pa / PGSIZE, perm)
        invariant Kept(old(page), page, old(own)) && Grown(old(own), own, d, pa / PGSIZE, done)
        invariant va >= KERNBASE ==> Grown(old(own), own, d, 0, 0)
        invariant Took(old(page), |old(free)|, page, |free|, d, Regions(va / PGSIZE, done))
        decreases last - a
      {
        ghost var page1, own1, free1 := page, own, |free|;
        RawNext(old(own), own, d, va / PGSIZE, Pages(va, size), pa / PGSIZE, done);
        r := MapOne(d, a, p / PGSIZE, perm);
        if va >= KERNBASE {
          GrownTrans(old(own), own1, own, d);
        }
        KeptTrans(old(page), old(own), page1, own1, page, own, d, pa / PGSIZE, done);
        RangeNext(old(page), page1, page, old(own), own1, pool, d, va / PGSIZE, done, pa / PGSIZE, perm, r);
        if r != Mapped {
          return;
        }
        TookNext(old(page), |old(free)|, page1, free1, page, |free|, d, va / PGSIZE, done);
        done := done + 1;
        if a == last {
          return;
        }
        a := a + PGSIZE;
        p := p + PGSIZE;
      }
    }

    // ---------- address spaces ----------

    /** deallocuvm: unmaps and frees the user pages that lie at or above newsz and below oldsz.
        The free list ends up as if every page had been visited one by one. */
    method Deallocuvm(d: nat, oldsz: nat, newsz: nat) returns (r: nat, panics: bool)
      requires Valid() && IsDir(own, d) && oldsz <= KERNBASE
      modifies this`page, this`freelist, this`free, this`own
      ensures !panics && Valid() && IsDir(own, d) && r == if newsz >= oldsz then oldsz else newsz
      ensures newsz >= oldsz ==> page == old(page) && own == old(own) && free == old(free)
      ensures newsz < oldsz ==>
                && Shape(old(page), pool) && d < |old(page)| && Up(newsz) <= Up(oldsz) <= NPAGES
                && Cleared(old(page), page, old(own), pool, d, Up(newsz), Up(oldsz))
                && free == Freed(old(page), pool, d, Up(newsz), Up(oldsz)) + old(free)
                && Shrunk(old(page), old(own), page, own, Freed(old(page), pool, d, Up(newsz), Up(oldsz)))
    {
      hide Pte, Inv, Chain, Parted, Cleared, Freed, Shrunk;
      panics := false;
      if newsz >= oldsz {
        return oldsz, false;
      }
      ghost var lo, hi := Up(newsz), Up(oldsz);
      var a := Up(newsz) * PGSIZE;
      ghost var v := lo;
      UnmapStart(page, own, pool, d, lo);
      while a < oldsz
        invariant a == v * PGSIZE && lo <= v <= KDX * NENT && !panics
        invariant Valid() && IsDir(own, d)
        invariant Cleared(old(page), page, old(own), pool, d, lo, Min(v, hi))
        invariant free == Freed(old(page), pool, d, lo, Min(v, hi)) + old(free)
        invariant Shrunk(old(page), old(own), page, own, Freed(old(page), pool, d, lo, Min(v, hi)))
        decreases KDX * NENT - v
      {
        ghost var page1, own1 := page, own;
        Indices(a);
        RegionEnd(v);
        var t := Walk(d, a, false);
        ghost var next := v + 1;
        if t.None? {
          next := (v / NENT + 1) * NENT;
          forall u | v <= u < next ensures !Present(Pte(page, pool, d, u)) {
            NoTable(page, pool, d, v, u);
          }
          SkipRange(old(page), page, old(own), pool, d, lo, v, next, hi);
          a := (PDX(a) + 1) * 0x40_0000 - PGSIZE;
        } else {
          var pte := page[t.value][PTX(a)];
          if Present(pte) {
            var f := Frame(pte);
            UnmapOne(page, own, pool, freelist, free, d, v, t.value);
            panics := f == 0;
            var p := Kfree(f);
            panics := panics || p;
            page := SetWord(page, t.value, PTX(a), 0);
            own := own - {f};
            UnmapNext(old(page), old(own), page1, own1, page, pool, d, lo, v);
          } else {
            SkipRange(old(page), page, old(own), pool, d, lo, v, next, hi);
          }
        }
        a := a + PGSIZE;
        v := next;
      }
      return newsz, panics;
    }

    /** freevm: every frame of the address space goes back to the free list; nothing else changes. */
    method Freevm(d: nat) returns (panics: bool)
      requires Valid() && IsDir(own, d)
      modifies this`page, this`freelist, this`free, this`own
      ensures !panics && Valid() && own == old(own) - SpaceOf(old(own), d)
      ensures OtherMaps(old(page), page, old(own), pool, d) && Kept(old(page), page, own)
    {
      hide Pte, Inv, Chain, Parted, Cleared, Shrunk, OtherMaps, UserOf, TableOf, SpaceOf, Left;
      var sz;
      ghost var page0, own0 := page, own;
      sz, panics := Deallocuvm(d, KERNBASE, 0);
      ghost var pageA, ownA := page, own;
      UsersGone(page0, own0, pageA, ownA, pool, d);
      SpaceGone(own0, ownA, d);
      ReleaseInv(page, own, pool, free, d);
      own := Left(own, d, 0);
      LeftDirs(pageA, ownA, pool, d, 0);
      var i := 0;
      while i < NENT
        invariant 0 <= i <= NENT && !panics && Valid() && own == Left(ownA, d, i)
        invariant d < |page| && |pageA| == |page| && page[d] == pageA[d]
        invariant OtherMaps(pageA, page, ownA, pool, d)
        invariant forall g :: g in ownA && g < |pageA| && !ownA[g].Dir? && !ownA[g].Table? ==> page[g] == pageA[g]
      {
        TableLeft(pageA, ownA, pool, d, i);
        LeftDirs(pageA, ownA, pool, d, i);
        if Present(page[d][i]) {
          var t := Frame(page[d][i]);
          NotFree(page, own, pool, free, t);
          FreeNext(pageA, ownA, page, own, pool, freelist, free, d, t);
          var p := Kfree(t);
          panics := panics || p;
          own := own - {t};
        }
        i := i + 1;
      }
      AllLeft(pageA, ownA, pool, d);
      LeftDirs(pageA, ownA, pool, d, NENT);
      NotFree(page, own, pool, free, d);
      FreeNext(pageA, ownA, page, own, pool, freelist, free, d, d);
      var p := Kfree(d);
      panics := panics || p;
      own := own - {d};
      FreedAll(page0, own0, pageA, ownA, page, pool, d);
    }

    /** allocuvm: grows user memory from oldsz to newsz with zeroed pages; below KERNBASE it fails
        exactly when fewer frames are free than there are pages to add and tables missing for them.
        On failure every translation is as before, and only page tables stay taken. */
    method Allocuvm(d: nat, oldsz: nat, newsz: nat) returns (r: nat, ok: bool)
      requires Valid() && IsDir(own, d) && newsz < 0x1_0000_0000
      requires Unmapped(page, pool, d, Up(oldsz), Up(newsz))
      modifies this`page, this`freelist, this`free, this`own
      ensures Valid() && r == if !ok then 0 else if newsz < oldsz then oldsz else newsz
      ensures newsz >= KERNBASE ==> !ok
      ensures newsz >= KERNBASE || newsz < oldsz ==> page == old(page) && own == old(own) && free == old(free)
      ensures newsz < oldsz && newsz < KERNBASE ==> ok
      ensures oldsz <= newsz < KERNBASE ==> (ok <==> Cost(old(page), d, Up(oldsz), Up(newsz)) <= |old(free)|)
      ensures ok && oldsz <= newsz ==> |free| == |old(free)| - Cost(old(page), d, Up(oldsz), Up(newsz))
      ensures ok && newsz >= oldsz ==>
                Added(old(page), old(own), page, own, pool, d, Up(oldsz), Up(newsz), {}, Blanks(Up(newsz)))
      ensures !ok ==> Restored(old(page), old(own), page, own, pool, {})
    {
      hide Pte, Inv, Chain, Parted, Added, Cleared, Freed, Shrunk, Restored, RangeMap, Kept, Grown, Charged, Took,
        Tabs, Regions, Cost;
      ghost var page0, own0, free0 := page, own, |free|;
      RestoredStart(page, own, pool);
      if newsz >= KERNBASE {
        return 0, false;
      }
      if newsz < oldsz {
        return oldsz, true;
      }
      ghost var lo, hi := Up(oldsz), Up(newsz);
      ghost var img := Blanks(hi);
      var a := Up(oldsz) * PGSIZE;
      ghost var v := lo;
      AddedStart(page, own, pool, d, lo, img);
      ChargedStart(page, |free|, d, lo);
      while a < newsz
        invariant a == v * PGSIZE && lo <= v <= hi && Valid() && IsDir(own, d)
        invariant Added(page0, own0, page, own, pool, d, lo, v, {}, img)
                  && Charged(page0, free0, page, |free|, d, lo, v)
      {
        ghost var pageA, ownA, freeA := page, own, |free|;
        AddedBelow(page0, own0, page, own, pool, d, lo, v, img);
        var mem := Kalloc();
        if mem.None? {
          ChargedShort(page0, free0, page, 0, d, lo, v, hi);
          Undo(d, newsz, oldsz, page0, own0, v, {}, img);
          return 0, false;
        }
        var f := mem.value;
        LoadRaw(page0, own0, page, ownA, pool, freelist, free, d, lo, v, f, Blank(), img);
        page := page[f := Blank()];
        ghost var page1, own1 := page, own;
        SameTabs(pageA, page1, d);
        OneRaw(own, v, f);
        StillFree(page0, own0, page, own, pool, d, lo, v, {f}, img);
        var m, done := Mappages(d, a, PGSIZE, f * PGSIZE, PTE_W + PTE_U);
        AddedNext(page0, own0, page1, own1, page, own, pool, d, lo, v, f, PTE_W + PTE_U, done, img);
        if m.NoMemory? {
          OneShort(page0, free0, pageA, freeA, page1, page, d, lo, v, hi);
          Undo(d, newsz, oldsz, page0, own0, v, {f}, img);
          RestoredRaw(page0, own0, page, own, pool, freelist, free, f);
          NotFree(page, own, pool, free, f);
          var panics := Kfree(f);
          own := own - {f};
          return 0, false;
        }
        assert m.Mapped?;
        ChargedNext(page0, free0, pageA, freeA, page1, page, |free|, d, lo, v);
        a := a + PGSIZE;
        v := v + 1;
      }
      ChargedAll(page0, free0, page, |free|, d, lo, hi);
      return newsz, true;
    }

    /** The failure path: deallocuvm takes back the pages added so far. */
    method Undo(d: nat, newsz: nat, oldsz: nat, ghost page0: seq<seq<nat>>, ghost own0: map<nat, Use>, ghost v: nat,
                ghost extra: set<nat>, ghost img: seq<Cell>)
      requires Valid() && IsDir(own, d) && oldsz < newsz <= KERNBASE && IsDir(own0, d)
      requires Added(page0, own0, page, own, pool, d, Up(oldsz), v, extra, img) && v <= Up(newsz)
      requires Unmapped(page0, pool, d, Up(oldsz), Up(newsz))
      requires forall f :: f in extra ==> f in own && own[f] == Raw
      modifies this`page, this`freelist, this`free, this`own
      ensures Valid() && Restored(page0, own0, page, own, pool, extra)
      ensures forall f :: f in extra ==> f in own && own[f] == Raw
    {
      hide Pte, Inv, Chain, Parted, Cleared, Freed, Restored;
      ghost var page1, own1 := page, own;
      var sz, panics := Deallocuvm(d, newsz, oldsz);
      UndoAdded(page0, own0, page1, own1, page, own, pool, d, Up(oldsz), v, Up(newsz), extra, img);
    }

    /** setupkvm: a new directory with the kernel half mapped and nothing else, in 65 frames; None,
        with every frame given back, exactly when fewer are free. */
    method Setupkvm(data: nat) returns (r: Option<nat>)
      requires Valid() && DataOk(data)
      modifies this`page, this`freelist, this`free, this`own
      ensures Valid()
      ensures r.None? <==> |old(free)| < KFRAMES
      ensures r.Some? ==> Fresh(old(page), old(own), page, own, pool, r.value) && Maps(page, pool, r.value, data, 4)
      ensures r.Some? ==> |free| == |old(free)| - KFRAMES && forall i :: i in Tabs(page, r.value) ==> i >= KDX
      ensures r.None? ==> own == old(own) && SameMaps(old(page), page, old(own), pool) && Kept(old(page), page, own)
    {
      hide Pte, Inv, Chain, Parted, RangeMap, Kept, Grown, SameMaps, Fresh, Maps, OtherMaps, SpaceOf, KPte, Kmaps,
        KSize,
        Took, Tabs, Regions, KRegions, Span;
      ghost var page0, own0, free0 := page, own, |free|;
      Still(page, own, pool, 0);
      r := Kalloc();
      if r.None? {
        return;
      }
      var d := r.value;
      NewDir(page0, own0, pool, freelist, free, d, data);
      page := page[d := Blank()];
      own := own[d := Dir];
      assert own == own0[d := Dir];
      NoTabs(page, d, data);
      KRegionsAll(data);
      var k := 0;
      while k < 4
        invariant 0 <= k <= 4 && Valid() && Fresh(page0, own0, page, own, pool, d) && Maps(page, pool, d, data, k)
        invariant Tabs(page, d) == KRegions(data, k) && |free| + 1 + |Tabs(page, d)| == free0
      {
        var row := Kmaps(data)[k];
        ghost var page1, own1, free1 := page, own, |free|;
        RowOk(data, k);
        FreshIs(page0, own0, page, own, pool, d);
        NoUsers(own, row.virt / PGSIZE, Pages(row.virt, KSize(row)), row.start / PGSIZE);
        var m, done := Mappages(d, row.virt, KSize(row), row.start, row.perm);
        FreshNext(page0, own0, page1, own1, page, own, pool, d, data, k, done);
        if m != Mapped {
          NotRemap(page1, pool, d, data, k, m, row.virt / PGSIZE + done);
          RowTook(page1, free1, page, |free|, d, data, k, done);
          RowShort(data, k, done, Tabs(page, d));
          FreshIs(page0, own0, page, own, pool, d);
          SpaceNew(page0, own0, page, own, pool, d);
          ghost var page2, own2 := page, own;
          var panics := Freevm(d);
          NewGone(page0, own0, page2, own2, page, pool, d);
          return None;
        }
        RowTook(page1, free1, page, |free|, d, data, k, done);
        KRegionsNext(data, k);
        k := k + 1;
      }
    }

    /** copyuvm: a copy of the first sz bytes of the address space of src. When a table for the child
        cannot be had, the page just allocated for it is lost. Which of the four outcomes comes about
        depends on the first page the parent lacks and on the number of free frames alone. */
    method Copyuvm(src: nat, sz: nat, data: nat) returns (r: CopyResult)
      requires Valid() && IsDir(own, src) && sz <= KERNBASE && DataOk(data)
      modifies this`page, this`freelist, this`free, this`own
      ensures Valid() && Shape(old(page), pool) && src < |old(page)| && Up(sz) <= NPAGES
      ensures var stop, n := FirstMissing(old(page), pool, src, 0, Up(sz)), |old(free)| - KFRAMES;
              && (r.Copied? <==> n >= CopyCost(stop) && stop == Up(sz))
              && (r.Missing? <==> n >= CopyCost(stop) && stop < Up(sz))
              && (r.Leaked? <==> n >= 0 && Leaks(n, stop))
      ensures r.Copied? ==> |free| == |old(free)| - KFRAMES - CopyCost(Up(sz))
      ensures r.Copied? ==> Clone(old(page), old(own), page, own, pool, src, r.dir, Up(sz), data)
      ensures r.Failed? ==> own == old(own)
      ensures r.Leaked? ==> r.frame !in old(own) && own == old(own)[r.frame := Raw]
      ensures r.Failed? || r.Leaked? ==> SameMaps(old(page), page, old(own), pool) && Kept(old(page), page, old(own))
    {
      hide Pte, Inv, Chain, Parted, Added, RangeMap, Kept, Grown, SameMaps, Fresh, Maps, OtherMaps, SpaceOf, KPte,
        Clone, Image,
        Charged, Took, Tabs, Regions, Cost, CopyCost, FirstMissing, Leaks;
      ghost var page0, own0, free0 := page, own, |free|;
      UnmapStart(page, own, pool, src, 0);
      ghost var stop := FirstMissing(page0, pool, src, 0, Up(sz));
      var c := Setupkvm(data);
      if c.None? {
        return Failed;
      }
      var d := c.value;
      ghost var user := |free|;
      ghost var pageB, ownB := page, own;
      ghost var hi := Up(sz);
      ghost var img := Image(page0, pool, src, hi);
      FreshIs(page0, own0, page, own, pool, d);
      AddedStart(page, own, pool, d, 0, img);
      ChargedStart(page, |free|, d, 0);
      var i := 0;
      ghost var v := 0;
      while i < sz
        invariant i == v * PGSIZE && v <= stop && Valid() && Added(pageB, ownB, page, own, pool, d, 0, v, {}, img)
        invariant Charged(pageB, user, page, |free|, d, 0, v)
      {
        CopyCharged(pageB, user, page, |free|, d, v);
        ParentPage(page0, own0, pageB, ownB, page, own, pool, src, d, v, hi, {});
        ChildPage(page0, own0, pageB, ownB, page, own, pool, d, v, data, {}, img);
        Indices(i);
        var t := Walk(src, i, false);
        if t.None? {
          NoTable(page, pool, src, v, v);
          EnoughIsEnough(user, stop);
          return Missing;
        }
        var pte := page[t.value][PTX(i)];
        if !Present(pte) {
          EnoughIsEnough(user, stop);
          return Missing;
        }
        ghost var pageA, ownA, freeA := page, own, |free|;
        var mem := Kalloc();
        if mem.None? {
          StopsBefore(v, stop);
          DropChild(d, page0, own0, pageB, ownB, v, {}, img);
          return Failed;
        }
        var f := mem.value;
        LoadRaw(pageB, ownB, page, ownA, pool, freelist, free, d, 0, v, f, page[Frame(pte)], img);
        page := page[f := page[Frame(pte)]];
        ghost var page1, own1 := page, own;
        SameTabs(pageA, page1, d);
        OneRaw(own, v, f);
        ChildPage(page0, own0, pageB, ownB, page, own, pool, d, v, data, {f}, img);
        var m, done := Mappages(d, i, PGSIZE, f * PGSIZE, Flags(pte));
        FlagsOdd(pte);
        AddedNext(pageB, ownB, page1, own1, page, own, pool, d, 0, v, f, Flags(pte), done, img);
        if m != Mapped {
          assert m.NoMemory?;
          TookNothing(page1, freeA - 1, page, |free|, d, v);
          ChargedTabs(pageB, user, pageA, freeA, d, v);
          StopsBetween(v, stop, Tabs(page, d));
          LostFrame(page0, own0, pageB, ownB, pool, d, f);
          DropChild(d, page0, own0, pageB, ownB, v, {f}, img);
          return Leaked(f);
        }
        ChargedNext(pageB, user, pageA, freeA, page1, page, |free|, d, 0, v);
        i := i + PGSIZE;
        v := v + 1;
      }
      CopyCharged(pageB, user, page, |free|, d, v);
      EnoughIsEnough(user, stop);
      CloneIs(page0, own0, pageB, ownB, page, own, pool, src, d, hi, data);
      return Copied(d);
    }

    /** The failure path of copyuvm: freevm of the half-built child. */
    method DropChild(d: nat, ghost page0: seq<seq<nat>>, ghost own0: map<nat, Use>, ghost pageB: seq<seq<nat>>,
                     ghost ownB: map<nat, Use>,
                     ghost v: nat, ghost extra: set<nat>, ghost img: seq<Cell>)
      requires Valid() && IsDir(own, d) && Inv(page0, own0, pool) && Fresh(page0, own0, pageB, ownB, pool, d)
               && v <= KDX * NENT
      requires Added(pageB, ownB, page, own, pool, d, 0, v, extra, img)
      requires forall f :: f in extra ==> f in own && own[f] == Raw && f !in ownB && f !in own0
      modifies this`page, this`freelist, this`free, this`own
      ensures Valid() && own == own0 + RawAll(extra)
      ensures SameMaps(page0, page, own0, pool) && Kept(page0, page, own0)
    {
      hide Pte, Inv, Chain, Parted, Added, Kept, SameMaps, Fresh, OtherMaps, SpaceOf;
      ghost var page1, own1 := page, own;
      ChildGone(page0, own0, pageB, ownB, page, own, pool, d, v, extra, img);
      var panics := Freevm(d);
      CopyUndone(page0, own0, pageB, ownB, page1, own1, page, pool, d, v, extra, img);
    }
  }

  /** Frames for a parent of n pages, and for a child up to page 1024 * k without its table. */
  function LeakFrames(n: nat, k: nat): nat {
    KFRAMES + CopyCost(n) + KFRAMES + (NENT + 1) * k + 1
  }

  /** The leak happens: from boot, with a pool below PHYSTOP, a parent of n pages is built and then copied
      with the number of free frames that leaves none for the table of page 1024 * k. */
  method LeakRun(lo: nat, n: nat, k: nat, data: nat) returns (m: Memory, r: CopyResult)
    requires lo > 0 && NENT * k < n < KDX * NENT && DataOk(data)
    requires lo + LeakFrames(n, k) <= PHYSTOP / PGSIZE
    ensures fresh(m) && m.Valid() && r.Leaked? && r.frame in m.own && m.own[r.frame] == Raw
  {
    hide Inv, Chain, Parted, Fresh, Maps, Added, Cost, Tabs, CopyCost, FirstMissing, Clone, SameMaps, Kept, Restored;
    var frames := LeakFrames(n, k);
    m := new Memory(Pool(lo, lo + frames), lo + frames);
    ghost var page0, own0 := m.page, m.own;
    var d := m.Setupkvm(data);
    ghost var page1, own1 := m.page, m.own;
    FreshIs(page0, own0, page1, own1, m.pool, d.value);
    UserHalfEmpty(page1, own1, m.pool, d.value, data, n);
    CopyCostIs(page1, d.value, n);
    assert Up(0) == 0 && Up(n * PGSIZE) == n;
    var sz, ok := m.Allocuvm(d.value, 0, n * PGSIZE);
    AllThere(page1, own1, m.page, m.own, m.pool, d.value, n);
    assert LeakAt((NENT + 1) * k + 1, n, k);
    r := m.Copyuvm(d.value, n * PGSIZE, data);
  }
}
