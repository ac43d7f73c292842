/**
How many frames the calls of src/vm.c take: one for each page they add, and one for each page table
that is missing when it is first needed.
*/
module VmCount {
  import opened VmModel
  import opened VmProofs

  /** The regions of 1024 pages for which directory d has a table. */
  ghost function Tabs(page: seq<seq<nat>>, d: nat): set<nat> {
    if d < |page| then set i: nat | i < |page[d]| && Present(page[d][i]) else {}
  }

  /** The regions that pages v .. v+n-1 lie in. */
  ghost function Regions(v: nat, n: nat): set<nat> {
    if n == 0 then {} else Span(v / NENT, (v + n - 1) / NENT + 1)
  }

  /** From page to page' directory d got the tables of the regions rs it did not have, each from a free frame. */
  ghost predicate Took(page: seq<seq<nat>>, free: nat, page': seq<seq<nat>>, free': nat, d: nat, rs: set<nat>) {
    Tabs(page', d) == Tabs(page, d) + rs && free' + |Tabs(page', d)| == free + |Tabs(page, d)|
  }

  lemma TookNone(page: seq<seq<nat>>, free: nat, d: nat, r: nat)
    requires r in Tabs(page, d)
    ensures Took(page, free, page, free, d, {r})
  {
    assert Tabs(page, d) + {r} == Tabs(page, d);
  }

  /** walkpgdir takes a frame for the table of region i. */
  lemma TookTable(page: seq<seq<nat>>, free: nat, page': seq<seq<nat>>, d: nat, i: nat, w: nat)
    requires d < |page| == |page'| && i < |page[d]| && !Present(page[d][i]) && Present(w)
             && page'[d] == page[d][i := w] && free > 0
    ensures Took(page, free, page', free - 1, d, {i})
  {
    hide Present;
    assert i !in Tabs(page, d);
    assert Tabs(page', d) == Tabs(page, d) + {i};
  }

  lemma TookTrans(page: seq<seq<nat>>, free: nat, page1: seq<seq<nat>>, free1: nat, page2: seq<seq<nat>>, free2: nat,
                  d: nat, rs: set<nat>, ss: set<nat>, ts: set<nat>)
    requires Took(page, free, page1, free1, d, rs) && Took(page1, free1, page2, free2, d, ss) && ts == rs + ss
    ensures Took(page, free, page2, free2, d, ts)
  {
    hide Tabs;
    assert Tabs(page, d) + rs + ss == Tabs(page, d) + ts;
  }

  lemma SameTabs(page: seq<seq<nat>>, page': seq<seq<nat>>, d: nat)
    requires d < |page| && d < |page'| && page'[d] == page[d]
    ensures Tabs(page', d) == Tabs(page, d)
  {
  }

  lemma TookSame(page: seq<seq<nat>>, free: nat, page1: seq<seq<nat>>, free1: nat, page2: seq<seq<nat>>, d: nat,
                 rs: set<nat>)
    requires Took(page, free, page1, free1, d, rs) && d < |page1| && d < |page2| && page2[d] == page1[d]
    ensures Took(page, free, page2, free1, d, rs)
  {
    SameTabs(page1, page2, d);
  }

  lemma RegionsNext(v: nat, n: nat)
    ensures Regions(v, 0) == {}
    ensures Regions(v, n + 1) == Regions(v, n) + {(v + n) / NENT}
  {
    if n > 0 {
      var last := (v + n - 1) / NENT;
      assert (v + n) / NENT == last || (v + n) / NENT == last + 1;
    }
  }

  /** mappages takes the tables of one page more. */
  lemma TookNext(page: seq<seq<nat>>, free: nat, page1: seq<seq<nat>>, free1: nat, page2: seq<seq<nat>>, free2: nat,
                 d: nat, v: nat, n: nat)
    requires Took(page, free, page1, free1, d, Regions(v, n)) && Took(page1, free1, page2, free2, d, {(v + n) / NENT})
    ensures Took(page, free, page2, free2, d, Regions(v, n + 1))
  {
    hide Took, Regions;
    RegionsNext(v, n);
    TookTrans(page, free, page1, free1, page2, free2, d, Regions(v, n), {(v + n) / NENT}, Regions(v, n + 1));
  }

  lemma TookStart(page: seq<seq<nat>>, free: nat, d: nat, v: nat)
    ensures Took(page, free, page, free, d, Regions(v, 0))
  {
    assert Tabs(page, d) + {} == Tabs(page, d);
  }

  // ---------- growing an address space ----------

  /** The frames that pages lo .. hi-1 of directory d need: the pages, and the tables that are missing. */
  ghost function Cost(page: seq<seq<nat>>, d: nat, lo: nat, hi: nat): nat
    requires lo <= hi
  {
    hi - lo + |Regions(lo, hi - lo) - Tabs(page, d)|
  }

  /** Pages lo .. v-1 of d were added at their cost. */
  ghost predicate Charged(page0: seq<seq<nat>>, free0: nat, page: seq<seq<nat>>, free: nat, d: nat, lo: nat, v: nat) {
    lo <= v && Tabs(page, d) == Tabs(page0, d) + Regions(lo, v - lo) && free + Cost(page0, d, lo, v) == free0
  }

  lemma ChargedStart(page: seq<seq<nat>>, free: nat, d: nat, lo: nat)
    ensures Charged(page, free, page, free, d, lo, lo)
  {
    assert Regions(lo, 0) - Tabs(page, d) == {};
    assert Tabs(page, d) + {} == Tabs(page, d);
  }

  /** One page more costs a frame, and another one if its region has no table yet. */
  lemma CostNext(page0: seq<seq<nat>>, d: nat, lo: nat, v: nat)
    requires lo <= v
    ensures Cost(page0, d, lo, v + 1) ==
              Cost(page0, d, lo, v) + if v / NENT in Tabs(page0, d) + Regions(lo, v - lo) then 1 else 2
  {
    hide Regions, Tabs;
    RegionsNext(lo, v - lo);
    Without(Regions(lo, v - lo), Tabs(page0, d), v / NENT);
  }

  lemma Without(a: set<nat>, t: set<nat>, r: nat)
    ensures |a + {r} - t| == |a - t| + if r in t + a then 0 else 1
  {
    if r in t + a {
      assert a + {r} - t == a - t;
    } else {
      assert a + {r} - t == (a - t) + {r};
    }
  }

  lemma {:induction false} CostGrows(page0: seq<seq<nat>>, d: nat, lo: nat, v: nat, hi: nat)
    requires lo <= v <= hi
    ensures Cost(page0, d, lo, v) <= Cost(page0, d, lo, hi)
    decreases hi - v
  {
    if v < hi {
      CostNext(page0, d, lo, v);
      hide Cost;
      CostGrows(page0, d, lo, v + 1, hi);
    }
  }

  /** kalloc of a page, then mappages of it. */
  lemma ChargedNext(page0: seq<seq<nat>>, free0: nat, page: seq<seq<nat>>, free: nat, page1: seq<seq<nat>>,
                    page2: seq<seq<nat>>, free2: nat,
                    d: nat, lo: nat, v: nat)
    requires Charged(page0, free0, page, free, d, lo, v) && free > 0 && Tabs(page1, d) == Tabs(page, d)
    requires Took(page1, free - 1, page2, free2, d, Regions(v, 1))
    ensures Charged(page0, free0, page2, free2, d, lo, v + 1)
  {
    hide Cost, Regions, Tabs;
    CostNext(page0, d, lo, v);
    RegionsNext(lo, v - lo);
    RegionsNext(v, 0);
    OneMore(Tabs(page0, d), Regions(lo, v - lo), Tabs(page2, d), v / NENT);
  }

  lemma OneMore(a: set<nat>, b: set<nat>, c: set<nat>, r: nat)
    requires c == a + b + ({} + {r})
    ensures c == a + (b + {r}) && |c| == |a + b| + if r in a + b then 0 else 1
  {
    var ab := a + b;
    if r in ab {
      assert c == ab;
    } else {
      assert c == ab + {r};
    }
  }

  /** Growth stops for want of a frame only when the whole range costs more than was free. */
  lemma ChargedShort(page0: seq<seq<nat>>, free0: nat, page: seq<seq<nat>>, free: nat, d: nat, lo: nat, v: nat, hi: nat)
    requires Charged(page0, free0, page, free, d, lo, v) && v < hi
    requires free == 0 || (free == 1 && v / NENT !in Tabs(page, d))
    ensures free0 < Cost(page0, d, lo, hi)
  {
    hide Cost, Regions, Tabs;
    CostNext(page0, d, lo, v);
    CostGrows(page0, d, lo, v + 1, hi);
  }

  /** mappages of one page that mapped nothing took nothing. */
  lemma TookNothing(page: seq<seq<nat>>, free: nat, page': seq<seq<nat>>, free': nat, d: nat, v: nat)
    requires Took(page, free, page', free', d, Regions(v, 0))
    ensures Tabs(page', d) == Tabs(page, d) && free' == free
  {
    hide Tabs;
    assert Tabs(page, d) + {} == Tabs(page, d);
  }

  lemma OneShort(page0: seq<seq<nat>>, free0: nat, page: seq<seq<nat>>, free: nat, page1: seq<seq<nat>>,
                 page2: seq<seq<nat>>, d: nat, lo: nat, v: nat, hi: nat)
    requires Charged(page0, free0, page, free, d, lo, v) && v < hi && free > 0 && Tabs(page1, d) == Tabs(page, d)
    requires Took(page1, free - 1, page2, 0, d, Regions(v, 0)) && v / NENT !in Tabs(page2, d)
    ensures free0 < Cost(page0, d, lo, hi)
  {
    TookNothing(page1, free - 1, page2, 0, d, v);
    hide Took, Tabs, Cost, Regions;
    ChargedShort(page0, free0, page, free, d, lo, v, hi);
  }

  lemma ChargedAll(page0: seq<seq<nat>>, free0: nat, page: seq<seq<nat>>, free: nat, d: nat, lo: nat, hi: nat)
    requires Charged(page0, free0, page, free, d, lo, hi)
    ensures Cost(page0, d, lo, hi) <= free0 && free == free0 - Cost(page0, d, lo, hi)
  {
  }

  // ---------- the kernel half ----------

  /** The directory, 56 tables for the memory below PHYSTOP and 8 for the devices. */
  const KFRAMES: nat := 65

  /** The regions the first n rows of kmap lie in. */
  ghost function KRegions(data: nat, n: nat): set<nat>
    requires n <= 4 && DataOk(data)
  {
    if n == 0 then {}
    else
      var k := Kmaps(data)[n - 1];
      KRegions(data, n - 1) + Regions(k.virt / PGSIZE, KSize(k) / PGSIZE)
  }

  lemma KRegionsAll(data: nat)
    requires DataOk(data)
    ensures KRegions(data, 4) == Span(512, 568) + Span(1016, 1024) && |KRegions(data, 4)| == 64
  {
    hide Span, Kmaps, KSize, Regions, KRegions;
    var m := data / PGSIZE;
    RowPages(data);
    KRows(data);
    KMiddle(m);
    Disjoint(Span(512, 568), Span(1016, 1024));
  }

  lemma RowPages(data: nat)
    requires DataOk(data)
    ensures var ks := Kmaps(data);
            && KSize(ks[1]) / PGSIZE == data / PGSIZE - 0x100 && KSize(ks[2]) / PGSIZE == 0xE000 - data / PGSIZE
            && (KERNBASE + data) / PGSIZE == 0x80000 + data / PGSIZE && 0x100 < data / PGSIZE < 0xE000
  {
    var ks := Kmaps(data);
    assert KSize(ks[1]) == data - EXTMEM && KSize(ks[2]) == PHYSTOP - data;
  }

  lemma KRows(data: nat)
    requires DataOk(data)
    ensures KRegions(data, 4) == Regions(0x80000, 0x100) + Regions(0x80100, KSize(Kmaps(data)[1]) / PGSIZE)
                                 + Regions((KERNBASE + data) / PGSIZE, KSize(Kmaps(data)[2]) / PGSIZE)
                                   + Regions(0xFE000, 0x2000)
  {
    hide Regions;
    var ks := Kmaps(data);
    assert KSize(ks[0]) / PGSIZE == 0x100 && KSize(ks[3]) / PGSIZE == 0x2000;
    assert KRegions(data, 0) == {};
    assert KRegions(data, 1) == {} + Regions(0x80000, 0x100);
    assert KRegions(data, 2) == KRegions(data, 1) + Regions(0x80100, KSize(ks[1]) / PGSIZE);
    assert KRegions(data, 3) == KRegions(data, 2) + Regions((KERNBASE + data) / PGSIZE, KSize(ks[2]) / PGSIZE);
    assert KRegions(data, 4) == KRegions(data, 3) + Regions(0xFE000, 0x2000);
  }

  /** The text and the data lie next to each other. */
  lemma KMiddle(m: nat)
    requires 0x100 < m < 0xE000
    ensures Regions(0x80000, 0x100) + Regions(0x80100, m - 0x100) + Regions(0x80000 + m, 0xE000 - m) == Span(512, 568)
    ensures Regions(0xFE000, 0x2000) == Span(1016, 1024)
  {
    hide Span;
    var r := (0x80000 + m - 1) / NENT;
    var q := (0x80000 + m) / NENT;
    assert q == r || q == r + 1;
    assert Regions(0x80000, 0x100) == Span(512, 513);
    assert Regions(0x80100, m - 0x100) == Span(512, r + 1);
    assert Regions(0x80000 + m, 0xE000 - m) == Span(q, 568);
  }

  lemma {:induction false} KRegionsGrow(data: nat, k: nat, n: nat)
    requires DataOk(data) && k <= n <= 4
    ensures KRegions(data, k) <= KRegions(data, n)
  {
    if k < n {
      KRegionsGrow(data, k, n - 1);
    }
  }

  lemma KRegionsNext(data: nat, k: nat)
    requires DataOk(data) && k < 4
    ensures KRegions(data, 0) == {}
    ensures var row := Kmaps(data)[k];
            KRegions(data, k + 1) == KRegions(data, k) + Regions(row.virt / PGSIZE, KSize(row) / PGSIZE)
  {
  }

  lemma Smaller(a: set<nat>, b: set<nat>, x: nat)
    requires a <= b && x in b && x !in a
    ensures |a| < |b|
  {
    var rest := b - a - {x};
    assert b == a + {x} + rest;
  }

  /** A row of kmap that runs out of frames finds fewer tables than the kernel half has. */
  lemma RowShort(data: nat, k: nat, done: nat, tabs: set<nat>)
    requires DataOk(data) && k < 4
    requires var row := Kmaps(data)[k];
             && done < KSize(row) / PGSIZE && tabs == KRegions(data, k) + Regions(row.virt / PGSIZE, done)
             && (row.virt / PGSIZE + done) / NENT !in tabs
    ensures |tabs| < KFRAMES - 1
  {
    hide Span, KRegions, Regions, Kmaps, KSize;
    var row := Kmaps(data)[k];
    var v, n := row.virt / PGSIZE, KSize(row) / PGSIZE;
    KRegionsAll(data);
    KRegionsGrow(data, k + 1, 4);
    RegionsIn(v, done, n);
    KRegionsNext(data, k);
    Smaller(tabs, KRegions(data, 4), (v + done) / NENT);
  }

  lemma RegionsIn(v: nat, done: nat, n: nat)
    requires done < n
    ensures Regions(v, done) <= Regions(v, n) && (v + done) / NENT in Regions(v, n)
  {
  }

  lemma NoTabs(page: seq<seq<nat>>, d: nat, data: nat)
    requires d < |page| && page[d] == Blank() && DataOk(data)
    ensures Tabs(page, d) == KRegions(data, 0) == {}
  {
  }

  lemma RowTook(page: seq<seq<nat>>, free: nat, page': seq<seq<nat>>, free': nat, d: nat, data: nat, k: nat, done: nat)
    requires DataOk(data) && k < 4 && Tabs(page, d) == KRegions(data, k)
    requires Took(page, free, page', free', d, Regions(Kmaps(data)[k].virt / PGSIZE, done))
    ensures Tabs(page', d) == KRegions(data, k) + Regions(Kmaps(data)[k].virt / PGSIZE, done)
    ensures free' + |Tabs(page', d)| == free + |Tabs(page, d)|
  {
  }

  // ---------- copying ----------

  /** The frames for the first v pages of a new user half: one for each page, one for each 1024. */
  function CopyCost(v: nat): nat {
    v + (v + NENT - 1) / NENT
  }

  /** A user half without tables costs this much. */
  lemma CopyCostIs(page: seq<seq<nat>>, d: nat, v: nat)
    requires v <= KDX * NENT && forall i :: i in Tabs(page, d) ==> i >= KDX
    ensures Cost(page, d, 0, v) == CopyCost(v)
  {
    assert forall i :: i in Regions(0, v) ==> i < KDX;
    assert Regions(0, v) - Tabs(page, d) == Regions(0, v);
    hide Tabs;
  }

  lemma CopyCharged(page0: seq<seq<nat>>, free0: nat, page: seq<seq<nat>>, free: nat, d: nat, v: nat)
    requires Charged(page0, free0, page, free, d, 0, v) && v <= KDX * NENT
    requires forall i :: i in Tabs(page0, d) ==> i >= KDX
    ensures free + CopyCost(v) == free0
  {
    CopyCostIs(page0, d, v);
  }

  lemma ChargedTabs(page0: seq<seq<nat>>, free0: nat, page: seq<seq<nat>>, free: nat, d: nat, v: nat)
    requires Charged(page0, free0, page, free, d, 0, v)
    ensures Regions(0, v) <= Tabs(page, d)
  {
  }

  lemma {:induction false} CopyCostGrows(v: nat, hi: nat)
    requires v <= hi
    ensures CopyCost(v) <= CopyCost(hi) && (v < hi ==> CopyCost(v) < CopyCost(hi))
  {
  }

  /** The first page below hi that directory d lacks, hi if there is none. */
  ghost function FirstMissing(page: seq<seq<nat>>, pool: Pool, d: nat, u: nat, hi: nat): (r: nat)
    requires Shape(page, pool) && d < |page| && u <= hi <= NPAGES
    ensures u <= r <= hi && (r < hi ==> !Present(Pte(page, pool, d, r)))
    ensures forall w: nat :: u <= w < r ==> Present(Pte(page, pool, d, w))
    decreases hi - u
  {
    if u == hi || !Present(Pte(page, pool, d, u)) then u else FirstMissing(page, pool, d, u + 1, hi)
  }

  /** With n free frames for the user half, a copy of stop pages gets a frame for page 1024 * k and then no table. */
  predicate LeakAt(n: nat, stop: nat, k: nat) {
    NENT * k < stop && n == (NENT + 1) * k + 1
  }

  /** The counts of free frames at which copyuvm loses one. */
  ghost predicate Leaks(n: nat, stop: nat) {
    exists k: nat :: LeakAt(n, stop, k)
  }

  /** No count at which the copy stops before a page is one at which it stops between a page and its table. */
  lemma NoLeak(v: nat, stop: nat)
    ensures !Leaks(CopyCost(v), stop)
  {
    forall k: nat ensures !LeakAt(CopyCost(v), stop, k) {
      var q := (v + 1023) / 1024;
      assert 1024 * (q - 1) < v <= 1024 * q;
    }
  }

  /** The copy stops at page v because kalloc failed. */
  lemma StopsBefore(v: nat, stop: nat)
    requires v < stop
    ensures CopyCost(v) < CopyCost(stop) && !Leaks(CopyCost(v), stop)
  {
    NoLeak(v, stop);
  }

  lemma RegionBegun(v: nat)
    ensures v % NENT != 0 ==> v / NENT in Regions(0, v)
  {
  }

  /** The copy stops between page v and its table. */
  lemma StopsBetween(v: nat, stop: nat, tabs: set<nat>)
    requires v < stop && v / NENT !in tabs && Regions(0, v) <= tabs
    ensures Leaks(CopyCost(v) + 1, stop) && CopyCost(v) + 1 < CopyCost(stop)
  {
    var k := v / NENT;
    RegionBegun(v);
    assert v == NENT * k;
    assert CopyCost(v) == (NENT + 1) * k && CopyCost(v + 1) == (NENT + 1) * k + 2;
    assert LeakAt(CopyCost(v) + 1, stop, k);
  }

  /** A count that pays for every page is none at which a frame is lost. */
  lemma EnoughIsEnough(n: nat, stop: nat)
    requires CopyCost(stop) <= n
    ensures !Leaks(n, stop)
  {
    forall k: nat ensures !LeakAt(n, stop, k) {
      if NENT * k < stop {
        CopyCostGrows(NENT * k + 1, stop);
        assert CopyCost(NENT * k + 1) == (NENT + 1) * k + 2;
      }
    }
  }

  /** A new directory has no user page. */
  lemma UserHalfEmpty(page: seq<seq<nat>>, own: map<nat, Use>, pool: Pool, d: nat, data: nat, n: nat)
    requires DataOk(data) && Maps(page, pool, d, data, 4) && n <= KDX * NENT
    ensures Unmapped(page, pool, d, 0, n)
  {
    hide Pte;
    forall u: nat | u < n ensures !Present(Pte(page, pool, d, u)) {
      KernelHalf(data, u);
    }
  }

  /** After allocuvm from 0 no page below n is missing. */
  lemma AllThere(page0: seq<seq<nat>>, own0: map<nat, Use>, page: seq<seq<nat>>, own: map<nat, Use>, pool: Pool,
                 d: nat, n: nat)
    requires Added(page0, own0, page, own, pool, d, 0, n, {}, Blanks(n)) && IsDir(own0, d)
    ensures IsDir(own, d) && Shape(page, pool) && d < |page| && n <= NPAGES && FirstMissing(page, pool, d, 0, n) == n
  {
    hide Pte;
    var u := FirstMissing(page, pool, d, 0, n);
    assert u < n ==> NewPage(page, own0, pool, d, u, Blanks(n));
  }
}
