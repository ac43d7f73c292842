/**
The K&R allocator of src/umalloc.c. Memory is counted in Header units; `size` and `ptr` are
the header fields by unit address. The proof state names the free list in address order, the
blocks handed out, and for every unit obtained from sbrk the one block it belongs to.
*/
module Umalloc {
  import opened Common

  const HEADER: nat := 8

  /** The unit count of a request, in 32-bit unsigned arithmetic: payload plus one header. */
  function Units(nbytes: nat): nat {
    ((nbytes + HEADER - 1) % TWO32) / HEADER + 1
  }

  /** The payload holds nbytes bytes exactly when the rounding does not wrap, and one unit less never would. */
  lemma PayloadFitsIff(nbytes: nat)
    requires nbytes < TWO32
    ensures (Units(nbytes) - 1) * HEADER >= nbytes <==> nbytes <= TWO32 - HEADER
    ensures 0 < nbytes ==> (Units(nbytes) - 2) * HEADER < nbytes
  {
    if nbytes <= TWO32 - HEADER {
      assert (nbytes + HEADER - 1) % TWO32 == nbytes + HEADER - 1;
    } else {
      assert (nbytes + HEADER - 1) % TWO32 == nbytes + HEADER - 1 - TWO32;
    }
  }

  // ---------- the shape of the heap ----------

  /** fl lists the free blocks in address order from the base header, fully coalesced: the next
      free block starts strictly behind the end of this one. */
  ghost predicate Ordered(fl: seq<int>, size: map<int, int>, base: int) {
    && |fl| > 0 && fl[0] == base && base in size && size[base] == 0
    && (forall i :: 0 <= i < |fl| ==> fl[i] in size)
    && (forall i :: 1 <= i < |fl| ==> size[fl[i]] > 0)
    && (forall i :: 0 <= i < |fl| - 1 ==> fl[i] + size[fl[i]] < fl[i + 1])
  }

  lemma {:induction false} Increasing(fl: seq<int>, size: map<int, int>, base: int, i: nat, j: nat)
    requires Ordered(fl, size, base) && i < j < |fl|
    ensures fl[i] + size[fl[i]] < fl[j]
  {
    if i + 1 < j {
      Increasing(fl, size, base, i, j - 1);
    }
  }

  /** The s.ptr fields close fl into a circle. */
  ghost predicate Circular(fl: seq<int>, ptr: map<int, int>) {
    && (forall i :: 0 <= i < |fl| ==> fl[i] in ptr)
    && (forall i :: 0 <= i < |fl| - 1 ==> ptr[fl[i]] == fl[i + 1])
    && (|fl| > 0 ==> ptr[fl[|fl| - 1]] == fl[0])
  }

  /** Every unit obtained from sbrk lies in exactly one block of B and every block in such units:
      blocks are disjoint and no unit is lost. */
  ghost predicate Owned(B: set<int>, size: map<int, int>, own: map<int, int>, base: int) {
    && (forall a :: a in B ==> a in size && size[a] > 0 && a > base)
    && (forall a, u :: a in B && a in size && a <= u < a + size[a] ==> u in own && own[u] == a)
    && (forall u :: u in own ==> own[u] in B && own[u] in size && own[u] <= u < own[u] + size[own[u]])
  }

  /** The free blocks proper: all of the list but the base header. */
  ghost function Frees(fl: seq<int>, base: int): set<int> {
    set a | a in fl && a != base
  }

  /** Where a block at bp belongs: behind fl[j] and before fl[j+1]. */
  ghost predicate Between(fl: seq<int>, j: int, bp: int) {
    0 <= j < |fl| && fl[j] < bp && (j + 1 < |fl| ==> bp < fl[j + 1])
  }

  lemma {:induction false} FindPlace(fl: seq<int>, size: map<int, int>, base: int, bp: int, n: nat) returns (j: int)
    requires Ordered(fl, size, base) && bp > base && bp !in fl && 0 < n <= |fl|
    requires n < |fl| ==> bp < fl[n]
    ensures Between(fl, j, bp) && j < n
  {
    j := n - 1;
    if fl[n - 1] > bp {
      j := FindPlace(fl, size, base, bp, n - 1);
    }
  }

  /** Room on both sides of a block that is put back. */
  lemma Neighbours(fl: seq<int>, B: set<int>, size: map<int, int>, own: map<int, int>, base: int, j: int, bp: int)
    requires Ordered(fl, size, base) && Owned(B, size, own, base) && Frees(fl, base) <= B
    requires bp in B && Between(fl, j, bp)
    ensures bp in size && size[bp] > 0
    ensures fl[j] + size[fl[j]] <= bp
    ensures j + 1 < |fl| ==> bp + size[bp] <= fl[j + 1]
  {
    assert bp in own;
    assert j > 0 ==> fl[j] in Frees(fl, base) && fl[j] in own;
    assert j + 1 < |fl| ==> fl[j + 1] in Frees(fl, base) && fl[j + 1] in own;
  }

  // ---------- giving a block back ----------

  /** The free list, header sizes and owners once bp is put back behind fl[j], joined with its
      upper and lower neighbour where they touch. */
  ghost function FreedList(fl: seq<int>, j: nat, bp: int, up: bool, down: bool): seq<int>
    requires j < |fl| && (up ==> j + 1 < |fl|)
  {
    fl[..j + 1] + (if down then [] else [bp]) + (if up then fl[j + 2..] else fl[j + 1..])
  }

  ghost function FreedSize(fl: seq<int>, size: map<int, int>, j: nat, bp: int, up: bool, down: bool): map<int, int>
    requires j < |fl| && (up ==> j + 1 < |fl| && fl[j + 1] in size) && bp in size && fl[j] in size
  {
    var n := size[bp] + if up then size[fl[j + 1]] else 0;
    if down then size[bp := n][fl[j] := size[fl[j]] + n] else size[bp := n]
  }

  /** Block b becomes part of block a. */
  ghost function Absorb(own: map<int, int>, a: int, b: int): map<int, int> {
    map u | u in own :: if own[u] == b then a else own[u]
  }

  lemma AbsorbOwned(B: set<int>, size: map<int, int>, own: map<int, int>, base: int, a: int, b: int)
    requires Owned(B, size, own, base) && a in B && b in B && a in size && a + size[a] == b
    ensures b in size && Owned(B - {b}, size[a := size[a] + size[b]], Absorb(own, a, b), base)
    ensures Absorb(own, a, b).Keys == own.Keys
  {
    var size', own' := size[a := size[a] + size[b]], Absorb(own, a, b);
    forall c, u | c in B - {b} && c in size' && c <= u < c + size'[c] ensures u in own' && own'[u] == c {
      if c == a && u >= b {
        assert b in B && own[u] == b;
      } else {
        assert own[u] == c;
      }
    }
  }

  lemma FreedIndex(fl: seq<int>, j: nat, bp: int, up: bool, down: bool, i: int)
    requires j < |fl| && (up ==> j + 1 < |fl|)
    requires 0 <= i < |FreedList(fl, j, bp, up, down)|
    ensures var r := FreedList(fl, j, bp, up, down)[i];
            && (i <= j ==> r == fl[i])
            && (i == j + 1 && !down ==> r == bp)
            && (i > j && down && !up ==> r == fl[i])
            && (i > j && down && up ==> r == fl[i + 1])
            && (i > j + 1 && !down && !up ==> r == fl[i - 1])
            && (i > j + 1 && !down && up ==> r == fl[i])
  {
  }

  lemma AllIncreasing(fl: seq<int>, size: map<int, int>, base: int)
    requires Ordered(fl, size, base)
    ensures forall i, k :: 0 <= i < k < |fl| ==> fl[i] < fl[k]
  {
    forall i, k | 0 <= i < k < |fl| ensures fl[i] < fl[k] {
      Increasing(fl, size, base, i, k);
    }
  }

  /** bp fits strictly between its neighbours or touches them. */
  ghost predicate Touches(fl: seq<int>, size: map<int, int>, j: nat, bp: int, up: bool, down: bool) {
    && Between(fl, j, bp) && bp in size && size[bp] > 0 && fl[j] in size
    && fl[j] + size[fl[j]] <= bp && (j + 1 < |fl| ==> bp + size[bp] <= fl[j + 1])
    && (up <==> j + 1 < |fl| && bp + size[bp] == fl[j + 1])
    && (down <==> fl[j] + size[fl[j]] == bp)
  }

  lemma FreedStep(fl: seq<int>, size: map<int, int>, base: int, j: nat, bp: int, up: bool, down: bool, i: nat)
    requires Ordered(fl, size, base) && Touches(fl, size, j, bp, up, down)
    requires forall i, k :: 0 <= i < k < |fl| ==> fl[i] < fl[k]
    requires i < |FreedList(fl, j, bp, up, down)|
    ensures var fl', size' := FreedList(fl, j, bp, up, down), FreedSize(fl, size, j, bp, up, down);
            && fl'[i] in size' && (i > 0 ==> size'[fl'[i]] > 0)
            && (i + 1 < |fl'| ==> fl'[i] + size'[fl'[i]] < fl'[i + 1])
  {
    var fl' := FreedList(fl, j, bp, up, down);
    FreedIndex(fl, j, bp, up, down, i);
    if i + 1 < |fl'| {
      FreedIndex(fl, j, bp, up, down, i + 1);
    }
    hide FreedList;
  }

  lemma FreedOrdered(fl: seq<int>, size: map<int, int>, base: int, j: nat, bp: int, up: bool, down: bool)
    requires Ordered(fl, size, base) && Touches(fl, size, j, bp, up, down)
    ensures Ordered(FreedList(fl, j, bp, up, down), FreedSize(fl, size, j, bp, up, down), base)
  {
    AllIncreasing(fl, size, base);
    var fl', size' := FreedList(fl, j, bp, up, down), FreedSize(fl, size, j, bp, up, down);
    assert |fl'| > 0 && fl'[0] == base && size'[base] == 0;
    hide FreedList, FreedSize, Touches;
    forall i | 0 <= i < |fl'| ensures fl'[i] in size' && (i > 0 ==> size'[fl'[i]] > 0) {
      FreedStep(fl, size, base, j, bp, up, down, i);
    }
    forall i | 0 <= i < |fl'| - 1 ensures fl'[i] + size'[fl'[i]] < fl'[i + 1] {
      FreedStep(fl, size, base, j, bp, up, down, i);
    }
  }

  lemma FreedFrees(fl: seq<int>, size: map<int, int>, base: int, j: nat, bp: int, up: bool, down: bool)
    requires Ordered(fl, size, base) && Between(fl, j, bp) && (up ==> j + 1 < |fl|)
    ensures Frees(FreedList(fl, j, bp, up, down), base) ==
            Frees(fl, base) - (if up then {fl[j + 1]} else {}) + (if down then {} else {bp})
  {
    var fl' := FreedList(fl, j, bp, up, down);
    AllIncreasing(fl, size, base);
    assert fl == fl[..j + 1] + fl[j + 1..];
    assert up ==> fl[j + 1..] == [fl[j + 1]] + fl[j + 2..];
    assert up ==> fl[j + 1] !in fl[..j + 1] && fl[j + 1] !in fl[j + 2..] && fl[j + 1] != bp;
  }

  ghost function FreedPtr(fl: seq<int>, ptr: map<int, int>, j: nat, bp: int, up: bool, down: bool): map<int, int>
    requires j < |fl| && fl[j] in ptr && (up ==> ptr[fl[j]] in ptr)
  {
    var next := if up then ptr[ptr[fl[j]]] else ptr[fl[j]];
    ptr[bp := next][fl[j] := if down then next else bp]
  }

  lemma FreedNext(fl: seq<int>, ptr: map<int, int>, j: nat, bp: int, up: bool, down: bool, i: nat)
    requires Circular(fl, ptr) && Between(fl, j, bp) && (up ==> j + 1 < |fl|)
    requires forall i, k :: 0 <= i < k < |fl| ==> fl[i] < fl[k]
    requires i < |FreedList(fl, j, bp, up, down)|
    ensures var fl', ptr' := FreedList(fl, j, bp, up, down), FreedPtr(fl, ptr, j, bp, up, down);
            && fl'[i] in ptr'
            && (i + 1 < |fl'| ==> ptr'[fl'[i]] == fl'[i + 1])
            && (i + 1 == |fl'| ==> ptr'[fl'[i]] == fl'[0])
  {
    var fl' := FreedList(fl, j, bp, up, down);
    FreedIndex(fl, j, bp, up, down, 0);
    FreedIndex(fl, j, bp, up, down, i);
    if i + 1 < |fl'| {
      FreedIndex(fl, j, bp, up, down, i + 1);
    }
    assert forall m :: j < m < |fl| ==> bp < fl[m];
    assert j + 1 < |fl| ==> ptr[fl[j]] == fl[j + 1];
    assert up && j + 2 < |fl| ==> ptr[fl[j + 1]] == fl[j + 2];
  }

  lemma FreedCircular(fl: seq<int>, ptr: map<int, int>, size: map<int, int>, base: int, j: nat, bp: int, up: bool,
                      down: bool)
    requires Ordered(fl, size, base) && Circular(fl, ptr) && Between(fl, j, bp) && (up ==> j + 1 < |fl|)
    ensures Circular(FreedList(fl, j, bp, up, down), FreedPtr(fl, ptr, j, bp, up, down))
  {
    AllIncreasing(fl, size, base);
    var fl', ptr' := FreedList(fl, j, bp, up, down), FreedPtr(fl, ptr, j, bp, up, down);
    hide FreedList, FreedPtr;
    forall i | 0 <= i < |fl'| ensures fl'[i] in ptr' {
      FreedNext(fl, ptr, j, bp, up, down, i);
    }
    forall i | 0 <= i < |fl'| - 1 ensures ptr'[fl'[i]] == fl'[i + 1] {
      FreedNext(fl, ptr, j, bp, up, down, i);
    }
    if |fl'| > 0 {
      FreedNext(fl, ptr, j, bp, up, down, |fl'| - 1);
    }
  }

  /** The owners of units once bp is back. */
  ghost function FreedOwn(fl: seq<int>, own: map<int, int>, j: nat, bp: int, up: bool, down: bool): map<int, int>
    requires j < |fl| && (up ==> j + 1 < |fl|)
  {
    var own1 := if up then Absorb(own, bp, fl[j + 1]) else own;
    if down then Absorb(own1, fl[j], bp) else own1
  }

  lemma FreedOwnedUp(fl: seq<int>, live: set<int>, size: map<int, int>, own: map<int, int>, base: int,
                   j: nat, bp: int, up: bool, down: bool)
    requires Ordered(fl, size, base) && Touches(fl, size, j, bp, up, down) && up
    requires Frees(fl, base) !! live && Owned(Frees(fl, base) + live, size, own, base) && bp in live
    ensures var fl' := FreedList(fl, j, bp, up, down);
            && Frees(fl', base) !! live - {bp}
            && Owned(Frees(fl', base) + (live - {bp}), FreedSize(fl, size, j, bp, up, down),
                     FreedOwn(fl, own, j, bp, up, down), base)
    ensures FreedOwn(fl, own, j, bp, up, down).Keys == own.Keys
  {
    hide Owned, Absorb, Circular;
    var F, F' := Frees(fl, base), Frees(FreedList(fl, j, bp, up, down), base);
    FreedFrees(fl, size, base, j, bp, up, down);
    assert down ==> fl[j] in F;
    assert bp !in F && fl[j] != bp;
    assert fl[j + 1] in F;
    hide Frees, FreedList, Ordered;
    AbsorbOwned(F + live, size, own, base, bp, fl[j + 1]);
    if down {
      AbsorbOwned(F + live - {fl[j + 1]}, size[bp := size[bp] + size[fl[j + 1]]], Absorb(own, bp, fl[j + 1]),
                  base, fl[j], bp);
      assert F + live - {fl[j + 1]} - {bp} == F' + (live - {bp});
    } else {
      assert F + live - {fl[j + 1]} == F' + (live - {bp});
    }
  }

  lemma FreedOwnedFlat(fl: seq<int>, live: set<int>, size: map<int, int>, own: map<int, int>, base: int,
                   j: nat, bp: int, up: bool, down: bool)
    requires Ordered(fl, size, base) && Touches(fl, size, j, bp, up, down) && !up
    requires Frees(fl, base) !! live && Owned(Frees(fl, base) + live, size, own, base) && bp in live
    ensures var fl' := FreedList(fl, j, bp, up, down);
            && Frees(fl', base) !! live - {bp}
            && Owned(Frees(fl', base) + (live - {bp}), FreedSize(fl, size, j, bp, up, down),
                     FreedOwn(fl, own, j, bp, up, down), base)
    ensures FreedOwn(fl, own, j, bp, up, down).Keys == own.Keys
  {
    hide Owned, Absorb, Circular;
    var F, F' := Frees(fl, base), Frees(FreedList(fl, j, bp, up, down), base);
    FreedFrees(fl, size, base, j, bp, up, down);
    assert down ==> fl[j] in F;
    assert bp !in F && fl[j] != bp;
    hide Frees, FreedList, Ordered;
    assert size[bp := size[bp] + 0] == size;
    if down {
      AbsorbOwned(F + live, size, own, base, fl[j], bp);
      assert F + live - {bp} == F' + (live - {bp});
    } else {
      assert F + live == F' + (live - {bp});
    }
  }

  lemma FreedOwned(fl: seq<int>, live: set<int>, size: map<int, int>, own: map<int, int>, base: int,
                   j: nat, bp: int, up: bool, down: bool)
    requires Ordered(fl, size, base) && Touches(fl, size, j, bp, up, down)
    requires Frees(fl, base) !! live && Owned(Frees(fl, base) + live, size, own, base) && bp in live
    ensures var fl' := FreedList(fl, j, bp, up, down);
            && Frees(fl', base) !! live - {bp}
            && Owned(Frees(fl', base) + (live - {bp}), FreedSize(fl, size, j, bp, up, down),
                     FreedOwn(fl, own, j, bp, up, down), base)
    ensures FreedOwn(fl, own, j, bp, up, down).Keys == own.Keys
  {
    hide Owned, Frees, FreedList, FreedSize, FreedOwn, Ordered, Touches;
    if up {
      FreedOwnedUp(fl, live, size, own, base, j, bp, up, down);
    } else {
      FreedOwnedFlat(fl, live, size, own, base, j, bp, up, down);
    }
  }

  /** On the way from member s of the circle to member c, s left out, no block has n units. */
  ghost predicate Smaller(fl: seq<int>, size: map<int, int>, s: nat, c: nat, n: nat) {
    forall i :: 0 <= i < |fl| && (if c >= s then s < i <= c else i > s || i <= c) ==> fl[i] in size && size[fl[i]] < n
  }

  /** Some free block has n units. */
  ghost predicate Suffices(fl: seq<int>, size: map<int, int>, n: nat) {
    exists i :: 0 <= i < |fl| && fl[i] in size && size[fl[i]] >= n
  }

  class Allocator {
    const base: int
    var size: map<int, int>
    var ptr: map<int, int>
    var freep: int
    ghost var fl: seq<int>
    ghost var live: set<int>
    ghost var own: map<int, int>

    /** freep is 0 until the first call of malloc. */
    ghost predicate Valid()
      reads this
    {
      && base > 0
      && if freep == 0 then fl == [] && live == {} && own == map[]
         else
           && Ordered(fl, size, base) && Circular(fl, ptr) && freep in fl
           && Frees(fl, base) !! live && Owned(Frees(fl, base) + live, size, own, base)
    }

    constructor (at: int)
      requires at > 0
      ensures Valid() && live == {} && base == at
    {
      base := at;
      size, ptr, freep := map[], map[], 0;
      fl, live, own := [], {}, map[];
    }

    /** The search loop of free: once around the circle at most. */
    method FindSlot(bp: int) returns (p: int, ghost j: nat)
      requires Valid() && freep != 0 && bp in live
      ensures j < |fl| && p == fl[j] && Between(fl, j, bp)
    {
      LiveApart(fl, live, size, own, base, bp);
      ghost var goal := FindPlace(fl, size, base, bp, |fl|);
      AllIncreasing(fl, size, base);
      hide Owned;
      p := freep;
      ghost var k: int :| 0 <= k < |fl| && fl[k] == freep;
      while !(bp > p && bp < ptr[p])
        invariant 0 <= k < |fl| && p == fl[k]
        decreases if k <= goal then goal - k else |fl| - k + goal
      {
        if p >= ptr[p] && (bp > p || bp < ptr[p]) {
          break;
        }
        p := ptr[p];
        k := if k + 1 < |fl| then k + 1 else 0;
      }
      j := k;
    }

    /** free. Other blocks handed out keep their headers; the units given back lie in a free
        block at least as large. */
    method Free(bp: int)
      requires Valid() && freep != 0 && bp in live
      modifies this`size, this`ptr, this`freep, this`fl, this`live, this`own
      ensures Valid() && freep != 0 && live == old(live) - {bp} && own.Keys == old(own).Keys
      ensures forall a :: a in live ==> a in size && a in old(size) && size[a] == old(size)[a]
      ensures bp in old(size) && exists a :: a in fl && a in size && size[a] >= old(size)[bp]
    {
      hide Owned, FreedList, Frees, FreedPtr;
      ghost var j: nat;
      var p;
      p, j := FindSlot(bp);
      LiveApart(fl, live, size, own, base, bp);
      BlockRoom(fl, live, size, own, base, j, bp);
      var next := ptr[p];
      var up := bp + size[bp] == next;
      var down := p + size[p] == bp;
      NextIs(fl, ptr, size, base, j, bp);
      assert Touches(fl, size, j, bp, up, down);
      FreedOrdered(fl, size, base, j, bp, up, down);
      FreedCircular(fl, ptr, size, base, j, bp, up, down);
      FreedOwned(fl, live, size, own, base, j, bp, up, down);
      FreedHas(fl, size, j, bp, up, down);
      FreedLive(fl, live, size, own, base, j, bp, up, down);
      if up {
        size := size[bp := size[bp] + size[next]];
        ptr := ptr[bp := ptr[next]];
      } else {
        ptr := ptr[bp := next];
      }
      if down {
        size := size[p := size[p] + size[bp]];
        ptr := ptr[p := ptr[bp]];
      } else {
        ptr := ptr[p := bp];
      }
      freep := p;
      FreedFields(fl, old(size), old(ptr), j, bp, up, down);
      AllIncreasing(fl, old(size), base);
      assert size == FreedSize(fl, old(size), j, bp, up, down);
      assert ptr == FreedPtr(fl, old(ptr), j, bp, up, down);
      assert freep >= base;
      own := FreedOwn(fl, own, j, bp, up, down);
      fl, live := FreedList(fl, j, bp, up, down), live - {bp};
      assert freep in fl;
    }

    /** The walk of malloc from freep, once around: the first block in that order with at least
        n units, and the block before it. */
    method Search(n: nat) returns (found: bool, prevp: int, p: int, ghost k: nat)
      requires Valid() && freep != 0 && n > 0
      ensures found ==> k + 1 < |fl| && prevp == fl[k] && p == fl[k + 1] && size[p] >= n
      ensures found ==> exists s :: 0 <= s < |fl| && fl[s] == freep && Smaller(fl, size, s, k, n)
      ensures !found ==> forall i :: 0 <= i < |fl| ==> size[fl[i]] < n
    {
      hide Owned;
      prevp := freep;
      p := ptr[prevp];
      ghost var s: int :| 0 <= s < |fl| && fl[s] == freep;
      AllIncreasing(fl, size, base);
      ghost var c: int := s;
      while true
        invariant 0 <= c < |fl| && prevp == fl[c] && p == if c + 1 < |fl| then fl[c + 1] else fl[0]
        invariant Smaller(fl, size, s, c, n)
        decreases if c >= s then |fl| + s - c else s - c
      {
        if size[p] >= n {
          found, k := true, c;
          return;
        }
        if p == freep {
          found, k := false, 0;
          return;
        }
        prevp := p;
        p := ptr[p];
        c := if c + 1 < |fl| then c + 1 else 0;
      }
    }

    /** morecore: new units from sbrk (in `core`; None when sbrk fails) join the free list. */
    method Morecore(nu: nat, core: Option<int>) returns (ok: bool)
      requires Valid() && freep != 0
      requires core.Some? ==> Fresh(own, base, core.value, if nu < 4096 then 4096 else nu)
      modifies this`size, this`ptr, this`freep, this`fl, this`live, this`own
      ensures Valid() && freep != 0 && live == old(live) && ok == core.Some?
      ensures !ok ==> own == old(own) && fl == old(fl) && size == old(size)
      ensures ok ==> own.Keys == old(own).Keys + Range(core.value, if nu < 4096 then 4096 else nu)
      ensures forall a :: a in live ==> a in size && a in old(size) && size[a] == old(size)[a]
      ensures ok ==> exists i :: 0 <= i < |fl| && size[fl[i]] >= nu
    {
      hide Owned, Frees, Circular;
      LiveSized(fl, live, size, own, base);
      var n := if nu < 4096 then 4096 else nu;
      if core.None? {
        return false;
      }
      var hp := core.value;
      GrowOwned(fl, live, size, ptr, own, base, hp, n);
      size := size[hp := n];
      own := Grow(own, hp, n);
      live := live + {hp};
      Free(hp);
      ghost var a :| a in fl && a in size && size[a] >= n;
      ghost var i :| 0 <= i < |fl| && fl[i] == a;
      return true;
    }

    /** The end of malloc's loop: block fl[k+1] is handed out whole, or its upper n units are. */
    method Take(n: nat, prevp: int, p: int, ghost k: nat) returns (bp: int)
      requires Valid() && freep != 0 && n > 0
      requires k + 1 < |fl| && prevp == fl[k] && p == fl[k + 1] && size[p] >= n
      modifies this`size, this`ptr, this`freep, this`fl, this`live, this`own
      ensures Valid() && freep == prevp && own.Keys == old(own).Keys
      ensures bp !in old(live) && live == old(live) + {bp} && bp in size && size[bp] == n
      ensures forall a :: a in old(live) ==> a in size && a in old(size) && size[a] == old(size)[a]
    {
      hide Owned, Frees, Circular, Drop, Carve;
      LiveSized(fl, live, size, own, base);
      AboveBase(fl, size, base, k);
      if size[p] == n {
        TakeWhole(fl, ptr, size, live, base, k);
        FreeIn(fl, size, base, k);
        ptr := ptr[prevp := ptr[p]];
        fl := Drop(fl, k);
        bp := p;
      } else {
        TakeTail(fl, size, live, own, base, k, n);
        size := size[p := size[p] - n];
        bp := p + size[p];
        size := size[bp := n];
        own := Carve(own, bp, n);
      }
      live := live + {bp};
      freep := prevp;
    }

    /** malloc. `core` is where sbrk would put new units, None when it refuses. The result is the
        block's header (its payload starts one unit further). The heap grows by exactly what sbrk
        gave, and only when no free block suffices. */
    method Malloc(nbytes: nat, core: Option<int>) returns (r: Option<int>)
      requires Valid() && nbytes < 0x7FFF_FFF0
      requires core.Some? ==> Fresh(own, base, core.value, if Units(nbytes) < 4096 then 4096 else Units(nbytes))
      modifies this`size, this`ptr, this`freep, this`fl, this`live, this`own
      ensures Valid() && freep != 0
      ensures r.Some? ==>
                && r.value !in old(live) && live == old(live) + {r.value}
                && r.value in size && size[r.value] == Units(nbytes) && (size[r.value] - 1) * HEADER >= nbytes
      ensures r.None? <==> core.None? && !Suffices(old(fl), old(size), Units(nbytes))
      ensures r.None? ==>
                && live == old(live) && own == old(own)
                && forall i :: 0 <= i < |fl| ==> fl[i] in size && size[fl[i]] < Units(nbytes)
      ensures forall a :: a in old(live) ==> a in size && a in old(size) && size[a] == old(size)[a]
      ensures own.Keys ==
                if core.None? || Suffices(old(fl), old(size), Units(nbytes)) then old(own).Keys
                else old(own).Keys + Range(core.value, if Units(nbytes) < 4096 then 4096 else Units(nbytes))
    {
      hide Owned, Frees, Circular;
      var n := Units(nbytes);
      PayloadFitsIff(nbytes);
      if freep == 0 {
        ptr, size := ptr[base := base], size[base := 0];
        freep := base;
        fl := [base];
        EmptyHeap(base, size, ptr);
      }
      LiveSized(fl, live, size, own, base);
      ghost var k;
      var found, prevp, p;
      found, prevp, p, k := Search(n);
      if !found {
        var ok := Morecore(n, core);
        if !ok {
          return None;
        }
        found, prevp, p, k := Search(n);
        assert found;
      }
      var bp := Take(n, prevp, p, k);
      return Some(bp);
    }
  }

  lemma EmptyHeap(base: int, size: map<int, int>, ptr: map<int, int>)
    requires base in ptr && ptr[base] == base && base in size && size[base] == 0
    ensures Frees([base], base) + {} == {} && Frees([base], base) !! {}
    ensures Owned({}, size, map[], base) && Circular([base], ptr) && Ordered([base], size, base)
  {
  }

  /** fl without its member k + 1. */
  ghost function Drop(fl: seq<int>, k: nat): (r: seq<int>)
    requires k + 1 < |fl|
    ensures |r| == |fl| - 1
    ensures forall i :: 0 <= i <= k ==> r[i] == fl[i]
    ensures forall i :: k < i < |r| ==> r[i] == fl[i + 1]
  {
    fl[..k + 1] + fl[k + 2..]
  }

  lemma TakeWhole(fl: seq<int>, ptr: map<int, int>, size: map<int, int>, live: set<int>, base: int, k: nat)
    requires Ordered(fl, size, base) && Circular(fl, ptr) && k + 1 < |fl| && Frees(fl, base) !! live
    ensures fl[k] in ptr && fl[k + 1] in ptr
    ensures var fl' := Drop(fl, k);
            && Ordered(fl', size, base) && Circular(fl', ptr[fl[k] := ptr[fl[k + 1]]]) && fl[k] in fl'
            && Frees(fl', base) !! live + {fl[k + 1]}
            && Frees(fl', base) + (live + {fl[k + 1]}) == Frees(fl, base) + live
  {
    AllIncreasing(fl, size, base);
    WholeFrees(fl, base, k);
    hide Drop, Frees;
    var fl' := Drop(fl, k);
    assert fl'[k] == fl[k];
    DropOrdered(fl, size, base, k);
    DropCircular(fl, ptr, k);
  }

  lemma DropOrdered(fl: seq<int>, size: map<int, int>, base: int, k: nat)
    requires Ordered(fl, size, base) && k + 1 < |fl|
    ensures Ordered(Drop(fl, k), size, base)
  {
    hide Drop;
    var fl' := Drop(fl, k);
    forall i | 0 <= i < |fl'| - 1 ensures fl'[i] + size[fl'[i]] < fl'[i + 1] {
      Increasing(fl, size, base, if i <= k then i else i + 1, if i < k then i + 1 else i + 2);
    }
  }

  lemma DropCircular(fl: seq<int>, ptr: map<int, int>, k: nat)
    requires Circular(fl, ptr) && k + 1 < |fl| && forall i, j :: 0 <= i < j < |fl| ==> fl[i] < fl[j]
    ensures Circular(Drop(fl, k), ptr[fl[k] := ptr[fl[k + 1]]])
  {
    hide Drop;
    var fl', ptr' := Drop(fl, k), ptr[fl[k] := ptr[fl[k + 1]]];
    assert forall i :: 0 <= i < |fl| && i != k ==> ptr'[fl[i]] == ptr[fl[i]];
  }

  lemma WholeFrees(fl: seq<int>, base: int, k: nat)
    requires k + 1 < |fl| && fl[0] == base && forall i, j :: 0 <= i < j < |fl| ==> fl[i] < fl[j]
    ensures Frees(Drop(fl, k), base) == Frees(fl, base) - {fl[k + 1]}
    ensures fl[k + 1] in Frees(fl, base)
  {
    assert fl == fl[..k + 1] + [fl[k + 1]] + fl[k + 2..];
    assert fl[k + 1] !in fl[..k + 1] && fl[k + 1] !in fl[k + 2..];
  }

  lemma AboveBase(fl: seq<int>, size: map<int, int>, base: int, k: nat)
    requires Ordered(fl, size, base) && k < |fl|
    ensures fl[k] >= base && fl[k] in fl
  {
    if k > 0 {
      Increasing(fl, size, base, 0, k);
    }
  }

  lemma FreeIn(fl: seq<int>, size: map<int, int>, base: int, k: nat)
    requires Ordered(fl, size, base) && k + 1 < |fl|
    ensures fl[k + 1] in Frees(fl, base)
  {
    Increasing(fl, size, base, 0, k + 1);
  }

  /** The units from bp on become a block of their own. */
  ghost function Carve(own: map<int, int>, bp: int, n: nat): map<int, int> {
    map u | u in own :: if bp <= u < bp + n then bp else own[u]
  }

  lemma CarveBlock(B: set<int>, size: map<int, int>, own: map<int, int>, base: int, p: int, n: nat)
    requires Owned(B, size, own, base) && p in B && p in size && 0 < n < size[p]
    ensures var bp := p + size[p] - n;
            bp !in B && Owned(B + {bp}, size[p := size[p] - n][bp := n], Carve(own, bp, n), base)
    ensures Carve(own, p + size[p] - n, n).Keys == own.Keys
  {
    var bp := p + size[p] - n;
    assert own[bp] == p;
    assert bp !in B;
    CarveBack(B, size, own, base, p, n);
    CarveOwns(B, size, own, base, p, n);
  }

  /** Every unit still lies in the block that owns it. */
  lemma CarveBack(B: set<int>, size: map<int, int>, own: map<int, int>, base: int, p: int, n: nat)
    requires Owned(B, size, own, base) && p in B && p in size && 0 < n < size[p]
    ensures var bp := p + size[p] - n;
            var own', size' := Carve(own, bp, n), size[p := size[p] - n][bp := n];
            forall u :: u in own' ==> own'[u] in B + {bp} && own'[u] <= u < own'[u] + size'[own'[u]]
  {
    var bp := p + size[p] - n;
    forall u | u in own ensures own[u] != p || p <= u < bp || bp <= u < bp + n {
    }
    assert own[bp] == p && bp !in B;
  }

  /** Every block still owns all its units. */
  lemma CarveOwns(B: set<int>, size: map<int, int>, own: map<int, int>, base: int, p: int, n: nat)
    requires Owned(B, size, own, base) && p in B && p in size && 0 < n < size[p]
    ensures var bp := p + size[p] - n;
            var own', size' := Carve(own, bp, n), size[p := size[p] - n][bp := n];
            forall a, u :: a in B + {bp} && a in size' && a <= u < a + size'[a] ==> u in own' && own'[u] == a
  {
    var bp := p + size[p] - n;
    var size' := size[p := size[p] - n][bp := n];
    assert own[bp] == p && bp !in B;
    forall a, u | a in B + {bp} && a in size' && a <= u < a + size'[a]
      ensures u in own && own[u] == (if a == bp then p else a) && (a == bp <==> bp <= u < bp + n)
    {
      if a == bp {
        assert p <= u < p + size[p];
      } else {
        assert a <= u < a + size[a];
      }
    }
  }

  lemma TakeTail(fl: seq<int>, size: map<int, int>, live: set<int>, own: map<int, int>, base: int, k: nat, n: nat)
    requires Ordered(fl, size, base) && k + 1 < |fl| && 0 < n < size[fl[k + 1]]
    requires Frees(fl, base) !! live && Owned(Frees(fl, base) + live, size, own, base)
    ensures var p := fl[k + 1];
            var bp := p + size[p] - n;
            var size' := size[p := size[p] - n][bp := n];
            && bp !in live && bp !in fl && p !in live && Frees(fl, base) !! live + {bp} && Ordered(fl, size', base)
            && Owned(Frees(fl, base) + (live + {bp}), size', Carve(own, bp, n), base)
    ensures Carve(own, fl[k + 1] + size[fl[k + 1]] - n, n).Keys == own.Keys
  {
    var p := fl[k + 1];
    var B := Frees(fl, base) + live;
    AboveBase(fl, size, base, k);
    assert p in Frees(fl, base);
    CarveBlock(B, size, own, base, p, n);
    hide Owned, Carve;
    var bp := p + size[p] - n;
    assert bp !in fl;
    ShrinkOrdered(fl, size, base, k, n);
    assert Frees(fl, base) + (live + {bp}) == B + {bp};
  }

  lemma ShrinkOrdered(fl: seq<int>, size: map<int, int>, base: int, k: nat, n: nat)
    requires Ordered(fl, size, base) && k + 1 < |fl| && 0 < n < size[fl[k + 1]]
             && fl[k + 1] + size[fl[k + 1]] - n !in fl
    ensures var p := fl[k + 1];
            var bp := p + size[p] - n;
            Ordered(fl, size[p := size[p] - n][bp := n], base)
  {
    AllIncreasing(fl, size, base);
    var p := fl[k + 1];
    var size' := size[p := size[p] - n][p + size[p] - n := n];
    forall i | 0 <= i < |fl| ensures fl[i] in size' && size'[fl[i]] == if i == k + 1 then size[p] - n else size[fl[i]] {
      assert i < k + 1 ==> fl[i] < p;
      assert i > k + 1 ==> fl[i] > p;
    }
  }

  ghost function Range(hp: int, n: nat): (r: set<int>)
    ensures forall u :: u in r <==> hp <= u < hp + n
  {
    if n == 0 then {} else Range(hp, n - 1) + {hp + n - 1}
  }

  /** sbrk hands out units above the base header that nobody has. */
  ghost predicate Fresh(own: map<int, int>, base: int, hp: int, n: nat) {
    hp > base && forall u :: hp <= u < hp + n ==> u !in own
  }

  ghost function Grow(own: map<int, int>, hp: int, n: nat): map<int, int> {
    own + map u | u in Range(hp, n) :: hp
  }

  lemma LiveSized(fl: seq<int>, live: set<int>, size: map<int, int>, own: map<int, int>, base: int)
    requires Owned(Frees(fl, base) + live, size, own, base)
    ensures forall a :: a in live ==> a in size
  {
    assert forall a :: a in live ==> a in Frees(fl, base) + live;
  }

  /** Fresh units form one more block, not on the free list yet. */
  lemma GrowOwned(fl: seq<int>, live: set<int>, size: map<int, int>, ptr: map<int, int>, own: map<int, int>,
                  base: int, hp: int, n: nat)
    requires Ordered(fl, size, base) && Frees(fl, base) !! live && Owned(Frees(fl, base) + live, size, own, base)
    requires Fresh(own, base, hp, n) && n > 0
    ensures hp !in live && hp !in fl && Frees(fl, base) !! live + {hp}
    ensures Ordered(fl, size[hp := n], base)
    ensures Owned(Frees(fl, base) + (live + {hp}), size[hp := n], Grow(own, hp, n), base)
    ensures Grow(own, hp, n).Keys == own.Keys + Range(hp, n)
  {
    var B := Frees(fl, base) + live;
    GrowBlocks(B, size, own, base, hp, n);
    assert hp !in fl;
    hide Owned;
    assert Frees(fl, base) + (live + {hp}) == B + {hp};
  }

  lemma GrowBlocks(B: set<int>, size: map<int, int>, own: map<int, int>, base: int, hp: int, n: nat)
    requires Owned(B, size, own, base) && Fresh(own, base, hp, n) && n > 0
    ensures hp !in B && Owned(B + {hp}, size[hp := n], Grow(own, hp, n), base)
    ensures Grow(own, hp, n).Keys == own.Keys + Range(hp, n)
  {
    hide Range;
    assert hp !in own;
    var own' := Grow(own, hp, n);
    assert forall u :: u in own' <==> u in own || hp <= u < hp + n;
    assert forall u :: hp <= u < hp + n ==> own'[u] == hp;
    assert forall u :: u in own ==> own'[u] == own[u];
    hide Grow, Owned;
    AddBlock(B, size, own, own', base, hp, n);
  }

  lemma AddBlock(B: set<int>, size: map<int, int>, own: map<int, int>, own': map<int, int>, base: int, hp: int, n: nat)
    requires Owned(B, size, own, base) && Fresh(own, base, hp, n) && n > 0
    requires forall u :: u in own' <==> u in own || hp <= u < hp + n
    requires forall u :: u in own ==> own'[u] == own[u]
    requires forall u :: hp <= u < hp + n ==> own'[u] == hp
    ensures hp !in B && Owned(B + {hp}, size[hp := n], own', base)
  {
    assert hp !in own;
    assert hp !in B;
    forall a, u | a in B && a in size && a <= u < a + size[a] ensures u in own' && own'[u] == a {
      assert u in own;
    }
  }

  lemma BlockRoom(fl: seq<int>, live: set<int>, size: map<int, int>, own: map<int, int>, base: int, j: nat, bp: int)
    requires Ordered(fl, size, base) && Owned(Frees(fl, base) + live, size, own, base) && bp in live
             && Between(fl, j, bp)
    ensures bp in size && size[bp] > 0 && fl[j] in size && fl[j] + size[fl[j]] <= bp
    ensures j + 1 < |fl| ==> bp + size[bp] <= fl[j + 1]
  {
    Neighbours(fl, Frees(fl, base) + live, size, own, base, j, bp);
  }

  lemma NextIs(fl: seq<int>, ptr: map<int, int>, size: map<int, int>, base: int, j: nat, bp: int)
    requires Ordered(fl, size, base) && Circular(fl, ptr) && j < |fl| && bp > base
    ensures ptr[fl[j]] == if j + 1 < |fl| then fl[j + 1] else base
    ensures ptr[fl[j]] in ptr && ptr[fl[j]] in size
  {
  }

  lemma FreedHas(fl: seq<int>, size: map<int, int>, j: nat, bp: int, up: bool, down: bool)
    requires Touches(fl, size, j, bp, up, down) && forall i :: 0 <= i < |fl| ==> fl[i] in size
    requires up ==> size[fl[j + 1]] > 0
    requires size[fl[j]] >= 0
    ensures var fl', size' := FreedList(fl, j, bp, up, down), FreedSize(fl, size, j, bp, up, down);
            fl[j] in fl' && exists a :: a in fl' && a in size' && size'[a] >= size[bp]
  {
    var fl', size' := FreedList(fl, j, bp, up, down), FreedSize(fl, size, j, bp, up, down);
    FreedIndex(fl, j, bp, up, down, j);
    assert fl'[j] == fl[j];
    if !down {
      FreedIndex(fl, j, bp, up, down, j + 1);
      assert fl'[j + 1] == bp;
      assert bp in fl' && size'[bp] >= size[bp];
    } else {
      assert fl[j] in fl' && size'[fl[j]] >= size[bp];
    }
  }

  lemma FreedLive(fl: seq<int>, live: set<int>, size: map<int, int>, own: map<int, int>, base: int,
                  j: nat, bp: int, up: bool, down: bool)
    requires Ordered(fl, size, base) && Touches(fl, size, j, bp, up, down)
    requires Frees(fl, base) !! live && Owned(Frees(fl, base) + live, size, own, base) && bp in live
    ensures var size' := FreedSize(fl, size, j, bp, up, down);
            forall a :: a in live - {bp} ==> a in size && a in size' && size'[a] == size[a]
  {
    assert fl[j] == base || fl[j] in Frees(fl, base);
    forall a | a in live - {bp} ensures a in size && a != fl[j] {
      assert a in Frees(fl, base) + live;
    }
  }

  lemma FreedFields(fl: seq<int>, size: map<int, int>, ptr: map<int, int>, j: nat, bp: int, up: bool, down: bool)
    requires Touches(fl, size, j, bp, up, down) && Circular(fl, ptr) && forall i :: 0 <= i < |fl| ==> fl[i] in size
    ensures ptr[fl[j]] in ptr
    ensures FreedSize(fl, size, j, bp, up, down) ==
            var size1 := if up then size[bp := size[bp] + size[fl[j + 1]]] else size;
            if down then size1[fl[j] := size1[fl[j]] + size1[bp]] else size1
    ensures FreedPtr(fl, ptr, j, bp, up, down) ==
            var ptr1 := ptr[bp := if up then ptr[ptr[fl[j]]] else ptr[fl[j]]];
            ptr1[fl[j] := if down then ptr1[bp] else bp]
  {
    assert ptr[fl[j]] == if j + 1 < |fl| then fl[j + 1] else fl[0];
    assert !up ==> size[bp := size[bp] + 0] == size;
  }

  lemma LiveApart(fl: seq<int>, live: set<int>, size: map<int, int>, own: map<int, int>, base: int, bp: int)
    requires Ordered(fl, size, base) && Frees(fl, base) !! live && Owned(Frees(fl, base) + live, size, own, base)
             && bp in live
    ensures bp > base && bp !in fl && bp in size && size[bp] > 0
  {
    assert bp in Frees(fl, base) + live;
  }
}
