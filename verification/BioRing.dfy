/**
The circular doubly linked list of src/bio.c as values: two arrays of links, and the order in which
the list visits the buffers, most recently released first.
*/
module BioRing {
  import opened Common

  /** The list head is the node after the last buffer. */
  const HEAD: nat := NBUF

  /** The i-th node after the head; both ends of the list are the head. */
  function Node(order: seq<nat>, i: int): nat {
    if 0 <= i < |order| then order[i] else HEAD
  }

  ghost predicate Ring(next: seq<nat>, prev: seq<nat>, order: seq<nat>) {
    && |next| == |prev| == NBUF + 1
    && Distinct(order) && (forall i :: 0 <= i < |order| ==> order[i] < NBUF)
    && (forall i :: -1 <= i < |order| ==> next[Node(order, i)] == Node(order, i + 1))
    && (forall i :: 0 <= i <= |order| ==> prev[Node(order, i)] == Node(order, i - 1))
  }

  /** The four assignments that put b after the head. */
  function PushNext(next: seq<nat>, b: nat): seq<nat>
    requires |next| == NBUF + 1 && b < NBUF
  {
    next[b := next[HEAD]][HEAD := b]
  }

  function PushPrev(next: seq<nat>, prev: seq<nat>, b: nat): seq<nat>
    requires |next| == |prev| == NBUF + 1 && b < NBUF && next[HEAD] <= NBUF
  {
    prev[b := HEAD][next[HEAD] := b]
  }

  lemma PushRing(next: seq<nat>, prev: seq<nat>, order: seq<nat>, b: nat)
    requires Ring(next, prev, order) && b < NBUF && b !in order
    ensures next[HEAD] <= NBUF && Ring(PushNext(next, b), PushPrev(next, prev, b), [b] + order)
  {
    var next', order' := PushNext(next, b), [b] + order;
    assert next[HEAD] == Node(order, 0) by { assert Node(order, -1) == HEAD; }
    var prev' := PushPrev(next, prev, b);
    forall i | -1 <= i <= |order| ensures next'[Node(order', i)] == Node(order', i + 1) {
      if i >= 1 {
        assert Node(order', i) == Node(order, i - 1) == order[i - 1] && Node(order', i + 1) == Node(order, i);
      }
    }
    forall i | 0 <= i <= |order| + 1 ensures prev'[Node(order', i)] == Node(order', i - 1) {
      if i >= 1 {
        assert Node(order', i) == Node(order, i - 1);
        assert i >= 2 ==> Node(order', i - 1) == Node(order, i - 2) && Node(order, i - 1) != Node(order, 0);
      }
    }
  }

  function Without(order: seq<nat>, k: nat): seq<nat>
    requires k < |order|
  {
    order[..k] + order[k + 1..]
  }

  /** The two assignments that take a node out. */
  lemma DropRing(next: seq<nat>, prev: seq<nat>, order: seq<nat>, k: nat)
    requires Ring(next, prev, order) && k < |order|
    ensures next[order[k]] <= NBUF && prev[order[k]] <= NBUF
    ensures Ring(next[prev[order[k]] := next[order[k]]], prev[next[order[k]] := prev[order[k]]], Without(order, k))
  {
    var b, order' := order[k], Without(order, k);
    assert Node(order, k) == b;
    var n, p := next[b], prev[b];
    assert n == Node(order, k + 1) && p == Node(order, k - 1);
    var next', prev' := next[p := n], prev[n := p];
    forall i | -1 <= i < |order'| ensures next'[Node(order', i)] == Node(order', i + 1) {
      if i < k - 1 {
        assert Node(order', i) == Node(order, i) && Node(order', i + 1) == Node(order, i + 1);
        assert Node(order, i) != p;
      } else if i == k - 1 {
        assert Node(order', i) == p;
        assert Node(order', i + 1) == n;
      } else {
        assert Node(order', i) == Node(order, i + 1) && Node(order', i + 1) == Node(order, i + 2);
        assert Node(order, i + 1) != p;
      }
    }
    forall i | 0 <= i <= |order'| ensures prev'[Node(order', i)] == Node(order', i - 1) {
      if i < k {
        assert Node(order', i) == Node(order, i) && Node(order', i - 1) == Node(order, i - 1);
        assert Node(order, i) != n;
      } else if i == k {
        assert Node(order', i) == n && Node(order', i - 1) == p;
      } else {
        assert Node(order', i) == Node(order, i + 1) && Node(order', i - 1) == Node(order, i);
        assert Node(order, i + 1) != n;
      }
    }
  }
}
