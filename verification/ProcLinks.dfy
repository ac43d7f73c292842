/** The linked lists of src/proc.c: head and tail indices and next links (-1 for NULL) that
    spell out disjoint queues, and what relinking does to them. */
module ProcLinks {
  import opened Common
  import opened ProcSpec
  import opened ProcLists

  /** head, tail and the next links spell out s. */
  ghost predicate Chain(next: seq<int>, head: int, tail: int, s: seq<nat>) {
    && (forall i :: 0 <= i < |s| ==> s[i] < |next|)
    && (forall i :: 0 <= i < |s| - 1 ==> next[s[i]] == s[i + 1])
    && if s == [] then head == -1 && tail == -1
       else head == s[0] && tail == s[|s| - 1] && next[s[|s| - 1]] == -1
  }

  /** p is on no queue. */
  ghost predicate Off(q: seq<seq<nat>>, p: nat) {
    forall k :: 0 <= k < |q| ==> p !in q[k]
  }

  /** No process is on two queues, or twice on one. */
  ghost predicate Disjoint(q: seq<seq<nat>>) {
    && (forall l :: 0 <= l < |q| ==> Distinct(q[l]))
    && (forall l, k, p: nat :: On(q, l, p) && On(q, k, p) ==> l == k)
  }

  ghost predicate Links(next: seq<int>, head: seq<int>, tail: seq<int>, q: seq<seq<nat>>) {
    && |next| == NPROC && |head| == |tail| == |q| == NLIST && Disjoint(q)
    && (forall l :: 0 <= l < NLIST ==> Chain(next, head[l], tail[l], q[l]))
  }

  lemma ChainAppend(next: seq<int>, head: int, tail: int, s: seq<nat>, p: nat)
    requires Chain(next, head, tail, s) && p < |next| && p !in s && Distinct(s)
    ensures s == [] ==> Chain(next[p := -1], p, p, [p])
    ensures s != [] ==> Chain(next[tail := p][p := -1], head, p, s + [p])
  {
  }

  lemma ChainRemove(next: seq<int>, head: int, tail: int, s: seq<nat>, k: nat)
    requires Chain(next, head, tail, s) && Distinct(s) && k < |s|
    ensures k == 0 ==> Chain(next, next[head], if tail == s[0] then -1 else tail, s[1..])
    ensures 0 < k < |s| - 1 ==> Chain(next[s[k - 1] := next[s[k]]][s[k] := -1], head, tail, s[..k] + s[k + 1..])
    ensures 0 < k == |s| - 1 ==> Chain(next[s[k - 1] := -1][s[k] := -1], head, s[k - 1], s[..k] + s[k + 1..])
  {
    if k == 0 {
      assert forall i :: 0 <= i < |s[1..]| ==> s[1..][i] == s[i + 1];
    } else {
      var s' := s[..k] + s[k + 1..];
      assert forall i :: 0 <= i < |s'| ==> s'[i] == if i < k then s[i] else s[i + 1];
    }
  }

  /** Relinking queue l, through links of its own members and of processes on no queue, leaves
      the other queues alone. */
  lemma Relink(next: seq<int>, head: seq<int>, tail: seq<int>, q: seq<seq<nat>>, l: nat,
               next': seq<int>, h: int, t: int, s: seq<nat>)
    requires Links(next, head, tail, q) && l < NLIST && |next'| == NPROC
    requires Chain(next', h, t, s) && Distinct(s)
    requires forall x: nat :: x in s ==> forall k :: k != l ==> !On(q, k, x)
    requires forall x :: 0 <= x < NPROC && x !in q[l] && x !in s ==> next'[x] == next[x]
    ensures Links(next', head[l := h], tail[l := t], q[l := s])
  {
    var q' := q[l := s];
    assert forall k, x: nat :: On(q', k, x) ==> if k == l then x in s else On(q, k, x);
    forall k | 0 <= k < NLIST && k != l ensures Chain(next', head[k], tail[k], q[k]) {
      forall i | 0 <= i < |q[k]| ensures next'[q[k][i]] == next[q[k][i]] {
        assert On(q, k, q[k][i]);
        assert !On(q, l, q[k][i]);
      }
    }
  }

  /** stateListAdd on the links. */
  lemma LinksAdd(next: seq<int>, head: seq<int>, tail: seq<int>, q: seq<seq<nat>>, l: nat, p: nat)
    requires Links(next, head, tail, q) && l < NLIST && p < NPROC && Off(q, p)
    ensures head[l] == -1 <==> q[l] == []
    ensures head[l] != -1 ==> 0 <= tail[l] < NPROC
    ensures var next' := if head[l] == -1 then next[p := -1] else next[tail[l] := p][p := -1];
            Links(next', head[l := if head[l] == -1 then p else head[l]], tail[l := p], q[l := q[l] + [p]])
  {
    var s := q[l];
    assert !On(q, l, p);
    ChainAppend(next, head[l], tail[l], s, p);
    var next' := if head[l] == -1 then next[p := -1] else next[tail[l] := p][p := -1];
    assert s == [] ==> s + [p] == [p];
    forall x: nat | x in s + [p] ensures forall k :: k != l ==> !On(q, k, x) {
      assert x == p || On(q, l, x);
    }
    Relink(next, head, tail, q, l, next', if head[l] == -1 then p else head[l], p, s + [p]);
  }

  /** stateListRemove of the k-th member on the links; the head case leaves p->next set. */
  lemma LinksRemove(next: seq<int>, head: seq<int>, tail: seq<int>, q: seq<seq<nat>>, l: nat, k: nat)
    requires Links(next, head, tail, q) && l < NLIST && k < |q[l]|
    ensures var s := q[l];
            var q' := q[l := Without(s, s[k])];
            && 0 <= head[l] < NPROC && s[k] < NPROC
            && (k == 0 ==> Links(next, head[l := next[head[l]]], if tail[l] == s[0] then tail[l := -1] else tail, q'))
            && (k > 0 ==> s[k - 1] < NPROC)
            && (0 < k < |s| - 1 ==> tail[l] != s[k] && Links(next[s[k - 1] := next[s[k]]][s[k] := -1], head, tail, q'))
            && (0 < k == |s| - 1 ==>
                  tail[l] == s[k] && Links(next[s[k - 1] := -1][s[k] := -1], head, tail[l := s[k - 1]], q'))
  {
    hide Without;
    var s := q[l];
    ChainRemove(next, head[l], tail[l], s, k);
    WithoutAt(s, k);
    WithoutFacts(s, s[k]);
    assert s[0] in s && s[k] in s && (k > 0 ==> s[k - 1] in s);
    forall x: nat | x in s ensures forall j :: j != l ==> !On(q, j, x) {
      assert On(q, l, x);
    }
    var s' := Without(s, s[k]);
    if k == 0 {
      assert tail[l] != s[0] ==> tail[l := tail[l]] == tail;
      Relink(next, head, tail, q, l, next, next[head[l]], if tail[l] == s[0] then -1 else tail[l], s');
    } else if k < |s| - 1 {
      Relink(next, head, tail, q, l, next[s[k - 1] := next[s[k]]][s[k] := -1], head[l], tail[l], s');
      assert tail[l := tail[l]] == tail;
    } else {
      Relink(next, head, tail, q, l, next[s[k - 1] := -1][s[k] := -1], head[l], s[k - 1], s');
    }
    assert head[l := head[l]] == head;
  }

  /** Following next from position k of a queue. */
  lemma Follow(next: seq<int>, head: seq<int>, tail: seq<int>, q: seq<seq<nat>>, l: nat, k: nat)
    requires Links(next, head, tail, q) && l < NLIST && k <= |q[l]|
    ensures head[l] == if q[l] == [] then -1 else q[l][0]
    ensures tail[l] == -1 <==> q[l] == []
    ensures |next| == NPROC && |head| == NLIST && forall i :: 0 <= i < |q[l]| ==> q[l][i] < NPROC
    ensures k < |q[l]| ==> q[l][k] < NPROC && next[q[l][k]] == if k + 1 < |q[l]| then q[l][k + 1] else -1
  {
  }
}
