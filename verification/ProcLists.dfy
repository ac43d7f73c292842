/** What leaving and entering a list does to the placement of processes on lists. */
module ProcLists {
  import opened Common
  import opened ProcSpec

  lemma {:induction false} WithoutMember(s: seq<nat>, p: nat, x: nat)
    requires Distinct(s)
    ensures x in Without(s, p) <==> x in s && x != p
  {
    if s != [] && s[0] != p {
      WithoutMember(s[1..], p, x);
    }
  }

  lemma {:induction false} WithoutDistinct(s: seq<nat>, p: nat)
    requires Distinct(s)
    ensures Distinct(Without(s, p))
    ensures |Without(s, p)| == if p in s then |s| - 1 else |s|
  {
    if s != [] && s[0] != p {
      WithoutDistinct(s[1..], p);
      WithoutMember(s[1..], p, s[0]);
      assert s[0] !in s[1..];
    }
  }

  lemma WithoutFacts(s: seq<nat>, p: nat)
    requires Distinct(s)
    ensures Distinct(Without(s, p))
    ensures forall x :: x in Without(s, p) <==> x in s && x != p
    ensures |Without(s, p)| == if p in s then |s| - 1 else |s|
  {
    WithoutDistinct(s, p);
    forall x ensures x in Without(s, p) <==> x in s && x != p {
      WithoutMember(s, p, x);
    }
  }

  lemma {:induction false} WithoutAt(s: seq<nat>, k: nat)
    requires Distinct(s) && k < |s|
    ensures Without(s, s[k]) == s[..k] + s[k + 1..]
  {
    if k > 0 {
      WithoutAt(s[1..], k - 1);
      assert s[1..][k - 1] == s[k];
      assert s[..k] == [s[0]] + s[1..][..k - 1];
      assert s[1..][k..] == s[k + 1..];
    }
  }

  lemma LeaveListed(procs: seq<Proc>, q: seq<seq<nat>>, off: set<nat>, p: nat)
    requires Listed(procs, q, off) && p < NPROC && p !in off
    ensures On(q, ListId(procs[p]), p)
    ensures var l := ListId(procs[p]);
            Listed(procs, q[l := Without(q[l], p)], off + {p})
  {
    var l := ListId(procs[p]);
    assert On(q, l, p);
    WithoutFacts(q[l], p);
    var q' := q[l := Without(q[l], p)];
    forall k, x: nat | On(q', k, x) ensures x < NPROC && x !in off + {p} && ListId(procs[x]) == k {
      assert On(q, k, x);
    }
    forall x | 0 <= x < NPROC && x !in off + {p} ensures On(q', ListId(procs[x]), x) {
      assert On(q, ListId(procs[x]), x);
    }
  }

  lemma EnterListed(procs: seq<Proc>, q: seq<seq<nat>>, off: set<nat>, p: nat, np: Proc)
    requires Listed(procs, q, off) && p < NPROC && p in off && Listable(np)
    ensures Listed(procs[p := np], q[ListId(np) := q[ListId(np)] + [p]], off - {p})
  {
    var l, procs' := ListId(np), procs[p := np];
    var q' := q[l := q[l] + [p]];
    assert !On(q, l, p);
    assert Distinct(q'[l]);
    forall k, x: nat | On(q', k, x) ensures x < NPROC && x !in off - {p} && ListId(procs'[x]) == k {
      assert On(q, k, x) || (k == l && x == p);
    }
    forall x | 0 <= x < NPROC && x !in off - {p} ensures On(q', ListId(procs'[x]), x) {
      assert x == p || On(q, ListId(procs[x]), x);
    }
  }

  lemma MoveListed(t: Table, off: set<nat>, p: nat, np: Proc)
    requires Shape(t) && Listed(t.procs, t.q, off) && p < NPROC && p !in off && Listable(np)
    ensures Listed(Move(t, p, np).procs, Move(t, p, np).q, off)
  {
    LeaveListed(t.procs, t.q, off, p);
    EnterListed(t.procs, Leave(t, p).q, off + {p}, p, np);
    assert off + {p} - {p} == off;
  }

  /** Updates that leave every state and ready-list priority alone keep the placement. */
  lemma SamePlaces(procs: seq<Proc>, procs': seq<Proc>, q: seq<seq<nat>>, off: set<nat>)
    requires Listed(procs, q, off) && |procs'| == NPROC
    requires forall p :: 0 <= p < NPROC && p !in off ==> ListId(procs'[p]) == ListId(procs[p])
    ensures Listed(procs', q, off)
  {
  }

  /** A list has at most NPROC members, so a queue position is always below NPROC. */
  lemma {:induction false} DistinctBound(s: seq<nat>, n: nat)
    requires Distinct(s) && forall x :: x in s ==> x < n
    ensures |s| <= n
    decreases n
  {
    if s != [] {
      assert s[0] in s;
      WithoutFacts(s, n - 1);
      DistinctBound(Without(s, n - 1), n - 1);
    }
  }

  /** Promotion keeps every process on the list that fits. */
  lemma PromoteListed(t: Table, off: set<nat>)
    requires Shape(t) && Listed(t.procs, t.q, off)
    ensures Listed(Promote(t).procs, Promote(t).q, off)
  {
    var t', top := Promote(t), READY + MAXPRIO;
    assert t'.q[top] == t.q[top] + t.q[top - 1];
    forall i, j | 0 <= i < j < |t'.q[top]| ensures t'.q[top][i] != t'.q[top][j] {
      if i < |t.q[top]| <= j {
        assert On(t.q, top, t'.q[top][i]) && On(t.q, top - 1, t'.q[top][j]);
      }
    }
    forall l, p: nat | On(t'.q, l, p) ensures p < NPROC && p !in off && ListId(t'.procs[p]) == l {
      if l == top {
        assert On(t.q, top, p) || On(t.q, top - 1, p);
      } else if l > READY {
        assert On(t.q, l - 1, p);
      } else {
        assert On(t.q, l, p);
      }
    }
    forall p | 0 <= p < NPROC && p !in off ensures On(t'.q, ListId(t'.procs[p]), p) {
      assert On(t.q, ListId(t.procs[p]), p);
    }
  }
}
