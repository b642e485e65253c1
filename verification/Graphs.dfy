/** Finite directed graphs on 0..n-1: walks, acyclicity, and why an acyclic one has a sink. */
module Graphs {
  import opened Sequences

  type Graph = (nat, nat) -> bool

  ghost predicate IsWalk(g: Graph, n: nat, p: seq<nat>) {
    && p != []
    && (forall k :: 0 <= k < |p| ==> p[k] < n)
    && (forall k :: 0 < k < |p| ==> g(p[k - 1], p[k]))
  }

  ghost predicate IsCycle(g: Graph, n: nat, p: seq<nat>) { IsWalk(g, n, p) && |p| >= 2 && p[0] == Last(p) }

  ghost predicate Acyclic(g: Graph, n: nat) { forall p :: !IsCycle(g, n, p) }

  ghost predicate IsSink(g: Graph, n: nat, i: nat) { i < n && forall j :: 0 <= j < n ==> !g(i, j) }

  lemma {:induction false} Repeats(p: seq<nat>, n: nat) returns (a: nat, b: nat)
    requires |p| > n && forall k :: 0 <= k < |p| ==> p[k] < n
    ensures a < b < |p| && p[a] == p[b]
    decreases n
  {
    assert p[0] < n;
    if i :| 0 <= i < |p| && p[i] == n - 1 {
      if j :| 0 <= j < |p| && j != i && p[j] == n - 1 {
        return if i < j then i else j, if i < j then j else i;
      }
      var rest := p[..i] + p[i + 1..];
      a, b := Repeats(rest, n - 1);
      a, b := if a < i then a else a + 1, if b < i then b else b + 1;
    } else {
      a, b := Repeats(p, n - 1);
    }
  }

  /** A walk longer than there are nodes contains a cycle. */
  lemma LongWalkHasCycle(g: Graph, n: nat, p: seq<nat>)
    requires IsWalk(g, n, p) && |p| > n
    ensures !Acyclic(g, n)
  {
    var a, b := Repeats(p, n);
    var cycle := p[a..b + 1];
    assert IsCycle(g, n, cycle);
  }

  /** Following edges from node 0 ends in a sink or comes back to where it has been. */
  lemma AcyclicHasSink(g: Graph, n: nat) returns (i: nat)
    requires n > 0 && Acyclic(g, n)
    ensures IsSink(g, n, i)
  {
    var p := [0];
    while |p| <= n
      invariant IsWalk(g, n, p)
    {
      i := Last(p);
      if forall j :: 0 <= j < n ==> !g(i, j) { return; }
      var j: nat :| j < n && g(i, j);
      p := p + [j];
    }
    LongWalkHasCycle(g, n, p);
    assert false;
  }

  lemma FewerEdgesStayAcyclic(g: Graph, h: Graph, n: nat)
    requires Acyclic(g, n) && forall i: nat, j: nat :: i < n && j < n && h(i, j) ==> g(i, j)
    ensures Acyclic(h, n)
  {
    forall p ensures !IsCycle(h, n, p) {
      if IsWalk(h, n, p) {
        assert IsWalk(g, n, p);
        assert !IsCycle(g, n, p);
      }
    }
  }
}
