/**
 * The network as neighbour lists indexed by node id, reachability along
 * neighbour links, and the sums of neighbour counts that the network
 * counters accumulate.
 */
module Graph {

  /** `adj[v]` is the neighbour list of node `v`, in insertion order. */
  type Adjacency = seq<seq<nat>>

  /** Every neighbour id names a node of the network. */
  predicate WellFormed(adj: Adjacency)
  {
    forall v, k :: 0 <= v < |adj| && 0 <= k < |adj[v]| ==> adj[v][k] < |adj|
  }

  /** Node ids `0 .. n-1`. */
  function AllIds(n: nat): (ids: set<nat>)
    ensures forall i: nat :: i in ids <==> i < n
  {
    if n == 0 then {} else AllIds(n - 1) + {n - 1}
  }

  /** A walk along neighbour links that never enters a node of `avoid`. */
  ghost predicate IsPath(adj: Adjacency, p: seq<nat>, avoid: set<nat>)
  {
    && |p| > 0
    && (forall i :: 0 <= i < |p| ==> p[i] < |adj| && p[i] !in avoid)
    && (forall i :: 0 <= i < |p| - 1 ==> p[i + 1] in adj[p[i]])
  }

  /** `t` can be reached from `s` through nodes outside `avoid`. */
  ghost predicate Reachable(adj: Adjacency, s: nat, t: nat, avoid: set<nat>)
  {
    exists p :: IsPath(adj, p, avoid) && p[0] == s && p[|p| - 1] == t
  }

  lemma ReachableStart(adj: Adjacency, s: nat, avoid: set<nat>)
    requires s < |adj| && s !in avoid
    ensures Reachable(adj, s, s, avoid)
  {
    assert IsPath(adj, [s], avoid);
  }

  lemma ReachableStep(adj: Adjacency, s: nat, u: nat, w: nat, avoid: set<nat>)
    requires Reachable(adj, s, u, avoid)
    requires w in adj[u] && w < |adj| && w !in avoid
    ensures Reachable(adj, s, w, avoid)
  {
    var p :| IsPath(adj, p, avoid) && p[0] == s && p[|p| - 1] == u;
    assert IsPath(adj, p + [w], avoid);
  }

  /** Every node of a path starting in a set closed under neighbour links (up to `avoid`) lies in that set. */
  lemma {:induction false} PathStaysInClosed(adj: Adjacency, p: seq<nat>, closed: set<nat>, avoid: set<nat>, i: nat)
    requires IsPath(adj, p, avoid) && (p[0] in closed || p[0] in avoid)
    requires forall u, w :: u in closed && u < |adj| && w in adj[u] ==> w in closed || w in avoid
    requires i < |p|
    ensures p[i] in closed
  {
    if i > 0 {
      PathStaysInClosed(adj, p, closed, avoid, i - 1);
      assert p[i] in adj[p[i - 1]];
    }
  }

  /** A set that holds `s` and is closed under neighbour links holds everything reachable from `s`. */
  lemma ClosedContainsReachable(adj: Adjacency, s: nat, closed: set<nat>, avoid: set<nat>, t: nat)
    requires s in closed || s in avoid
    requires forall u, w :: u in closed && u < |adj| && w in adj[u] ==> w in closed || w in avoid
    requires Reachable(adj, s, t, avoid)
    ensures t in closed
  {
    var p :| IsPath(adj, p, avoid) && p[0] == s && p[|p| - 1] == t;
    PathStaysInClosed(adj, p, closed, avoid, |p| - 1);
  }

  /** Reachability avoiding nothing is implied by reachability avoiding some nodes. */
  lemma ReachableWidens(adj: Adjacency, s: nat, t: nat, avoid: set<nat>)
    requires Reachable(adj, s, t, avoid)
    ensures Reachable(adj, s, t, {})
  {
    var p :| IsPath(adj, p, avoid) && p[0] == s && p[|p| - 1] == t;
    assert IsPath(adj, p, {});
  }

  /** No id occurs twice. */
  predicate Distinct(xs: seq<nat>)
  {
    forall i, j :: 0 <= i < j < |xs| ==> xs[i] != xs[j]
  }

  /** Sum of the neighbour counts of the nodes `xs`. */
  function SumDegrees(adj: Adjacency, xs: seq<nat>): int
    requires forall i :: 0 <= i < |xs| ==> xs[i] < |adj|
  {
    if xs == [] then 0 else SumDegrees(adj, xs[..|xs| - 1]) + |adj[xs[|xs| - 1]]|
  }

  lemma {:induction false} SumDegreesAppend(adj: Adjacency, xs: seq<nat>, ys: seq<nat>)
    requires forall i :: 0 <= i < |xs| ==> xs[i] < |adj|
    requires forall i :: 0 <= i < |ys| ==> ys[i] < |adj|
    ensures SumDegrees(adj, xs + ys) == SumDegrees(adj, xs) + SumDegrees(adj, ys)
    decreases |ys|
  {
    if ys != [] {
      var ys' := ys[..|ys| - 1];
      assert (xs + ys)[..|xs + ys| - 1] == xs + ys';
      assert (xs + ys)[|xs + ys| - 1] == ys[|ys| - 1];
      SumDegreesAppend(adj, xs, ys');
      assert SumDegrees(adj, xs + ys) == SumDegrees(adj, xs + ys') + |adj[ys[|ys| - 1]]|;
    } else {
      assert xs + ys == xs;
    }
  }

  /** Taking one node out of a list takes its neighbour count out of the sum. */
  lemma SumDegreesRemove(adj: Adjacency, ys: seq<nat>, j: nat)
    requires forall i :: 0 <= i < |ys| ==> ys[i] < |adj|
    requires j < |ys|
    ensures SumDegrees(adj, ys) == SumDegrees(adj, ys[..j] + ys[j + 1..]) + |adj[ys[j]]|
  {
    assert ys == ys[..j] + [ys[j]] + ys[j + 1..];
    SumDegreesAppend(adj, ys[..j] + [ys[j]], ys[j + 1..]);
    SumDegreesAppend(adj, ys[..j], [ys[j]]);
    SumDegreesAppend(adj, ys[..j], ys[j + 1..]);
    assert [ys[j]][..0] == [];
  }

  /** Taking one entry out of a duplicate-free list removes exactly that id. */
  lemma DistinctRemove(ys: seq<nat>, j: nat)
    requires Distinct(ys) && j < |ys|
    ensures Distinct(ys[..j] + ys[j + 1..])
    ensures forall y :: y in ys[..j] + ys[j + 1..] <==> y in ys && y != ys[j]
  {
    var ys' := ys[..j] + ys[j + 1..];
    assert forall a :: 0 <= a < |ys'| ==> ys'[a] == ys[if a < j then a else a + 1];
    forall y | y in ys && y != ys[j]
      ensures y in ys'
    {
      var m :| 0 <= m < |ys| && ys[m] == y;
      if m < j { assert ys'[m] == y; } else { assert ys'[m - 1] == y; }
    }
  }

  /** Two duplicate-free lists of the same nodes have the same neighbour-count sum. */
  lemma {:induction false} SumDegreesSameSet(adj: Adjacency, xs: seq<nat>, ys: seq<nat>)
    requires forall i :: 0 <= i < |xs| ==> xs[i] < |adj|
    requires forall i :: 0 <= i < |ys| ==> ys[i] < |adj|
    requires Distinct(xs) && Distinct(ys)
    requires forall x :: x in xs <==> x in ys
    ensures SumDegrees(adj, xs) == SumDegrees(adj, ys)
    decreases |xs|
  {
    if xs == [] {
      assert forall i :: 0 <= i < |ys| ==> ys[i] !in ys;
    } else {
      var x := xs[|xs| - 1];
      assert x in ys;
      var j :| 0 <= j < |ys| && ys[j] == x;
      SumDegreesRemove(adj, ys, j);
      DistinctRemove(ys, j);
      var xs' := xs[..|xs| - 1];
      DistinctRemove(xs, |xs| - 1);
      assert xs[..|xs| - 1] + xs[|xs| - 1 + 1..] == xs';
      var ys' := ys[..j] + ys[j + 1..];
      forall y
        ensures y in xs' <==> y in ys'
      {
        assert y in xs' <==> y in xs && y != x;
        assert y in ys' <==> y in ys && y != x;
      }
      SumDegreesSameSet(adj, xs', ys');
    }
  }
}
