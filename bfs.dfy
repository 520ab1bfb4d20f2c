/**
 * The breadth-first propagation order from one start node, as a pure run
 * over a FIFO queue. Every entry remembers which earlier entry discovered
 * it (`from`) and at which position of that entry's neighbour list (`at`);
 * the lemmas below show what the order is: it starts at the start node,
 * holds every reachable node exactly once, never decreases in hops, and
 * discovers nodes in neighbour-list order from the earliest possible entry.
 */
module Bfs {
  import opened Graph

  /** One entry of a propagation order: a node id and its hop distance. */
  datatype Hop = Hop(node: nat, hops: nat)

  /** An order or queue entry together with how it was discovered. */
  datatype Discovery = Discovery(node: nat, hops: nat, from: nat, at: nat)

  /** The (node, hops) pairs of `ds`, in order. */
  function Strip(ds: seq<Discovery>): (hs: seq<Hop>)
    ensures |hs| == |ds|
  {
    if ds == [] then [] else Strip(ds[..|ds| - 1]) + [Hop(ds[|ds| - 1].node, ds[|ds| - 1].hops)]
  }

  lemma {:induction false} StripIndex(ds: seq<Discovery>)
    ensures forall k :: 0 <= k < |ds| ==> Strip(ds)[k] == Hop(ds[k].node, ds[k].hops)
  {
    if ds != [] {
      var init := ds[..|ds| - 1];
      StripIndex(init);
      assert forall k :: 0 <= k < |init| ==> Strip(ds)[k] == Strip(init)[k] && init[k] == ds[k];
    }
  }

  lemma {:induction false} StripConcat(a: seq<Discovery>, b: seq<Discovery>)
    ensures Strip(a + b) == Strip(a) + Strip(b)
    decreases |b|
  {
    if b == [] {
      assert a + b == a;
    } else {
      var init := b[..|b| - 1];
      StripConcat(a, init);
      assert (a + b)[..|a + b| - 1] == a + init;
    }
  }

  /** Stripping commutes with dropping the front entry. */
  lemma StripFront(q: seq<Discovery>)
    requires q != []
    ensures Strip(q[1..]) == Strip(q)[1..] && Strip(q)[0] == Hop(q[0].node, q[0].hops)
  {
    assert q == [q[0]] + q[1..];
    StripConcat([q[0]], q[1..]);
    assert Strip([q[0]]) == [Hop(q[0].node, q[0].hops)];
  }

  /** The node ids occurring in `ds`. */
  function Nodes(ds: seq<Discovery>): set<nat>
  {
    set k | 0 <= k < |ds| :: ds[k].node
  }

  lemma NodesAppend(ds: seq<Discovery>, e: Discovery)
    ensures Nodes(ds + [e]) == Nodes(ds) + {e.node}
  {
    assert forall k :: 0 <= k < |ds| ==> (ds + [e])[k] == ds[k];
    assert (ds + [e])[|ds|] == e;
  }

  /**
   * Queue entries for the neighbours `nbrs[..n]` that are not in `visited`,
   * in neighbour-list order, each `hops` away and discovered by entry `from`.
   */
  function Forwards(nbrs: seq<nat>, visited: set<nat>, hops: nat, from: nat, n: nat): seq<Discovery>
    requires n <= |nbrs|
  {
    if n == 0 then []
    else
      Forwards(nbrs, visited, hops, from, n - 1)
      + (if nbrs[n - 1] !in visited then [Discovery(nbrs[n - 1], hops, from, n - 1)] else [])
  }

  /**
   * Each queued entry is a neighbour not in `visited`, with the given hops
   * and discoverer; they follow neighbour-list order; and every neighbour
   * not in `visited` is queued.
   */
  lemma ForwardsFacts(nbrs: seq<nat>, visited: set<nat>, hops: nat, from: nat, n: nat)
    requires n <= |nbrs|
    ensures var fs := Forwards(nbrs, visited, hops, from, n);
      && (forall k :: 0 <= k < |fs| ==>
            && fs[k].at < n && nbrs[fs[k].at] == fs[k].node && fs[k].node !in visited
            && fs[k].hops == hops && fs[k].from == from)
      && (forall k1, k2 :: 0 <= k1 < k2 < |fs| ==> fs[k1].at < fs[k2].at)
      && (forall p :: 0 <= p < n && nbrs[p] !in visited ==> exists k :: 0 <= k < |fs| && fs[k].at == p)
  {
    ForwardsEntries(nbrs, visited, hops, from, n);
    ForwardsComplete(nbrs, visited, hops, from, n);
  }

  /** `Forwards` extended by neighbour `n - 1`: the earlier entries, then the new one if unvisited. */
  lemma ForwardsLast(nbrs: seq<nat>, visited: set<nat>, hops: nat, from: nat, n: nat)
    requires 0 < n <= |nbrs|
    ensures var earlier, fs := Forwards(nbrs, visited, hops, from, n - 1), Forwards(nbrs, visited, hops, from, n);
      && (nbrs[n - 1] in visited ==> fs == earlier)
      && (nbrs[n - 1] !in visited ==> |fs| == |earlier| + 1 && fs[|earlier|] == Discovery(nbrs[n - 1], hops, from, n - 1))
      && (forall k :: 0 <= k < |earlier| ==> fs[k] == earlier[k])
  {
    var earlier := Forwards(nbrs, visited, hops, from, n - 1);
    if nbrs[n - 1] in visited {
      assert earlier + [] == earlier;
    }
  }

  /** Each queued entry is an unvisited neighbour before `n`, with the given hops and discoverer, in neighbour-list order. */
  lemma {:induction false} ForwardsEntries(nbrs: seq<nat>, visited: set<nat>, hops: nat, from: nat, n: nat)
    requires n <= |nbrs|
    ensures var fs := Forwards(nbrs, visited, hops, from, n);
      && (forall k :: 0 <= k < |fs| ==>
            && fs[k].at < n && nbrs[fs[k].at] == fs[k].node && fs[k].node !in visited
            && fs[k].hops == hops && fs[k].from == from)
      && (forall k1, k2 :: 0 <= k1 < k2 < |fs| ==> fs[k1].at < fs[k2].at)
  {
    if n > 0 {
      ForwardsEntries(nbrs, visited, hops, from, n - 1);
      ForwardsLast(nbrs, visited, hops, from, n);
    }
  }

  /** Every unvisited neighbour before `n` is queued. */
  lemma {:induction false} ForwardsComplete(nbrs: seq<nat>, visited: set<nat>, hops: nat, from: nat, n: nat)
    requires n <= |nbrs|
    ensures var fs := Forwards(nbrs, visited, hops, from, n);
      forall p :: 0 <= p < n && nbrs[p] !in visited ==> exists k :: 0 <= k < |fs| && fs[k].at == p
  {
    if n > 0 {
      ForwardsComplete(nbrs, visited, hops, from, n - 1);
      ForwardsLast(nbrs, visited, hops, from, n);
      var earlier := Forwards(nbrs, visited, hops, from, n - 1);
      var fs := Forwards(nbrs, visited, hops, from, n);
      forall p | 0 <= p < n && nbrs[p] !in visited
        ensures exists k :: 0 <= k < |fs| && fs[k].at == p
      {
        if p == n - 1 {
          assert fs[|earlier|].at == p;
        } else {
          var k :| 0 <= k < |earlier| && earlier[k].at == p;
          assert fs[k].at == p;
        }
      }
    }
  }

  /** Every node named in `ds` is a node of the network. */
  predicate InRange(adj: Adjacency, ds: seq<Discovery>)
  {
    forall k :: 0 <= k < |ds| ==> ds[k].node < |adj|
  }

  /**
   * Processes `queue` front first: an entry whose node is already in
   * `order` is dropped; otherwise it is appended to `order` and the
   * neighbours not yet in `order` are queued one hop further.
   */
  ghost function Run(adj: Adjacency, order: seq<Discovery>, queue: seq<Discovery>): seq<Discovery>
    requires WellFormed(adj) && InRange(adj, order) && InRange(adj, queue)
    decreases AllIds(|adj|) - Nodes(order), |queue|
  {
    if queue == [] then order
    else
      var e := queue[0];
      if e.node in Nodes(order) then Run(adj, order, queue[1..])
      else
        NodesAppend(order, e);
        Run(adj, order + [e], queue[1..] + Next(adj, order, e))
  }

  /** The entries queued when `e` joins `order` at position `|order|`. */
  function Next(adj: Adjacency, order: seq<Discovery>, e: Discovery): (fs: seq<Discovery>)
    requires WellFormed(adj) && e.node < |adj|
    ensures InRange(adj, fs)
  {
    ForwardsFacts(adj[e.node], Nodes(order) + {e.node}, e.hops + 1, |order|, |adj[e.node]|);
    Forwards(adj[e.node], Nodes(order) + {e.node}, e.hops + 1, |order|, |adj[e.node]|)
  }

  /** What the entries queued when `e` joins `order` are. */
  lemma NextFacts(adj: Adjacency, order: seq<Discovery>, e: Discovery)
    requires WellFormed(adj) && e.node < |adj|
    ensures var fs := Next(adj, order, e);
      && (forall k :: 0 <= k < |fs| ==>
            && fs[k].at < |adj[e.node]| && adj[e.node][fs[k].at] == fs[k].node
            && fs[k].node !in Nodes(order) && fs[k].node != e.node
            && fs[k].hops == e.hops + 1 && fs[k].from == |order|)
      && (forall k1, k2 :: 0 <= k1 < k2 < |fs| ==> fs[k1].at < fs[k2].at)
      && (forall p :: 0 <= p < |adj[e.node]| && adj[e.node][p] !in Nodes(order) + {e.node} ==>
            exists k :: 0 <= k < |fs| && fs[k].at == p)
  {
    ForwardsFacts(adj[e.node], Nodes(order) + {e.node}, e.hops + 1, |order|, |adj[e.node]|);
  }

  /** The propagation order from start node `s`. */
  ghost function BfsOrder(adj: Adjacency, s: nat): seq<Discovery>
    requires WellFormed(adj) && s < |adj|
  {
    Run(adj, [], [Discovery(s, 0, 0, 0)])
  }

  // ---------------------------------------------------------------------
  // Invariants of a run, each about one aspect of `order` and `queue`.

  ghost predicate Base(adj: Adjacency, s: nat, order: seq<Discovery>, queue: seq<Discovery>)
  {
    && WellFormed(adj) && s < |adj| && InRange(adj, order) && InRange(adj, queue)
    && |order| >= 1 && order[0].node == s && order[0].hops == 0
    && (forall k1, k2 :: 0 <= k1 < k2 < |order| ==> order[k1].node != order[k2].node)
  }

  ghost predicate Sound(adj: Adjacency, s: nat, order: seq<Discovery>, queue: seq<Discovery>)
  {
    && (forall k :: 0 <= k < |order| ==> Reachable(adj, s, order[k].node, {}))
    && (forall k :: 0 <= k < |queue| ==> Reachable(adj, s, queue[k].node, {}))
  }

  ghost predicate Closed(adj: Adjacency, order: seq<Discovery>, queue: seq<Discovery>)
    requires InRange(adj, order)
  {
    forall j, w :: 0 <= j < |order| && w in adj[order[j].node] ==> w in Nodes(order) || w in Nodes(queue)
  }

  ghost predicate HopsOk(order: seq<Discovery>, queue: seq<Discovery>)
  {
    && (forall k1, k2 :: 0 <= k1 < k2 < |order| ==> order[k1].hops <= order[k2].hops)
    && (forall j, k :: 0 <= j < |order| && 0 <= k < |queue| ==> order[j].hops <= queue[k].hops)
    && (forall k1, k2 :: 0 <= k1 < k2 < |queue| ==> queue[k1].hops <= queue[k2].hops <= queue[k1].hops + 1)
  }

  /** `e` was discovered as neighbour `e.at` of `order[e.from]`, an entry before position `bound`. */
  ghost predicate Edge(adj: Adjacency, order: seq<Discovery>, e: Discovery, bound: nat)
    requires InRange(adj, order)
  {
    && e.from < bound && e.from < |order|
    && order[e.from].hops + 1 == e.hops
    && e.at < |adj[order[e.from].node]| && adj[order[e.from].node][e.at] == e.node
  }

  ghost predicate TreeOk(adj: Adjacency, order: seq<Discovery>, queue: seq<Discovery>)
    requires InRange(adj, order)
  {
    && (forall k :: 1 <= k < |order| ==> Edge(adj, order, order[k], k))
    && (forall k :: 0 <= k < |queue| ==> Edge(adj, order, queue[k], |order|))
  }

  /** `a` was discovered strictly before `b`: by an earlier entry, or earlier in the same neighbour list. */
  predicate Before(a: Discovery, b: Discovery)
  {
    a.from < b.from || (a.from == b.from && a.at < b.at)
  }

  /** Discovery `e` comes no later than neighbour `p` of entry `j`. */
  predicate NoLater(e: Discovery, j: nat, p: nat)
  {
    e.from < j || (e.from == j && e.at <= p)
  }

  ghost predicate SortedOk(order: seq<Discovery>, queue: seq<Discovery>)
  {
    && (forall k1, k2 :: 1 <= k1 < k2 < |order| ==> Before(order[k1], order[k2]))
    && (forall k1, k2 :: 0 <= k1 < k2 < |queue| ==> Before(queue[k1], queue[k2]))
    && (forall k, q :: 1 <= k < |order| && 0 <= q < |queue| ==> Before(order[k], queue[q]))
  }

  ghost predicate FirstOk(adj: Adjacency, order: seq<Discovery>, queue: seq<Discovery>)
    requires InRange(adj, order)
  {
    && (forall k, j, p ::
          (1 <= k < |order| && 0 <= j < |order| && 0 <= p < |adj[order[j].node]|
           && adj[order[j].node][p] == order[k].node) ==> NoLater(order[k], j, p))
    && (forall j, p :: 0 <= j < |order| && 0 <= p < |adj[order[j].node]| ==>
          adj[order[j].node][p] in Nodes(order)
          || exists q :: 0 <= q < |queue| && queue[q].node == adj[order[j].node][p] && NoLater(queue[q], j, p))
  }

  ghost predicate Inv(adj: Adjacency, s: nat, order: seq<Discovery>, queue: seq<Discovery>)
  {
    && Base(adj, s, order, queue) && Sound(adj, s, order, queue) && Closed(adj, order, queue)
    && HopsOk(order, queue) && TreeOk(adj, order, queue) && SortedOk(order, queue) && FirstOk(adj, order, queue)
  }

  // ---------------------------------------------------------------------
  // Visiting the front entry, whose node is not in the order yet.

  lemma VisitBase(adj: Adjacency, s: nat, order: seq<Discovery>, queue: seq<Discovery>)
    requires Base(adj, s, order, queue) && queue != [] && queue[0].node !in Nodes(order)
    ensures Base(adj, s, order + [queue[0]], queue[1..] + Next(adj, order, queue[0]))
  {
    NextFacts(adj, order, queue[0]);
    var e := queue[0];
    var order' := order + [e];
    forall k1, k2 | 0 <= k1 < k2 < |order'|
      ensures order'[k1].node != order'[k2].node
    {
      if k2 == |order| {
        assert order[k1].node in Nodes(order);
      }
    }
  }

  lemma VisitSound(adj: Adjacency, s: nat, order: seq<Discovery>, queue: seq<Discovery>)
    requires Base(adj, s, order, queue) && Sound(adj, s, order, queue) && queue != []
    ensures Sound(adj, s, order + [queue[0]], queue[1..] + Next(adj, order, queue[0]))
  {
    NextFacts(adj, order, queue[0]);
    var e := queue[0];
    var fs := Next(adj, order, e);
    var queue' := queue[1..] + fs;
    forall k | 0 <= k < |queue'|
      ensures Reachable(adj, s, queue'[k].node, {})
    {
      if k < |queue| - 1 {
        assert queue'[k] == queue[k + 1];
      } else {
        var f := fs[k - (|queue| - 1)];
        assert queue'[k] == f;
        assert f.node in adj[e.node] by { assert adj[e.node][f.at] == f.node; }
        ReachableStep(adj, s, e.node, f.node, {});
      }
    }
  }

  lemma VisitClosed(adj: Adjacency, s: nat, order: seq<Discovery>, queue: seq<Discovery>)
    requires Base(adj, s, order, queue) && Closed(adj, order, queue)
    requires queue != [] && queue[0].node !in Nodes(order)
    ensures Closed(adj, order + [queue[0]], queue[1..] + Next(adj, order, queue[0]))
  {
    NextFacts(adj, order, queue[0]);
    var e := queue[0];
    var order' := order + [e];
    var fs := Next(adj, order, e);
    var queue' := queue[1..] + fs;
    NodesAppend(order, e);
    forall j, w | 0 <= j < |order'| && w in adj[order'[j].node]
      ensures w in Nodes(order') || w in Nodes(queue')
    {
      if j == |order| {
        if w !in Nodes(order') {
          var p :| 0 <= p < |adj[e.node]| && adj[e.node][p] == w;
          var k :| 0 <= k < |fs| && fs[k].at == p;
          assert queue'[|queue| - 1 + k] == fs[k];
        }
      } else {
        assert order'[j] == order[j];
        if w !in Nodes(order) {
          var k :| 0 <= k < |queue| && queue[k].node == w;
          if k > 0 {
            assert queue'[k - 1] == queue[k];
          }
        }
      }
    }
  }

  lemma VisitHops(adj: Adjacency, order: seq<Discovery>, queue: seq<Discovery>)
    requires WellFormed(adj) && InRange(adj, queue) && HopsOk(order, queue) && queue != []
    ensures HopsOk(order + [queue[0]], queue[1..] + Next(adj, order, queue[0]))
  {
    NextFacts(adj, order, queue[0]);
    var e := queue[0];
    var order' := order + [e];
    var fs := Next(adj, order, e);
    var queue' := queue[1..] + fs;
    assert forall k :: 0 <= k < |queue'| ==>
      queue'[k] == if k < |queue| - 1 then queue[k + 1] else fs[k - (|queue| - 1)];
  }

  lemma EdgeExtends(adj: Adjacency, order: seq<Discovery>, e: Discovery, x: Discovery, b: nat, b': nat)
    requires InRange(adj, order) && e.node < |adj|
    requires Edge(adj, order, x, b) && b <= b'
    ensures InRange(adj, order + [e]) && Edge(adj, order + [e], x, b')
  {
    assert (order + [e])[x.from] == order[x.from];
  }

  lemma VisitTree(adj: Adjacency, s: nat, order: seq<Discovery>, queue: seq<Discovery>)
    requires Base(adj, s, order, queue) && TreeOk(adj, order, queue) && queue != []
    ensures TreeOk(adj, order + [queue[0]], queue[1..] + Next(adj, order, queue[0]))
  {
    VisitTreeOrder(adj, order, queue);
    VisitTreeQueue(adj, order, queue);
  }

  /** The recorded entries keep their edges once the front entry joins them. */
  lemma VisitTreeOrder(adj: Adjacency, order: seq<Discovery>, queue: seq<Discovery>)
    requires WellFormed(adj) && InRange(adj, order) && InRange(adj, queue) && TreeOk(adj, order, queue) && queue != []
    ensures var order' := order + [queue[0]];
      InRange(adj, order') && forall k :: 1 <= k < |order'| ==> Edge(adj, order', order'[k], k)
  {
    var e := queue[0];
    var order' := order + [e];
    EdgeExtends(adj, order, e, e, |order|, |order|);
    forall k | 1 <= k < |order'|
      ensures Edge(adj, order', order'[k], k)
    {
      if k < |order| {
        assert order'[k] == order[k];
        EdgeExtends(adj, order, e, order[k], k, k);
      }
    }
  }

  /** The queue after the visit: the old entries keep their edges, the new ones hang off the visited entry. */
  lemma VisitTreeQueue(adj: Adjacency, order: seq<Discovery>, queue: seq<Discovery>)
    requires WellFormed(adj) && InRange(adj, order) && InRange(adj, queue) && TreeOk(adj, order, queue) && queue != []
    ensures var order', queue' := order + [queue[0]], queue[1..] + Next(adj, order, queue[0]);
      InRange(adj, order') && forall k :: 0 <= k < |queue'| ==> Edge(adj, order', queue'[k], |order'|)
  {
    var e := queue[0];
    var order' := order + [e];
    var fs := Next(adj, order, e);
    var queue' := queue[1..] + fs;
    EdgeExtends(adj, order, e, e, |order|, |order|);
    forall k | 0 <= k < |queue'|
      ensures Edge(adj, order', queue'[k], |order'|)
    {
      if k < |queue| - 1 {
        assert queue'[k] == queue[k + 1];
        EdgeExtends(adj, order, e, queue[k + 1], |order|, |order'|);
      } else {
        NextFacts(adj, order, e);
        var f := fs[k - (|queue| - 1)];
        assert queue'[k] == f;
        assert order'[|order|] == e;
      }
    }
  }

  /** Every entry was found by an entry before it, and every queued one by a recorded one. */
  ghost predicate FromsOk(order: seq<Discovery>, queue: seq<Discovery>)
  {
    && (forall k :: 1 <= k < |order| ==> order[k].from < k)
    && (forall q :: 0 <= q < |queue| ==> queue[q].from < |order|)
  }

  /** The entries of a run were discovered by earlier entries. */
  lemma FromsBelow(adj: Adjacency, s: nat, order: seq<Discovery>, queue: seq<Discovery>)
    requires Base(adj, s, order, queue) && TreeOk(adj, order, queue)
    ensures FromsOk(order, queue)
  {
    forall k | 1 <= k < |order|
      ensures order[k].from < k
    {
      assert Edge(adj, order, order[k], k);
    }
    forall q | 0 <= q < |queue|
      ensures queue[q].from < |order|
    {
      assert Edge(adj, order, queue[q], |order|);
    }
  }

  lemma SortedOrderPart(order: seq<Discovery>, queue: seq<Discovery>)
    requires SortedOk(order, queue) && queue != []
    ensures var order' := order + [queue[0]];
      forall k1, k2 :: 1 <= k1 < k2 < |order'| ==> Before(order'[k1], order'[k2])
  {
    var order' := order + [queue[0]];
    forall k1, k2 | 1 <= k1 < k2 < |order'|
      ensures Before(order'[k1], order'[k2])
    {
      assert order'[k1] == order[k1];
      if k2 < |order| {
        assert order'[k2] == order[k2];
      }
    }
  }

  lemma SortedQueuePart(order: seq<Discovery>, queue: seq<Discovery>, fs: seq<Discovery>)
    requires SortedOk(order, queue) && queue != []
    requires forall q :: 0 <= q < |queue| ==> queue[q].from < |order|
    requires forall k :: 0 <= k < |fs| ==> fs[k].from == |order|
    requires forall k1, k2 :: 0 <= k1 < k2 < |fs| ==> fs[k1].at < fs[k2].at
    ensures var queue' := queue[1..] + fs;
      forall k1, k2 :: 0 <= k1 < k2 < |queue'| ==> Before(queue'[k1], queue'[k2])
  {
    var queue' := queue[1..] + fs;
    var n := |queue| - 1;
    forall k1, k2 | 0 <= k1 < k2 < |queue'|
      ensures Before(queue'[k1], queue'[k2])
    {
      if k2 < n {
        assert queue'[k1] == queue[k1 + 1] && queue'[k2] == queue[k2 + 1];
      } else if k1 < n {
        assert queue'[k1] == queue[k1 + 1] && queue'[k2] == fs[k2 - n];
      } else {
        assert queue'[k1] == fs[k1 - n] && queue'[k2] == fs[k2 - n];
      }
    }
  }

  lemma SortedCrossPart(order: seq<Discovery>, queue: seq<Discovery>, fs: seq<Discovery>)
    requires SortedOk(order, queue) && queue != []
    requires forall k :: 1 <= k < |order| ==> order[k].from < k
    requires forall q :: 0 <= q < |queue| ==> queue[q].from < |order|
    requires forall k :: 0 <= k < |fs| ==> fs[k].from == |order|
    ensures var order', queue' := order + [queue[0]], queue[1..] + fs;
      forall k, q :: 1 <= k < |order'| && 0 <= q < |queue'| ==> Before(order'[k], queue'[q])
  {
    var order' := order + [queue[0]];
    var queue' := queue[1..] + fs;
    var n := |queue| - 1;
    forall k, q | 1 <= k < |order'| && 0 <= q < |queue'|
      ensures Before(order'[k], queue'[q])
    {
      if q < n {
        assert queue'[q] == queue[q + 1];
        if k < |order| {
          assert order'[k] == order[k];
        } else {
          assert Before(queue[0], queue[q + 1]);
        }
      } else {
        assert queue'[q] == fs[q - n];
        if k < |order| {
          assert order'[k] == order[k];
        }
      }
    }
  }

  lemma VisitSorted(adj: Adjacency, s: nat, order: seq<Discovery>, queue: seq<Discovery>)
    requires Base(adj, s, order, queue) && TreeOk(adj, order, queue) && SortedOk(order, queue) && queue != []
    ensures SortedOk(order + [queue[0]], queue[1..] + Next(adj, order, queue[0]))
  {
    NextFacts(adj, order, queue[0]);
    var fs := Next(adj, order, queue[0]);
    FromsBelow(adj, s, order, queue);
    SortedOrderPart(order, queue);
    SortedQueuePart(order, queue, fs);
    SortedCrossPart(order, queue, fs);
  }

  lemma VisitFirstOrder(adj: Adjacency, order: seq<Discovery>, queue: seq<Discovery>)
    requires WellFormed(adj) && InRange(adj, order) && InRange(adj, queue)
    requires FromsOk(order, queue) && SortedOk(order, queue) && FirstOk(adj, order, queue)
    requires queue != [] && queue[0].node !in Nodes(order)
    ensures var order' := order + [queue[0]];
      forall k, j, p ::
        (1 <= k < |order'| && 0 <= j < |order'| && 0 <= p < |adj[order'[j].node]|
         && adj[order'[j].node][p] == order'[k].node) ==> NoLater(order'[k], j, p)
  {
    var order' := order + [queue[0]];
    assert InRange(adj, order') by {
      assert forall k :: 0 <= k < |order'| ==> order'[k] == (if k < |order| then order[k] else queue[0]);
    }
    forall k, j, p | 1 <= k < |order'| && 0 <= j < |order'| && 0 <= p < |adj[order'[j].node]|
        && adj[order'[j].node][p] == order'[k].node
      ensures NoLater(order'[k], j, p)
    {
      VisitFirstAt(adj, order, queue, k, j, p);
    }
  }

  /** `VisitFirstOrder` for one entry `k` named by neighbour `p` of entry `j`. */
  lemma VisitFirstAt(adj: Adjacency, order: seq<Discovery>, queue: seq<Discovery>, k: nat, j: nat, p: nat)
    requires WellFormed(adj) && InRange(adj, order) && InRange(adj, queue)
    requires FromsOk(order, queue) && SortedOk(order, queue) && FirstOk(adj, order, queue)
    requires queue != [] && queue[0].node !in Nodes(order)
    requires var order' := order + [queue[0]];
      && 1 <= k < |order'| && j < |order'| && order'[j].node < |adj| && p < |adj[order'[j].node]|
      && adj[order'[j].node][p] == order'[k].node
    ensures NoLater((order + [queue[0]])[k], j, p)
  {
    var order' := order + [queue[0]];
    if j == |order| {
      if k < |order| {
        assert order'[k] == order[k];
      }
    } else if k == |order| {
      assert order'[j] == order[j];
      VisitedNewNoLater(adj, order, queue, j, p);
    } else {
      assert order'[j] == order[j] && order'[k] == order[k];
    }
  }

  /** The front entry is found no later than any earlier entry's neighbour naming it. */
  lemma VisitedNewNoLater(adj: Adjacency, order: seq<Discovery>, queue: seq<Discovery>, j: nat, p: nat)
    requires InRange(adj, order) && SortedOk(order, queue) && FirstOk(adj, order, queue)
    requires queue != [] && queue[0].node !in Nodes(order)
    requires j < |order| && p < |adj[order[j].node]| && adj[order[j].node][p] == queue[0].node
    ensures NoLater(queue[0], j, p)
  {
    var q :| 0 <= q < |queue| && queue[q].node == adj[order[j].node][p] && NoLater(queue[q], j, p);
    if q > 0 {
      assert Before(queue[0], queue[q]);
    }
  }

  lemma VisitFirstQueue(adj: Adjacency, s: nat, order: seq<Discovery>, queue: seq<Discovery>)
    requires Base(adj, s, order, queue) && FirstOk(adj, order, queue)
    requires queue != [] && queue[0].node !in Nodes(order)
    ensures var order', queue' := order + [queue[0]], queue[1..] + Next(adj, order, queue[0]);
      forall j, p :: 0 <= j < |order'| && 0 <= p < |adj[order'[j].node]| ==>
        adj[order'[j].node][p] in Nodes(order')
        || exists q :: 0 <= q < |queue'| && queue'[q].node == adj[order'[j].node][p] && NoLater(queue'[q], j, p)
  {
    var order', queue' := order + [queue[0]], queue[1..] + Next(adj, order, queue[0]);
    assert InRange(adj, order') by {
      assert forall k :: 0 <= k < |order'| ==> order'[k] == (if k < |order| then order[k] else queue[0]);
    }
    forall j, p | 0 <= j < |order'| && 0 <= p < |adj[order'[j].node]|
      ensures adj[order'[j].node][p] in Nodes(order')
        || exists q :: 0 <= q < |queue'| && queue'[q].node == adj[order'[j].node][p] && NoLater(queue'[q], j, p)
    {
      if j == |order| {
        VisitNeighbourQueued(adj, order, queue, p);
      } else {
        assert order'[j] == order[j];
        EarlierNeighbourQueued(adj, s, order, queue, j, p);
      }
    }
  }

  /** A neighbour of the new entry that is not yet visited is queued by `Next`, at its own position. */
  lemma VisitNeighbourQueued(adj: Adjacency, order: seq<Discovery>, queue: seq<Discovery>, p: nat)
    requires WellFormed(adj) && InRange(adj, queue) && queue != [] && p < |adj[queue[0].node]|
    ensures var e := queue[0];
      var order', queue' := order + [e], queue[1..] + Next(adj, order, e);
      adj[e.node][p] in Nodes(order')
      || exists q :: 0 <= q < |queue'| && queue'[q].node == adj[e.node][p] && NoLater(queue'[q], |order|, p)
  {
    var e := queue[0];
    var fs := Next(adj, order, e);
    var queue' := queue[1..] + fs;
    NodesAppend(order, e);
    if adj[e.node][p] !in Nodes(order + [e]) {
      NextFacts(adj, order, e);
      var k :| 0 <= k < |fs| && fs[k].at == p;
      assert queue'[|queue| - 1 + k] == fs[k];
    }
  }

  /** A neighbour of an earlier entry stays visited or queued no later than its position. */
  lemma EarlierNeighbourQueued(adj: Adjacency, s: nat, order: seq<Discovery>, queue: seq<Discovery>, j: nat, p: nat)
    requires Base(adj, s, order, queue) && FirstOk(adj, order, queue)
    requires queue != [] && queue[0].node !in Nodes(order)
    requires j < |order| && p < |adj[order[j].node]|
    ensures var order', queue' := order + [queue[0]], queue[1..] + Next(adj, order, queue[0]);
      adj[order[j].node][p] in Nodes(order')
      || exists q :: 0 <= q < |queue'| && queue'[q].node == adj[order[j].node][p] && NoLater(queue'[q], j, p)
  {
    var e := queue[0];
    var queue' := queue[1..] + Next(adj, order, e);
    var w := adj[order[j].node][p];
    NodesAppend(order, e);
    if w !in Nodes(order) {
      var q :| 0 <= q < |queue| && queue[q].node == w && NoLater(queue[q], j, p);
      if q > 0 {
        assert queue'[q - 1] == queue[q];
      }
    }
  }

  lemma VisitInv(adj: Adjacency, s: nat, order: seq<Discovery>, queue: seq<Discovery>)
    requires Inv(adj, s, order, queue) && queue != [] && queue[0].node !in Nodes(order)
    ensures Inv(adj, s, order + [queue[0]], queue[1..] + Next(adj, order, queue[0]))
  {
    VisitBase(adj, s, order, queue);
    VisitSound(adj, s, order, queue);
    VisitClosed(adj, s, order, queue);
    VisitHops(adj, order, queue);
    VisitTree(adj, s, order, queue);
    VisitSorted(adj, s, order, queue);
    FromsBelow(adj, s, order, queue);
    VisitFirstOrder(adj, order, queue);
    VisitFirstQueue(adj, s, order, queue);
  }

  // ---------------------------------------------------------------------
  // Dropping the front entry, whose node is already in the order.

  lemma SkipLists(adj: Adjacency, s: nat, order: seq<Discovery>, queue: seq<Discovery>)
    requires Base(adj, s, order, queue) && Sound(adj, s, order, queue) && HopsOk(order, queue)
    requires TreeOk(adj, order, queue) && SortedOk(order, queue) && queue != []
    ensures Base(adj, s, order, queue[1..]) && Sound(adj, s, order, queue[1..]) && HopsOk(order, queue[1..])
    ensures TreeOk(adj, order, queue[1..]) && SortedOk(order, queue[1..])
  {
    SkipPlain(adj, s, order, queue);
    SkipTree(adj, order, queue);
    SkipSorted(order, queue);
  }

  lemma SkipPlain(adj: Adjacency, s: nat, order: seq<Discovery>, queue: seq<Discovery>)
    requires Base(adj, s, order, queue) && Sound(adj, s, order, queue) && HopsOk(order, queue) && queue != []
    ensures Base(adj, s, order, queue[1..]) && Sound(adj, s, order, queue[1..]) && HopsOk(order, queue[1..])
  {
    assert forall k :: 0 <= k < |queue| - 1 ==> queue[1..][k] == queue[k + 1];
  }

  lemma SkipTree(adj: Adjacency, order: seq<Discovery>, queue: seq<Discovery>)
    requires InRange(adj, order) && TreeOk(adj, order, queue) && queue != []
    ensures TreeOk(adj, order, queue[1..])
  {
    assert forall k :: 0 <= k < |queue| - 1 ==> queue[1..][k] == queue[k + 1];
  }

  lemma SkipSorted(order: seq<Discovery>, queue: seq<Discovery>)
    requires SortedOk(order, queue) && queue != []
    ensures SortedOk(order, queue[1..])
  {
    assert forall k :: 0 <= k < |queue| - 1 ==> queue[1..][k] == queue[k + 1];
  }

  lemma SkipClosed(adj: Adjacency, s: nat, order: seq<Discovery>, queue: seq<Discovery>)
    requires Base(adj, s, order, queue) && Closed(adj, order, queue)
    requires queue != [] && queue[0].node in Nodes(order)
    ensures Closed(adj, order, queue[1..])
  {
    forall j, w | 0 <= j < |order| && w in adj[order[j].node]
      ensures w in Nodes(order) || w in Nodes(queue[1..])
    {
      if w !in Nodes(order) {
        var k :| 0 <= k < |queue| && queue[k].node == w;
        assert k > 0 && queue[1..][k - 1] == queue[k];
      }
    }
  }

  lemma SkipFirst(adj: Adjacency, s: nat, order: seq<Discovery>, queue: seq<Discovery>)
    requires Base(adj, s, order, queue) && FirstOk(adj, order, queue)
    requires queue != [] && queue[0].node in Nodes(order)
    ensures FirstOk(adj, order, queue[1..])
  {
    forall j, p | 0 <= j < |order| && 0 <= p < |adj[order[j].node]|
      ensures adj[order[j].node][p] in Nodes(order)
        || exists q :: 0 <= q < |queue[1..]| && queue[1..][q].node == adj[order[j].node][p] && NoLater(queue[1..][q], j, p)
    {
      var w := adj[order[j].node][p];
      if w !in Nodes(order) {
        var q :| 0 <= q < |queue| && queue[q].node == w && NoLater(queue[q], j, p);
        assert q > 0 && queue[1..][q - 1] == queue[q];
      }
    }
  }

  lemma SkipInv(adj: Adjacency, s: nat, order: seq<Discovery>, queue: seq<Discovery>)
    requires Inv(adj, s, order, queue) && queue != [] && queue[0].node in Nodes(order)
    ensures Inv(adj, s, order, queue[1..])
  {
    SkipLists(adj, s, order, queue);
    SkipClosed(adj, s, order, queue);
    SkipFirst(adj, s, order, queue);
  }

  // ---------------------------------------------------------------------
  // The whole run.

  /** The state after the start node has been visited. */
  lemma InitInv(adj: Adjacency, s: nat)
    requires WellFormed(adj) && s < |adj|
    ensures var e := Discovery(s, 0, 0, 0);
      Inv(adj, s, [e], Next(adj, [], e))
  {
    InitLists(adj, s);
    InitSound(adj, s);
    InitClosed(adj, s);
    InitFirst(adj, s);
  }

  lemma InitLists(adj: Adjacency, s: nat)
    requires WellFormed(adj) && s < |adj|
    ensures var e := Discovery(s, 0, 0, 0); var fs := Next(adj, [], e);
      Base(adj, s, [e], fs) && HopsOk([e], fs) && TreeOk(adj, [e], fs) && SortedOk([e], fs)
  {
    NextFacts(adj, [], Discovery(s, 0, 0, 0));
    var e := Discovery(s, 0, 0, 0);
    var fs := Next(adj, [], e);
    InitFacts(adj, s);
    assert forall k :: 0 <= k < |fs| ==> Edge(adj, [e], fs[k], 1);
  }

  lemma InitFacts(adj: Adjacency, s: nat)
    requires WellFormed(adj) && s < |adj|
    ensures var fs := Next(adj, [], Discovery(s, 0, 0, 0));
      && (forall k :: 0 <= k < |fs| ==> fs[k].hops == 1 && fs[k].from == 0 && fs[k].at < |adj[s]| && adj[s][fs[k].at] == fs[k].node)
      && (forall k1, k2 :: 0 <= k1 < k2 < |fs| ==> fs[k1].at < fs[k2].at)
  {
    NextFacts(adj, [], Discovery(s, 0, 0, 0));
  }

  lemma InitSound(adj: Adjacency, s: nat)
    requires WellFormed(adj) && s < |adj|
    ensures var e := Discovery(s, 0, 0, 0);
      Sound(adj, s, [e], Next(adj, [], e))
  {
    NextFacts(adj, [], Discovery(s, 0, 0, 0));
    var fs := Next(adj, [], Discovery(s, 0, 0, 0));
    ReachableStart(adj, s, {});
    forall k | 0 <= k < |fs|
      ensures Reachable(adj, s, fs[k].node, {})
    {
      assert fs[k].node in adj[s] by { assert adj[s][fs[k].at] == fs[k].node; }
      ReachableStep(adj, s, s, fs[k].node, {});
    }
  }

  lemma InitClosed(adj: Adjacency, s: nat)
    requires WellFormed(adj) && s < |adj|
    ensures var e := Discovery(s, 0, 0, 0);
      InRange(adj, [e]) && Closed(adj, [e], Next(adj, [], e))
  {
    NextFacts(adj, [], Discovery(s, 0, 0, 0));
    var e := Discovery(s, 0, 0, 0);
    var fs := Next(adj, [], e);
    assert Nodes([e]) == {s} by { assert [e][0] == e; }
    forall j, w | 0 <= j < 1 && w in adj[[e][j].node]
      ensures w in Nodes([e]) || w in Nodes(fs)
    {
      if w != s {
        var p :| 0 <= p < |adj[s]| && adj[s][p] == w;
        var k :| 0 <= k < |fs| && fs[k].at == p;
        assert fs[k].node == w;
      }
    }
  }

  lemma InitFirst(adj: Adjacency, s: nat)
    requires WellFormed(adj) && s < |adj|
    ensures var e := Discovery(s, 0, 0, 0);
      InRange(adj, [e]) && FirstOk(adj, [e], Next(adj, [], e))
  {
    NextFacts(adj, [], Discovery(s, 0, 0, 0));
    var e := Discovery(s, 0, 0, 0);
    var fs := Next(adj, [], e);
    assert Nodes([e]) == {s} by { assert [e][0] == e; }
    forall j, p | 0 <= j < 1 && 0 <= p < |adj[[e][j].node]|
      ensures adj[[e][j].node][p] in Nodes([e])
        || exists q :: 0 <= q < |fs| && fs[q].node == adj[[e][j].node][p] && NoLater(fs[q], j, p)
    {
      if adj[s][p] != s {
        var k :| 0 <= k < |fs| && fs[k].at == p;
        assert fs[k].node == adj[s][p] && NoLater(fs[k], 0, p);
      }
    }
  }

  /** Running the queue to the end keeps the invariant; the final queue is empty. */
  lemma {:induction false} RunKeepsInv(adj: Adjacency, s: nat, order: seq<Discovery>, queue: seq<Discovery>)
    requires Inv(adj, s, order, queue)
    ensures Inv(adj, s, Run(adj, order, queue), [])
    decreases AllIds(|adj|) - Nodes(order), |queue|
  {
    if queue != [] {
      var e := queue[0];
      if e.node in Nodes(order) {
        SkipInv(adj, s, order, queue);
        RunKeepsInv(adj, s, order, queue[1..]);
      } else {
        NodesAppend(order, e);
        VisitInv(adj, s, order, queue);
        RunKeepsInv(adj, s, order + [e], queue[1..] + Next(adj, order, e));
      }
    }
  }

  lemma BfsOrderInv(adj: Adjacency, s: nat)
    requires WellFormed(adj) && s < |adj|
    ensures Inv(adj, s, BfsOrder(adj, s), [])
  {
    var e := Discovery(s, 0, 0, 0);
    assert Nodes([]) == {};
    assert [] + [e] == [e] && [e][1..] + Next(adj, [], e) == Next(adj, [], e);
    assert BfsOrder(adj, s) == Run(adj, [e], Next(adj, [], e));
    InitInv(adj, s);
    RunKeepsInv(adj, s, [e], Next(adj, [], e));
  }

  // ---------------------------------------------------------------------
  // What the finished order is.

  /** `p` is a walk from `s` to `t` along neighbour links. */
  ghost predicate Walk(adj: Adjacency, p: seq<nat>, s: nat, t: nat)
  {
    IsPath(adj, p, {}) && p[0] == s && p[|p| - 1] == t
  }

  /** `d` is the least number of hops from `s` to `t`. */
  ghost predicate IsDistance(adj: Adjacency, s: nat, t: nat, d: nat)
  {
    && (exists p :: Walk(adj, p, s, t) && |p| == d + 1)
    && (forall p :: Walk(adj, p, s, t) ==> d + 1 <= |p|)
  }

  /** The node ids of a propagation order. */
  function HopNodes(hs: seq<Hop>): set<nat>
  {
    set k | 0 <= k < |hs| :: hs[k].node
  }

  /**
   * A breadth-first propagation order from `s`: the start node first at 0
   * hops, every node reachable from `s` exactly once, each with its hop
   * distance from `s`, nearer nodes never after farther ones.
   */
  ghost predicate PropagationOrder(adj: Adjacency, s: nat, hs: seq<Hop>)
  {
    && |hs| >= 1 && hs[0] == Hop(s, 0)
    && (forall k1, k2 :: 0 <= k1 < k2 < |hs| ==> hs[k1].node != hs[k2].node)
    && (forall t :: t in HopNodes(hs) <==> Reachable(adj, s, t, {}))
    && (forall k :: 0 <= k < |hs| ==> IsDistance(adj, s, hs[k].node, hs[k].hops))
    && (forall k1, k2 :: 0 <= k1 < k2 < |hs| ==> hs[k1].hops <= hs[k2].hops)
  }

  /** The finished order holds exactly the nodes reachable from `s`. */
  lemma FinalCovers(adj: Adjacency, s: nat, order: seq<Discovery>, t: nat)
    requires Inv(adj, s, order, [])
    ensures t in Nodes(order) <==> Reachable(adj, s, t, {})
  {
    if t in Nodes(order) {
      var k :| 0 <= k < |order| && order[k].node == t;
    }
    if Reachable(adj, s, t, {}) {
      forall u, w | u in Nodes(order) && u < |adj| && w in adj[u]
        ensures w in Nodes(order) || w in {}
      {
        var j :| 0 <= j < |order| && order[j].node == u;
      }
      assert order[0].node == s;
      ClosedContainsReachable(adj, s, Nodes(order), {}, t);
    }
  }

  /** No walk from `s` reaches a node of the finished order in fewer hops than recorded. */
  lemma {:induction false} FinalHopsAtMostWalk(adj: Adjacency, s: nat, order: seq<Discovery>, p: seq<nat>, t: nat, i: nat)
    requires Inv(adj, s, order, []) && Walk(adj, p, s, t) && i < |p|
    ensures p[i] in Nodes(order)
    ensures forall k :: 0 <= k < |order| && order[k].node == p[i] ==> order[k].hops <= i
  {
    if i == 0 {
      assert order[0].node == s;
    } else {
      FinalHopsAtMostWalk(adj, s, order, p, t, i - 1);
      var j :| 0 <= j < |order| && order[j].node == p[i - 1];
      assert p[i] in adj[order[j].node];
      var a :| 0 <= a < |adj[order[j].node]| && adj[order[j].node][a] == p[i];
      forall k | 0 <= k < |order| && order[k].node == p[i]
        ensures order[k].hops <= i
      {
        if k > 0 {
          assert NoLater(order[k], j, a);
          assert Edge(adj, order, order[k], k);
          assert order[order[k].from].hops <= order[j].hops;
        }
      }
    }
  }

  /** Following the discoverers back gives a walk from `s` of the recorded length. */
  lemma {:induction false} FinalTreeWalk(adj: Adjacency, s: nat, order: seq<Discovery>, k: nat)
    requires Base(adj, s, order, []) && TreeOk(adj, order, []) && k < |order|
    ensures exists p :: Walk(adj, p, s, order[k].node) && |p| == order[k].hops + 1
  {
    if k == 0 {
      assert Walk(adj, [s], s, order[0].node);
    } else {
      assert Edge(adj, order, order[k], k);
      var f := order[k].from;
      FinalTreeWalk(adj, s, order, f);
      var p :| Walk(adj, p, s, order[f].node) && |p| == order[f].hops + 1;
      var t := order[k].node;
      assert t in adj[order[f].node];
      var p' := p + [t];
      assert forall i :: 0 <= i < |p| ==> p'[i] == p[i];
      assert IsPath(adj, p', {});
      assert Walk(adj, p', s, t);
    }
  }

  lemma FinalDistance(adj: Adjacency, s: nat, order: seq<Discovery>, k: nat)
    requires Inv(adj, s, order, []) && k < |order|
    ensures IsDistance(adj, s, order[k].node, order[k].hops)
  {
    FinalTreeWalk(adj, s, order, k);
    forall p | Walk(adj, p, s, order[k].node)
      ensures order[k].hops + 1 <= |p|
    {
      FinalHopsAtMostWalk(adj, s, order, p, order[k].node, |p| - 1);
    }
  }

  lemma NodesStrip(ds: seq<Discovery>)
    ensures HopNodes(Strip(ds)) == Nodes(ds)
  {
    var hs := Strip(ds);
    StripIndex(ds);
    forall t | t in Nodes(ds) ensures t in HopNodes(hs) {
      var k :| 0 <= k < |ds| && ds[k].node == t;
      assert hs[k].node == t;
    }
  }

  /** The breadth-first run from `s` yields a propagation order from `s`. */
  lemma BfsOrderIsPropagationOrder(adj: Adjacency, s: nat)
    requires WellFormed(adj) && s < |adj|
    ensures PropagationOrder(adj, s, Strip(BfsOrder(adj, s)))
  {
    var order := BfsOrder(adj, s);
    var hs := Strip(order);
    BfsOrderInv(adj, s);
    StripIndex(order);
    NodesStrip(order);
    forall t ensures t in HopNodes(hs) <==> Reachable(adj, s, t, {}) {
      FinalCovers(adj, s, order, t);
    }
    forall k | 0 <= k < |hs| ensures IsDistance(adj, s, hs[k].node, hs[k].hops) {
      FinalDistance(adj, s, order, k);
    }
  }

  /**
   * Which entry discovers each node: every entry after the first was found
   * as neighbour `at` of an earlier entry `from`, at the earliest position
   * (earliest entry, then earliest place in its neighbour list) where the
   * node occurs; and entries are ordered by that position.
   */
  lemma BfsOrderDiscovery(adj: Adjacency, s: nat)
    requires WellFormed(adj) && s < |adj|
    ensures var o := BfsOrder(adj, s);
      && InRange(adj, o)
      && (forall k :: 1 <= k < |o| ==>
            && o[k].from < k && o[k].hops == o[o[k].from].hops + 1
            && o[k].at < |adj[o[o[k].from].node]|
            && adj[o[o[k].from].node][o[k].at] == o[k].node)
      && (forall k, j, p ::
            1 <= k < |o| && 0 <= j < |o| && 0 <= p < |adj[o[j].node]| && adj[o[j].node][p] == o[k].node
            ==> o[k].from < j || (o[k].from == j && o[k].at <= p))
      && (forall k1, k2 :: 1 <= k1 < k2 < |o| ==>
            o[k1].from < o[k2].from || (o[k1].from == o[k2].from && o[k1].at < o[k2].at))
  {
    var o := BfsOrder(adj, s);
    BfsOrderInv(adj, s);
    assert forall k :: 1 <= k < |o| ==> Edge(adj, o, o[k], k);
  }
}
