/**
 * The propagation optimizer of src/blocksimpy/utils/network_optimizer.py:
 * at start-up one breadth-first propagation order per start node, and for
 * each block a replay of the stored order that marks every node of the
 * order and charges the network counters with the neighbour counts of the
 * nodes that did not hold the block yet.
 */
module NetworkOptimizer {
  import opened Graph
  import opened Bfs
  import opened Blocks
  import opened Network
  import opened Metrics

  /**
   * The breadth-first walk from `start`: pop the front entry, drop it if
   * its node was visited, otherwise record it and queue its unvisited
   * neighbours, in neighbour-list order, one hop further. The result is
   * the reference run `BfsOrder`, and so a propagation order.
   */
  method BfsPropagationOrder(nodes: seq<Node>, start: Node) returns (order: seq<Hop>)
    requires Topology(nodes) && start.id < |nodes|
    ensures order == Strip(BfsOrder(Adj(nodes), start.id))
    ensures PropagationOrder(Adj(nodes), start.id, order)
  {
    ghost var adj := Adj(nodes);
    ghost var s := start.id;
    var visited: set<nat> := {};
    order := [];
    var queue := [Hop(start.id, 0)];
    ghost var gOrder: seq<Discovery> := [];
    ghost var gQueue := [Discovery(start.id, 0, 0, 0)];
    assert Nodes(gOrder) == {};
    assert Strip(gQueue) == queue;
    while queue != []
      invariant Tracks(adj, s, order, queue, visited, gOrder, gQueue)
      decreases AllIds(|adj|) - visited, |queue|
    {
      order, queue, visited, gOrder, gQueue := BfsStep(nodes, s, order, queue, visited, gOrder, gQueue);
    }
    assert gQueue == [];
    BfsOrderIsPropagationOrder(adj, s);
  }

  /** The method's order, queue and visited set mirror a state of the reference run. */
  ghost predicate Tracks(adj: Adjacency, s: nat, order: seq<Hop>, queue: seq<Hop>, visited: set<nat>,
                         gOrder: seq<Discovery>, gQueue: seq<Discovery>)
  {
    && WellFormed(adj) && s < |adj| && InRange(adj, gOrder) && InRange(adj, gQueue)
    && Run(adj, gOrder, gQueue) == BfsOrder(adj, s)
    && order == Strip(gOrder) && queue == Strip(gQueue) && visited == Nodes(gOrder)
  }

  /** One turn of the walk: pop the front entry and, unless visited, record it and queue its neighbours. */
  method BfsStep(nodes: seq<Node>, ghost s: nat, order: seq<Hop>, queue: seq<Hop>, visited: set<nat>,
                 ghost gOrder: seq<Discovery>, ghost gQueue: seq<Discovery>)
    returns (order': seq<Hop>, queue': seq<Hop>, visited': set<nat>, ghost gOrder': seq<Discovery>, ghost gQueue': seq<Discovery>)
    requires Topology(nodes) && queue != []
    requires Tracks(Adj(nodes), s, order, queue, visited, gOrder, gQueue)
    ensures Tracks(Adj(nodes), s, order', queue', visited', gOrder', gQueue')
    ensures AllIds(|nodes|) - visited' < AllIds(|nodes|) - visited
      || (visited' == visited && |queue'| < |queue|)
  {
    ghost var adj := Adj(nodes);
    ghost var e := gQueue[0];
    StripFront(gQueue);
    var current := queue[0];
    assert current == Hop(e.node, e.hops) && e.node < |nodes|;
    if current.node in visited {
      SkipKeeps(adj, gOrder, gQueue);
      order', queue', visited', gOrder', gQueue' := order, queue[1..], visited, gOrder, gQueue[1..];
      return;
    }
    var neighbors := nodes[current.node].neighbors;
    assert neighbors == adj[e.node];
    queue' := EnqueueNeighbors(queue[1..], neighbors, visited + {current.node}, current.hops + 1);
    gQueue' := gQueue[1..] + Next(adj, gOrder, e);
    gOrder' := gOrder + [e];
    visited' := visited + {current.node};
    order' := order + [current];
    assert InRange(adj, gOrder') && InRange(adj, gQueue') && Run(adj, gOrder', gQueue') == BfsOrder(adj, s) by {
      RunVisit(adj, gOrder, gQueue);
    }
    assert visited' == Nodes(gOrder') by {
      NodesAppend(gOrder, e);
    }
    assert order' == Strip(gOrder') && queue' == Strip(gQueue') by {
      StripVisit(adj, gOrder, gQueue);
      NextHops(adj, gOrder, e);
    }
    assert e.node in AllIds(|nodes|) - visited;
  }

  /** Dropping a visited front entry leaves the run's result as it was. */
  lemma SkipKeeps(adj: Adjacency, order: seq<Discovery>, queue: seq<Discovery>)
    requires WellFormed(adj) && InRange(adj, order) && InRange(adj, queue)
    requires queue != [] && queue[0].node in Nodes(order)
    ensures InRange(adj, queue[1..]) && Run(adj, order, queue[1..]) == Run(adj, order, queue)
    ensures Strip(queue[1..]) == Strip(queue)[1..] && Strip(queue)[0] == Hop(queue[0].node, queue[0].hops)
  {
    StripFront(queue);
  }

  /** The entries the method queues are those of `Next`, without discovery positions. */
  lemma NextHops(adj: Adjacency, order: seq<Discovery>, e: Discovery)
    requires WellFormed(adj) && e.node < |adj|
    ensures Strip(Next(adj, order, e)) == QueuedHops(adj[e.node], Nodes(order) + {e.node}, e.hops + 1, |adj[e.node]|)
  {
    QueuedHopsStrip(adj[e.node], Nodes(order) + {e.node}, e.hops + 1, |order|, |adj[e.node]|);
  }

  lemma RunVisit(adj: Adjacency, order: seq<Discovery>, queue: seq<Discovery>)
    requires WellFormed(adj) && InRange(adj, order) && InRange(adj, queue)
    requires queue != [] && queue[0].node !in Nodes(order)
    ensures var e := queue[0];
      var order2, queue2 := order + [e], queue[1..] + Next(adj, order, e);
      && InRange(adj, order2) && InRange(adj, queue2)
      && Run(adj, order2, queue2) == Run(adj, order, queue)
  {
  }

  lemma StripVisit(adj: Adjacency, order: seq<Discovery>, queue: seq<Discovery>)
    requires WellFormed(adj) && InRange(adj, queue) && queue != []
    ensures var e := queue[0];
      && Strip(queue)[0] == Hop(e.node, e.hops)
      && Strip(order + [e]) == Strip(order) + [Hop(e.node, e.hops)]
      && Strip(queue[1..] + Next(adj, order, e)) == Strip(queue)[1..] + Strip(Next(adj, order, e))
  {
    var e := queue[0];
    StripFront(queue);
    StripConcat(order, [e]);
    assert Strip([e]) == [Hop(e.node, e.hops)];
    StripConcat(queue[1..], Next(adj, order, e));
  }

  /** `BfsPropagationOrder`, as the map stores it. */
  method OrderFrom(nodes: seq<Node>, start: Node) returns (order: seq<Hop>)
    requires Topology(nodes) && start.id < |nodes|
    ensures order == Strip(BfsOrder(Adj(nodes), start.id))
  {
    order := BfsPropagationOrder(nodes, start);
  }

  /** The queue entries for the neighbours `nbrs[..n]` not in `visited`, at `hops`. */
  function QueuedHops(nbrs: seq<nat>, visited: set<nat>, hops: nat, n: nat): seq<Hop>
    requires n <= |nbrs|
  {
    if n == 0 then []
    else QueuedHops(nbrs, visited, hops, n - 1) + (if nbrs[n - 1] !in visited then [Hop(nbrs[n - 1], hops)] else [])
  }

  /** Appends the neighbours not in `visited`, in neighbour-list order, at `hops`. */
  method EnqueueNeighbors(queue: seq<Hop>, neighbors: seq<nat>, visited: set<nat>, hops: nat)
    returns (queue': seq<Hop>)
    ensures queue' == queue + QueuedHops(neighbors, visited, hops, |neighbors|)
  {
    queue' := queue;
    for i := 0 to |neighbors|
      invariant queue' == queue + QueuedHops(neighbors, visited, hops, i)
    {
      if neighbors[i] !in visited {
        queue' := queue' + [Hop(neighbors[i], hops)];
      }
    }
  }

  /** The queued entries are the reference run's, without their discovery positions. */
  lemma {:induction false} QueuedHopsStrip(nbrs: seq<nat>, visited: set<nat>, hops: nat, from: nat, n: nat)
    requires n <= |nbrs|
    ensures QueuedHops(nbrs, visited, hops, n) == Strip(Forwards(nbrs, visited, hops, from, n))
  {
    if n > 0 {
      var earlier := Forwards(nbrs, visited, hops, from, n - 1);
      assert QueuedHops(nbrs, visited, hops, n - 1) == Strip(earlier) by {
        QueuedHopsStrip(nbrs, visited, hops, from, n - 1);
      }
      if nbrs[n - 1] !in visited {
        var d := Discovery(nbrs[n - 1], hops, from, n - 1);
        var fs := earlier + [d];
        assert Forwards(nbrs, visited, hops, from, n) == fs;
        assert fs[..|fs| - 1] == earlier && fs[|fs| - 1] == d;
      } else {
        assert Forwards(nbrs, visited, hops, from, n) == earlier + [] == earlier;
      }
    }
  }

  /** The order the map stores for `id`; none when `id` has no entry. */
  function StoredOrder(m: map<nat, seq<Hop>>, id: nat): seq<Hop>
  {
    if id in m then m[id] else []
  }

  /**
   * What replaying `order` for block id `b` leaves, given the block sets
   * `before` it started from: every node of the order holds `b`, and no
   * other block set changes.
   */
  ghost predicate Replayed(order: seq<Hop>, b: int, before: seq<set<int>>, after: seq<set<int>>)
  {
    && |after| == |before|
    && forall i :: 0 <= i < |before| ==> after[i] == before[i] + (if i in HopNodes(order) then {b} else {})
  }

  /** The nodes of `hs` not in `held`, in order. */
  function NewNodes(hs: seq<Hop>, held: set<nat>): seq<nat>
  {
    if hs == [] then []
    else
      var last := hs[|hs| - 1];
      NewNodes(hs[..|hs| - 1], held) + (if last.node in held then [] else [last.node])
  }

  lemma HopNodesLast(hs: seq<Hop>)
    requires hs != []
    ensures HopNodes(hs) == HopNodes(hs[..|hs| - 1]) + {hs[|hs| - 1].node}
  {
    var init := hs[..|hs| - 1];
    forall t | t in HopNodes(hs) ensures t in HopNodes(init) + {hs[|hs| - 1].node} {
      var k :| 0 <= k < |hs| && hs[k].node == t;
      if k < |hs| - 1 { assert init[k] == hs[k]; }
    }
    forall t | t in HopNodes(init) ensures t in HopNodes(hs) {
      var k :| 0 <= k < |init| && init[k].node == t;
      assert hs[k] == init[k];
    }
  }

  /** The new nodes are the nodes of the order outside `held`. */
  lemma {:induction false} NewNodesElems(hs: seq<Hop>, held: set<nat>)
    ensures forall x :: x in NewNodes(hs, held) <==> x in HopNodes(hs) && x !in held
  {
    if hs != [] {
      NewNodesElems(hs[..|hs| - 1], held);
      HopNodesLast(hs);
    } else {
      assert HopNodes(hs) == {};
    }
  }

  lemma {:induction false} NewNodesInRange(hs: seq<Hop>, held: set<nat>, n: nat)
    requires forall k :: 0 <= k < |hs| ==> hs[k].node < n
    ensures forall k :: 0 <= k < |NewNodes(hs, held)| ==> NewNodes(hs, held)[k] < n
  {
    if hs != [] {
      NewNodesInRange(hs[..|hs| - 1], held, n);
    }
  }

  /** A duplicate-free order yields a duplicate-free list of new nodes. */
  lemma {:induction false} NewNodesDistinct(hs: seq<Hop>, held: set<nat>)
    requires forall k1, k2 :: 0 <= k1 < k2 < |hs| ==> hs[k1].node != hs[k2].node
    ensures Distinct(NewNodes(hs, held))
  {
    if hs != [] {
      var init := hs[..|hs| - 1];
      NewNodesDistinct(init, held);
      NewNodesElems(init, held);
      var last := hs[|hs| - 1];
      forall k | 0 <= k < |init| ensures init[k].node != last.node {
        assert hs[k] == init[k];
      }
      assert last.node !in HopNodes(init);
    }
  }

  class NetworkPropagationOptimizer {
    const nodes: seq<Node>
    /** The neighbour lists the map was built from. */
    ghost const adj: Adjacency
    var propagationMap: map<nat, seq<Hop>>

    /** Every stored order is the breadth-first order of `adj` from its key. */
    ghost predicate Valid()
      reads this
    {
      && WellFormed(adj) && |adj| == |nodes|
      && (forall id :: id in propagationMap ==> id < |adj| && propagationMap[id] == Strip(BfsOrder(adj, id)))
    }

    /** Builds the map when there are nodes; with none the map stays empty. */
    constructor (nodes: seq<Node>)
      requires Topology(nodes)
      ensures this.nodes == nodes && adj == Adj(nodes) && Valid()
      ensures propagationMap.Keys == AllIds(|nodes|)
      ensures forall id :: id in propagationMap ==> PropagationOrder(adj, id, propagationMap[id])
    {
      this.nodes := nodes;
      adj := Adj(nodes);
      propagationMap := map[];
      new;
      if |nodes| > 0 {
        BuildPropagationMap();
      }
      StoredOrdersArePropagationOrders();
    }

    /** One breadth-first order per node, keyed by the node's id. */
    method BuildPropagationMap()
      requires Topology(nodes) && adj == Adj(nodes) && propagationMap == map[]
      modifies this
      ensures Valid() && propagationMap.Keys == AllIds(|nodes|)
    {
      for i := 0 to |nodes|
        invariant Valid() && propagationMap.Keys == AllIds(i)
      {
        StoreOrder(i);
      }
    }

    /** Stores the order of node `i`, the next node without one. */
    method StoreOrder(i: nat)
      requires Topology(nodes) && adj == Adj(nodes) && i < |nodes|
      requires Valid() && propagationMap.Keys == AllIds(i)
      modifies this
      ensures Valid() && propagationMap.Keys == AllIds(i + 1)
    {
      var start := nodes[i];
      var order := OrderFrom(nodes, start);
      propagationMap := propagationMap[start.id := order];
    }

    lemma StoredOrdersArePropagationOrders()
      requires Valid()
      ensures forall id :: id in propagationMap ==> PropagationOrder(adj, id, propagationMap[id])
    {
      forall id | id in propagationMap
        ensures PropagationOrder(adj, id, propagationMap[id])
      {
        BfsOrderIsPropagationOrder(adj, id);
      }
    }

    /** A stored order only names nodes of the network, each once. */
    lemma ValidOrder(id: nat)
      requires Valid() && id in propagationMap
      ensures forall k :: 0 <= k < |propagationMap[id]| ==> propagationMap[id][k].node < |nodes|
      ensures forall k1, k2 :: 0 <= k1 < k2 < |propagationMap[id]| ==>
        propagationMap[id][k1].node != propagationMap[id][k2].node
    {
      BfsOrderDiscovery(adj, id);
      BfsOrderIsPropagationOrder(adj, id);
    }

    /**
     * Replays the stored order of `start`: a node already holding the block
     * id is skipped; any other node stores the id and, when it has
     * neighbours, the counters grow by their number and by that many block
     * sizes. A start node without an order changes nothing.
     */
    method PropagateBlock(block: Block, start: Node, metrics: SimulationMetrics)
      requires Valid() && Topology(nodes)
      modifies nodes, metrics
      ensures var order := if start.id in propagationMap then propagationMap[start.id] else [];
        forall i :: 0 <= i < |nodes| ==>
          && nodes[i].neighbors == old(nodes[i].neighbors)
          && nodes[i].blocks == old(nodes[i].blocks) + (if i in HopNodes(order) then {block.id} else {})
      ensures var order := if start.id in propagationMap then propagationMap[start.id] else [];
        var newly := NewNodes(order, old(Holders(nodes, block.id)));
        && (forall k :: 0 <= k < |newly| ==> newly[k] < |nodes|)
        && Distinct(newly)
        && metrics.ioRequests == old(metrics.ioRequests) + SumDegrees(old(Adj(nodes)), newly)
        && metrics.networkData == old(metrics.networkData) + block.size * SumDegrees(old(Adj(nodes)), newly)
      ensures metrics.finalSimulatedTime == old(metrics.finalSimulatedTime) && metrics.finalBlocks == old(metrics.finalBlocks)
      ensures metrics.avgBlockTime == old(metrics.avgBlockTime)
      ensures metrics.transactionsPerSecond == old(metrics.transactionsPerSecond)
      ensures metrics.inflationRate == old(metrics.inflationRate)
    {
      var order := if start.id in propagationMap then propagationMap[start.id] else [];
      if start.id in propagationMap {
        ValidOrder(start.id);
      }
      Replay(nodes, order, block, metrics);
    }
  }

  /**
   * Replays `order` over `nodes`: a node already holding the block id is
   * skipped; any other node stores the id and, when it has neighbours, the
   * counters grow by their number and by that many block sizes.
   */
  method Replay(nodes: seq<Node>, order: seq<Hop>, block: Block, metrics: SimulationMetrics)
    requires forall j :: 0 <= j < |nodes| ==> nodes[j].id == j
    requires forall k :: 0 <= k < |order| ==> order[k].node < |nodes|
    requires forall k1, k2 :: 0 <= k1 < k2 < |order| ==> order[k1].node != order[k2].node
    modifies nodes, metrics
    ensures forall i :: 0 <= i < |nodes| ==>
      && nodes[i].neighbors == old(nodes[i].neighbors)
      && nodes[i].blocks == old(nodes[i].blocks) + (if i in HopNodes(order) then {block.id} else {})
    ensures var newly := NewNodes(order, old(Holders(nodes, block.id)));
      && (forall k :: 0 <= k < |newly| ==> newly[k] < |nodes|)
      && Distinct(newly)
      && metrics.ioRequests == old(metrics.ioRequests) + SumDegrees(old(Adj(nodes)), newly)
      && metrics.networkData == old(metrics.networkData) + block.size * SumDegrees(old(Adj(nodes)), newly)
    ensures metrics.finalSimulatedTime == old(metrics.finalSimulatedTime) && metrics.finalBlocks == old(metrics.finalBlocks)
    ensures metrics.avgBlockTime == old(metrics.avgBlockTime)
    ensures metrics.transactionsPerSecond == old(metrics.transactionsPerSecond)
    ensures metrics.inflationRate == old(metrics.inflationRate)
  {
    ghost var held := Holders(nodes, block.id);
    ghost var lists := Adj(nodes);
    ghost var before := BlockSets(nodes);
    NewNodesDistinct(order, held);
    NewNodesInRange(order, held, |nodes|);
    assert HopNodes(order[..0]) == {};
    for i := 0 to |order|
      invariant Replaying(nodes, lists, before, HopNodes(order[..i]), block.id)
      invariant forall k :: 0 <= k < |NewNodes(order[..i], held)| ==> NewNodes(order[..i], held)[k] < |lists|
      invariant metrics.ioRequests == old(metrics.ioRequests) + SumDegrees(lists, NewNodes(order[..i], held))
      invariant metrics.networkData == old(metrics.networkData) + SumBytes(lists, NewNodes(order[..i], held), block.size)
      invariant metrics.finalSimulatedTime == old(metrics.finalSimulatedTime) && metrics.finalBlocks == old(metrics.finalBlocks)
      invariant metrics.avgBlockTime == old(metrics.avgBlockTime)
      invariant metrics.transactionsPerSecond == old(metrics.transactionsPerSecond)
      invariant metrics.inflationRate == old(metrics.inflationRate)
    {
      ReplayEntry(nodes, order, i, block, metrics, lists, before, held);
    }
    assert order[..|order|] == order;
    SumBytesScales(lists, NewNodes(order, held), block.size);
  }

  /**
   * A replay in progress: node `j` keeps its neighbour list `lists[j]` and
   * stores what it stored `before`, plus id `b` if it is `marked`.
   */
  ghost predicate Replaying(nodes: seq<Node>, lists: seq<seq<nat>>, before: seq<set<int>>, marked: set<nat>, b: int)
    reads nodes
  {
    && |lists| == |nodes| && |before| == |nodes|
    && forall j :: 0 <= j < |nodes| ==>
         && nodes[j].neighbors == lists[j]
         && nodes[j].blocks == before[j] + (if j in marked then {b} else {})
  }

  /** Extending the replayed prefix by entry `i`, which is not in the prefix. */
  lemma ReplayPrefix(order: seq<Hop>, i: nat, held: set<nat>)
    requires i < |order|
    requires forall k1, k2 :: 0 <= k1 < k2 < |order| ==> order[k1].node != order[k2].node
    ensures order[i].node !in HopNodes(order[..i])
    ensures HopNodes(order[..i + 1]) == HopNodes(order[..i]) + {order[i].node}
    ensures NewNodes(order[..i + 1], held)
      == NewNodes(order[..i], held) + (if order[i].node in held then [] else [order[i].node])
  {
    assert order[..i + 1][..i] == order[..i] && order[..i + 1][i] == order[i];
    HopNodesLast(order[..i + 1]);
    forall k | 0 <= k < i ensures order[..i][k].node != order[i].node {
      assert order[..i][k] == order[k];
    }
  }

  lemma SumsAppend(lists: seq<seq<nat>>, xs: seq<nat>, x: nat, size: int)
    requires forall k :: 0 <= k < |xs| ==> xs[k] < |lists|
    requires x < |lists|
    ensures forall k :: 0 <= k < |xs + [x]| ==> (xs + [x])[k] < |lists|
    ensures SumDegrees(lists, xs + [x]) == SumDegrees(lists, xs) + |lists[x]|
    ensures SumBytes(lists, xs + [x], size) == SumBytes(lists, xs, size) + size * |lists[x]|
  {
    assert (xs + [x])[..|xs|] == xs;
  }

  /** One turn of `Replay`: entry `i` of the order is replayed, and the sums grow with it. */
  method ReplayEntry(nodes: seq<Node>, order: seq<Hop>, i: nat, block: Block, metrics: SimulationMetrics,
                     ghost lists: seq<seq<nat>>, ghost before: seq<set<int>>, ghost held: set<nat>)
    requires forall j :: 0 <= j < |nodes| ==> nodes[j].id == j
    requires forall k :: 0 <= k < |order| ==> order[k].node < |nodes|
    requires forall k1, k2 :: 0 <= k1 < k2 < |order| ==> order[k1].node != order[k2].node
    requires i < |order| && Replaying(nodes, lists, before, HopNodes(order[..i]), block.id)
    requires forall j :: 0 <= j < |nodes| ==> (j in held <==> block.id in before[j])
    requires forall k :: 0 <= k < |NewNodes(order[..i], held)| ==> NewNodes(order[..i], held)[k] < |lists|
    modifies nodes, metrics
    ensures Replaying(nodes, lists, before, HopNodes(order[..i + 1]), block.id)
    ensures var ys := NewNodes(order[..i + 1], held); forall k :: 0 <= k < |ys| ==> ys[k] < |lists|
    ensures metrics.ioRequests - SumDegrees(lists, NewNodes(order[..i + 1], held))
         == old(metrics.ioRequests) - SumDegrees(lists, NewNodes(order[..i], held))
    ensures metrics.networkData - SumBytes(lists, NewNodes(order[..i + 1], held), block.size)
         == old(metrics.networkData) - SumBytes(lists, NewNodes(order[..i], held), block.size)
    ensures metrics.finalSimulatedTime == old(metrics.finalSimulatedTime) && metrics.finalBlocks == old(metrics.finalBlocks)
    ensures metrics.avgBlockTime == old(metrics.avgBlockTime)
    ensures metrics.transactionsPerSecond == old(metrics.transactionsPerSecond)
    ensures metrics.inflationRate == old(metrics.inflationRate)
  {
    var id := order[i].node;
    ghost var xs := NewNodes(order[..i], held);
    ReplayPrefix(order, i, held);
    ReplayNext(nodes, id, block, metrics, lists, before, HopNodes(order[..i]), held);
    if id !in held {
      SumsAppend(lists, xs, id, block.size);
    } else {
      assert xs + [] == xs;
    }
  }

  /**
   * Replays node `id`: a node already holding the block id is skipped;
   * otherwise it stores the id and, with neighbours, charges their number
   * in I/O operations and that many block sizes in bytes.
   */
  method ReplayNext(nodes: seq<Node>, id: nat, block: Block, metrics: SimulationMetrics,
                    ghost lists: seq<seq<nat>>, ghost before: seq<set<int>>, ghost marked: set<nat>, ghost held: set<nat>)
    requires (forall j :: 0 <= j < |nodes| ==> nodes[j].id == j) && id < |nodes| && id !in marked
    requires Replaying(nodes, lists, before, marked, block.id)
    requires id in held <==> block.id in before[id]
    modifies nodes, metrics
    ensures Replaying(nodes, lists, before, marked + {id}, block.id)
    ensures metrics.ioRequests == old(metrics.ioRequests) + (if id in held then 0 else |lists[id]|)
    ensures metrics.networkData == old(metrics.networkData) + (if id in held then 0 else block.size * |lists[id]|)
    ensures metrics.finalSimulatedTime == old(metrics.finalSimulatedTime) && metrics.finalBlocks == old(metrics.finalBlocks)
    ensures metrics.avgBlockTime == old(metrics.avgBlockTime)
    ensures metrics.transactionsPerSecond == old(metrics.transactionsPerSecond)
    ensures metrics.inflationRate == old(metrics.inflationRate)
  {
    var node := nodes[id];
    if block.id in node.blocks {
      return;
    }
    node.blocks := node.blocks + {block.id};
    var neighborCount := |node.neighbors|;
    if neighborCount > 0 {
      metrics.RecordNetworkIo(block.size * neighborCount, neighborCount);
    }
  }

  /**
   * The optimizer and the legacy flood agree on a block nobody holds yet:
   * the flood's marked nodes are those of the breadth-first order, and the
   * replay charges the same neighbour-count sum.
   */
  lemma ReplayMatchesFlood(adj: Adjacency, s: nat, marked: seq<nat>)
    requires WellFormed(adj) && s < |adj|
    requires Distinct(marked) && forall k :: 0 <= k < |marked| ==> marked[k] < |adj|
    requires forall t :: t in marked <==> Reachable(adj, s, t, {})
    ensures var order := Strip(BfsOrder(adj, s));
      && Elems(marked) == HopNodes(order)
      && (forall k :: 0 <= k < |NewNodes(order, {})| ==> NewNodes(order, {})[k] < |adj|)
      && SumDegrees(adj, NewNodes(order, {})) == SumDegrees(adj, marked)
  {
    var order := Strip(BfsOrder(adj, s));
    var newly := NewNodes(order, {});
    assert (forall t :: t in HopNodes(order) <==> t in marked) && Distinct(newly)
      && (forall x :: x in newly <==> x in HopNodes(order)) by {
      BfsOrderNodes(adj, s);
      NewNodesDistinct(order, {});
      NewNodesElems(order, {});
    }
    assert Elems(marked) == HopNodes(order);
    forall k | 0 <= k < |newly| ensures newly[k] < |adj| {
      assert newly[k] in marked;
    }
    SumDegreesSameSet(adj, newly, marked);
  }

  /** The breadth-first order names each reachable node once. */
  lemma BfsOrderNodes(adj: Adjacency, s: nat)
    requires WellFormed(adj) && s < |adj|
    ensures var order := Strip(BfsOrder(adj, s));
      && (forall t :: t in HopNodes(order) <==> Reachable(adj, s, t, {}))
      && (forall k1, k2 :: 0 <= k1 < k2 < |order| ==> order[k1].node != order[k2].node)
  {
    BfsOrderIsPropagationOrder(adj, s);
  }

  /** What `propagate_block` as written leaves: the nodes that stored the block id, and whether it raised. */
  datatype AsWritten = AsWritten(stored: seq<nat>, raised: bool)

  /**
   * The replay exactly as src/blocksimpy/utils/network_optimizer.py:201-217
   * writes it. The counter updates assign to the coordinator's
   * `io_requests` and `network_data`, which are properties without a
   * setter, so the first newly stored node that has neighbours raises
   * AttributeError right after storing the block id, and no counter ever
   * changes.
   */
  function ReplayAsWritten(adj: Adjacency, order: seq<Hop>, held: set<nat>): (r: AsWritten)
    requires forall k :: 0 <= k < |order| ==> order[k].node < |adj|
  {
    if order == [] then AsWritten([], false)
    else
      var p := ReplayAsWritten(adj, order[..|order| - 1], held);
      var last := order[|order| - 1].node;
      if p.raised || last in held then p
      else AsWritten(p.stored + [last], |adj[last]| > 0)
  }

  /**
   * What the replay as written leaves, against the nodes `newly` it should
   * mark: it stored the block id at a front part of them; it raised exactly
   * when one of them has neighbours, and then the last node that stored
   * the id has neighbours; otherwise it stored at all of them and no
   * counter was due to grow.
   */
  ghost predicate AsWrittenFacts(adj: Adjacency, r: AsWritten, newly: seq<nat>)
    requires forall k :: 0 <= k < |newly| ==> newly[k] < |adj|
  {
    && |r.stored| <= |newly| && r.stored == newly[..|r.stored|]
    && (r.raised <==> exists k :: 0 <= k < |newly| && |adj[newly[k]]| > 0)
    && (r.raised ==> |r.stored| > 0 && |adj[r.stored[|r.stored| - 1]]| > 0)
    && (!r.raised ==> r.stored == newly && SumDegrees(adj, newly) == 0)
  }

  /**
   * The replay as written raises exactly when some node it should mark has
   * neighbours, after storing the block id at the nodes up to and including
   * the first such node; it completes only when no counter was due to grow.
   */
  lemma {:induction false} ReplayAsWrittenRaises(adj: Adjacency, order: seq<Hop>, held: set<nat>)
    requires forall k :: 0 <= k < |order| ==> order[k].node < |adj|
    ensures var newly := NewNodes(order, held);
      && (forall k :: 0 <= k < |newly| ==> newly[k] < |adj|)
      && AsWrittenFacts(adj, ReplayAsWritten(adj, order, held), newly)
  {
    NewNodesInRange(order, held, |adj|);
    if order != [] {
      var init := order[..|order| - 1];
      ReplayAsWrittenRaises(adj, init, held);
      AsWrittenStep(adj, order, held);
    }
  }

  /** One more entry of the order keeps `AsWrittenFacts`. */
  lemma AsWrittenStep(adj: Adjacency, order: seq<Hop>, held: set<nat>)
    requires order != [] && forall k :: 0 <= k < |order| ==> order[k].node < |adj|
    requires var init := order[..|order| - 1];
      && (forall k :: 0 <= k < |NewNodes(init, held)| ==> NewNodes(init, held)[k] < |adj|)
      && AsWrittenFacts(adj, ReplayAsWritten(adj, init, held), NewNodes(init, held))
    ensures forall k :: 0 <= k < |NewNodes(order, held)| ==> NewNodes(order, held)[k] < |adj|
    ensures AsWrittenFacts(adj, ReplayAsWritten(adj, order, held), NewNodes(order, held))
  {
    NewNodesInRange(order, held, |adj|);
    var init := order[..|order| - 1];
    var p := ReplayAsWritten(adj, init, held);
    var last := order[|order| - 1].node;
    var before := NewNodes(init, held);
    if last in held {
      assert NewNodes(order, held) == before;
    } else if p.raised {
      AsWrittenRaisedKeeps(adj, p, before, [last]);
    } else {
      AsWrittenStores(adj, p, before, last);
    }
  }

  /** Once raised, later nodes to mark change nothing. */
  lemma AsWrittenRaisedKeeps(adj: Adjacency, p: AsWritten, before: seq<nat>, more: seq<nat>)
    requires forall k :: 0 <= k < |before| ==> before[k] < |adj|
    requires forall k :: 0 <= k < |more| ==> more[k] < |adj|
    requires AsWrittenFacts(adj, p, before) && p.raised
    ensures var newly := before + more;
      && (forall k :: 0 <= k < |newly| ==> newly[k] < |adj|)
      && AsWrittenFacts(adj, p, newly)
  {
    var newly := before + more;
    var k :| 0 <= k < |before| && |adj[before[k]]| > 0;
    assert newly[k] == before[k];
    assert newly[..|p.stored|] == before[..|p.stored|];
  }

  /** Before any raise, the next node to mark stores the id and raises iff it has neighbours. */
  lemma AsWrittenStores(adj: Adjacency, p: AsWritten, before: seq<nat>, last: nat)
    requires forall k :: 0 <= k < |before| ==> before[k] < |adj|
    requires last < |adj|
    requires AsWrittenFacts(adj, p, before) && !p.raised
    ensures var newly := before + [last];
      && (forall k :: 0 <= k < |newly| ==> newly[k] < |adj|)
      && AsWrittenFacts(adj, AsWritten(p.stored + [last], |adj[last]| > 0), newly)
  {
    var newly := before + [last];
    assert newly[|before|] == last;
    SumDegreesAppend(adj, before, [last]);
    if |adj[last]| == 0 {
      forall k | 0 <= k < |newly| ensures |adj[newly[k]]| == 0 {
        if k < |before| {
          assert newly[k] == before[k];
        }
      }
    }
  }

  /**
   * Two linked nodes: the breadth-first order from node 0 is 0 then 1, and
   * the replay should charge two I/O operations; as written it stores the
   * block at node 0 only and raises.
   */
  lemma TwoNodesRaise()
    ensures var adj := [[1], [0]];
      var order := [Hop(0, 0), Hop(1, 1)];
      && NewNodes(order, {}) == [0, 1]
      && SumDegrees(adj, NewNodes(order, {})) == 2
      && ReplayAsWritten(adj, order, {}) == AsWritten([0], true)
  {
    var adj := [[1], [0]];
    var order := [Hop(0, 0), Hop(1, 1)];
    assert order[..1] == [Hop(0, 0)];
    assert NewNodes(order[..1], {}) == [0];
    assert ReplayAsWritten(adj, order[..1], {}) == AsWritten([0], true);
  }
}
