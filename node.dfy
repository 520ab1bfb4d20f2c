/**
 * Peer nodes: the block ids each node stores, its neighbour list, and the
 * zero-delay flooding of a block through the network that the earlier
 * simulator performs by spawning one receive process per neighbour.
 */
module Network {
  import opened Graph
  import opened Blocks

  /** A peer. Neighbours are kept as node ids; the network holds node `i` at index `i`. */
  class Node {
    const id: nat
    var blocks: set<int>
    var neighbors: seq<nat>

    constructor (nodeId: nat)
      ensures id == nodeId && blocks == {} && neighbors == []
    {
      id := nodeId;
      blocks := {};
      neighbors := [];
    }

    /** Connects a peer, unless it is this node or already connected. */
    method AddNeighbor(neighbor: Node)
      modifies this
      ensures blocks == old(blocks)
      ensures neighbors == if neighbor.id != id && neighbor.id !in old(neighbors)
                           then old(neighbors) + [neighbor.id] else old(neighbors)
      ensures id !in old(neighbors) ==> id !in neighbors
      ensures Distinct(old(neighbors)) ==> Distinct(neighbors)
    {
      if neighbor.id != id && neighbor.id !in neighbors {
        neighbors := neighbors + [neighbor.id];
      }
    }

    /**
     * Handles one delivery of `block`: a block id already stored is ignored;
     * otherwise the id is stored and the block is forwarded to every
     * neighbour, each send counting one I/O request and `block.size` bytes.
     * The forwards are returned, in neighbour-list order, as the deliveries
     * still to be made.
     */
    method Receive(block: Block, counters: Counters) returns (forwards: seq<nat>)
      modifies this, counters
      ensures neighbors == old(neighbors)
      ensures block.id in old(blocks) ==>
        && blocks == old(blocks) && forwards == []
        && counters.ioRequests == old(counters.ioRequests)
        && counters.networkData == old(counters.networkData)
      ensures block.id !in old(blocks) ==>
        && blocks == old(blocks) + {block.id} && forwards == neighbors
        && counters.ioRequests == old(counters.ioRequests) + |neighbors|
        && counters.networkData == old(counters.networkData) + block.size * |neighbors|
    {
      if block.id in blocks {
        return [];
      }
      blocks := blocks + {block.id};
      forwards := [];
      for k := 0 to |neighbors|
        invariant neighbors == old(neighbors) && blocks == old(blocks) + {block.id}
        invariant forwards == neighbors[..k]
        invariant counters.ioRequests == old(counters.ioRequests) + k
        invariant counters.networkData == old(counters.networkData) + block.size * k
      {
        counters.ioRequests := counters.ioRequests + 1;
        counters.networkData := counters.networkData + block.size;
        forwards := forwards + [neighbors[k]];
      }
    }
  }

  /** The network I/O counters that receiving nodes increment. */
  class Counters {
    var ioRequests: int
    var networkData: int

    constructor ()
      ensures ioRequests == 0 && networkData == 0
    {
      ioRequests := 0;
      networkData := 0;
    }
  }

  /** The neighbour lists of `nodes`, by position. */
  function Adj(nodes: seq<Node>): (adj: Adjacency)
    reads nodes
    ensures |adj| == |nodes|
    ensures forall i :: 0 <= i < |nodes| ==> adj[i] == nodes[i].neighbors
  {
    if nodes == [] then [] else Adj(nodes[..|nodes| - 1]) + [nodes[|nodes| - 1].neighbors]
  }

  /** Node `i` sits at index `i` and every neighbour id names a node. */
  predicate Topology(nodes: seq<Node>)
    reads nodes
  {
    && (forall i :: 0 <= i < |nodes| ==> nodes[i].id == i)
    && WellFormed(Adj(nodes))
  }

  /** The positions of the nodes that store block id `b`. */
  ghost function Holders(nodes: seq<Node>, b: int): set<nat>
    reads nodes
  {
    set i: nat | i < |nodes| && b in nodes[i].blocks
  }

  /**
   * What holds of a partly drained delivery queue: every marked node is
   * reachable from `origin` around `held` and marked once; every queued
   * delivery is the first one or a forward from a marked node; and the
   * marked nodes, the holders and the queue together are closed under
   * forwarding.
   */
  ghost predicate DrainInv(adj: Adjacency, origin: nat, held: set<nat>, marked: seq<nat>, queue: seq<nat>)
  {
    && WellFormed(adj) && origin < |adj|
    && (forall k :: 0 <= k < |queue| ==> queue[k] < |adj|)
    && (forall k :: 0 <= k < |marked| ==> marked[k] < |adj| && marked[k] !in held)
    && Distinct(marked)
    && (forall t :: t in marked ==> Reachable(adj, origin, t, held))
    && (forall k :: 0 <= k < |queue| ==>
          queue[k] == origin || exists u :: u in marked && u < |adj| && queue[k] in adj[u])
    && (origin in marked || origin in held || origin in queue)
    && (forall u, w :: u in marked && u < |adj| && w in adj[u] ==> w in marked || w in held || w in queue)
  }

  lemma DrainStart(adj: Adjacency, origin: nat, held: set<nat>)
    requires WellFormed(adj) && origin < |adj|
    ensures DrainInv(adj, origin, held, [], [origin])
  {
  }

  /** Delivering to a node that neither holds nor has been marked marks it and queues its neighbours. */
  lemma DrainMark(adj: Adjacency, origin: nat, held: set<nat>, marked: seq<nat>, queue: seq<nat>)
    requires DrainInv(adj, origin, held, marked, queue)
    requires queue != [] && queue[0] !in marked && queue[0] !in held
    ensures DrainInv(adj, origin, held, marked + [queue[0]], queue[1..] + adj[queue[0]])
  {
    var v := queue[0];
    if v == origin {
      ReachableStart(adj, origin, held);
    } else {
      var u :| u in marked && u < |adj| && v in adj[u];
      ReachableStep(adj, origin, u, v, held);
    }
    MarkKeepsSources(adj, origin, held, marked, queue);
    MarkKeepsClosure(adj, origin, held, marked, queue);
  }

  lemma MarkKeepsSources(adj: Adjacency, origin: nat, held: set<nat>, marked: seq<nat>, queue: seq<nat>)
    requires DrainInv(adj, origin, held, marked, queue) && queue != []
    ensures var marked', queue' := marked + [queue[0]], queue[1..] + adj[queue[0]];
      forall k :: 0 <= k < |queue'| ==>
        queue'[k] == origin || exists u :: u in marked' && u < |adj| && queue'[k] in adj[u]
  {
    var v := queue[0];
    var marked', queue' := marked + [v], queue[1..] + adj[v];
    forall k | 0 <= k < |queue'|
      ensures queue'[k] == origin || exists u :: u in marked' && u < |adj| && queue'[k] in adj[u]
    {
      if k < |queue| - 1 {
        assert queue'[k] == queue[k + 1];
      } else {
        assert queue'[k] in adj[v];
      }
    }
  }

  lemma MarkKeepsClosure(adj: Adjacency, origin: nat, held: set<nat>, marked: seq<nat>, queue: seq<nat>)
    requires DrainInv(adj, origin, held, marked, queue) && queue != []
    ensures var marked', queue' := marked + [queue[0]], queue[1..] + adj[queue[0]];
      && (origin in marked' || origin in held || origin in queue')
      && (forall u, w :: u in marked' && u < |adj| && w in adj[u] ==> w in marked' || w in held || w in queue')
  {
    var v := queue[0];
    var marked', queue' := marked + [v], queue[1..] + adj[v];
    forall w | w in queue && w != v
      ensures w in queue'
    {
      var k :| 0 <= k < |queue| && queue[k] == w;
      assert queue'[k - 1] == w;
    }
    forall u, w | u in marked' && u < |adj| && w in adj[u]
      ensures w in marked' || w in held || w in queue'
    {
      if u == v {
        var k :| 0 <= k < |adj[v]| && adj[v][k] == w;
        assert queue'[|queue| - 1 + k] == w;
      }
    }
  }

  /** Delivering to a node that holds the block or was marked already only dequeues. */
  lemma DrainSkip(adj: Adjacency, origin: nat, held: set<nat>, marked: seq<nat>, queue: seq<nat>)
    requires DrainInv(adj, origin, held, marked, queue)
    requires queue != [] && (queue[0] in marked || queue[0] in held)
    ensures DrainInv(adj, origin, held, marked, queue[1..])
  {
    var v := queue[0];
    forall w | w in queue && w != v
      ensures w in queue[1..]
    {
      var k :| 0 <= k < |queue| && queue[k] == w;
      assert queue[1..][k - 1] == w;
    }
    forall k | 0 <= k < |queue| - 1
      ensures queue[1..][k] == origin || exists u :: u in marked && u < |adj| && queue[1..][k] in adj[u]
    {
      assert queue[1..][k] == queue[k + 1];
    }
  }

  /**
   * The delivery worklist as a function: deliveries are taken from the
   * front of `queue`; a node outside `marked` and `held` is marked and
   * queues its neighbours. The result is the final list of marked nodes.
   */
  ghost function Drain(adj: Adjacency, held: set<nat>, marked: seq<nat>, queue: seq<nat>): seq<nat>
    requires WellFormed(adj)
    requires forall k :: 0 <= k < |queue| ==> queue[k] < |adj|
    requires forall k :: 0 <= k < |marked| ==> marked[k] < |adj|
    decreases AllIds(|adj|) - Elems(marked), |queue|
  {
    if queue == [] then marked
    else if queue[0] in marked || queue[0] in held then Drain(adj, held, marked, queue[1..])
    else
      assert Elems(marked + [queue[0]]) == Elems(marked) + {queue[0]};
      assert queue[0] in AllIds(|adj|) - Elems(marked);
      Drain(adj, held, marked + [queue[0]], queue[1..] + adj[queue[0]])
  }

  lemma {:induction false} DrainKeepsInv(adj: Adjacency, origin: nat, held: set<nat>, marked: seq<nat>, queue: seq<nat>)
    requires DrainInv(adj, origin, held, marked, queue)
    ensures DrainInv(adj, origin, held, Drain(adj, held, marked, queue), [])
    decreases AllIds(|adj|) - Elems(marked), |queue|
  {
    if queue != [] {
      if queue[0] in marked || queue[0] in held {
        DrainSkip(adj, origin, held, marked, queue);
        DrainKeepsInv(adj, origin, held, marked, queue[1..]);
      } else {
        DrainMark(adj, origin, held, marked, queue);
        assert Elems(marked + [queue[0]]) == Elems(marked) + {queue[0]};
        assert queue[0] in AllIds(|adj|) - Elems(marked);
        DrainKeepsInv(adj, origin, held, marked + [queue[0]], queue[1..] + adj[queue[0]]);
      }
    }
  }

  /**
   * Draining from a single delivery to `origin` marks, each exactly once,
   * the nodes reachable from `origin` around the nodes in `held`.
   */
  lemma DrainMarksReachable(adj: Adjacency, origin: nat, held: set<nat>)
    requires WellFormed(adj) && origin < |adj|
    ensures var m := Drain(adj, held, [], [origin]);
      && Distinct(m) && (forall k :: 0 <= k < |m| ==> m[k] < |adj| && m[k] !in held)
      && (forall t :: t in m <==> Reachable(adj, origin, t, held))
  {
    DrainStart(adj, origin, held);
    DrainKeepsInv(adj, origin, held, [], [origin]);
    DrainDone(adj, origin, held, Drain(adj, held, [], [origin]));
  }

  /** Once the queue is empty the marked nodes are exactly the reachable ones. */
  lemma DrainDone(adj: Adjacency, origin: nat, held: set<nat>, marked: seq<nat>)
    requires DrainInv(adj, origin, held, marked, [])
    ensures forall t :: t in marked <==> Reachable(adj, origin, t, held)
  {
    forall t | Reachable(adj, origin, t, held)
      ensures t in marked
    {
      ClosedContainsReachable(adj, origin, (set x | x in marked), held, t);
    }
  }

  /** The block sets of `nodes`, by position. */
  function BlockSets(nodes: seq<Node>): (sets: seq<set<int>>)
    reads nodes
    ensures |sets| == |nodes|
    ensures forall i :: 0 <= i < |nodes| ==> sets[i] == nodes[i].blocks
  {
    if nodes == [] then [] else BlockSets(nodes[..|nodes| - 1]) + [nodes[|nodes| - 1].blocks]
  }

  /** The ids in `xs`, as a set. */
  function Elems(xs: seq<nat>): set<nat>
  {
    set t | t in xs
  }

  /**
   * The state of a flood in progress: node `i` still has neighbours
   * `adj[i]`, stores what it stored `before` plus the block id if it was
   * marked, and `held` names the nodes that stored the id beforehand.
   */
  ghost predicate Flooding(nodes: seq<Node>, adj: Adjacency, before: seq<set<int>>, held: set<nat>, b: int,
                           queue: seq<nat>, marked: seq<nat>)
    reads nodes
  {
    && WellFormed(adj) && |adj| == |nodes| && |before| == |nodes|
    && (forall i :: 0 <= i < |nodes| ==> nodes[i].id == i)
    && (forall i :: 0 <= i < |nodes| ==> (i in held <==> b in before[i]))
    && (forall k :: 0 <= k < |queue| ==> queue[k] < |nodes|)
    && (forall k :: 0 <= k < |marked| ==> marked[k] < |nodes|)
    && (forall i :: 0 <= i < |nodes| ==> nodes[i].neighbors == adj[i])
    && (forall i :: 0 <= i < |nodes| ==> nodes[i].blocks == before[i] + (if i in marked then {b} else {}))
  }

  /**
   * Runs the first pending delivery: node `queue[0]` receives the block,
   * and its forwards join the end of the queue. The flood moves one step
   * along `Drain`, and the counters grow by the neighbour count of the node
   * if it was newly marked.
   */
  method DeliverNext(nodes: seq<Node>, block: Block, counters: Counters, queue: seq<nat>,
                     ghost adj: Adjacency, ghost before: seq<set<int>>, ghost held: set<nat>, ghost marked: seq<nat>)
    returns (queue': seq<nat>, ghost marked': seq<nat>)
    requires queue != [] && Flooding(nodes, adj, before, held, block.id, queue, marked)
    modifies nodes, counters
    ensures Flooding(nodes, adj, before, held, block.id, queue', marked')
    ensures Drain(adj, held, marked', queue') == Drain(adj, held, marked, queue)
    ensures counters.ioRequests - SumDegrees(adj, marked') == old(counters.ioRequests) - SumDegrees(adj, marked)
    ensures counters.networkData - SumBytes(adj, marked', block.size)
         == old(counters.networkData) - SumBytes(adj, marked, block.size)
    ensures AllIds(|nodes|) - Elems(marked') < AllIds(|nodes|) - Elems(marked)
         || (marked' == marked && |queue'| < |queue|)
  {
    assert block.id in nodes[queue[0]].blocks <==> queue[0] in marked || queue[0] in held;
    if block.id !in nodes[queue[0]].blocks {
      queue', marked' := DeliverFirst(nodes, block, counters, queue, adj, before, held, marked);
    } else {
      queue', marked' := DeliverAgain(nodes, block, counters, queue, adj, before, held, marked);
    }
  }

  /** `DeliverNext` when the node receives the block for the first time: it is marked and forwards. */
  method DeliverFirst(nodes: seq<Node>, block: Block, counters: Counters, queue: seq<nat>,
                      ghost adj: Adjacency, ghost before: seq<set<int>>, ghost held: set<nat>, ghost marked: seq<nat>)
    returns (queue': seq<nat>, ghost marked': seq<nat>)
    requires queue != [] && Flooding(nodes, adj, before, held, block.id, queue, marked)
    requires queue[0] !in marked && queue[0] !in held
    modifies nodes, counters
    ensures Flooding(nodes, adj, before, held, block.id, queue', marked')
    ensures Drain(adj, held, marked', queue') == Drain(adj, held, marked, queue)
    ensures counters.ioRequests - SumDegrees(adj, marked') == old(counters.ioRequests) - SumDegrees(adj, marked)
    ensures counters.networkData - SumBytes(adj, marked', block.size)
         == old(counters.networkData) - SumBytes(adj, marked, block.size)
    ensures AllIds(|nodes|) - Elems(marked') < AllIds(|nodes|) - Elems(marked)
  {
    var v := queue[0];
    assert forall i :: 0 <= i < |nodes| && i != v ==> nodes[i] != nodes[v];
    var forwards := nodes[v].Receive(block, counters);
    marked' := marked + [v];
    assert marked'[..|marked'| - 1] == marked;
    assert Elems(marked') == Elems(marked) + {v};
    queue' := queue[1..] + forwards;
  }

  /** `DeliverNext` when the node already stores the block: nothing changes but the queue. */
  method DeliverAgain(nodes: seq<Node>, block: Block, counters: Counters, queue: seq<nat>,
                      ghost adj: Adjacency, ghost before: seq<set<int>>, ghost held: set<nat>, ghost marked: seq<nat>)
    returns (queue': seq<nat>, ghost marked': seq<nat>)
    requires queue != [] && Flooding(nodes, adj, before, held, block.id, queue, marked)
    requires queue[0] in marked || queue[0] in held
    modifies nodes, counters
    ensures Flooding(nodes, adj, before, held, block.id, queue', marked')
    ensures Drain(adj, held, marked', queue') == Drain(adj, held, marked, queue)
    ensures counters.ioRequests == old(counters.ioRequests) && counters.networkData == old(counters.networkData)
    ensures marked' == marked && queue' == queue[1..]
  {
    var v := queue[0];
    assert forall i :: 0 <= i < |nodes| && i != v ==> nodes[i] != nodes[v];
    var forwards := nodes[v].Receive(block, counters);
    marked' := marked;
    assert queue[1..] + forwards == queue[1..];
    queue' := queue[1..] + forwards;
  }

  /**
   * The worklist itself: delivers `block` to `origin` and then every
   * forward, first issued first, until none is left. The nodes marked are
   * the ones `Drain` computes, and the counters grow by their neighbour
   * counts.
   */
  method Flood(nodes: seq<Node>, origin: nat, block: Block, counters: Counters,
               ghost adj: Adjacency, ghost before: seq<set<int>>, ghost held: set<nat>)
    returns (ghost marked: seq<nat>)
    requires origin < |nodes| && Flooding(nodes, adj, before, held, block.id, [origin], [])
    modifies nodes, counters
    ensures marked == Drain(adj, held, [], [origin])
    ensures Flooding(nodes, adj, before, held, block.id, [], marked)
    ensures counters.ioRequests == old(counters.ioRequests) + SumDegrees(adj, marked)
    ensures counters.networkData == old(counters.networkData) + SumBytes(adj, marked, block.size)
  {
    var queue: seq<nat> := [origin];
    marked := [];
    while queue != []
      invariant Flooding(nodes, adj, before, held, block.id, queue, marked)
      invariant Drain(adj, held, marked, queue) == Drain(adj, held, [], [origin])
      invariant counters.ioRequests == old(counters.ioRequests) + SumDegrees(adj, marked)
      invariant counters.networkData == old(counters.networkData) + SumBytes(adj, marked, block.size)
      decreases AllIds(|nodes|) - Elems(marked), |queue|
    {
      queue, marked := DeliverNext(nodes, block, counters, queue, adj, before, held, marked);
    }
  }

  /**
   * What a completed flood of block id `b` from `origin` leaves behind,
   * given the neighbour lists `adj`, the holders `held` and the block sets
   * `before` it started from: the nodes `marked`, each once, are exactly
   * those reachable from `origin` around the holders, and they alone gain
   * the block id.
   */
  ghost predicate Flooded(origin: nat, b: int, adj: Adjacency, held: set<nat>,
                          before: seq<set<int>>, after: seq<set<int>>, marked: seq<nat>)
  {
    && |after| == |before|
    && Distinct(marked) && (forall k :: 0 <= k < |marked| ==> marked[k] < |before|)
    && (forall t :: t in marked <==> Reachable(adj, origin, t, held))
    && forall i :: 0 <= i < |before| ==> after[i] == before[i] + (if i in marked then {b} else {})
  }

  /**
   * Delivers `block` to `origin` and lets every resulting delivery run.
   * The nodes that end up storing the block id are those reachable from
   * `origin` without passing through a node that already stored it
   * (`marked`, each once); the counters grow by the neighbour counts of
   * exactly those nodes.
   */
  method Deliver(nodes: seq<Node>, origin: nat, block: Block, counters: Counters)
    returns (ghost marked: seq<nat>)
    requires Topology(nodes) && origin < |nodes|
    modifies nodes, counters
    ensures forall i :: 0 <= i < |nodes| ==> nodes[i].neighbors == old(nodes[i].neighbors)
    ensures Flooded(origin, block.id, old(Adj(nodes)), old(Holders(nodes, block.id)), old(BlockSets(nodes)), BlockSets(nodes), marked)
    ensures counters.ioRequests == old(counters.ioRequests) + SumDegrees(old(Adj(nodes)), marked)
    ensures counters.networkData == old(counters.networkData) + block.size * SumDegrees(old(Adj(nodes)), marked)
  {
    ghost var adj := Adj(nodes);
    ghost var before := BlockSets(nodes);
    ghost var held := Holders(nodes, block.id);
    DrainMarksReachable(adj, origin, held);
    assert Flooding(nodes, adj, before, held, block.id, [origin], []);
    marked := Flood(nodes, origin, block, counters, adj, before, held);
    SumBytesScales(adj, marked, block.size);
  }


  /** Bytes sent when each node of `xs` forwards a block of `size` bytes to every neighbour. */
  function SumBytes(adj: Adjacency, xs: seq<nat>, size: int): int
    requires forall i :: 0 <= i < |xs| ==> xs[i] < |adj|
  {
    if xs == [] then 0 else SumBytes(adj, xs[..|xs| - 1], size) + size * |adj[xs[|xs| - 1]]|
  }

  lemma {:induction false} SumBytesScales(adj: Adjacency, xs: seq<nat>, size: int)
    requires forall i :: 0 <= i < |xs| ==> xs[i] < |adj|
    ensures SumBytes(adj, xs, size) == size * SumDegrees(adj, xs)
    decreases |xs|
  {
    if xs != [] {
      SumBytesScales(adj, xs[..|xs| - 1], size);
      assert size * SumDegrees(adj, xs)
          == size * SumDegrees(adj, xs[..|xs| - 1]) + size * |adj[xs[|xs| - 1]]|;
    }
  }
}
