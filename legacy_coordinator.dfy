/**
 * The earlier simulator's round loop (src/blockchain_lab/simulation/coordinator.py).
 *
 * Its round is the newer coordinator's `Step` with the retarget window fixed
 * at 2016 blocks, and the block is flooded through the network by the nodes'
 * own receive processes (`Network.Deliver`) instead of a stored order. It
 * differs in two places: both termination tests apply at once, whatever the
 * block limit, and `max_halvings` must be an integer. The final summary
 * guards its divisions differently.
 */
module LegacyCoordinator {
  import opened Common
  import opened Formatting
  import opened State
  import opened Blocks
  import opened Graph
  import opened Network
  import opened Coordinator

  /** The retarget window, fixed in this loop. */
  const RetargetBlocks: int := 2016

  /** The settings the shared round functions see: the fixed retarget window. */
  function Legacy(cfg: Settings): (l: Settings)
    ensures l.retargetInterval == RetargetBlocks
    ensures l.(retargetInterval := cfg.retargetInterval) == cfg
  {
    cfg.(retargetInterval := RetargetBlocks)
  }

  /**
   * The termination tests, side by side: the block limit when one is set,
   * or every wallet transaction processed when transactions are on.
   */
  predicate LegacyFinished(cfg: Settings, s: SimulationState)
  {
    || (cfg.blocksLimit.Some? && s.blockCount >= cfg.blocksLimit.value)
    || (HasTx(cfg) && s.poolProcessed >= TotalNeeded(cfg))
  }

  /**
   * Whenever the newer loop stops this one stops too; the converse fails
   * exactly when a block limit is set and not yet reached while every
   * transaction has been processed, or when transactions are on but none
   * are needed and no limit is set.
   */
  lemma FinishedPrecedence(cfg: Settings, s: SimulationState)
    ensures Finished(cfg, s) ==> LegacyFinished(cfg, s)
    ensures LegacyFinished(cfg, s) && !Finished(cfg, s) <==>
      && HasTx(cfg) && s.poolProcessed >= TotalNeeded(cfg)
      && ((cfg.blocksLimit.Some? && s.blockCount < cfg.blocksLimit.value)
          || (cfg.blocksLimit.None? && TotalNeeded(cfg) <= 0))
  {
  }

  /** The loop's data before the first round, with the coordinator's current totals. */
  function LegacyStart(cfg: Settings, totalHashrate: real, pool: seq<PoolEntry>, totalTx: int, totalCoins: real): (sim: Sim)
    ensures sim.state == FromConfig(cfg, totalHashrate).(totalTx := totalTx, totalCoins := totalCoins)
    ensures sim.pool == pool && sim.now == 0.0 && sim.blocks == [] && sim.confirmed == []
  {
    Sim(FromConfig(cfg, totalHashrate).(totalTx := totalTx, totalCoins := totalCoins), pool, 0.0, [], [])
  }

  /** The loop over the rounds supplied, until a termination test fires or the rounds run out. */
  function LegacyRun(cfg: Settings, sim: Sim, rounds: seq<Round>): Outcome
    requires cfg.debug || cfg.printInterval != 0
    decreases |rounds|
  {
    if LegacyFinished(cfg, sim.state) then Outcome(sim, true)
    else if rounds == [] then Outcome(sim, false)
    else LegacyRun(cfg, Step(Legacy(cfg), sim, rounds[0]), rounds[1..])
  }

  /** The loop keeps `Progress`; it ends finished exactly when a test fired, and otherwise uses every round. */
  lemma {:induction false} LegacyRunProgress(cfg: Settings, base: Sim, done: seq<Round>, sim: Sim, rounds: seq<Round>)
    requires cfg.debug || cfg.printInterval != 0
    requires Progress(Legacy(cfg), base, done, sim)
    ensures var out := LegacyRun(cfg, sim, rounds);
      var m := |out.sim.blocks| - |done|;
      && 0 <= m <= |rounds|
      && Progress(Legacy(cfg), base, done + rounds[..m], out.sim)
      && (out.finished <==> LegacyFinished(cfg, out.sim.state))
      && (!out.finished ==> m == |rounds|)
    decreases |rounds|
  {
    if LegacyFinished(cfg, sim.state) || rounds == [] {
      assert done + rounds[..0] == done;
    } else {
      var next := Step(Legacy(cfg), sim, rounds[0]);
      StepProgress(Legacy(cfg), base, done, sim, rounds[0]);
      LegacyRunProgress(cfg, base, done + [rounds[0]], next, rounds[1..]);
      ConsumedSplit(done, rounds, |LegacyRun(cfg, next, rounds[1..]).sim.blocks| - |done| - 1);
    }
  }

  lemma LegacyStartProgress(cfg: Settings, totalHashrate: real, pool: seq<PoolEntry>, totalTx: int, totalCoins: real)
    ensures var start := LegacyStart(cfg, totalHashrate, pool, totalTx, totalCoins);
      Progress(Legacy(cfg), start, [], start)
  {
    assert LegacyStart(cfg, totalHashrate, pool, totalTx, totalCoins).confirmed + pool == pool + Arrivals([]);
  }

  /**
   * The run ends finished exactly when one of the two tests holds, and
   * otherwise has used every round; with transactions on but none needed
   * (no wallets, say) it finishes before the first block.
   */
  lemma LegacyRunTermination(cfg: Settings, totalHashrate: real, pool: seq<PoolEntry>, totalTx: int, totalCoins: real,
                             rounds: seq<Round>)
    requires cfg.debug || cfg.printInterval != 0
    ensures var out := LegacyRun(cfg, LegacyStart(cfg, totalHashrate, pool, totalTx, totalCoins), rounds);
      && (out.finished <==> LegacyFinished(cfg, out.sim.state))
      && (!out.finished ==> |out.sim.blocks| == |rounds|)
      && (HasTx(cfg) && TotalNeeded(cfg) <= 0 ==> out.finished && out.sim.blocks == [] && out.sim.state.blockCount == 0)
  {
    var start := LegacyStart(cfg, totalHashrate, pool, totalTx, totalCoins);
    LegacyStartProgress(cfg, totalHashrate, pool, totalTx, totalCoins);
    LegacyRunProgress(cfg, start, [], start, rounds);
  }

  /**
   * With a block limit the run never passes it and finishes once it is
   * reached, but it may finish earlier, when every transaction is processed.
   */
  lemma LegacyRunLimit(cfg: Settings, totalHashrate: real, pool: seq<PoolEntry>, totalTx: int, totalCoins: real,
                       rounds: seq<Round>)
    requires cfg.debug || cfg.printInterval != 0
    requires cfg.blocksLimit.Some? && cfg.blocksLimit.value >= 0
    ensures var out := LegacyRun(cfg, LegacyStart(cfg, totalHashrate, pool, totalTx, totalCoins), rounds);
      && out.sim.state.blockCount <= cfg.blocksLimit.value
      && (out.finished <==> out.sim.state.blockCount == cfg.blocksLimit.value
                            || (HasTx(cfg) && out.sim.state.poolProcessed >= TotalNeeded(cfg)))
      && (|rounds| >= cfg.blocksLimit.value ==> out.finished)
  {
    var start := LegacyStart(cfg, totalHashrate, pool, totalTx, totalCoins);
    LegacyStartProgress(cfg, totalHashrate, pool, totalTx, totalCoins);
    LegacyRunProgress(cfg, start, [], start, rounds);
  }

  /**
   * Blocks are numbered 1, 2, ..., the mempool is first in, first out, and,
   * for a non-negative block size, the transaction total grows by one
   * coinbase per block plus the entries confirmed.
   */
  lemma LegacyRunBlocks(cfg: Settings, totalHashrate: real, pool: seq<PoolEntry>, totalTx: int, totalCoins: real,
                        rounds: seq<Round>)
    requires cfg.debug || cfg.printInterval != 0
    ensures var out := LegacyRun(cfg, LegacyStart(cfg, totalHashrate, pool, totalTx, totalCoins), rounds).sim;
      && out.state.blockCount == |out.blocks| <= |rounds|
      && (forall k :: 0 <= k < |out.blocks| ==> out.blocks[k].id == k + 1)
      && out.confirmed + out.pool == pool + Arrivals(rounds[..|out.blocks|])
      && (cfg.blockSize >= 0 ==>
            && out.state.poolProcessed == |out.confirmed|
            && out.state.totalTx == totalTx + |out.blocks| + |out.confirmed|)
  {
    var start := LegacyStart(cfg, totalHashrate, pool, totalTx, totalCoins);
    LegacyStartProgress(cfg, totalHashrate, pool, totalTx, totalCoins);
    LegacyRunProgress(cfg, start, [], start, rounds);
    var out := LegacyRun(cfg, start, rounds).sim;
    assert [] + rounds[..|out.blocks|] == rounds[..|out.blocks|];
  }

  /**
   * Issuance follows the newer coordinator's rule with the integer cap:
   * `Issue` from the configured reward, block by block, never passing a
   * non-negative cap.
   */
  lemma LegacyRunIssuance(cfg: Settings, totalHashrate: real, pool: seq<PoolEntry>, totalTx: int, totalCoins: real,
                          rounds: seq<Round>)
    requires cfg.debug || cfg.printInterval != 0
    requires cfg.maxHalvings.Some?
    ensures var out := LegacyRun(cfg, LegacyStart(cfg, totalHashrate, pool, totalTx, totalCoins), rounds).sim;
      && Econ(out.state) == Issue(cfg.halvingInterval, cfg.maxHalvings, Economy(0, cfg.initialReward, 0, totalCoins), |out.blocks|)
      && (cfg.maxHalvings.value >= 0 ==> out.state.halvings <= cfg.maxHalvings.value)
  {
    var start := LegacyStart(cfg, totalHashrate, pool, totalTx, totalCoins);
    LegacyStartProgress(cfg, totalHashrate, pool, totalTx, totalCoins);
    LegacyRunProgress(cfg, start, [], start, rounds);
    assert Econ(start.state) == Economy(0, cfg.initialReward, 0, totalCoins);
    if cfg.maxHalvings.value >= 0 {
      var out := LegacyRun(cfg, start, rounds).sim;
      IssueKeepsCap(cfg.halvingInterval, cfg.maxHalvings, Econ(start.state), |out.blocks|);
    }
  }

  /** A configured difficulty is never retargeted. */
  lemma LegacyRunFixedDifficulty(cfg: Settings, totalHashrate: real, pool: seq<PoolEntry>, totalTx: int, totalCoins: real,
                                 rounds: seq<Round>)
    requires cfg.debug || cfg.printInterval != 0
    requires cfg.difficulty.Some?
    ensures LegacyRun(cfg, LegacyStart(cfg, totalHashrate, pool, totalTx, totalCoins), rounds).sim.state.difficulty
         == cfg.difficulty.value
  {
    var start := LegacyStart(cfg, totalHashrate, pool, totalTx, totalCoins);
    LegacyStartProgress(cfg, totalHashrate, pool, totalTx, totalCoins);
    LegacyRunProgress(cfg, start, [], start, rounds);
  }

  /** The end-of-run figures: average block time, throughput, annualised inflation. */
  datatype Summary = Summary(avgBlockTime: real, tps: real, inflation: real)

  /**
   * The final summary. Each figure is 0 when its guard fails; the inflation
   * figure is guarded by the last reported coins only, so with coins
   * reported and no simulated time elapsed it divides by zero.
   */
  function FinalSummary(totalTime: real, blockCount: int, totalTx: int, totalCoins: real, lastCoins: real)
    : (r: Result<Summary, string>)
    ensures r.Failure? <==> lastCoins > 0.0 && totalTime == 0.0
    ensures r.Success? ==>
      && (blockCount == 0 ==> r.value.avgBlockTime == 0.0)
      && (blockCount != 0 ==> r.value.avgBlockTime * blockCount as real == totalTime)
      && (totalTime <= 0.0 ==> r.value.tps == 0.0)
      && (totalTime > 0.0 ==> r.value.tps * totalTime == totalTx as real)
      && (lastCoins <= 0.0 ==> r.value.inflation == 0.0)
      && (lastCoins > 0.0 ==>
            r.value.inflation * lastCoins * totalTime == (totalCoins - lastCoins) * Year as real * 100.0)
  {
    if lastCoins > 0.0 && totalTime == 0.0 then Failure("ZeroDivisionError")
    else
      var abt := if blockCount != 0 then totalTime / blockCount as real else 0.0;
      var tps := if totalTime > 0.0 then totalTx as real / totalTime else 0.0;
      var inflation :=
        if lastCoins > 0.0 then
          Scale(totalCoins - lastCoins, lastCoins, totalTime);
          (totalCoins - lastCoins) / lastCoins * (Year as real / totalTime) * 100.0
        else 0.0;
      Success(Summary(abt, tps, inflation))
  }

  /** `(c / l) * (Year / t) * 100` times `l * t` is `c * Year * 100`. */
  lemma Scale(c: real, l: real, t: real)
    requires l > 0.0 && t != 0.0
    ensures c / l * (Year as real / t) * 100.0 * l * t == c * Year as real * 100.0
  {
    var y := Year as real;
    calc {
      c / l * (y / t) * 100.0 * l * t;
      (c / l * l) * ((y / t) * t) * 100.0;
      c * y * 100.0;
    }
  }

  /** One legacy step, written out as the loop body computes it. */
  lemma LegacyStepParts(cfg: Settings, sim: Sim, r: Round)
    requires cfg.debug || cfg.printInterval != 0
    ensures var take := Take(cfg, |sim.pool + r.arrivals|);
      && Step(Legacy(cfg), sim, r).pool == (sim.pool + r.arrivals)[Popped(take)..]
      && Step(Legacy(cfg), sim, r).state
         == Markers(cfg, Minted(Legacy(cfg), Counted(Legacy(cfg), sim.state, sim.now, r.found, take)), r.found)
  {
  }

  /**
   * The earlier coordinator: its configuration, the network counters its
   * nodes increment, the totals it keeps and the mempool.
   */
  class LegacySimulationCoordinator {
    const config: Settings
    const counters: Counters
    var totalTx: int
    var totalCoins: real
    var pool: seq<PoolEntry>

    constructor (config: Settings)
      ensures this.config == config && fresh(counters)
      ensures counters.networkData == 0 && counters.ioRequests == 0
      ensures totalTx == 0 && totalCoins == 0.0 && pool == []
    {
      this.config := config;
      counters := new Counters();
      totalTx := 0;
      totalCoins := 0.0;
      pool := [];
    }

    /**
     * The main loop over the rounds supplied: it stops when a termination
     * test fires (or the rounds run out) and yields the final summary. Its
     * state follows `LegacyRun` from `LegacyStart`.
     */
    method Coord(nodes: seq<Node>, totalHashrate: real, rounds: seq<Round>)
      returns (finished: bool, summary: Result<Summary, string>)
      requires config.debug || config.printInterval != 0
      requires config.maxHalvings.Some?
      requires Topology(nodes) && |nodes| > 0
      requires forall k :: 0 <= k < |rounds| ==> rounds[k].origin < |nodes|
      modifies this, counters, nodes
      ensures var out := LegacyRun(config, LegacyStart(config, totalHashrate, old(pool), old(totalTx), old(totalCoins)), rounds);
        && finished == out.finished
        && pool == out.sim.pool
        && totalTx == out.sim.state.totalTx && totalCoins == out.sim.state.totalCoins
        && summary == FinalSummary(out.sim.now, out.sim.state.blockCount, totalTx, totalCoins, out.sim.state.lastCoins)
      ensures forall j :: 0 <= j < |nodes| ==> nodes[j].neighbors == old(nodes[j].neighbors)
    {
      var state := FromConfig(config, totalHashrate).(totalTx := totalTx, totalCoins := totalCoins);
      ghost var start := LegacyStart(config, totalHashrate, pool, totalTx, totalCoins);
      var now;
      ghost var sim;
      finished, state, now, sim := Loop(nodes, state, rounds, start);
      summary := FinalSummary(now, state.blockCount, totalTx, totalCoins, state.lastCoins);
    }

    /** The `while True` loop: rounds until a termination test fires or the rounds run out. */
    method Loop(nodes: seq<Node>, state0: SimulationState, rounds: seq<Round>, ghost start: Sim)
      returns (finished: bool, state: SimulationState, now: real, ghost sim: Sim)
      requires config.debug || config.printInterval != 0
      requires config.maxHalvings.Some?
      requires Topology(nodes)
      requires forall k :: 0 <= k < |rounds| ==> rounds[k].origin < |nodes|
      requires start.state == state0 && start.pool == pool && start.now == 0.0
      requires totalTx == state0.totalTx && totalCoins == state0.totalCoins
      modifies this`pool, this`totalTx, this`totalCoins, counters, nodes
      ensures LegacyRun(config, start, rounds) == Outcome(sim, finished)
      ensures sim.state == state && sim.pool == pool && sim.now == now
      ensures totalTx == state.totalTx && totalCoins == state.totalCoins
      ensures forall j :: 0 <= j < |nodes| ==> nodes[j].neighbors == old(nodes[j].neighbors)
    {
      state := state0;
      now := 0.0;
      sim := start;
      finished := false;
      var i := 0;
      while true
        invariant 0 <= i <= |rounds|
        invariant sim.state == state && sim.pool == pool && sim.now == now
        invariant totalTx == state.totalTx && totalCoins == state.totalCoins
        invariant LegacyRun(config, sim, rounds[i..]) == LegacyRun(config, start, rounds)
        invariant Topology(nodes)
        invariant forall j :: 0 <= j < |nodes| ==> nodes[j].neighbors == old(nodes[j].neighbors)
        decreases |rounds| - i
      {
        if config.blocksLimit.Some? && state.blockCount >= config.blocksLimit.value {
          finished := true;
          break;
        }
        if HasTx(config) && state.poolProcessed >= TotalNeeded(config) {
          finished := true;
          break;
        }
        if i == |rounds| {
          break;
        }
        assert rounds[i..][1..] == rounds[i + 1..];
        state := PlayRound(nodes, state, now, rounds[i], sim);
        sim := Step(Legacy(config), sim, rounds[i]);
        now := rounds[i].found;
        i := i + 1;
      }
    }

    /** One pass of the loop body, after the termination tests let it through. */
    method PlayRound(nodes: seq<Node>, state: SimulationState, now: real, r: Round, ghost sim: Sim)
      returns (state': SimulationState)
      requires config.debug || config.printInterval != 0
      requires config.maxHalvings.Some?
      requires Topology(nodes) && r.origin < |nodes|
      requires sim.state == state && sim.pool == pool && sim.now == now
      requires totalTx == state.totalTx && totalCoins == state.totalCoins
      modifies this`pool, this`totalTx, this`totalCoins, counters, nodes
      ensures state' == Step(Legacy(config), sim, r).state && pool == Step(Legacy(config), sim, r).pool
      ensures totalTx == state'.totalTx && totalCoins == state'.totalCoins
      ensures Topology(nodes)
      ensures forall j :: 0 <= j < |nodes| ==> nodes[j].neighbors == old(nodes[j].neighbors)
    {
      LegacyStepParts(config, sim, r);
      var counted, block := OpenRound(state, now, r);
      ghost var marked;
      state', marked := CloseRound(nodes, counted, block, r);
    }

    /**
     * The first half of a round: the 2016-block retarget, the wallets'
     * entries, the block count, the batch popped from the front and the block.
     */
    method OpenRound(state: SimulationState, now: real, r: Round) returns (s: SimulationState, block: Block)
      requires totalTx == state.totalTx
      modifies this`pool, this`totalTx
      ensures var take := Take(config, |old(pool) + r.arrivals|);
        && pool == (old(pool) + r.arrivals)[Popped(take)..]
        && s == Counted(Legacy(config), state, now, r.found, take)
        && block == NewBlock(state.blockCount + 1, take + 1, r.found - state.lastBlockTime, None, r.wallClock)
      ensures totalTx == s.totalTx
    {
      s := state;
      if config.difficulty.None? && s.blocksSinceAdjustment >= RetargetBlocks {
        var elapsed := now - s.lastAdjustmentTime;
        var actualAvg := if s.blocksSinceAdjustment != 0 then elapsed / s.blocksSinceAdjustment as real else config.blocktime;
        var factor := if actualAvg > 0.0 then config.blocktime / actualAvg else 1.0;
        s := s.(difficulty := s.difficulty * factor, lastAdjustmentTime := now, blocksSinceAdjustment := 0);
      }
      assert s == Retarget(Legacy(config), state, now);
      pool := pool + r.arrivals;
      var dt := r.found - s.lastBlockTime;
      s := s.(lastBlockTime := r.found, blockCount := s.blockCount + 1, blocksSinceAdjustment := s.blocksSinceAdjustment + 1);
      var txs := 1;
      if HasTx(config) {
        var take := if |pool| < config.blockSize then |pool| else config.blockSize;
        s := s.(poolProcessed := s.poolProcessed + take);
        PopFront(take);
        txs := take + 1;
      }
      block := NewBlock(s.blockCount, txs, dt, None, r.wallClock);
      totalTx := totalTx + txs;
      s := s.(totalTx := totalTx);
    }

    /** The second half of a round: issuance, the flood from the drawn node, the progress markers. */
    method CloseRound(nodes: seq<Node>, counted: SimulationState, block: Block, r: Round)
      returns (s: SimulationState, ghost marked: seq<nat>)
      requires config.debug || config.printInterval != 0
      requires config.maxHalvings.Some?
      requires Topology(nodes) && r.origin < |nodes|
      requires totalTx == counted.totalTx && totalCoins == counted.totalCoins
      modifies this`totalCoins, counters, nodes
      ensures s == Markers(config, Minted(Legacy(config), counted), r.found)
      ensures totalCoins == s.totalCoins
      ensures Topology(nodes)
      ensures forall j :: 0 <= j < |nodes| ==> nodes[j].neighbors == old(nodes[j].neighbors)
      ensures Flooded(r.origin, block.id, old(Adj(nodes)), old(Holders(nodes, block.id)), old(BlockSets(nodes)), BlockSets(nodes), marked)
      ensures counters.ioRequests == old(counters.ioRequests) + SumDegrees(old(Adj(nodes)), marked)
      ensures counters.networkData == old(counters.networkData) + block.size * SumDegrees(old(Adj(nodes)), marked)
    {
      s := MintReward(counted);
      assert Adj(nodes) == old(Adj(nodes)) && Holders(nodes, block.id) == old(Holders(nodes, block.id));
      assert BlockSets(nodes) == old(BlockSets(nodes));
      marked := Broadcast(nodes, r.origin, block);
      if !config.debug && s.blockCount % config.printInterval == 0 {
        s := s.(lastT := r.found, lastB := s.blockCount, lastTx := totalTx, lastCoins := totalCoins);
      }
    }

    /** Issuance: the reward while below the cap, then the halving at a boundary block. */
    method MintReward(counted: SimulationState) returns (s: SimulationState)
      requires config.maxHalvings.Some?
      requires totalCoins == counted.totalCoins
      modifies this`totalCoins
      ensures s == Minted(Legacy(config), counted) && totalCoins == s.totalCoins
    {
      s := counted;
      var maxHalvings := config.maxHalvings.value;
      if s.halvings < maxHalvings {
        totalCoins := totalCoins + s.reward;
      }
      s := s.(totalCoins := totalCoins);
      if config.halvingInterval > 0 && s.blockCount % config.halvingInterval == 0 && s.halvings < maxHalvings {
        var halvings := s.halvings + 1;
        s := s.(halvings := halvings, reward := if halvings < maxHalvings then s.reward / 2.0 else 0.0);
      }
    }

    /** `pool.pop(0)`, `n` times. */
    method PopFront(n: int)
      requires n <= |pool|
      modifies this`pool
      ensures pool == old(pool)[Popped(n)..]
    {
      var j := 0;
      while j < n
        invariant 0 <= j <= Popped(n)
        invariant pool == old(pool)[j..]
        decreases n - j
      {
        pool := pool[1..];
        j := j + 1;
      }
    }

    /**
     * Hands the block to node `origin`, whose receive floods it through the
     * network: the nodes reachable from `origin` around the current holders
     * store the block id, and the counters grow by their neighbour counts.
     */
    method Broadcast(nodes: seq<Node>, origin: nat, block: Block) returns (ghost marked: seq<nat>)
      requires Topology(nodes) && origin < |nodes|
      modifies counters, nodes
      ensures Topology(nodes)
      ensures forall j :: 0 <= j < |nodes| ==> nodes[j].neighbors == old(nodes[j].neighbors)
      ensures Flooded(origin, block.id, old(Adj(nodes)), old(Holders(nodes, block.id)), old(BlockSets(nodes)), BlockSets(nodes), marked)
      ensures counters.ioRequests == old(counters.ioRequests) + SumDegrees(old(Adj(nodes)), marked)
      ensures counters.networkData == old(counters.networkData) + block.size * SumDegrees(old(Adj(nodes)), marked)
    {
      marked := Deliver(nodes, origin, block, counters);
      assert Adj(nodes) == old(Adj(nodes));
    }
  }
}
