/**
 * The coordinator's round loop (src/blocksimpy/simulation/coordinator.py):
 * termination, difficulty retargeting, the FIFO mempool batch, block
 * creation, issuance with halving, and the progress markers.
 *
 * The mining race, the wallets and the random choice of the origin node are
 * outside the model: each round's outcome arrives as a `Round` value. The
 * pure function `Run` is the reference for the loop; the class method
 * `SimulationCoordinator.Coord` is proved to follow it.
 */
module Coordinator {
  import opened Common
  import opened State
  import opened Blocks
  import opened Graph
  import opened Network
  import opened Metrics
  import opened NetworkOptimizer

  /** A mempool entry: the wallet that sent it and when. */
  datatype PoolEntry = PoolEntry(wallet: int, time: real)

  /**
   * What the rest of the simulation supplies to one round: the clock when
   * the winning miner fires, the mempool entries the wallets add while the
   * miners race, the index drawn for the origin node, and the wall clock
   * the block's timestamp reads.
   */
  datatype Round = Round(found: real, arrivals: seq<PoolEntry>, origin: nat, wallClock: real)

  /**
   * The loop's data: the simulation state, the mempool, the simulated clock
   * at the top of the loop, and, as accounting, the blocks made so far and
   * the mempool entries they confirmed.
   */
  datatype Sim = Sim(state: SimulationState, pool: seq<PoolEntry>, now: real,
                     blocks: seq<Block>, confirmed: seq<PoolEntry>)

  /** Where the loop ends: its data, and whether a termination test fired. */
  datatype Outcome = Outcome(sim: Sim, finished: bool)

  /** The issuance part of the state. */
  datatype Economy = Economy(blockCount: int, reward: real, halvings: int, coins: real)

  predicate HasTx(cfg: Settings)
  {
    cfg.txPerWallet > 0
  }

  function TotalNeeded(cfg: Settings): int
  {
    cfg.wallets * cfg.txPerWallet
  }

  /**
   * The termination tests: a block limit, when set, decides alone; the
   * all-transactions test applies only without one.
   */
  predicate Finished(cfg: Settings, s: SimulationState)
  {
    || (cfg.blocksLimit.Some? && s.blockCount >= cfg.blocksLimit.value)
    || (cfg.blocksLimit.None? && HasTx(cfg) && TotalNeeded(cfg) > 0 && s.poolProcessed >= TotalNeeded(cfg))
  }

  /** The retarget test: only a derived difficulty is retargeted, once the window is full. */
  predicate RetargetDue(cfg: Settings, s: SimulationState)
  {
    cfg.difficulty.None? && s.blocksSinceAdjustment >= cfg.retargetInterval
  }

  /** The observed average block time of the window ending at `now`. */
  function WindowAverage(cfg: Settings, s: SimulationState, now: real): real
  {
    if s.blocksSinceAdjustment != 0
    then (now - s.lastAdjustmentTime) / s.blocksSinceAdjustment as real
    else cfg.blocktime
  }

  /**
   * Retargeting at clock `now`: the difficulty is scaled by target over
   * observed average (by 1 when the average is not positive) and the window
   * restarts at `now`.
   */
  function Retarget(cfg: Settings, s: SimulationState, now: real): (s': SimulationState)
    ensures !RetargetDue(cfg, s) ==> s' == s
    ensures RetargetDue(cfg, s) ==>
      && s'.lastAdjustmentTime == now && s'.blocksSinceAdjustment == 0
      && (WindowAverage(cfg, s, now) > 0.0 ==> s'.difficulty * WindowAverage(cfg, s, now) == s.difficulty * cfg.blocktime)
      && (WindowAverage(cfg, s, now) <= 0.0 ==> s'.difficulty == s.difficulty)
      && s' == s.(difficulty := s'.difficulty, lastAdjustmentTime := now, blocksSinceAdjustment := 0)
  {
    if RetargetDue(cfg, s) then
      var average := WindowAverage(cfg, s, now);
      var factor := if average > 0.0 then cfg.blocktime / average else 1.0;
      s.(difficulty := s.difficulty * factor, lastAdjustmentTime := now, blocksSinceAdjustment := 0)
    else
      s
  }

  /** `halvings < max_halvings`, with no cap as infinity. */
  predicate BelowCap(cap: Option<int>, halvings: int)
  {
    cap.None? || halvings < cap.value
  }

  /** The halvings never exceed the cap. */
  predicate WithinCap(cap: Option<int>, e: Economy)
  {
    cap.Some? ==> e.halvings <= cap.value
  }

  predicate HalvingDue(interval: int, cap: Option<int>, e: Economy)
  {
    interval > 0 && e.blockCount % interval == 0 && BelowCap(cap, e.halvings)
  }

  /**
   * Issuance for the block just counted: the reward is minted while below
   * the cap; at a multiple of the halving interval the halvings grow by one
   * and the reward halves, or drops to 0 once the cap is reached.
   */
  function Mint(interval: int, cap: Option<int>, e: Economy): (e': Economy)
    ensures e'.blockCount == e.blockCount
    ensures e'.coins == e.coins + (if BelowCap(cap, e.halvings) then e.reward else 0.0)
    ensures HalvingDue(interval, cap, e) ==>
      && e'.halvings == e.halvings + 1
      && e'.reward == (if BelowCap(cap, e'.halvings) then e.reward / 2.0 else 0.0)
    ensures !HalvingDue(interval, cap, e) ==> e'.halvings == e.halvings && e'.reward == e.reward
    ensures WithinCap(cap, e) ==> WithinCap(cap, e')
    ensures cap.Some? && e'.halvings == cap.value && e'.halvings != e.halvings ==> e'.reward == 0.0
  {
    var coins := if BelowCap(cap, e.halvings) then e.coins + e.reward else e.coins;
    if HalvingDue(interval, cap, e) then
      var halvings := e.halvings + 1;
      Economy(e.blockCount, if BelowCap(cap, halvings) then e.reward / 2.0 else 0.0, halvings, coins)
    else
      e.(coins := coins)
  }

  /** Issuance over the next `n` blocks. */
  function Issue(interval: int, cap: Option<int>, e: Economy, n: nat): Economy
    decreases n
  {
    if n == 0 then e
    else Issue(interval, cap, Mint(interval, cap, e.(blockCount := e.blockCount + 1)), n - 1)
  }

  /** Issuance over `m + n` blocks is issuance over `m`, then over `n`. */
  lemma {:induction false} IssueSplit(interval: int, cap: Option<int>, e: Economy, m: nat, n: nat)
    ensures Issue(interval, cap, e, m + n) == Issue(interval, cap, Issue(interval, cap, e, m), n)
    decreases m
  {
    if m > 0 {
      IssueSplit(interval, cap, Mint(interval, cap, e.(blockCount := e.blockCount + 1)), m - 1, n);
    }
  }

  /** Issuance keeps the block count in step and never passes the cap. */
  lemma {:induction false} IssueKeepsCap(interval: int, cap: Option<int>, e: Economy, n: nat)
    requires WithinCap(cap, e)
    ensures WithinCap(cap, Issue(interval, cap, e, n))
    ensures Issue(interval, cap, e, n).blockCount == e.blockCount + n
    decreases n
  {
    if n > 0 {
      IssueKeepsCap(interval, cap, Mint(interval, cap, e.(blockCount := e.blockCount + 1)), n - 1);
    }
  }

  /** Block number `c` is a halving boundary. */
  predicate Boundary(interval: int, c: int)
  {
    interval > 0 && c % interval == 0
  }

  /**
   * Between halving boundaries every block mints the same reward: with no
   * boundary among the next `n` block numbers, the coins grow by `n`
   * rewards and nothing else but the count changes.
   */
  lemma {:induction false} IssueFlat(interval: int, cap: Option<int>, e: Economy, n: nat)
    requires BelowCap(cap, e.halvings)
    requires forall c :: e.blockCount < c <= e.blockCount + n ==> !Boundary(interval, c)
    ensures Issue(interval, cap, e, n)
      == Economy(e.blockCount + n, e.reward, e.halvings, e.coins + n as real * e.reward)
    decreases n
  {
    if n > 0 {
      assert !Boundary(interval, e.blockCount + 1);
      var e1 := Mint(interval, cap, e.(blockCount := e.blockCount + 1));
      assert e1 == Economy(e.blockCount + 1, e.reward, e.halvings, e.coins + e.reward);
      IssueFlat(interval, cap, e1, n - 1);
    }
  }

  /** A block at a halving boundary below the cap mints the reward, then halves it. */
  lemma IssueBoundary(interval: int, cap: Option<int>, e: Economy)
    requires Boundary(interval, e.blockCount + 1) && BelowCap(cap, e.halvings)
    ensures Issue(interval, cap, e, 1) == Economy(e.blockCount + 1,
      if BelowCap(cap, e.halvings + 1) then e.reward / 2.0 else 0.0, e.halvings + 1, e.coins + e.reward)
  {
  }

  /** No block number strictly between two consecutive multiples of 10 is a boundary of interval 10. */
  lemma NoTensBoundary(lo: int)
    requires lo % 10 == 0
    ensures forall c :: lo < c < lo + 10 ==> !Boundary(10, c)
  {
    forall c | lo < c < lo + 10 ensures !Boundary(10, c) {
      assert c == lo + (c - lo) && 0 < c - lo < 10;
    }
  }

  /**
   * Twenty-five blocks with reward 50, halving every 10 blocks and at most
   * 3 halvings issue 500 + 250 + 62.5 = 812.5 coins.
   */
  lemma Issue812()
    ensures Issue(10, Some(3), Economy(0, 50.0, 0, 0.0), 25).coins == 812.5
  {
    var e0 := Economy(0, 50.0, 0, 0.0);
    NoTensBoundary(0);
    IssueFlat(10, Some(3), e0, 9);
    IssueBoundary(10, Some(3), Economy(9, 50.0, 0, 450.0));
    IssueSplit(10, Some(3), e0, 9, 1);
    var e10 := Economy(10, 25.0, 1, 500.0);
    assert Issue(10, Some(3), e0, 10) == e10;
    NoTensBoundary(10);
    IssueFlat(10, Some(3), e10, 9);
    IssueBoundary(10, Some(3), Economy(19, 25.0, 1, 725.0));
    IssueSplit(10, Some(3), e10, 9, 1);
    IssueSplit(10, Some(3), e0, 10, 10);
    var e20 := Economy(20, 12.5, 2, 750.0);
    assert Issue(10, Some(3), e0, 20) == e20;
    NoTensBoundary(20);
    IssueFlat(10, Some(3), e20, 5);
    IssueSplit(10, Some(3), e0, 20, 5);
  }

  /** The issuance fields of a state. */
  function Econ(s: SimulationState): (e: Economy)
    ensures e.blockCount == s.blockCount && e.reward == s.reward
    ensures e.halvings == s.halvings && e.coins == s.totalCoins
  {
    Economy(s.blockCount, s.reward, s.halvings, s.totalCoins)
  }

  /** The state with its issuance fields taken from `e`. */
  function WithEcon(s: SimulationState, e: Economy): (s': SimulationState)
    requires e.blockCount == s.blockCount
    ensures Econ(s') == e
    ensures s' == s.(reward := e.reward, halvings := e.halvings, totalCoins := e.coins)
  {
    s.(reward := e.reward, halvings := e.halvings, totalCoins := e.coins)
  }

  /** The progress test: a summary is due outside debug mode at every `print_interval`-th block. */
  predicate SummaryDue(cfg: Settings, s: SimulationState)
    requires cfg.debug || cfg.printInterval != 0
  {
    !cfg.debug && s.blockCount % cfg.printInterval == 0
  }

  /** The progress markers move to the current clock, count, transactions and coins when a summary is due. */
  function Markers(cfg: Settings, s: SimulationState, now: real): (s': SimulationState)
    requires cfg.debug || cfg.printInterval != 0
    ensures !SummaryDue(cfg, s) ==> s' == s
    ensures SummaryDue(cfg, s) ==>
      && s'.lastT == now && s'.lastB == s.blockCount && s'.lastTx == s.totalTx && s'.lastCoins == s.totalCoins
      && s' == s.(lastT := s'.lastT, lastB := s'.lastB, lastTx := s'.lastTx, lastCoins := s'.lastCoins)
  {
    if SummaryDue(cfg, s) then s.(lastT := now, lastB := s.blockCount, lastTx := s.totalTx, lastCoins := s.totalCoins)
    else s
  }

  /** The batch size: up to a block's worth of the mempool, 0 without transactions. */
  function Take(cfg: Settings, avail: nat): (take: int)
    ensures take <= avail
    ensures HasTx(cfg) && cfg.blockSize >= 0 ==> 0 <= take <= avail && take <= cfg.blockSize
    ensures HasTx(cfg) && cfg.blockSize >= 0 ==> (take == avail || take == cfg.blockSize)
    ensures !HasTx(cfg) ==> take == 0
  {
    if !HasTx(cfg) then 0
    else if avail < cfg.blockSize then avail else cfg.blockSize
  }

  /** How many entries leave the mempool: the batch size, when positive. */
  function Popped(take: int): nat
  {
    if take > 0 then take else 0
  }

  /**
   * The state after retargeting, counting the new block and charging its
   * batch of `take` entries plus one coinbase, before issuance.
   */
  function Counted(cfg: Settings, s: SimulationState, now: real, found: real, take: int): SimulationState
  {
    var s1 := Retarget(cfg, s, now);
    s1.(lastBlockTime := found, blockCount := s1.blockCount + 1,
        blocksSinceAdjustment := s1.blocksSinceAdjustment + 1,
        poolProcessed := s1.poolProcessed + take, totalTx := s1.totalTx + take + 1)
  }

  /** The state after issuance for the block just counted. */
  function Minted(cfg: Settings, s: SimulationState): SimulationState
  {
    WithEcon(s, Mint(cfg.halvingInterval, cfg.maxHalvings, Econ(s)))
  }

  /** One pass of the loop body, after the termination tests let it through. */
  function Step(cfg: Settings, sim: Sim, r: Round): (next: Sim)
    requires cfg.debug || cfg.printInterval != 0
  {
    var avail := sim.pool + r.arrivals;
    var take := Take(cfg, |avail|);
    var popped := Popped(take);
    var block := NewBlock(sim.state.blockCount + 1, take + 1, r.found - sim.state.lastBlockTime, None, r.wallClock);
    var s3 := Counted(cfg, sim.state, sim.now, r.found, take);
    Sim(Markers(cfg, Minted(cfg, s3), r.found), avail[popped..], r.found, sim.blocks + [block], sim.confirmed + avail[..popped])
  }

  /** The loop over the rounds supplied, until a termination test fires or the rounds run out. */
  function Run(cfg: Settings, sim: Sim, rounds: seq<Round>): Outcome
    requires cfg.debug || cfg.printInterval != 0
    decreases |rounds|
  {
    if Finished(cfg, sim.state) then Outcome(sim, true)
    else if rounds == [] then Outcome(sim, false)
    else Run(cfg, Step(cfg, sim, rounds[0]), rounds[1..])
  }

  /** The loop's data before the first round. */
  function Start(cfg: Settings, totalHashrate: real, pool: seq<PoolEntry>): (sim: Sim)
    ensures sim.state == FromConfig(cfg, totalHashrate) && sim.pool == pool
    ensures sim.now == 0.0 && sim.blocks == [] && sim.confirmed == []
  {
    Sim(FromConfig(cfg, totalHashrate), pool, 0.0, [], [])
  }

  /** The mempool entries added during `rounds`, in order. */
  function Arrivals(rounds: seq<Round>): seq<PoolEntry>
  {
    if rounds == [] then [] else Arrivals(rounds[..|rounds| - 1]) + rounds[|rounds| - 1].arrivals
  }

  lemma ArrivalsAppend(done: seq<Round>, r: Round)
    ensures Arrivals(done + [r]) == Arrivals(done) + r.arrivals
  {
    assert (done + [r])[..|done|] == done;
  }

  /**
   * What the loop keeps between a start `base` (no blocks yet) and `sim`,
   * reached after the rounds `done`: one block per round, numbered on from
   * the start; the confirmed entries followed by the mempool are the
   * starting mempool followed by the arrivals; issuance follows `Issue`; a
   * fixed difficulty stays put; a block limit the start respects is never
   * passed; and, for a non-negative block size, the processed count and the
   * transaction total count the confirmed entries (plus one coinbase per
   * block).
   */
  ghost predicate Progress(cfg: Settings, base: Sim, done: seq<Round>, sim: Sim)
  {
    && base.blocks == [] && base.confirmed == []
    && |sim.blocks| == |done|
    && sim.state.blockCount == base.state.blockCount + |done|
    && (forall k :: 0 <= k < |sim.blocks| ==> sim.blocks[k].id == base.state.blockCount + k + 1)
    && sim.confirmed + sim.pool == base.pool + Arrivals(done)
    && Econ(sim.state) == Issue(cfg.halvingInterval, cfg.maxHalvings, Econ(base.state), |done|)
    && (cfg.difficulty.Some? ==> sim.state.difficulty == base.state.difficulty)
    && (cfg.blocksLimit.Some? && base.state.blockCount <= cfg.blocksLimit.value ==>
          sim.state.blockCount <= cfg.blocksLimit.value)
    && (cfg.blockSize >= 0 ==>
          && sim.state.poolProcessed == base.state.poolProcessed + |sim.confirmed|
          && sim.state.totalTx == base.state.totalTx + |done| + |sim.confirmed|)
  }

  lemma StepIds(cfg: Settings, base: Sim, done: seq<Round>, sim: Sim, r: Round)
    requires cfg.debug || cfg.printInterval != 0
    requires Progress(cfg, base, done, sim)
    ensures var next := Step(cfg, sim, r);
      && |next.blocks| == |done| + 1
      && next.state.blockCount == base.state.blockCount + |done| + 1
      && forall k :: 0 <= k < |next.blocks| ==> next.blocks[k].id == base.state.blockCount + k + 1
  {
  }

  /** A round moves the oldest entries of the mempool, its arrivals included, to the confirmed ones. */
  lemma StepQueue(cfg: Settings, sim: Sim, r: Round)
    requires cfg.debug || cfg.printInterval != 0
    ensures var avail := sim.pool + r.arrivals;
      var popped := Popped(Take(cfg, |avail|));
      && Step(cfg, sim, r).confirmed == sim.confirmed + avail[..popped]
      && Step(cfg, sim, r).pool == avail[popped..]
  {
  }

  lemma StepPool(cfg: Settings, base: Sim, done: seq<Round>, sim: Sim, r: Round)
    requires cfg.debug || cfg.printInterval != 0
    requires sim.confirmed + sim.pool == base.pool + Arrivals(done)
    ensures var next := Step(cfg, sim, r);
      next.confirmed + next.pool == base.pool + Arrivals(done + [r])
  {
    StepQueue(cfg, sim, r);
    ArrivalsAppend(done, r);
    SplitQueue(sim.confirmed, sim.pool + r.arrivals, Popped(Take(cfg, |sim.pool + r.arrivals|)));
    assert sim.confirmed + (sim.pool + r.arrivals) == (sim.confirmed + sim.pool) + r.arrivals;
  }

  lemma SplitQueue<T>(done: seq<T>, avail: seq<T>, n: nat)
    requires n <= |avail|
    ensures (done + avail[..n]) + avail[n..] == done + avail
  {
    assert avail[..n] + avail[n..] == avail;
  }

  lemma StepEcon(cfg: Settings, base: Sim, done: seq<Round>, sim: Sim, r: Round)
    requires cfg.debug || cfg.printInterval != 0
    requires Progress(cfg, base, done, sim)
    ensures Econ(Step(cfg, sim, r).state) == Issue(cfg.halvingInterval, cfg.maxHalvings, Econ(base.state), |done| + 1)
  {
    var e := Econ(base.state);
    IssueSplit(cfg.halvingInterval, cfg.maxHalvings, e, |done|, 1);
  }

  lemma StepCounts(cfg: Settings, base: Sim, done: seq<Round>, sim: Sim, r: Round)
    requires cfg.debug || cfg.printInterval != 0
    requires Progress(cfg, base, done, sim) && cfg.blockSize >= 0
    ensures var next := Step(cfg, sim, r);
      && next.state.poolProcessed == base.state.poolProcessed + |next.confirmed|
      && next.state.totalTx == base.state.totalTx + |done| + 1 + |next.confirmed|
  {
  }

  lemma StepProgress(cfg: Settings, base: Sim, done: seq<Round>, sim: Sim, r: Round)
    requires cfg.debug || cfg.printInterval != 0
    requires Progress(cfg, base, done, sim) && !Finished(cfg, sim.state)
    ensures Progress(cfg, base, done + [r], Step(cfg, sim, r))
  {
    StepIds(cfg, base, done, sim, r);
    StepPool(cfg, base, done, sim, r);
    StepEcon(cfg, base, done, sim, r);
    if cfg.blockSize >= 0 {
      StepCounts(cfg, base, done, sim, r);
    }
  }

  /** The loop keeps `Progress`; it ends finished exactly when a test fired, and otherwise uses every round. */
  lemma {:induction false} RunProgress(cfg: Settings, base: Sim, done: seq<Round>, sim: Sim, rounds: seq<Round>)
    requires cfg.debug || cfg.printInterval != 0
    requires Progress(cfg, base, done, sim)
    ensures var out := Run(cfg, sim, rounds);
      var m := |out.sim.blocks| - |done|;
      && 0 <= m <= |rounds|
      && Progress(cfg, base, done + rounds[..m], out.sim)
      && (out.finished <==> Finished(cfg, out.sim.state))
      && (!out.finished ==> m == |rounds|)
    decreases |rounds|
  {
    if Finished(cfg, sim.state) || rounds == [] {
      assert done + rounds[..0] == done;
    } else {
      var next := Step(cfg, sim, rounds[0]);
      StepProgress(cfg, base, done, sim, rounds[0]);
      RunProgress(cfg, base, done + [rounds[0]], next, rounds[1..]);
      ConsumedSplit(done, rounds, |Run(cfg, next, rounds[1..]).sim.blocks| - |done| - 1);
    }
  }

  lemma ConsumedSplit(done: seq<Round>, rounds: seq<Round>, m: nat)
    requires m < |rounds|
    ensures (done + [rounds[0]]) + rounds[1..][..m] == done + rounds[..m + 1]
  {
    assert rounds[..m + 1] == [rounds[0]] + rounds[1..][..m];
  }

  /** The start, with the rounds played so far, satisfies `Progress` trivially. */
  lemma StartProgress(cfg: Settings, totalHashrate: real, pool: seq<PoolEntry>)
    ensures Progress(cfg, Start(cfg, totalHashrate, pool), [], Start(cfg, totalHashrate, pool))
  {
    assert Start(cfg, totalHashrate, pool).confirmed + pool == pool + Arrivals([]);
  }

  /** Blocks are numbered 1, 2, ..., up to the final block count, one per round played. */
  lemma RunBlockIds(cfg: Settings, totalHashrate: real, pool: seq<PoolEntry>, rounds: seq<Round>)
    requires cfg.debug || cfg.printInterval != 0
    ensures var out := Run(cfg, Start(cfg, totalHashrate, pool), rounds).sim;
      && out.state.blockCount == |out.blocks| <= |rounds|
      && forall k :: 0 <= k < |out.blocks| ==> out.blocks[k].id == k + 1
  {
    StartProgress(cfg, totalHashrate, pool);
    RunProgress(cfg, Start(cfg, totalHashrate, pool), [], Start(cfg, totalHashrate, pool), rounds);
  }

  /**
   * The mempool is first in, first out: the entries confirmed, followed by
   * those left, are the starting mempool followed by every arrival, in order.
   */
  lemma RunMempoolFifo(cfg: Settings, totalHashrate: real, pool: seq<PoolEntry>, rounds: seq<Round>)
    requires cfg.debug || cfg.printInterval != 0
    ensures var out := Run(cfg, Start(cfg, totalHashrate, pool), rounds).sim;
      && |out.blocks| <= |rounds|
      && out.confirmed + out.pool == pool + Arrivals(rounds[..|out.blocks|])
  {
    StartProgress(cfg, totalHashrate, pool);
    RunProgress(cfg, Start(cfg, totalHashrate, pool), [], Start(cfg, totalHashrate, pool), rounds);
    var out := Run(cfg, Start(cfg, totalHashrate, pool), rounds).sim;
    assert [] + rounds[..|out.blocks|] == rounds[..|out.blocks|];
  }

  /**
   * With a non-negative block size, the processed count is the number of
   * entries confirmed and the transaction total adds one coinbase per
   * block, so it is at least the block count.
   */
  lemma RunTxCount(cfg: Settings, totalHashrate: real, pool: seq<PoolEntry>, rounds: seq<Round>)
    requires cfg.debug || cfg.printInterval != 0
    requires cfg.blockSize >= 0
    ensures var out := Run(cfg, Start(cfg, totalHashrate, pool), rounds).sim;
      && out.state.poolProcessed == |out.confirmed|
      && out.state.totalTx == |out.blocks| + |out.confirmed|
      && out.state.totalTx >= out.state.blockCount
  {
    StartProgress(cfg, totalHashrate, pool);
    RunProgress(cfg, Start(cfg, totalHashrate, pool), [], Start(cfg, totalHashrate, pool), rounds);
  }

  /**
   * Issuance over the run is `Issue` from the configured reward, block by
   * block; with a non-negative cap the halvings never exceed it.
   */
  lemma RunIssuance(cfg: Settings, totalHashrate: real, pool: seq<PoolEntry>, rounds: seq<Round>)
    requires cfg.debug || cfg.printInterval != 0
    ensures var out := Run(cfg, Start(cfg, totalHashrate, pool), rounds).sim;
      && Econ(out.state) == Issue(cfg.halvingInterval, cfg.maxHalvings, Economy(0, cfg.initialReward, 0, 0.0), |out.blocks|)
      && (cfg.maxHalvings.Some? && cfg.maxHalvings.value >= 0 ==> out.state.halvings <= cfg.maxHalvings.value)
  {
    var start := Start(cfg, totalHashrate, pool);
    StartProgress(cfg, totalHashrate, pool);
    RunProgress(cfg, start, [], start, rounds);
    assert Econ(start.state) == Economy(0, cfg.initialReward, 0, 0.0);
    if cfg.maxHalvings.Some? && cfg.maxHalvings.value >= 0 {
      var out := Run(cfg, start, rounds).sim;
      IssueKeepsCap(cfg.halvingInterval, cfg.maxHalvings, Econ(start.state), |out.blocks|);
    }
  }

  /** Twenty-five blocks at reward 50, halving every 10 with at most 3 halvings, issue 812.5 coins. */
  lemma Run812(cfg: Settings, totalHashrate: real, pool: seq<PoolEntry>, rounds: seq<Round>)
    requires cfg.debug || cfg.printInterval != 0
    requires cfg.initialReward == 50.0 && cfg.halvingInterval == 10 && cfg.maxHalvings == Some(3)
    requires |Run(cfg, Start(cfg, totalHashrate, pool), rounds).sim.blocks| == 25
    ensures Run(cfg, Start(cfg, totalHashrate, pool), rounds).sim.state.totalCoins == 812.5
  {
    RunIssuance(cfg, totalHashrate, pool, rounds);
    Issue812();
  }

  /**
   * With a block limit, the run never passes it, ends finished exactly when
   * the count reaches it, and does reach it when enough rounds are played.
   */
  lemma RunLimit(cfg: Settings, totalHashrate: real, pool: seq<PoolEntry>, rounds: seq<Round>)
    requires cfg.debug || cfg.printInterval != 0
    requires cfg.blocksLimit.Some? && cfg.blocksLimit.value >= 0
    ensures var out := Run(cfg, Start(cfg, totalHashrate, pool), rounds);
      && out.sim.state.blockCount <= cfg.blocksLimit.value
      && (out.finished <==> out.sim.state.blockCount == cfg.blocksLimit.value)
      && (|rounds| >= cfg.blocksLimit.value ==> out.finished)
  {
    StartProgress(cfg, totalHashrate, pool);
    RunProgress(cfg, Start(cfg, totalHashrate, pool), [], Start(cfg, totalHashrate, pool), rounds);
  }

  /**
   * The run ends finished exactly when a termination test holds; without a
   * block limit that is when every wallet transaction has been processed.
   */
  lemma RunTermination(cfg: Settings, totalHashrate: real, pool: seq<PoolEntry>, rounds: seq<Round>)
    requires cfg.debug || cfg.printInterval != 0
    ensures var out := Run(cfg, Start(cfg, totalHashrate, pool), rounds);
      && (out.finished <==> Finished(cfg, out.sim.state))
      && (cfg.blocksLimit.None? ==>
            (out.finished <==> HasTx(cfg) && TotalNeeded(cfg) > 0 && out.sim.state.poolProcessed >= TotalNeeded(cfg)))
      && (!out.finished ==> |out.sim.blocks| == |rounds|)
  {
    StartProgress(cfg, totalHashrate, pool);
    RunProgress(cfg, Start(cfg, totalHashrate, pool), [], Start(cfg, totalHashrate, pool), rounds);
  }

  /** A configured difficulty is never retargeted. */
  lemma RunFixedDifficulty(cfg: Settings, totalHashrate: real, pool: seq<PoolEntry>, rounds: seq<Round>)
    requires cfg.debug || cfg.printInterval != 0
    requires cfg.difficulty.Some?
    ensures Run(cfg, Start(cfg, totalHashrate, pool), rounds).sim.state.difficulty == cfg.difficulty.value
  {
    StartProgress(cfg, totalHashrate, pool);
    RunProgress(cfg, Start(cfg, totalHashrate, pool), [], Start(cfg, totalHashrate, pool), rounds);
  }

  /**
   * The coordinator: configuration, metrics, the mempool and the final
   * results it publishes.
   */
  class SimulationCoordinator {
    const config: Settings
    const metrics: SimulationMetrics
    var finalSimulatedTime: real
    var finalBlocks: int
    var totalTx: int
    var totalCoins: real
    var pool: seq<PoolEntry>
    var networkOptimizer: NetworkPropagationOptimizer?

    constructor (config: Settings)
      ensures this.config == config && fresh(metrics)
      ensures metrics.networkData == 0 && metrics.ioRequests == 0 && metrics.inflationRate == 0.0
      ensures finalSimulatedTime == 0.0 && finalBlocks == 0 && totalTx == 0 && totalCoins == 0.0
      ensures pool == [] && networkOptimizer == null
    {
      this.config := config;
      metrics := new SimulationMetrics();
      finalSimulatedTime := 0.0;
      finalBlocks := 0;
      totalTx := 0;
      totalCoins := 0.0;
      pool := [];
      networkOptimizer := null;
    }

    /**
     * The main loop over the rounds supplied: it stops when a termination
     * test fires (or the rounds run out), then finalizes the metrics and
     * publishes the totals. Its state follows `Run` from `Start`.
     */
    method Coord(nodes: seq<Node>, totalHashrate: real, rounds: seq<Round>) returns (finished: bool)
      requires config.debug || config.printInterval != 0
      requires Topology(nodes) && |nodes| > 0
      requires forall k :: 0 <= k < |rounds| ==> rounds[k].origin < |nodes|
      modifies this, metrics, nodes
      ensures var out := Run(config, Start(config, totalHashrate, old(pool)), rounds);
        && finished == out.finished
        && pool == out.sim.pool
        && totalTx == out.sim.state.totalTx && totalCoins == out.sim.state.totalCoins
        && finalSimulatedTime == out.sim.now && finalBlocks == out.sim.state.blockCount
        && metrics.finalSimulatedTime == out.sim.now && metrics.finalBlocks == out.sim.state.blockCount
        && metrics.avgBlockTime == AvgBlockTime(out.sim.now, out.sim.state.blockCount)
        && metrics.transactionsPerSecond == TransactionsPerSecond(out.sim.state.totalTx, out.sim.now)
        && metrics.inflationRate == InflationRate(old(metrics.inflationRate), out.sim.state.blockCount, out.sim.now,
                                                  out.sim.state.totalCoins, out.sim.state.lastCoins, out.sim.state.lastT)
      ensures forall j :: 0 <= j < |nodes| ==> nodes[j].neighbors == old(nodes[j].neighbors)
    {
      BuildOptimizer(nodes);
      var state := FromConfig(config, totalHashrate);
      ghost var start := Start(config, totalHashrate, pool);
      assert start == Start(config, totalHashrate, old(pool));
      var now;
      ghost var sim;
      finished, state, now, sim := Loop(nodes, state, rounds, start);
      Publish(now, state);
    }

    /** Finalizes the metrics at the final clock and publishes the totals. */
    method Publish(now: real, state: SimulationState)
      modifies this`finalSimulatedTime, this`finalBlocks, this`totalTx, this`totalCoins, metrics
      ensures totalTx == state.totalTx && totalCoins == state.totalCoins
      ensures finalSimulatedTime == now && finalBlocks == state.blockCount
      ensures metrics.finalSimulatedTime == now && metrics.finalBlocks == state.blockCount
      ensures metrics.avgBlockTime == AvgBlockTime(now, state.blockCount)
      ensures metrics.transactionsPerSecond == TransactionsPerSecond(state.totalTx, now)
      ensures metrics.inflationRate == InflationRate(old(metrics.inflationRate), state.blockCount, now,
                                                     state.totalCoins, state.lastCoins, state.lastT)
    {
      metrics.Finalize(now, state.blockCount, state.totalTx, state.totalCoins, state.lastCoins, state.lastT);
      finalSimulatedTime := metrics.finalSimulatedTime;
      finalBlocks := metrics.finalBlocks;
      totalTx := state.totalTx;
      totalCoins := state.totalCoins;
    }

    /** Precomputes the breadth-first orders of every start node. */
    method BuildOptimizer(nodes: seq<Node>)
      requires Topology(nodes)
      modifies this`networkOptimizer
      ensures networkOptimizer != null && fresh(networkOptimizer)
      ensures networkOptimizer.Valid() && networkOptimizer.nodes == nodes
    {
      networkOptimizer := new NetworkPropagationOptimizer(nodes);
    }

    /** The `while True` loop: rounds until a termination test fires or the rounds run out. */
    method Loop(nodes: seq<Node>, state0: SimulationState, rounds: seq<Round>, ghost start: Sim)
      returns (finished: bool, state: SimulationState, now: real, ghost sim: Sim)
      requires config.debug || config.printInterval != 0
      requires networkOptimizer != null && networkOptimizer.Valid() && networkOptimizer.nodes == nodes
      requires Topology(nodes)
      requires forall k :: 0 <= k < |rounds| ==> rounds[k].origin < |nodes|
      requires start.state == state0 && start.pool == pool && start.now == 0.0
      modifies this`pool, metrics, nodes
      ensures Run(config, start, rounds) == Outcome(sim, finished)
      ensures sim.state == state && sim.pool == pool && sim.now == now
      ensures Topology(nodes)
      ensures forall j :: 0 <= j < |nodes| ==> nodes[j].neighbors == old(nodes[j].neighbors)
      ensures metrics.inflationRate == old(metrics.inflationRate)
    {
      state := state0;
      now := 0.0;
      sim := start;
      finished := false;
      var i := 0;
      while true
        invariant 0 <= i <= |rounds|
        invariant sim.state == state && sim.pool == pool && sim.now == now
        invariant Run(config, sim, rounds[i..]) == Run(config, start, rounds)
        invariant Topology(nodes)
        invariant forall j :: 0 <= j < |nodes| ==> nodes[j].neighbors == old(nodes[j].neighbors)
        invariant metrics.inflationRate == old(metrics.inflationRate)
        decreases |rounds| - i
      {
        if Finished(config, state) {
          finished := true;
          break;
        }
        if i == |rounds| {
          break;
        }
        assert rounds[i..][1..] == rounds[i + 1..];
        state := PlayRound(nodes, state, now, rounds[i], sim);
        sim := Step(config, sim, rounds[i]);
        now := rounds[i].found;
        i := i + 1;
      }
    }

    /**
     * One pass of the loop body: retarget, let the wallets' entries in,
     * count the new block, take the batch front first, mint, propagate the
     * block from the drawn origin and move the progress markers.
     */
    method PlayRound(nodes: seq<Node>, state: SimulationState, now: real, r: Round, ghost sim: Sim)
      returns (state': SimulationState)
      requires config.debug || config.printInterval != 0
      requires networkOptimizer != null && networkOptimizer.Valid() && networkOptimizer.nodes == nodes
      requires Topology(nodes) && r.origin < |nodes|
      requires sim.state == state && sim.pool == pool && sim.now == now
      modifies this`pool, metrics, nodes
      ensures state' == Step(config, sim, r).state && pool == Step(config, sim, r).pool
      ensures Topology(nodes)
      ensures forall j :: 0 <= j < |nodes| ==> nodes[j].neighbors == old(nodes[j].neighbors)
      ensures metrics.inflationRate == old(metrics.inflationRate)
    {
      var counted, take, block := OpenRound(state, now, r);
      state' := CloseRound(nodes, counted, block, r);
    }

    /** The first half of a round: retarget, arrivals, block count, batch, block. */
    method OpenRound(state: SimulationState, now: real, r: Round) returns (s: SimulationState, take: int, block: Block)
      modifies this`pool
      ensures take == Take(config, |old(pool) + r.arrivals|)
      ensures pool == (old(pool) + r.arrivals)[Popped(take)..]
      ensures s == Counted(config, state, now, r.found, take)
      ensures block == NewBlock(state.blockCount + 1, take + 1, r.found - state.lastBlockTime, None, r.wallClock)
    {
      s := state;
      if RetargetDue(config, s) {
        var elapsed := now - s.lastAdjustmentTime;
        var actualAvg := if s.blocksSinceAdjustment != 0 then elapsed / s.blocksSinceAdjustment as real else config.blocktime;
        var factor := if actualAvg > 0.0 then config.blocktime / actualAvg else 1.0;
        s := s.(difficulty := s.difficulty * factor, lastAdjustmentTime := now, blocksSinceAdjustment := 0);
      }
      pool := pool + r.arrivals;
      var timeSinceLast := r.found - s.lastBlockTime;
      s := s.(lastBlockTime := r.found, blockCount := s.blockCount + 1, blocksSinceAdjustment := s.blocksSinceAdjustment + 1);
      take := 0;
      if HasTx(config) {
        take := PopBatch();
      }
      s := s.(poolProcessed := s.poolProcessed + take);
      var txs := take + 1;
      block := NewBlock(s.blockCount, txs, timeSinceLast, None, r.wallClock);
      s := s.(totalTx := s.totalTx + txs);
    }

    /** The second half of a round: issuance, propagation, progress markers. */
    method CloseRound(nodes: seq<Node>, counted: SimulationState, block: Block, r: Round) returns (s: SimulationState)
      requires config.debug || config.printInterval != 0
      requires networkOptimizer != null && networkOptimizer.Valid() && networkOptimizer.nodes == nodes
      requires Topology(nodes) && r.origin < |nodes|
      modifies metrics, nodes
      ensures s == Markers(config, Minted(config, counted), r.found)
      ensures Topology(nodes)
      ensures forall j :: 0 <= j < |nodes| ==> nodes[j].neighbors == old(nodes[j].neighbors)
      ensures var order := StoredOrder(networkOptimizer.propagationMap, r.origin);
        var newly := NewNodes(order, old(Holders(nodes, block.id)));
        && Replayed(order, block.id, old(BlockSets(nodes)), BlockSets(nodes))
        && (forall k :: 0 <= k < |newly| ==> newly[k] < |nodes|)
        && metrics.ioRequests == old(metrics.ioRequests) + SumDegrees(old(Adj(nodes)), newly)
        && metrics.networkData == old(metrics.networkData) + block.size * SumDegrees(old(Adj(nodes)), newly)
      ensures metrics.inflationRate == old(metrics.inflationRate)
    {
      s := MintReward(counted);
      Propagate(nodes, block, r.origin);
      if !config.debug && s.blockCount % config.printInterval == 0 {
        s := s.(lastT := r.found, lastB := s.blockCount, lastTx := s.totalTx, lastCoins := s.totalCoins);
      }
    }

    /** Issuance: the reward while below the cap, then the halving at a boundary block. */
    method MintReward(counted: SimulationState) returns (s: SimulationState)
      ensures s == Minted(config, counted)
    {
      s := counted;
      if BelowCap(config.maxHalvings, s.halvings) {
        s := s.(totalCoins := s.totalCoins + s.reward);
      }
      if config.halvingInterval > 0 && s.blockCount % config.halvingInterval == 0 && BelowCap(config.maxHalvings, s.halvings) {
        var halvings := s.halvings + 1;
        s := s.(halvings := halvings, reward := if BelowCap(config.maxHalvings, halvings) then s.reward / 2.0 else 0.0);
      }
    }

    /** Removes a block's worth of entries from the front of the mempool; returns the batch size. */
    method PopBatch() returns (take: int)
      requires HasTx(config)
      modifies this`pool
      ensures take == Take(config, |old(pool)|)
      ensures pool == old(pool)[Popped(take)..]
    {
      var avail := |pool|;
      take := if avail < config.blockSize then avail else config.blockSize;
      var popped := if take > 0 then take else 0;
      for j := 0 to popped
        invariant pool == old(pool)[j..]
      {
        pool := pool[1..];
      }
    }

    /** Sends the block through the network from node `origin` along its stored order. */
    method Propagate(nodes: seq<Node>, block: Block, origin: nat)
      requires networkOptimizer != null && networkOptimizer.Valid() && networkOptimizer.nodes == nodes
      requires Topology(nodes) && origin < |nodes|
      modifies metrics, nodes
      ensures Topology(nodes)
      ensures forall j :: 0 <= j < |nodes| ==> nodes[j].neighbors == old(nodes[j].neighbors)
      ensures var order := StoredOrder(networkOptimizer.propagationMap, origin);
        var newly := NewNodes(order, old(Holders(nodes, block.id)));
        && Replayed(order, block.id, old(BlockSets(nodes)), BlockSets(nodes))
        && (forall k :: 0 <= k < |newly| ==> newly[k] < |nodes|)
        && metrics.ioRequests == old(metrics.ioRequests) + SumDegrees(old(Adj(nodes)), newly)
        && metrics.networkData == old(metrics.networkData) + block.size * SumDegrees(old(Adj(nodes)), newly)
      ensures metrics.inflationRate == old(metrics.inflationRate)
    {
      networkOptimizer.PropagateBlock(block, nodes[origin], metrics);
      assert Adj(nodes) == old(Adj(nodes));
    }
  }
}
