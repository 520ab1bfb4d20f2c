/**
 * The run's configuration values and the serialisable simulation state
 * (src/blocksimpy/simulation/state.py).
 */
module State {
  import opened Common

  /** The configuration entries the coordinator reads, already resolved. */
  datatype Settings = Settings(
    blocktime: real,            // mining.blocktime, the target block time
    difficulty: Option<real>,   // mining.difficulty; None = derived and retargeted
    blocksLimit: Option<int>,   // simulation.blocks; None = no limit
    blockSize: int,             // mining.blocksize, transactions per block
    printInterval: int,         // simulation.print_interval
    debug: bool,                // simulation.debug
    wallets: int,               // transactions.wallets
    txPerWallet: int,           // transactions.transactions_per_wallet
    initialReward: real,        // economics.initial_reward
    halvingInterval: int,       // economics.halving_interval; 0 disables halving
    retargetInterval: int,      // mining.retarget_interval (2016 when absent)
    maxHalvings: Option<int>)   // economics.max_halvings; None = unbounded

  datatype SimulationState = SimulationState(
    blockCount: int,
    lastBlockTime: real,
    difficulty: real,
    lastAdjustmentTime: real,
    blocksSinceAdjustment: int,
    reward: real,
    halvings: int,
    totalCoins: real,
    totalTx: int,
    poolProcessed: int,
    lastT: real,
    lastB: int,
    lastTx: int,
    lastCoins: real)

  /** Every counter and progress marker is zero. */
  predicate NoProgress(s: SimulationState)
  {
    && s.blockCount == 0 && s.lastBlockTime == 0.0
    && s.lastAdjustmentTime == 0.0 && s.blocksSinceAdjustment == 0
    && s.halvings == 0 && s.totalCoins == 0.0 && s.totalTx == 0 && s.poolProcessed == 0
    && s.lastT == 0.0 && s.lastB == 0 && s.lastTx == 0 && s.lastCoins == 0.0
  }

  /** The dataclass defaults. */
  function DefaultState(): (s: SimulationState)
    ensures NoProgress(s) && s.difficulty == 0.0 && s.reward == 50.0
  {
    SimulationState(0, 0.0, 0.0, 0.0, 0, 50.0, 0, 0.0, 0, 0, 0.0, 0, 0, 0.0)
  }

  /**
   * `from_config`: the configured difficulty, or block time times total
   * hashrate when none is configured; the configured initial reward.
   */
  function FromConfig(cfg: Settings, totalHashrate: real): (s: SimulationState)
    ensures cfg.difficulty.Some? ==> s.difficulty == cfg.difficulty.value
    ensures cfg.difficulty.None? ==> s.difficulty == cfg.blocktime * totalHashrate
    ensures s.reward == cfg.initialReward
    ensures NoProgress(s)
  {
    var difficulty := if cfg.difficulty.Some? then cfg.difficulty.value else cfg.blocktime * totalHashrate;
    DefaultState().(difficulty := difficulty, reward := cfg.initialReward)
  }
}
