# blocksimpy: a verified model of the simulator's bookkeeping

blocksimpy is a discrete-event blockchain simulator. Miners race to find
blocks, and each found block is propagated through a peer network. The
coordinator then confirms a batch of mempool transactions, issues the block
reward under a halving schedule, retargets the difficulty and keeps the
run's metrics. This project models that per-block bookkeeping in Dafny and
proves what the code promises about it. The race itself, the random draws
and the clock become inputs.

What is modelled, by module:

| module | file | models |
|---|---|---|
| `Common` | common.dfy | `Option`, `Result`, and Python's truncating `int()` of a float |
| `Formatting` | formatting.dfy | the `HEADER_SIZE` and `YEAR` constants |
| `Blocks` | block.dfy | the `Block` constructor and its size formula |
| `BlockCheck` | block_check.dfy | `calculate_expected_blocks`, `validate_blocks_count`, `validate_configuration` |
| `State` | state.dfy | `SimulationState` and `from_config` |
| `Metrics` | metrics.dfy | `SimulationMetrics`: `record_network_io`, `finalize`, `to_dict` |
| `Consensus` | consensus.dfy | the block-found event that a stake or space producer fires once |
| `ProofOfStake` | pos.dfy | `get_weight` and `select_validator`, with the draw as a parameter |
| `ProofOfSpace` | pospace.dfy | `get_weight` and `select_farmer`; `random.choices` is a bisection over the cumulative weights, with the draw as a parameter |
| `Graph` | graph.dfy | neighbour lists indexed by node id, and reachability |
| `Bfs` | bfs.dfy | a pure reference run of the breadth-first propagation order, and its properties |
| `NetworkOptimizer` | network_optimizer.dfy | `NetworkPropagationOptimizer`: the map of BFS orders built at start-up and `propagate_block`, each proved against the reference |
| `Network` | node.dfy | the earlier simulator's `Node`: `add_neighbor` and the recursive `receive`, as a worklist |
| `Coordinator` | coordinator.dfy | the `coord` round loop, first as a pure `Run` over rounds and then as a class method proved to follow it |
| `LegacyCoordinator` | legacy_coordinator.dfy | the earlier simulator's `coord` loop, in the same two forms |
| `SelfishMining` | selfish_miner.dfy | `SelfishMinerState`, `SelfishMiner.on_block_found`, `get_metrics` |
| `DoubleSpend` | double_spend.dfy | `DoubleSpendState`, `DoubleSpendMiner`, `get_metrics` |
| `Eclipse` | eclipse.dfy | `EclipseState`, `EclipseAttacker`, `get_metrics` |
| `ConfigLoader` | config_loader.dfy | `merge_cli_args`, over a configuration held as nested maps |

Main results:

- **Propagation.** The BFS order from a start node begins with that node at
  hop 0. It lists every node reachable along neighbour links exactly once.
  Its hop counts never decrease, and each entry's hops are one more than its
  discoverer's. `propagate_block` marks exactly the order's nodes. It charges
  one I/O operation per neighbour of each newly marked node, and the block
  size for each such operation. The earlier simulator's recursive flood
  marks the same nodes and charges the same totals.
- **Rounds.** Block ids run 1, 2, ... without gaps, and the mempool is
  consumed first in, first out. Each block carries its batch plus one
  coinbase transaction. Coins grow by the reward only while the halving cap
  is not reached; 25 blocks at 50 with halvings every 10 blocks, capped at
  3, issue exactly 812.5. A run ends exactly at the block limit when one is
  set. A fixed difficulty never changes. The two coordinators differ in the
  precedence of their exit tests, and both behaviours are stated.
- **Attacks.** In selfish mining `lead == private_chain_length` always holds,
  and every public block is either won by the honest side or wasted. In the
  double spend `attempts == successful + failed + 1` holds after every
  block, the attack is always running, and the honest chain never passes
  twice the confirmation target. In the eclipse, the withheld count equals
  the honest chain's length.
- **Selection.** A validator or farmer is chosen exactly for the draws in its
  own slice of the cumulative weight, and that slice is as wide as its
  weight. The farmer probabilities sum to one.

Python floats (difficulty, reward, coins, times, stakes) are exact `real`s.

## Model

| member | source | states |
|---|---|---|
| Common.Truncate | src/blocksimpy/utils/block_check.py:95 | Python's `int()` of a float truncates toward zero: the result lies within one of the input, on the side of zero |
| Blocks.NewBlock | src/blocksimpy/core/block.py:48-76 | the block keeps its id, transaction count and inter-block time, is `1024 + 256 * tx` bytes, and is stamped with the given timestamp or else the clock reading |
| Blocks.EmptyBlockIsHeader | src/blocksimpy/core/block.py:72-74 | a block without transactions is exactly one 1024-byte header |
| Blocks.SizeStrictlyIncreasing | src/blocksimpy/core/block.py:72-74 | more transactions always make a strictly larger block |
| Blocks.SizeRoundTrip | src/blocksimpy/core/block.py:72-74 | the transaction count can be read back from the size |
| BlockCheck.CeilingDivision | src/blocksimpy/utils/block_check.py:51-52 | `(a + b - 1) // b` is the ceiling of `a / b` for positive operands |
| BlockCheck.CalculateExpectedBlocks | src/blocksimpy/utils/block_check.py:20-52 | zero for a non-positive load or block size; otherwise the fewest blocks (at least one) whose capacity holds every transaction |
| BlockCheck.ExpectedBlocksExamples | src/blocksimpy/utils/block_check.py:38-43 | the documented examples: 10000 transactions in blocks of 4096 need 3 blocks, 4096 need 1 |
| BlockCheck.ValidateBlocksCount | src/blocksimpy/utils/block_check.py:55-76 | the configured limit comes back untouched next to an estimate that covers the load |
| BlockCheck.Validate | src/blocksimpy/utils/block_check.py:79-124 | fails exactly on a zero block time in the years conversion; a limit from `years` is `int(years * YEAR / blocktime)`; it is lowered to the estimate exactly when it came from `years`, transactions exist and it exceeds three times the estimate; a user limit is kept; the warning is raised exactly for a nonzero limit below the estimate |
| BlockCheck.ValidateConfiguration | src/blocksimpy/utils/block_check.py:79-124 | returns `Validate` of the entries it reads, and writes `simulation.blocks` back exactly when the limit was computed from `years`, leaving the configuration otherwise unchanged |
| BlockCheck.UserLimitNeverChanged | src/blocksimpy/utils/block_check.py:92-108 | a limit the user gave is kept, never auto-adjusted, and `years` is then ignored |
| State.DefaultState | src/blocksimpy/simulation/state.py:16-38 | every counter and progress marker starts at zero, the difficulty at 0.0 and the reward at 50.0 |
| State.FromConfig | src/blocksimpy/simulation/state.py:40-57 | the configured difficulty when there is one, else block time times total hashrate; the configured initial reward; no progress yet |
| Metrics.AvgBlockTime | src/blocksimpy/simulation/metrics.py:49-50 | with blocks, the average times the block count gives back the total time; without blocks, zero |
| Metrics.TransactionsPerSecond | src/blocksimpy/simulation/metrics.py:52-53 | for positive time, the rate times the time gives back the transaction count; otherwise zero |
| Metrics.InflationRate | src/blocksimpy/simulation/metrics.py:55-62 | when all four guards hold, the rate times the previous coin total and the period is the issued coins times YEAR times 100; otherwise the previous rate is kept |
| Metrics.SimulationMetrics.constructor | src/blocksimpy/simulation/metrics.py:18-29 | every field starts at zero |
| Metrics.SimulationMetrics.RecordNetworkIo | src/blocksimpy/simulation/metrics.py:31-34 | adds the bytes and the I/O operations (one operation unless given), nothing else changes |
| Metrics.SimulationMetrics.Finalize | src/blocksimpy/simulation/metrics.py:36-62 | records the end time and block count, sets the average block time, the throughput and the inflation rate, and keeps the network counters |
| Metrics.SimulationMetrics.ToDict | src/blocksimpy/simulation/metrics.py:64-77 | megabytes times 10^6 are the bytes; every other entry is the field or argument it names |
| Consensus.BlockFoundEvent.constructor | src/blocksimpy/consensus/pos.py:50-72 | a round's event starts untriggered and without a winner |
| Consensus.ProduceBlock | src/blocksimpy/consensus/pos.py:67-70 | an untriggered event is fired with the producer as winner; a fired event keeps its first winner (the same code is src/blocksimpy/consensus/pospace.py:58-60) |
| ProofOfStake.Weight | src/blocksimpy/consensus/pos.py:46-48 | a validator's weight is its stake |
| ProofOfStake.Covering | src/blocksimpy/consensus/pos.py:97-103 | the scan returns the first position whose cumulative stake reaches the draw, or the last position when none does |
| ProofOfStake.Select | src/blocksimpy/consensus/pos.py:75-103 | no validator exactly for an empty list; otherwise one of the validators, the only one when there is one |
| ProofOfStake.SelectValidator | src/blocksimpy/consensus/pos.py:91-103 | the two loops (sum, then cumulative scan with fallback) compute `Select` |
| ProofOfStake.CoveringIsFirst | src/blocksimpy/consensus/pos.py:97-103 | the scan's result is the only position that reaches the draw with no earlier position reaching it |
| ProofOfStake.PrefixMonotone | src/blocksimpy/consensus/pos.py:97-99 | with non-negative stakes the cumulative stake never decreases |
| ProofOfStake.SelectFirstReaching | src/blocksimpy/consensus/pos.py:96-101 | for a draw within the total stake the fallback is never used: the first validator whose cumulative stake reaches the draw is chosen |
| ProofOfStake.CoveringSlice | src/blocksimpy/consensus/pos.py:96-101 | with non-negative stakes, validator `k` is chosen exactly for draws in its slice of the cumulative stake, a slice as wide as its stake |
| ProofOfSpace.Weight | src/blocksimpy/consensus/pospace.py:37-39 | a farmer's weight is its space |
| ProofOfSpace.Weights | src/blocksimpy/consensus/pospace.py:81 | one weight per farmer, in order |
| ProofOfSpace.Probabilities | src/blocksimpy/consensus/pospace.py:87 | one probability per weight, each of which scaled by the total gives back its weight |
| ProofOfSpace.Accumulate | src/blocksimpy/consensus/pospace.py:88 | one running sum per weight; the last is the total |
| ProofOfSpace.RunningSum | src/blocksimpy/consensus/pospace.py:88 | running sum `i` is the sum of the first `i + 1` weights |
| ProofOfSpace.Bisect | src/blocksimpy/consensus/pospace.py:88 | on sorted running sums, the first position in range whose value exceeds the point, or the upper bound |
| ProofOfSpace.ChoicesIndex | src/blocksimpy/consensus/pospace.py:88 | an index in range, and none exactly for no weights or a non-positive total |
| ProofOfSpace.SelectFarmer | src/blocksimpy/consensus/pospace.py:65-88 | no farmer exactly for an empty list; otherwise one of the farmers, the only one when there is one, and the first one when the total space is 0 |
| ProofOfSpace.SumProbabilities | src/blocksimpy/consensus/pospace.py:87 | the probabilities' sum scaled by the total is the weights' sum |
| ProofOfSpace.ProbabilitiesSumToOne | src/blocksimpy/consensus/pospace.py:82-87 | normalised by their own non-zero total, the weights sum to one |
| ProofOfSpace.WeightBelowSum | src/blocksimpy/consensus/pospace.py:82 | a non-negative weight is at most the total |
| ProofOfSpace.SumNonNegative | src/blocksimpy/consensus/pospace.py:82 | non-negative weights have a non-negative total |
| ProofOfSpace.ProbabilitiesDistribution | src/blocksimpy/consensus/pospace.py:82-87 | for non-negative weights with a positive total, every probability is in [0, 1] and they sum to one |
| ProofOfSpace.AccumulateSorted | src/blocksimpy/consensus/pospace.py:88 | the running sums of non-negative weights never decrease |
| ProofOfSpace.SumPrefixGrows | src/blocksimpy/consensus/pospace.py:88 | a longer prefix of non-negative weights has a sum at least as large |
| ProofOfSpace.ChoicesSlice | src/blocksimpy/consensus/pospace.py:88 | position `k` is picked exactly when the scaled draw falls in its slice of the running sums |
| ProofOfSpace.AccumulateSlice | src/blocksimpy/consensus/pospace.py:88 | bisecting the running sums lands on `k` exactly for the points in its slice |
| ProofOfSpace.ChoicesBisect | src/blocksimpy/consensus/pospace.py:88 | for a positive total, the pick is the bisection of the running sums at the scaled draw |
| ProofOfSpace.ProbabilitySlice | src/blocksimpy/consensus/pospace.py:81-88 | farmer `k` is picked exactly for draws in its slice of the unit interval, as wide as its share of the space |
| ProofOfSpace.ChoicesUnit | src/blocksimpy/consensus/pospace.py:87-88 | for probabilities summing to one, the unscaled draw is looked up in their running sums |
| ProofOfSpace.SelectFarmerChooses | src/blocksimpy/consensus/pospace.py:84-88 | with a positive total, the farmer returned is the one `random.choices` picks from the normalised weights |
| ProofOfSpace.BisectSlice | src/blocksimpy/consensus/pospace.py:88 | on a sorted sequence, bisecting all positions but the last lands on `k` exactly when the point lies in `k`'s slice |
| ConfigLoader.MergeCliArgs | src/blocksimpy/config/config_loader.py:92-163 | the configuration becomes the overlay of the given arguments followed by the clearing of `simulation.blocks` when `years` is given, and the same object is returned |
| ConfigLoader.OverlayRows | src/blocksimpy/config/config_loader.py:151-157 | the loop over the mapping rows writes, in order, exactly what the overlay function describes |
| ConfigLoader.CliMappingDistinct | src/blocksimpy/config/config_loader.py:129-148 | no two rows of the eighteen-row mapping write the same key, so no two write the same entry |
| ConfigLoader.OverlaySections | src/blocksimpy/config/config_loader.py:151-156 | a section exists afterwards exactly when it existed before or a row writing into it had a given argument |
| ConfigLoader.OverlayKeepsUnwritten | src/blocksimpy/config/config_loader.py:151-157 | an entry no given argument writes keeps its presence and its value |
| ConfigLoader.OverlayWritesGiven | src/blocksimpy/config/config_loader.py:151-157 | with distinct rows, every given argument's value lands at its section and key |
| ConfigLoader.YearsSectionExists | src/blocksimpy/config/config_loader.py:150-161 | when `years` is given its row has created the `simulation` section, so clearing `simulation.blocks` cannot fail |
| ConfigLoader.MergedWritesGiven | src/blocksimpy/config/config_loader.py:150-161 | every given argument's value is stored at its mapped section and key, except `blocks` when `years` is also given |
| ConfigLoader.MergedKeepsUnwritten | src/blocksimpy/config/config_loader.py:150-161 | an entry no given argument writes (and that is not `simulation.blocks` under `years`) is left as it was |
| ConfigLoader.MergedCreatesSections | src/blocksimpy/config/config_loader.py:155-156 | a missing section is created exactly when some given argument writes into it |
| ConfigLoader.YearsClearsBlocks | src/blocksimpy/config/config_loader.py:159-161 | a given `years` leaves `simulation.blocks` as None, whatever `blocks` was given |
| ConfigLoader.NothingGivenNoChange | src/blocksimpy/config/config_loader.py:150-157 | with no argument given the overlay changes nothing |
| Network.Node.constructor | src/blockchain_lab/core/node.py:63-66 | a new node keeps its id and starts with no blocks and no neighbours |
| Network.Node.AddNeighbor | src/blockchain_lab/core/node.py:123-124 | a peer is appended exactly when it is neither the node itself nor already connected, so the list never gains the node itself or a duplicate; the block set is untouched |
| Network.Node.Receive | src/blockchain_lab/core/node.py:93-110 | a block id already held changes nothing and forwards nothing; a new one is stored, forwarded to every neighbour in list order, and adds the neighbour count to the I/O requests and that many block sizes to the bytes |
| Network.DrainMarksReachable | src/blockchain_lab/core/node.py:96-110 | the deliveries started at the origin mark each node reachable from it (around the nodes that already held the block) exactly once, and no other node |
| Network.DrainMark | src/blockchain_lab/core/node.py:99-110 | a delivery to a node that does not hold the block marks it and queues all its neighbours, keeping the worklist invariant |
| Network.DrainSkip | src/blockchain_lab/core/node.py:96-97 | a delivery to a node that holds the block is only dropped, keeping the worklist invariant |
| Network.DeliverNext | src/blockchain_lab/core/node.py:93-110 | one pending delivery runs: the flood follows the reference worklist one step, and the counters grow by the neighbour count of the node exactly when it was newly marked |
| Network.DeliverFirst | src/blockchain_lab/core/node.py:99-110 | a first delivery marks the node, queues its forwards and charges its neighbour count |
| Network.DeliverAgain | src/blockchain_lab/core/node.py:96-97 | a repeated delivery only leaves the queue, with counters and block sets unchanged |
| Network.Flood | src/blockchain_lab/core/node.py:93-110 | the delivery loop runs until nothing is pending; the nodes marked are those of the reference worklist and the counters grow by their neighbour counts |
| Network.Deliver | src/blockchain_lab/core/node.py:93-110 | after the flood from the origin the block is held by exactly the nodes reachable from it around earlier holders, each charged once, with I/O growing by their neighbour counts and bytes by block size times that; neighbour lists are unchanged |
| Network.SumBytesScales | src/blockchain_lab/core/node.py:106-107 | the bytes sent are the block size times the number of sends |
| Bfs.ForwardsFacts | src/blocksimpy/utils/network_optimizer.py:155-157 | the queued neighbours are exactly the unvisited ones, in neighbour-list order, one hop further, all discovered by the current entry |
| Bfs.NextFacts | src/blocksimpy/utils/network_optimizer.py:151-157 | visiting an entry queues exactly its neighbours outside the order and itself, in list order, at its hops plus one |
| Bfs.RunKeepsInv | src/blocksimpy/utils/network_optimizer.py:143-157 | every turn of the loop, skip or visit, keeps the invariant of the walk (start first, no repeats, reachable only, closed, hops ordered, discoverers earlier and earliest) |
| Bfs.BfsOrderInv | src/blocksimpy/utils/network_optimizer.py:137-159 | the finished walk from the start node satisfies that invariant with an empty queue |
| Bfs.FinalCovers | src/blocksimpy/utils/network_optimizer.py:143-157 | the finished order holds a node exactly when it is reachable from the start |
| Bfs.FinalDistance | src/blocksimpy/utils/network_optimizer.py:143-157 | every recorded hop count is the length of a shortest walk from the start |
| Bfs.BfsOrderIsPropagationOrder | src/blocksimpy/utils/network_optimizer.py:137-159 | the order starts with the start node at 0 hops, names every reachable node exactly once and no other, records shortest hop distances, and never decreases in hops |
| Bfs.BfsOrderDiscovery | src/blocksimpy/utils/network_optimizer.py:141-157 | every entry after the first is neighbour `at` of an earlier entry `from` at one hop more, discovered at the earliest place it occurs, and entries come in discovery order, so neighbours are taken in list order |
| NetworkOptimizer.BfsPropagationOrder | src/blocksimpy/utils/network_optimizer.py:137-159 | the deque loop with the visited set computes the reference order, which is a propagation order from the start node |
| NetworkOptimizer.BfsStep | src/blocksimpy/utils/network_optimizer.py:144-157 | one loop turn (pop, skip or record and enqueue) moves the method's order, queue and visited set along the reference run |
| NetworkOptimizer.EnqueueNeighbors | src/blocksimpy/utils/network_optimizer.py:155-157 | appends exactly the neighbours not visited, in list order, at the given hop count |
| NetworkOptimizer.QueuedHopsStrip | src/blocksimpy/utils/network_optimizer.py:155-157 | the entries the loop appends are the reference run's queued entries without their discovery record |
| NetworkOptimizer.SkipKeeps | src/blocksimpy/utils/network_optimizer.py:147-148 | dropping a front entry whose node is already in the order leaves the run's result unchanged |
| NetworkOptimizer.OrderFrom | src/blocksimpy/utils/network_optimizer.py:110 | the order stored for a start node is the reference order from it |
| NetworkOptimizer.NetworkPropagationOptimizer.constructor | src/blocksimpy/utils/network_optimizer.py:79-83 | the map holds one order per node id, each a propagation order from its key, and is empty for an empty network |
| NetworkOptimizer.NetworkPropagationOptimizer.BuildPropagationMap | src/blocksimpy/utils/network_optimizer.py:109-111 | after the loop every node id has its breadth-first order and no other key exists |
| NetworkOptimizer.NetworkPropagationOptimizer.StoreOrder | src/blocksimpy/utils/network_optimizer.py:110-111 | one turn adds the order of the next node and keeps every stored order correct |
| NetworkOptimizer.NetworkPropagationOptimizer.StoredOrdersArePropagationOrders | src/blocksimpy/utils/network_optimizer.py:109-111 | every stored order is a propagation order from its key |
| NetworkOptimizer.NetworkPropagationOptimizer.ValidOrder | src/blocksimpy/utils/network_optimizer.py:201-202 | a stored order names only nodes of the network, each once, so the lookup by id cannot fail |
| NetworkOptimizer.NetworkPropagationOptimizer.PropagateBlock | src/blocksimpy/utils/network_optimizer.py:193-217 | every node of the stored order ends up holding the block id and no other node changes; a missing or empty order changes nothing; I/O grows by the neighbour counts of the nodes that did not hold it, bytes by block size times that, and no other metric moves |
| NetworkOptimizer.ReplayAsWrittenRaises | src/blocksimpy/utils/network_optimizer.py:201-217 | as written, the replay stores the block at the newly marked nodes up to and including the first one with neighbours and then raises; it raises exactly when some newly marked node has a neighbour, and otherwise charges nothing |
| NetworkOptimizer.TwoNodesRaise | src/blocksimpy/utils/network_optimizer.py:201-217 | with two linked nodes and a block from node 0, the intended replay charges two I/O operations, while as written only node 0 stores the block before the raise |
| NetworkOptimizer.Replay | src/blocksimpy/utils/network_optimizer.py:201-217 | the replay loop marks every node of the order and charges exactly the nodes that did not hold the block |
| NetworkOptimizer.ReplayEntry | src/blocksimpy/utils/network_optimizer.py:201-217 | one turn of the replay extends the replayed prefix by one entry and the charged sums with it |
| NetworkOptimizer.ReplayNext | src/blocksimpy/utils/network_optimizer.py:202-217 | a node that holds the block is skipped with no counter change; otherwise it stores the id and the counters grow by its neighbour count and that many block sizes |
| NetworkOptimizer.ReplayPrefix | src/blocksimpy/utils/network_optimizer.py:201 | the next entry of a duplicate-free order is new to the replayed prefix |
| NetworkOptimizer.NewNodesElems | src/blocksimpy/utils/network_optimizer.py:206-210 | the nodes charged are exactly the order's nodes that did not hold the block |
| NetworkOptimizer.NewNodesDistinct | src/blocksimpy/utils/network_optimizer.py:201-210 | in a duplicate-free order no node is charged twice |
| NetworkOptimizer.BfsOrderNodes | src/blocksimpy/utils/network_optimizer.py:137-159 | the breadth-first order names each reachable node once |
| NetworkOptimizer.ReplayMatchesFlood | src/blocksimpy/utils/network_optimizer.py:21-26 | for a block no node holds, the nodes the legacy flood marks are those of the breadth-first order and the replay charges the same neighbour-count sum |
| Coordinator.Retarget | src/blocksimpy/simulation/coordinator.py:190-205 | retargets only a derived difficulty once the window is full: the new difficulty times the observed average is the old one times the target (unchanged when the average is not positive), and the window restarts at the clock; otherwise the state is unchanged |
| Coordinator.Mint | src/blocksimpy/simulation/coordinator.py:238-248 | the reward is added to the coins exactly when below the cap; at a halving boundary below the cap the halvings grow by one and the reward halves, or becomes 0 once the cap is reached; the halvings never pass the cap |
| Coordinator.IssueSplit | src/blocksimpy/simulation/coordinator.py:238-248 | issuance over `m + n` blocks is issuance over `m`, then over `n` |
| Coordinator.IssueKeepsCap | src/blocksimpy/simulation/coordinator.py:239-248 | over any number of blocks the halvings stay within the cap and the block count advances one per block |
| Coordinator.IssueFlat | src/blocksimpy/simulation/coordinator.py:239-248 | with no halving boundary crossed, `n` blocks add exactly `n` rewards and leave reward and halvings unchanged |
| Coordinator.IssueBoundary | src/blocksimpy/simulation/coordinator.py:239-248 | a block at a boundary below the cap mints the current reward, then halves it (0 at the cap) |
| Coordinator.Issue812 | src/blocksimpy/simulation/coordinator.py:239-248 | 25 blocks at reward 50, halving every 10 blocks with at most 3 halvings, issue 812.5 coins |
| Coordinator.Markers | src/blocksimpy/simulation/coordinator.py:263-292 | the four progress markers move to the clock, count, transactions and coins exactly when not in debug mode and the count is a multiple of the print interval; otherwise nothing changes |
| Coordinator.Take | src/blocksimpy/simulation/coordinator.py:225-233 | with transactions, the batch is the smaller of the mempool size and the block size; without transactions it is 0 |
| Coordinator.Start | src/blocksimpy/simulation/coordinator.py:155-161 | the loop starts from `from_config`, the current mempool, clock 0 and no blocks |
| Coordinator.StepQueue | src/blocksimpy/simulation/coordinator.py:225-230 | a round confirms the oldest entries of the mempool, front first, and leaves the rest in order |
| Coordinator.StepProgress | src/blocksimpy/simulation/coordinator.py:190-292 | one round keeps the loop invariant: one block per round, numbered on, mempool FIFO, issuance per block, fixed difficulty kept, limit not passed, processed and transaction counts matching the confirmed entries |
| Coordinator.RunProgress | src/blocksimpy/simulation/coordinator.py:176-292 | the loop keeps that invariant through every round it plays, ends finished exactly when a termination test fires, and otherwise plays every round |
| Coordinator.RunBlockIds | src/blocksimpy/simulation/coordinator.py:222-235 | block ids are 1, 2, ... up to the final block count, with no gaps |
| Coordinator.RunMempoolFifo | src/blocksimpy/simulation/coordinator.py:225-230 | the confirmed entries followed by the remaining mempool are the starting mempool followed by every arrival, in order |
| Coordinator.RunTxCount | src/blocksimpy/simulation/coordinator.py:225-236 | the processed count is the number of confirmed entries, the transaction total adds one coinbase per block, so it is at least the block count |
| Coordinator.RunIssuance | src/blocksimpy/simulation/coordinator.py:238-248 | issuance over the run is the block-by-block rule from the initial reward, with no cap meaning always issue, and the halvings never pass a cap |
| Coordinator.Run812 | src/blocksimpy/simulation/coordinator.py:239-248 | a run of 25 blocks with reward 50, interval 10 and cap 3 ends with 812.5 coins |
| Coordinator.RunLimit | src/blocksimpy/simulation/coordinator.py:177-179 | with a block limit the count never passes it, the loop ends exactly when the count reaches it, and does so when there are enough rounds |
| Coordinator.RunTermination | src/blocksimpy/simulation/coordinator.py:176-188 | the loop ends exactly when a termination test holds; without a block limit that is when transactions exist, `total_needed` is positive and all of them were processed |
| Coordinator.RunFixedDifficulty | src/blocksimpy/simulation/coordinator.py:190-194 | a configured difficulty is never changed |
| Coordinator.SimulationCoordinator.constructor | src/blocksimpy/simulation/coordinator.py:63-86 | a new coordinator has fresh zeroed metrics, an empty mempool, zero published totals and no optimizer |
| Coordinator.SimulationCoordinator.Coord | src/blocksimpy/simulation/coordinator.py:98-315 | the loop's outcome, mempool and published totals are those of the reference run from `from_config`, and the metrics are finalized with the final clock and totals; neighbour lists are unchanged |
| Coordinator.SimulationCoordinator.Publish | src/blocksimpy/simulation/coordinator.py:294-315 | finalizes the metrics with the end clock and totals and copies the results out |
| Coordinator.SimulationCoordinator.BuildOptimizer | src/blocksimpy/simulation/coordinator.py:150-151 | builds an optimizer with a valid map over the nodes |
| Coordinator.SimulationCoordinator.Loop | src/blocksimpy/simulation/coordinator.py:176-292 | the `while True` loop computes the reference run over the supplied rounds |
| Coordinator.SimulationCoordinator.PlayRound | src/blocksimpy/simulation/coordinator.py:190-292 | one pass of the loop body computes one reference step |
| Coordinator.SimulationCoordinator.OpenRound | src/blocksimpy/simulation/coordinator.py:190-236 | retargets, counts the block, takes the batch front first and builds the block with `take + 1` transactions and the time since the last block |
| Coordinator.SimulationCoordinator.CloseRound | src/blocksimpy/simulation/coordinator.py:238-292 | mints and moves the progress markers as the reference step does; exactly the nodes of the stored order from the drawn node gain the block id, I/O grows by the neighbour counts of those that did not hold it and bytes by block size times that |
| Coordinator.SimulationCoordinator.MintReward | src/blocksimpy/simulation/coordinator.py:238-248 | issuance is the reference step's: the reward is added below the cap and halved at a boundary block |
| Coordinator.SimulationCoordinator.Propagate | src/blocksimpy/simulation/coordinator.py:250-253 | exactly the nodes of the stored order from the drawn node gain the block id, I/O grows by the neighbour counts of those that did not hold it, bytes by block size times that, and neighbour lists are unchanged |
| Coordinator.SimulationCoordinator.PopBatch | src/blocksimpy/simulation/coordinator.py:226-230 | removes exactly the batch from the front of the mempool |
| LegacyCoordinator.Legacy | src/blockchain_lab/simulation/coordinator.py:151-158 | the legacy round is the shared round with the retarget window fixed at 2016 blocks and every other setting unchanged |
| LegacyCoordinator.FinishedPrecedence | src/blockchain_lab/simulation/coordinator.py:145-149 | whenever the newer loop stops the legacy one stops too; the legacy one stops where the newer would not exactly when all transactions are processed while a block limit is set and not reached, or when transactions are on, none are needed and no limit is set |
| LegacyCoordinator.LegacyStart | src/blockchain_lab/simulation/coordinator.py:121-143 | the loop starts from the configured difficulty or block time times hashrate, zero counters and markers, the coordinator's own transaction and coin totals, clock 0 and no blocks |
| LegacyCoordinator.LegacyRunProgress | src/blockchain_lab/simulation/coordinator.py:145-218 | the loop keeps the shared loop invariant under the 2016-block rule, ends finished exactly when either test fires, and otherwise plays every round |
| LegacyCoordinator.LegacyRunTermination | src/blockchain_lab/simulation/coordinator.py:141-149 | the loop ends exactly when either test holds, with no precedence; with transactions on and none needed it ends before the first block |
| LegacyCoordinator.LegacyRunLimit | src/blockchain_lab/simulation/coordinator.py:146-149 | with a block limit the count never passes it; the loop ends when the limit is reached or every transaction is processed, and does end when there are enough rounds |
| LegacyCoordinator.LegacyRunBlocks | src/blockchain_lab/simulation/coordinator.py:170-187 | blocks are numbered 1, 2, ...; the mempool is first in, first out via `pop(0)`; the processed count and the transaction total count the confirmed entries plus one coinbase per block |
| LegacyCoordinator.LegacyRunIssuance | src/blockchain_lab/simulation/coordinator.py:189-194 | with an integer cap, issuance is the same block-by-block rule as the newer coordinator and the halvings never pass the cap |
| LegacyCoordinator.LegacyRunFixedDifficulty | src/blockchain_lab/simulation/coordinator.py:133-158 | a configured difficulty is never retargeted |
| LegacyCoordinator.FinalSummary | src/blockchain_lab/simulation/coordinator.py:220-224 | the average block time, throughput and inflation are each 0 when their guard fails, and otherwise multiply back to their dividends; the inflation figure divides by zero exactly when coins were reported and no time elapsed |
| LegacyCoordinator.Scale | src/blockchain_lab/simulation/coordinator.py:224 | the inflation expression times the last coins and the elapsed time is the issued coins times YEAR times 100 |
| LegacyCoordinator.LegacySimulationCoordinator.constructor | src/blockchain_lab/simulation/coordinator.py:54-70 | a new coordinator has zero network counters, zero totals and an empty mempool |
| LegacyCoordinator.LegacySimulationCoordinator.Coord | src/blockchain_lab/simulation/coordinator.py:75-224 | the loop's outcome, mempool and totals are those of the reference legacy run, and the summary is computed from the final clock and totals |
| LegacyCoordinator.LegacySimulationCoordinator.Loop | src/blockchain_lab/simulation/coordinator.py:145-218 | the `while True` loop computes the reference legacy run over the supplied rounds |
| LegacyCoordinator.LegacySimulationCoordinator.PlayRound | src/blockchain_lab/simulation/coordinator.py:151-218 | one pass of the loop body computes one legacy step |
| LegacyCoordinator.LegacySimulationCoordinator.OpenRound | src/blockchain_lab/simulation/coordinator.py:151-187 | the 2016-block retarget, the block count, the batch popped from the front and the block with `take + 1` transactions |
| LegacyCoordinator.LegacySimulationCoordinator.CloseRound | src/blockchain_lab/simulation/coordinator.py:189-218 | mints and moves the progress markers as the legacy step does; the block reaches exactly the nodes reachable from the drawn node around earlier holders, and the counters grow by their neighbour counts and block size times that |
| LegacyCoordinator.LegacySimulationCoordinator.MintReward | src/blockchain_lab/simulation/coordinator.py:189-194 | issuance is the legacy step's and the coordinator's coin total follows it |
| LegacyCoordinator.LegacySimulationCoordinator.PopFront | src/blockchain_lab/simulation/coordinator.py:180-181 | `pop(0)` repeated removes exactly that many entries from the front |
| LegacyCoordinator.LegacySimulationCoordinator.Broadcast | src/blockchain_lab/simulation/coordinator.py:196 | the flood from the drawn node marks exactly the nodes reachable from it around earlier holders, each once, adds the block id to exactly their block sets, grows I/O by their neighbour counts and bytes by block size times that, and leaves every neighbour list as it was |
| SelfishMining.StepConsistent | src/blocksimpy/attacks/selfish_miner.py:52-102 | every transition keeps the lead equal to the private chain length and non-negative and every public block either won or orphaned; the public chain grows exactly on honest blocks; the honest block is adopted exactly at lead 0, and otherwise the honest count and revenue stay put |
| SelfishMining.ReplayAccounts | src/blocksimpy/attacks/selfish_miner.py:52-102 | from the defaults, after any sequence of blocks, the invariants hold, every attacker block is won or still private, and every honest block is won or orphaned |
| SelfishMining.StepRewards | src/blocksimpy/attacks/selfish_miner.py:70-102 | at a constant reward, revenue that matches the blocks won stays matched through a step |
| SelfishMining.ReplayRewards | src/blocksimpy/attacks/selfish_miner.py:70-102 | at a constant reward, each side's revenue is the reward times the blocks it has won |
| SelfishMining.AttackerShare | src/blocksimpy/attacks/selfish_miner.py:106-109 | with blocks won, the share times the blocks won is the attacker's blocks; with none it is 0 |
| SelfishMining.ShareBounds | src/blocksimpy/attacks/selfish_miner.py:104-119 | under the invariants the reported share lies in [0, 1], is 0 before any block is won, and 1 when only the attacker has won |
| SelfishMining.SelfishMinerState.constructor | src/blocksimpy/attacks/selfish_miner.py:25-50 | every counter starts at zero |
| SelfishMining.SelfishMinerState.AttackerFoundBlock | src/blocksimpy/attacks/selfish_miner.py:52-60 | the private chain and the lead grow by one, nothing else changes, and the action is "extend_private" |
| SelfishMining.SelfishMinerState.HonestFoundBlock | src/blocksimpy/attacks/selfish_miner.py:62-102 | the public chain grows by one; at lead 0 the honest side wins a block and its reward; at lead 1 or 2 the attacker wins one or two blocks and rewards, one honest block is wasted and the private chain is cleared; at a larger lead the attacker wins one, one honest block is wasted and lead and private chain drop by one |
| SelfishMining.SelfishMiner.constructor | src/blocksimpy/attacks/selfish_miner.py:130-135 | keeps id and hashrate and starts a fresh attack state, which satisfies the invariants |
| SelfishMining.SelfishMiner.OnBlockFound | src/blocksimpy/attacks/selfish_miner.py:156-170 | routes the block to the matching transition and keeps the invariants |
| DoubleSpend.HonestDecision | src/blocksimpy/attacks/double_spend.py:71-92 | an honest block lengthens the public chain by one and books its reward; the attempt fails exactly when the public chain passes twice the confirmations, and otherwise succeeds exactly when the victim has accepted and the private chain is longer; only a success adds the reward times the confirmations to the double-spent value |
| DoubleSpend.ConstructedRunning | src/blocksimpy/attacks/double_spend.py:122-131 | the miner starts with its first attempt running: one attempt, in phase 1 |
| DoubleSpend.StepRunning | src/blocksimpy/attacks/double_spend.py:147-162 | every found block keeps an attempt running, keeps attempts equal to successes plus failures plus one and the public chain within twice the confirmations, and counts the success or failure it reports |
| DoubleSpend.ReplayRunning | src/blocksimpy/attacks/double_spend.py:52-162 | from construction, through any sequence of found blocks, those invariants hold and every reward is booked to the side that found its block |
| DoubleSpend.SuccessRate | src/blocksimpy/attacks/double_spend.py:96-100 | with attempts, the rate times the attempts is the successes; with none it is 0 |
| DoubleSpend.SuccessRateBounds | src/blocksimpy/attacks/double_spend.py:94-112 | for a running miner the reported rate lies in [0, 1), and is 0 before any success |
| DoubleSpend.DoubleSpendState.constructor | src/blocksimpy/attacks/double_spend.py:21-50 | every field takes its default, with the given confirmations, 6 unless given |
| DoubleSpend.DoubleSpendState.StartAttack | src/blocksimpy/attacks/double_spend.py:52-58 | one more attempt, phase 1, both chains and `blocks_until_success` zeroed, nothing else changed |
| DoubleSpend.DoubleSpendState.AttackerFoundBlock | src/blocksimpy/attacks/double_spend.py:60-69 | the private chain and `blocks_until_success` grow by one and the reward is booked; the result is "private_longer" exactly when the private chain is longer |
| DoubleSpend.DoubleSpendState.HonestFoundBlock | src/blocksimpy/attacks/double_spend.py:71-92 | the public chain grows and the reward is booked; failure is decided before success, as `HonestDecision` states |
| DoubleSpend.DoubleSpendMiner.constructor | src/blocksimpy/attacks/double_spend.py:122-131 | keeps id and hashrate, marks the miner as the double-spend attacker and starts the first attempt with the given confirmations, 6 unless given |
| DoubleSpend.DoubleSpendMiner.OnBlockFound | src/blocksimpy/attacks/double_spend.py:147-162 | starts an attempt if none runs, applies the block, restarts after a success or failure, and keeps the invariants |
| Eclipse.ApplyEffect | src/blocksimpy/attacks/eclipse.py:51-68 | every event keeps withheld blocks, eclipse duration and honest chain length equal; an honest block widens the chain difference by one, a victim block narrows it by one, and a release closes it, reporting the victim's previous length as orphaned and leaving the honest chain unchanged |
| Eclipse.ReplayWithholding | src/blocksimpy/attacks/eclipse.py:44-68 | after construction and any sequence of events, withheld blocks, eclipse duration and honest chain length stay equal, count the honest blocks, the wasted count counts the victim blocks, and the eclipse keeps its victim |
| Eclipse.ConstructedView | src/blocksimpy/attacks/eclipse.py:98-103 | construction eclipses the first listed victim, accepts an empty list by eclipsing no one, starts with nothing withheld and a chain difference of 0 |
| Eclipse.EclipseState.constructor | src/blocksimpy/attacks/eclipse.py:22-42 | every field takes its default |
| Eclipse.EclipseState.EclipseVictim | src/blocksimpy/attacks/eclipse.py:44-49 | records the victim, marks it eclipsed and empties both chains, nothing else changed |
| Eclipse.EclipseState.OnHonestBlock | src/blocksimpy/attacks/eclipse.py:51-56 | honest chain, withheld blocks and eclipse duration each grow by one; the result is "block_withheld" |
| Eclipse.EclipseState.OnVictimBlock | src/blocksimpy/attacks/eclipse.py:58-62 | victim chain and wasted victim blocks each grow by one; the result is "victim_wasted_work" |
| Eclipse.EclipseState.ReleaseChain | src/blocksimpy/attacks/eclipse.py:64-68 | the victim chain becomes the honest chain and the previous victim length is reported as orphaned |
| Eclipse.EclipseAttacker.constructor | src/blocksimpy/attacks/eclipse.py:91-103 | the victim set is the listed ids, and the state is that of `ConstructedView` |
| Eclipse.EclipseAttacker.ShouldPropagateTo | src/blocksimpy/attacks/eclipse.py:105-120 | every non-victim gets the block; a victim gets it exactly when it comes from the attacker |
| Eclipse.EclipseAttacker.OnBlockFound | src/blocksimpy/attacks/eclipse.py:122-127 | a victim block goes to the wasted-work transition, any other to the withholding one |

## Left out

- The SimPy mining races are not modelled: `mine` in src/blocksimpy/consensus/pow.py, src/blockchain_lab/core/miner.py and the attack miners, and the wallet processes of src/blocksimpy/simulation/wallet.py. They depend on event concurrency and `random.expovariate` sampling. Each round is an input `Round` instead. It holds the clock when the block was found, the transactions that arrived in the mempool, and the index of the origin node. The winning miner only feeds a debug print, so it is not an input.
- Every random draw is a parameter. That covers `random.choice` of the origin node, the `pick` of `random.uniform` and the `random.choice` fallback in `select_validator`, and the draw of `random.choices` in `select_farmer`. The last is modelled as CPython's bisection over cumulative weights. The `random.seed` reseeding inside the two selectors is not modelled, and neither is the `random.sample` topology building in the application.
- Python floats are exact `real`s with no rounding. Python's truncating `int()` is `Common.Truncate`.
- Output is not modelled: the prints of both coordinators, the progress-line arithmetic, `human()` and `SimulationMetrics.export_json`. The progress markers that the prints update are modelled.
- `load_config` (file and YAML input), the CLI parser, both `app.py` files and quick_fix.py are not part of this model. The `get_weight` default of consensus/base.py is folded into the producer datatypes.
- `Blocks.NewBlock`: the `time.time()` default for the timestamp is a wall-clock read, so the clock reading is a parameter.
- `Coordinator.SimulationCoordinator.Coord` and `Coordinator.Run` require `debug` or a non-zero `print_interval`. Otherwise the source's `block_count % print_interval` raises ZeroDivisionError.
- `Coordinator.SimulationCoordinator.Coord` requires a non-empty topology with node `i` at index `i` and origin indices in range. `random.choice` of an empty node list raises.
- `Coordinator.SimulationCoordinator.Coord`, `Loop` and `PlayRound` do not state the final network counters or block sets. `Coordinator.SimulationCoordinator.CloseRound`, `Propagate` and `NetworkOptimizer.NetworkPropagationOptimizer.PropagateBlock` state what each block adds to them.
- `LegacyCoordinator.LegacySimulationCoordinator.Coord`, `Loop` and `PlayRound` do not state the final network counters or block sets. `LegacyCoordinator.LegacySimulationCoordinator.CloseRound`, `Broadcast` and `Network.Deliver` state what each block adds to them.
- `Coordinator.Run` continues when a progress line is due, the clock has not moved since the last one and coins were recorded then. The source's `(dcoins / last_coins) * (YEAR / ti)` raises ZeroDivisionError there (src/blocksimpy/simulation/coordinator.py:263-280).
- `LegacyCoordinator.LegacyRun` continues in the same case. The legacy progress line raises ZeroDivisionError there too (src/blockchain_lab/simulation/coordinator.py:203-213).
- The rounds are a finite list. When they run out before a termination test holds, the loop stops and reports that it did not finish. The first round starts at clock 0.
- `NetworkOptimizer.ReplayMatchesFlood` covers only blocks that no node holds yet. That is always the case in a run, because block ids are fresh.
- `LegacyCoordinator.LegacySimulationCoordinator.Coord` floods every block, the last one included. In SimPy each `receive` first waits on `timeout(0)` (src/blockchain_lab/core/node.py:93). So the receive of the last block is still pending when `coord` returns, and an application running until `coord` ends never stores it or charges its counters.
- `LegacyCoordinator.LegacySimulationCoordinator.Coord` requires an integer `max_halvings`. With None the source's `halvings < max_halvings` raises TypeError.
- `LegacyCoordinator.LegacySimulationCoordinator.Coord` requires `debug` or a non-zero `print_interval`, as in the newer loop.
- src/blockchain_lab/core/block.py and src/blockchain_lab/utils/formatting.py are not part of this model. The legacy loop builds blocks with `Blocks.NewBlock` and uses `Formatting.Year`.
- src/blocksimpy/utils/formatting.py is not part of this model. Its `HEADER_SIZE` and `YEAR` are taken to equal those of src/blockchain_simulator/utils/formatting.py.
- The action strings of the attack machines are datatype constructors. For example, `"released_orphaned_{n}"` is `Eclipse.ReleasedOrphaned(n)`.
- Neighbours are node ids, not node objects. A topology is well formed when node `i` has id `i` and every neighbour id is a node.
- The attack machines are modelled on their own, because the coordinator's `coord` never calls `on_block_found`. Checkpoint and resume and the coordinator's `attack_metrics` are not part of this model.

## Findings

| source | as written | input that shows it | evidently intended | confidence | as-written member | corrected member |
|---|---|---|---|---|---|---|
| src/blocksimpy/utils/network_optimizer.py:214-217 | `coordinator.io_requests += ...` assigns to a property with no setter (src/blocksimpy/simulation/coordinator.py:88-96), so AttributeError is raised at the first newly marked node that has neighbours | two linked nodes, a block sent from node 0 | the metrics' I/O and byte counters grow by the neighbour counts, as `record_network_io` does and the simulation tests expect | not executed | NetworkOptimizer.TwoNodesRaise | NetworkOptimizer.NetworkPropagationOptimizer.PropagateBlock |
