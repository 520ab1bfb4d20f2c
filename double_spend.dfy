/**
 * The double-spend (51%) attack (src/blocksimpy/attacks/double_spend.py):
 * the attacker mines a private chain while the victim waits for
 * `targetConfirmations` public blocks; the attempt succeeds once the victim
 * has accepted and the private chain is longer than the public one, and
 * fails once the public chain is more than twice the confirmations ahead.
 * A finished attempt is immediately replaced by a new one.
 *
 * The transitions are first stated on a value, `Attempt`, and the classes
 * that update the same fields in place are proved to follow them.
 */
module DoubleSpend {
  /** The attack phase: 0, 1, 2 and 3 in the source. */
  datatype Phase = NotStarted | MiningPrivately | Succeeded | Failed

  /** The result string a transition returns. */
  datatype Outcome = ExtendPrivate | PrivateLonger | AttackFailed | AttackSucceeded | Continue

  /** The fields of `DoubleSpendState`. */
  datatype Attempt = Attempt(
    privateChainLength: int,
    honestChainLength: int,
    phase: Phase,
    targetConfirmations: int,
    attackAttempts: int,
    successfulAttacks: int,
    failedAttacks: int,
    blocksUntilSuccess: int,
    attackerRewards: real,
    honestRewards: real,
    doubleSpentValue: real)

  /** The dataclass defaults, with the confirmations the victim waits for. */
  function Defaults(targetConfirmations: int): Attempt
  {
    Attempt(0, 0, NotStarted, targetConfirmations, 0, 0, 0, 0, 0.0, 0.0, 0.0)
  }

  /** `start_attack`: a new attempt, with both chains empty. */
  function Restarted(s: Attempt): Attempt
  {
    s.(attackAttempts := s.attackAttempts + 1, phase := MiningPrivately,
       privateChainLength := 0, honestChainLength := 0, blocksUntilSuccess := 0)
  }

  /** `attacker_found_block`: the private chain grows and the reward is booked. */
  function AttackerFound(s: Attempt, reward: real): (Attempt, Outcome)
  {
    var p := s.(privateChainLength := s.privateChainLength + 1,
                attackerRewards := s.attackerRewards + reward,
                blocksUntilSuccess := s.blocksUntilSuccess + 1);
    (p, if p.privateChainLength > p.honestChainLength then PrivateLonger else ExtendPrivate)
  }

  /**
   * `honest_found_block`: the public chain grows and the reward is booked;
   * then the failure test comes before the success test.
   */
  function HonestFound(s: Attempt, reward: real): (Attempt, Outcome)
  {
    var p := s.(honestChainLength := s.honestChainLength + 1, honestRewards := s.honestRewards + reward);
    if p.honestChainLength > p.targetConfirmations * 2 then
      (p.(phase := Failed, failedAttacks := p.failedAttacks + 1), AttackFailed)
    else if p.honestChainLength >= p.targetConfirmations && p.privateChainLength > p.honestChainLength then
      (p.(phase := Succeeded, successfulAttacks := p.successfulAttacks + 1,
          doubleSpentValue := p.doubleSpentValue + Spent(reward, p.targetConfirmations)), AttackSucceeded)
    else
      (p, Continue)
  }

  /** The value a successful attempt double-spends: the block reward per confirmation. */
  function Spent(reward: real, targetConfirmations: int): real
  {
    reward * targetConfirmations as real
  }

  /** One found block, as `on_block_found` receives it. */
  datatype Found = Found(byAttacker: bool, reward: real)

  /**
   * `DoubleSpendMiner.on_block_found`: start an attempt if none is running,
   * apply the block, and start a new attempt when this one has ended.
   */
  function Step(s: Attempt, f: Found): (Attempt, Outcome)
  {
    var started := if s.phase == NotStarted then Restarted(s) else s;
    var (p, result) := if f.byAttacker then AttackerFound(started, f.reward) else HonestFound(started, f.reward);
    (if result == AttackSucceeded || result == AttackFailed then Restarted(p) else p, result)
  }

  /** The state right after `DoubleSpendMiner.__init__`: the first attempt is started. */
  function Constructed(targetConfirmations: int): Attempt
  {
    Restarted(Defaults(targetConfirmations))
  }

  /** The fields after a sequence of found blocks, in order. */
  function Replay(s: Attempt, found: seq<Found>): Attempt
  {
    if found == [] then s else Step(Replay(s, found[..|found| - 1]), found[|found| - 1]).0
  }

  /**
   * The invariants of a miner between blocks: an attempt is always running,
   * every earlier attempt either succeeded or failed, and the public chain of
   * the running attempt is no longer than twice the confirmations.
   */
  predicate Running(s: Attempt)
  {
    && s.phase == MiningPrivately
    && s.successfulAttacks >= 0 && s.failedAttacks >= 0
    && s.attackAttempts == s.successfulAttacks + s.failedAttacks + 1
    && 0 <= s.honestChainLength
    && (s.honestChainLength == 0 || s.honestChainLength <= 2 * s.targetConfirmations)
  }

  /**
   * The decision an honest block takes: it fails the attempt exactly when
   * the public chain passes twice the confirmations, and otherwise succeeds
   * exactly when the victim has accepted and the private chain is longer;
   * only a success adds to the double-spent value, by the reward times the
   * confirmations.
   */
  lemma HonestDecision(s: Attempt, reward: real)
    ensures var (r, result) := HonestFound(s, reward);
      var honest := s.honestChainLength + 1;
      && r.honestChainLength == honest && r.privateChainLength == s.privateChainLength
      && r.honestRewards == s.honestRewards + reward
      && (result == AttackFailed <==> honest > 2 * s.targetConfirmations)
      && (result == AttackSucceeded <==>
            honest <= 2 * s.targetConfirmations && honest >= s.targetConfirmations
            && s.privateChainLength > honest)
      && (result == AttackSucceeded ==> r.doubleSpentValue == s.doubleSpentValue + Spent(reward, s.targetConfirmations))
      && (result != AttackSucceeded ==> r.doubleSpentValue == s.doubleSpentValue)
  {
  }

  /** The miner starts with its first attempt running. */
  lemma ConstructedRunning(targetConfirmations: int)
    ensures Running(Constructed(targetConfirmations))
    ensures Constructed(targetConfirmations).attackAttempts == 1
  {
  }

  /** Every found block keeps the invariants. */
  lemma StepRunning(s: Attempt, f: Found)
    requires Running(s)
    ensures var (r, result) := Step(s, f);
      && Running(r)
      && r.successfulAttacks == s.successfulAttacks + (if result == AttackSucceeded then 1 else 0)
      && r.failedAttacks == s.failedAttacks + (if result == AttackFailed then 1 else 0)
  {
  }

  /** The rewards booked for the blocks one side (`true`: the attacker) found. */
  function Booked(found: seq<Found>, byAttacker: bool): real
  {
    if found == [] then 0.0
    else Booked(found[..|found| - 1], byAttacker) + (if found[|found| - 1].byAttacker == byAttacker then found[|found| - 1].reward else 0.0)
  }

  /**
   * From construction, through any sequence of found blocks, the invariants
   * hold and every reward is booked to the side that found its block.
   */
  lemma {:induction false} ReplayRunning(targetConfirmations: int, found: seq<Found>)
    ensures var s := Replay(Constructed(targetConfirmations), found);
      && Running(s)
      && s.targetConfirmations == targetConfirmations
      && s.attackerRewards == Booked(found, true)
      && s.honestRewards == Booked(found, false)
  {
    if found == [] {
      ConstructedRunning(targetConfirmations);
    } else {
      var init := found[..|found| - 1];
      ReplayRunning(targetConfirmations, init);
      StepRunning(Replay(Constructed(targetConfirmations), init), found[|found| - 1]);
    }
  }

  /** The share of attempts that succeeded, 0 before any attempt. */
  function SuccessRate(successful: int, attempts: int): (r: real)
    ensures attempts > 0 ==> r * attempts as real == successful as real
    ensures attempts <= 0 ==> r == 0.0
  {
    if attempts > 0 then successful as real / attempts as real else 0.0
  }

  /** The dictionary `get_metrics` returns. */
  datatype Metrics = Metrics(
    attackType: string,
    attackAttempts: int,
    successfulAttacks: int,
    failedAttacks: int,
    successRate: real,
    doubleSpentValue: real,
    attackerRewards: real,
    honestRewards: real,
    targetConfirmations: int)

  /** `get_metrics`. */
  function Report(s: Attempt): Metrics
  {
    Metrics("double_spend_51", s.attackAttempts, s.successfulAttacks, s.failedAttacks,
            SuccessRate(s.successfulAttacks, s.attackAttempts), s.doubleSpentValue,
            s.attackerRewards, s.honestRewards, s.targetConfirmations)
  }

  /**
   * For a running miner the success rate is a fraction strictly below one:
   * the attempt in progress counts as an attempt.
   */
  lemma SuccessRateBounds(s: Attempt)
    requires Running(s)
    ensures 0.0 <= Report(s).successRate < 1.0
    ensures s.successfulAttacks == 0 ==> Report(s).successRate == 0.0
  {
    BelowOne(s.successfulAttacks as real, s.attackAttempts as real, Report(s).successRate);
  }

  lemma BelowOne(part: real, total: real, r: real)
    requires 0.0 <= part < total && r * total == part
    ensures 0.0 <= r < 1.0
  {
    assert r == part / total;
  }

  /** `DoubleSpendState`: the fields, updated in place. */
  class DoubleSpendState {
    var privateChainLength: int
    var honestChainLength: int
    var phase: Phase
    var targetConfirmations: int
    var attackAttempts: int
    var successfulAttacks: int
    var failedAttacks: int
    var blocksUntilSuccess: int
    var attackerRewards: real
    var honestRewards: real
    var doubleSpentValue: real

    constructor (target: int := 6)
      ensures Snapshot() == Defaults(target)
    {
      privateChainLength, honestChainLength := 0, 0;
      phase := NotStarted;
      targetConfirmations := target;
      attackAttempts, successfulAttacks, failedAttacks, blocksUntilSuccess := 0, 0, 0, 0;
      attackerRewards, honestRewards, doubleSpentValue := 0.0, 0.0, 0.0;
    }

    function Snapshot(): Attempt
      reads this
    {
      Attempt(privateChainLength, honestChainLength, phase, targetConfirmations, attackAttempts,
              successfulAttacks, failedAttacks, blocksUntilSuccess, attackerRewards, honestRewards,
              doubleSpentValue)
    }

    method StartAttack()
      modifies this
      ensures Snapshot() == Restarted(old(Snapshot()))
    {
      attackAttempts := attackAttempts + 1;
      phase := MiningPrivately;
      privateChainLength := 0;
      honestChainLength := 0;
      blocksUntilSuccess := 0;
    }

    method AttackerFoundBlock(reward: real) returns (result: Outcome)
      modifies this
      ensures (Snapshot(), result) == AttackerFound(old(Snapshot()), reward)
    {
      privateChainLength := privateChainLength + 1;
      attackerRewards := attackerRewards + reward;
      blocksUntilSuccess := blocksUntilSuccess + 1;
      if privateChainLength > honestChainLength {
        return PrivateLonger;
      }
      return ExtendPrivate;
    }

    method HonestFoundBlock(reward: real) returns (result: Outcome)
      modifies this
      ensures (Snapshot(), result) == HonestFound(old(Snapshot()), reward)
    {
      honestChainLength := honestChainLength + 1;
      honestRewards := honestRewards + reward;
      if honestChainLength > targetConfirmations * 2 {
        phase := Failed;
        failedAttacks := failedAttacks + 1;
        return AttackFailed;
      }
      if honestChainLength >= targetConfirmations {
        if privateChainLength > honestChainLength {
          phase := Succeeded;
          successfulAttacks := successfulAttacks + 1;
          doubleSpentValue := doubleSpentValue + Spent(reward, targetConfirmations);
          return AttackSucceeded;
        }
      }
      return Continue;
    }
  }

  /** `DoubleSpendMiner`: a miner that always has a double-spend attempt running. */
  class DoubleSpendMiner {
    const id: int
    const h: real
    const isAttacker: bool
    const attackType: string
    const state: DoubleSpendState

    constructor (minerId: int, hashrate: real, targetConfirmations: int := 6)
      ensures id == minerId && h == hashrate && isAttacker && attackType == "double_spend"
      ensures fresh(state) && state.Snapshot() == Constructed(targetConfirmations)
      ensures Running(state.Snapshot())
    {
      id := minerId;
      h := hashrate;
      isAttacker := true;
      attackType := "double_spend";
      state := new DoubleSpendState(targetConfirmations);
      new;
      state.StartAttack();
      ConstructedRunning(targetConfirmations);
    }

    /** Routes a found block to the running attempt, restarting it once it has ended. */
    method OnBlockFound(isAttackerBlock: bool, reward: real) returns (result: Outcome)
      modifies state
      ensures (state.Snapshot(), result) == Step(old(state.Snapshot()), Found(isAttackerBlock, reward))
      ensures Running(old(state.Snapshot())) ==> Running(state.Snapshot())
    {
      if Running(state.Snapshot()) {
        StepRunning(state.Snapshot(), Found(isAttackerBlock, reward));
      }
      if state.phase == NotStarted {
        state.StartAttack();
      }
      if isAttackerBlock {
        result := state.AttackerFoundBlock(reward);
      } else {
        result := state.HonestFoundBlock(reward);
      }
      if result == AttackSucceeded || result == AttackFailed {
        state.StartAttack();
      }
    }
  }
}
