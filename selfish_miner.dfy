/**
 * The selfish-mining attack (src/blocksimpy/attacks/selfish_miner.py): the
 * attacker keeps the blocks it finds private and answers each honest block
 * by publishing as much of its lead as it takes to orphan that block.
 *
 * The transitions are first stated on a value, `Tally`, and the class that
 * updates the same counters in place is proved to follow them.
 */
module SelfishMining {
  /** The action string a transition returns. */
  datatype Action = ExtendPrivate | AdoptHonest | PublishOne | PublishAll

  /** The counters of `SelfishMinerState`. */
  datatype Tally = Tally(
    privateChainLength: int,
    publicChainLength: int,
    attackerBlocksWon: int,
    honestBlocksWon: int,
    wastedHonestBlocks: int,
    attackerRewards: real,
    honestRewards: real,
    lead: int)

  /** The dataclass defaults. */
  const Fresh := Tally(0, 0, 0, 0, 0, 0.0, 0.0, 0)

  /** One found block, as `on_block_found` receives it. */
  datatype Found = Found(byAttacker: bool, reward: real)

  /** `attacker_found_block`: the block is kept private; the reward is not booked. */
  function AttackerFound(t: Tally): Tally
  {
    t.(privateChainLength := t.privateChainLength + 1, lead := t.lead + 1)
  }

  /**
   * `honest_found_block`: the public chain grows; without a lead the honest
   * block wins, with a lead of one or two the whole private chain is
   * published and wins, and with a longer lead one private block is
   * published and the lead shrinks by one.
   */
  function HonestFound(t: Tally, reward: real): (Tally, Action)
  {
    var p := t.(publicChainLength := t.publicChainLength + 1);
    if p.lead == 0 then
      (p.(honestBlocksWon := p.honestBlocksWon + 1, honestRewards := p.honestRewards + reward), AdoptHonest)
    else if p.lead == 1 then
      (p.(attackerBlocksWon := p.attackerBlocksWon + 1, attackerRewards := p.attackerRewards + reward,
          wastedHonestBlocks := p.wastedHonestBlocks + 1, privateChainLength := 0, lead := 0), PublishOne)
    else if p.lead == 2 then
      (p.(attackerBlocksWon := p.attackerBlocksWon + 2, attackerRewards := p.attackerRewards + reward * 2.0,
          wastedHonestBlocks := p.wastedHonestBlocks + 1, privateChainLength := 0, lead := 0), PublishAll)
    else
      (p.(attackerBlocksWon := p.attackerBlocksWon + 1, attackerRewards := p.attackerRewards + reward,
          wastedHonestBlocks := p.wastedHonestBlocks + 1, privateChainLength := p.privateChainLength - 1,
          lead := p.lead - 1), PublishOne)
  }

  /** `SelfishMiner.on_block_found`. */
  function Step(t: Tally, f: Found): (Tally, Action)
  {
    if f.byAttacker then (AttackerFound(t), ExtendPrivate) else HonestFound(t, f.reward)
  }

  /** The counters after a sequence of found blocks, in order. */
  function Replay(t: Tally, found: seq<Found>): Tally
  {
    if found == [] then t else Step(Replay(t, found[..|found| - 1]), found[|found| - 1]).0
  }

  /** How many of the found blocks the attacker (`true`) or the honest miners found. */
  function CountBy(found: seq<Found>, byAttacker: bool): (n: nat)
    ensures n <= |found|
  {
    if found == [] then 0
    else CountBy(found[..|found| - 1], byAttacker) + (if found[|found| - 1].byAttacker == byAttacker then 1 else 0)
  }

  /**
   * The invariants of the attack: the lead is the private chain's length,
   * never negative, and every public block was either won by the honest
   * miners or orphaned.
   */
  predicate Consistent(t: Tally)
  {
    && t.lead == t.privateChainLength >= 0
    && t.honestBlocksWon + t.wastedHonestBlocks == t.publicChainLength
    && t.attackerBlocksWon >= 0 && t.honestBlocksWon >= 0 && t.wastedHonestBlocks >= 0
  }

  /**
   * Every transition keeps the invariants, moves the public chain only on
   * honest blocks and keeps the honest miners' revenue unless they win.
   */
  lemma StepConsistent(t: Tally, f: Found)
    requires Consistent(t)
    ensures var (r, action) := Step(t, f);
      && Consistent(r)
      && r.publicChainLength == t.publicChainLength + (if f.byAttacker then 0 else 1)
      && (action == AdoptHonest <==> !f.byAttacker && t.lead == 0)
      && (action != AdoptHonest ==> r.honestRewards == t.honestRewards && r.honestBlocksWon == t.honestBlocksWon)
  {
  }

  /**
   * From the defaults, every block found is accounted for: an attacker block
   * has either been won or is still private, and an honest block has either
   * been won or orphaned.
   */
  lemma {:induction false} ReplayAccounts(found: seq<Found>)
    ensures var t := Replay(Fresh, found);
      && Consistent(t)
      && t.attackerBlocksWon + t.privateChainLength == CountBy(found, true)
      && t.honestBlocksWon + t.wastedHonestBlocks == CountBy(found, false)
  {
    if found != [] {
      var init := found[..|found| - 1];
      ReplayAccounts(init);
      StepConsistent(Replay(Fresh, init), found[|found| - 1]);
    }
  }

  /** The revenue of `n` blocks at a constant reward. */
  function Earned(n: int, reward: real): real
  {
    n as real * reward
  }

  /** Revenue that matches the blocks won stays matched through one step at the same reward. */
  lemma StepRewards(t: Tally, f: Found)
    requires t.attackerRewards == Earned(t.attackerBlocksWon, f.reward)
    requires t.honestRewards == Earned(t.honestBlocksWon, f.reward)
    ensures var r := Step(t, f).0;
      && r.attackerRewards == Earned(r.attackerBlocksWon, f.reward)
      && r.honestRewards == Earned(r.honestBlocksWon, f.reward)
  {
    WonRewards(t.attackerBlocksWon, f.reward);
    WonRewards(t.honestBlocksWon, f.reward);
  }

  /** Winning one or two more blocks adds one or two rewards. */
  lemma WonRewards(n: int, reward: real)
    ensures Earned(n + 1, reward) == Earned(n, reward) + reward
    ensures Earned(n + 2, reward) == Earned(n, reward) + reward * 2.0
  {
  }

  /**
   * With a constant block reward, each side's revenue is the reward times
   * the blocks it has won.
   */
  lemma {:induction false} ReplayRewards(found: seq<Found>, reward: real)
    requires forall i :: 0 <= i < |found| ==> found[i].reward == reward
    ensures var t := Replay(Fresh, found);
      && t.attackerRewards == Earned(t.attackerBlocksWon, reward)
      && t.honestRewards == Earned(t.honestBlocksWon, reward)
  {
    if found != [] {
      var init := found[..|found| - 1];
      ReplayRewards(init, reward);
      StepRewards(Replay(Fresh, init), found[|found| - 1]);
    }
  }

  /** The dictionary `get_metrics` returns. */
  datatype Metrics = Metrics(
    attackerBlocks: int,
    honestBlocks: int,
    wastedBlocks: int,
    attackerShare: real,
    attackerRewards: real,
    honestRewards: real,
    privateChainLength: int)

  /** The attacker's share of the blocks won, 0 before any block is won. */
  function AttackerShare(attackerWon: int, honestWon: int): (r: real)
    ensures attackerWon + honestWon > 0 ==> r * (attackerWon + honestWon) as real == attackerWon as real
    ensures attackerWon + honestWon <= 0 ==> r == 0.0
  {
    var total := attackerWon + honestWon;
    if total > 0 then attackerWon as real / total as real else 0.0
  }

  /** `get_metrics`. */
  function Report(t: Tally): Metrics
  {
    Metrics(t.attackerBlocksWon, t.honestBlocksWon, t.wastedHonestBlocks,
            AttackerShare(t.attackerBlocksWon, t.honestBlocksWon),
            t.attackerRewards, t.honestRewards, t.privateChainLength)
  }

  /** With the invariants, the attacker's share is a fraction. */
  lemma ShareBounds(t: Tally)
    requires Consistent(t)
    ensures 0.0 <= Report(t).attackerShare <= 1.0
    ensures t.attackerBlocksWon + t.honestBlocksWon == 0 ==> Report(t).attackerShare == 0.0
    ensures t.honestBlocksWon == 0 < t.attackerBlocksWon ==> Report(t).attackerShare == 1.0
  {
    var total := t.attackerBlocksWon + t.honestBlocksWon;
    if total > 0 {
      FractionBounds(t.attackerBlocksWon as real, total as real, Report(t).attackerShare);
    }
  }

  lemma FractionBounds(part: real, total: real, r: real)
    requires 0.0 <= part <= total && total > 0.0 && r * total == part
    ensures 0.0 <= r <= 1.0
    ensures part == total ==> r == 1.0
  {
    assert r == part / total;
  }

  /** `SelfishMinerState`: the counters, updated in place. */
  class SelfishMinerState {
    var privateChainLength: int
    var publicChainLength: int
    var attackerBlocksWon: int
    var honestBlocksWon: int
    var wastedHonestBlocks: int
    var attackerRewards: real
    var honestRewards: real
    var lead: int

    constructor ()
      ensures Snapshot() == Fresh
    {
      privateChainLength, publicChainLength := 0, 0;
      attackerBlocksWon, honestBlocksWon, wastedHonestBlocks := 0, 0, 0;
      attackerRewards, honestRewards := 0.0, 0.0;
      lead := 0;
    }

    function Snapshot(): Tally
      reads this
    {
      Tally(privateChainLength, publicChainLength, attackerBlocksWon, honestBlocksWon,
            wastedHonestBlocks, attackerRewards, honestRewards, lead)
    }

    method AttackerFoundBlock(reward: real) returns (action: Action)
      modifies this
      ensures Snapshot() == AttackerFound(old(Snapshot())) && action == ExtendPrivate
    {
      privateChainLength := privateChainLength + 1;
      lead := lead + 1;
      return ExtendPrivate;
    }

    method HonestFoundBlock(reward: real) returns (action: Action)
      modifies this
      ensures (Snapshot(), action) == HonestFound(old(Snapshot()), reward)
    {
      publicChainLength := publicChainLength + 1;
      if lead == 0 {
        honestBlocksWon := honestBlocksWon + 1;
        honestRewards := honestRewards + reward;
        return AdoptHonest;
      } else if lead == 1 {
        attackerBlocksWon := attackerBlocksWon + 1;
        attackerRewards := attackerRewards + reward;
        wastedHonestBlocks := wastedHonestBlocks + 1;
        privateChainLength := 0;
        lead := 0;
        return PublishOne;
      } else if lead == 2 {
        attackerBlocksWon := attackerBlocksWon + 2;
        attackerRewards := attackerRewards + reward * 2.0;
        wastedHonestBlocks := wastedHonestBlocks + 1;
        privateChainLength := 0;
        lead := 0;
        return PublishAll;
      } else {
        attackerBlocksWon := attackerBlocksWon + 1;
        attackerRewards := attackerRewards + reward;
        wastedHonestBlocks := wastedHonestBlocks + 1;
        privateChainLength := privateChainLength - 1;
        lead := lead - 1;
        return PublishOne;
      }
    }
  }

  /** `SelfishMiner`: a miner carrying the attack state. */
  class SelfishMiner {
    const id: int
    const h: real
    const state: SelfishMinerState

    constructor (minerId: int, hashrate: real)
      ensures id == minerId && h == hashrate
      ensures fresh(state) && state.Snapshot() == Fresh && Consistent(state.Snapshot())
    {
      id := minerId;
      h := hashrate;
      state := new SelfishMinerState();
    }

    /** Routes a found block to the matching transition; the invariants are kept. */
    method OnBlockFound(isAttackerBlock: bool, reward: real) returns (action: Action)
      modifies state
      ensures (state.Snapshot(), action) == Step(old(state.Snapshot()), Found(isAttackerBlock, reward))
      ensures Consistent(old(state.Snapshot())) ==> Consistent(state.Snapshot())
    {
      if Consistent(state.Snapshot()) {
        StepConsistent(state.Snapshot(), Found(isAttackerBlock, reward));
      }
      if isAttackerBlock {
        action := state.AttackerFoundBlock(reward);
      } else {
        action := state.HonestFoundBlock(reward);
      }
    }
  }
}
