/**
 * The eclipse attack (src/blocksimpy/attacks/eclipse.py): the attacker
 * controls what a victim node hears, withholding honest blocks until it
 * releases the honest chain and so orphans the victim's own work.
 *
 * The transitions are first stated on a value, `View`, and the classes that
 * update the same fields in place are proved to follow them.
 */
module Eclipse {
  /** The result string a transition returns; the release names the orphaned count. */
  datatype Outcome = BlockWithheld | VictimWastedWork | ReleasedOrphaned(orphaned: int)

  /** The fields of `EclipseState`. */
  datatype View = View(
    victimNodeId: int,
    victimChainLength: int,
    honestChainLength: int,
    isEclipsed: bool,
    blocksWithheld: int,
    eclipseDurationBlocks: int,
    wastedVictimBlocks: int)

  /** The dataclass defaults. */
  const Fresh := View(0, 0, 0, false, 0, 0, 0)

  /** `eclipse_victim`: the victim is isolated and both chains start empty. */
  function Isolated(v: View, victimId: int): View
  {
    v.(victimNodeId := victimId, isEclipsed := true, victimChainLength := 0, honestChainLength := 0)
  }

  /** `on_honest_block`: an honest block the victim does not see. */
  function Withheld(v: View): (View, Outcome)
  {
    (v.(honestChainLength := v.honestChainLength + 1, blocksWithheld := v.blocksWithheld + 1,
        eclipseDurationBlocks := v.eclipseDurationBlocks + 1), BlockWithheld)
  }

  /** `on_victim_block`: a victim block on the chain that will be orphaned. */
  function Wasted(v: View): (View, Outcome)
  {
    (v.(victimChainLength := v.victimChainLength + 1, wastedVictimBlocks := v.wastedVictimBlocks + 1),
     VictimWastedWork)
  }

  /** `release_chain`: the victim adopts the honest chain. */
  function Released(v: View): (View, Outcome)
  {
    (v.(victimChainLength := v.honestChainLength), ReleasedOrphaned(v.victimChainLength))
  }

  /** `EclipseAttacker.on_block_found`. */
  function Found(v: View, isVictimBlock: bool): (View, Outcome)
  {
    if isVictimBlock then Wasted(v) else Withheld(v)
  }

  /** The `chain_difference` entry of `get_metrics`. */
  function ChainDifference(v: View): int
  {
    v.honestChainLength - v.victimChainLength
  }

  /** What can happen to the attack: a found block, or the release of the honest chain. */
  datatype Event = Block(isVictimBlock: bool) | Release

  function Apply(v: View, e: Event): (View, Outcome)
  {
    match e
    case Block(isVictimBlock) => Found(v, isVictimBlock)
    case Release => Released(v)
  }

  /** The fields after a sequence of events, in order. */
  function Replay(v: View, events: seq<Event>): View
  {
    if events == [] then v else Apply(Replay(v, events[..|events| - 1]), events[|events| - 1]).0
  }

  /** How many of the events are victim (`true`) or honest blocks. */
  function Blocks(events: seq<Event>, isVictimBlock: bool): (n: nat)
    ensures n <= |events|
  {
    if events == [] then 0
    else Blocks(events[..|events| - 1], isVictimBlock) + (if events[|events| - 1] == Block(isVictimBlock) then 1 else 0)
  }

  /** Every honest block is withheld from the victim for as long as the eclipse lasts. */
  predicate Withholding(v: View)
  {
    v.blocksWithheld == v.eclipseDurationBlocks == v.honestChainLength
  }

  /**
   * One event keeps the withholding count; an honest block widens the gap by
   * one, a victim block narrows it by one, and a release closes it,
   * reporting the victim's previous length as orphaned and leaving the
   * honest chain as it was.
   */
  lemma ApplyEffect(v: View, e: Event)
    requires Withholding(v)
    ensures var (r, outcome) := Apply(v, e);
      && Withholding(r)
      && r.honestChainLength == v.honestChainLength + (if e == Block(false) then 1 else 0)
      && r.wastedVictimBlocks == v.wastedVictimBlocks + (if e == Block(true) then 1 else 0)
      && ChainDifference(r) == (match e
           case Block(isVictimBlock) => ChainDifference(v) + (if isVictimBlock then -1 else 1)
           case Release => 0)
      && (e == Release <==> outcome == ReleasedOrphaned(v.victimChainLength))
  {
  }

  /**
   * Through any sequence of events after construction, the withholding count
   * holds, the honest chain counts the honest blocks and the wasted count the
   * victim blocks, and the victim stays as eclipsed as it was made.
   */
  lemma {:induction false} ReplayWithholding(start: View, events: seq<Event>)
    requires Withholding(start) && start.honestChainLength == 0 && start.wastedVictimBlocks == 0
    ensures var v := Replay(start, events);
      && Withholding(v)
      && v.honestChainLength == Blocks(events, false)
      && v.wastedVictimBlocks == Blocks(events, true)
      && v.isEclipsed == start.isEclipsed && v.victimNodeId == start.victimNodeId
  {
    if events != [] {
      var init := events[..|events| - 1];
      ReplayWithholding(start, init);
      ApplyEffect(Replay(start, init), events[|events| - 1]);
    }
  }

  /** The dictionary `get_metrics` returns. */
  datatype Metrics = Metrics(
    attackType: string,
    victimNodeId: int,
    isEclipsed: bool,
    blocksWithheld: int,
    wastedVictimBlocks: int,
    eclipseDurationBlocks: int,
    chainDifference: int)

  function Report(v: View): Metrics
  {
    Metrics("eclipse", v.victimNodeId, v.isEclipsed, v.blocksWithheld, v.wastedVictimBlocks,
            v.eclipseDurationBlocks, ChainDifference(v))
  }

  /** The state right after `EclipseAttacker.__init__`. */
  function Constructed(victimNodeIds: seq<int>): View
  {
    if victimNodeIds != [] then Isolated(Fresh, victimNodeIds[0]) else Fresh
  }

  /**
   * Construction eclipses the first listed victim, accepts an empty list by
   * eclipsing no one, and starts with nothing withheld.
   */
  lemma ConstructedView(victimNodeIds: seq<int>)
    ensures var v := Constructed(victimNodeIds);
      && (v.isEclipsed <==> victimNodeIds != [])
      && (victimNodeIds != [] ==> v.victimNodeId == victimNodeIds[0])
      && Withholding(v) && v.honestChainLength == 0 && v.wastedVictimBlocks == 0
      && Report(v).chainDifference == 0
  {
  }

  /** `EclipseState`: the fields, updated in place. */
  class EclipseState {
    var victimNodeId: int
    var victimChainLength: int
    var honestChainLength: int
    var isEclipsed: bool
    var blocksWithheld: int
    var eclipseDurationBlocks: int
    var wastedVictimBlocks: int

    constructor ()
      ensures Snapshot() == Fresh
    {
      victimNodeId, victimChainLength, honestChainLength := 0, 0, 0;
      isEclipsed := false;
      blocksWithheld, eclipseDurationBlocks, wastedVictimBlocks := 0, 0, 0;
    }

    function Snapshot(): View
      reads this
    {
      View(victimNodeId, victimChainLength, honestChainLength, isEclipsed, blocksWithheld,
           eclipseDurationBlocks, wastedVictimBlocks)
    }

    method EclipseVictim(victimId: int)
      modifies this
      ensures Snapshot() == Isolated(old(Snapshot()), victimId)
    {
      victimNodeId := victimId;
      isEclipsed := true;
      victimChainLength := 0;
      honestChainLength := 0;
    }

    method OnHonestBlock() returns (outcome: Outcome)
      modifies this
      ensures (Snapshot(), outcome) == Withheld(old(Snapshot()))
    {
      honestChainLength := honestChainLength + 1;
      blocksWithheld := blocksWithheld + 1;
      eclipseDurationBlocks := eclipseDurationBlocks + 1;
      return BlockWithheld;
    }

    method OnVictimBlock() returns (outcome: Outcome)
      modifies this
      ensures (Snapshot(), outcome) == Wasted(old(Snapshot()))
    {
      victimChainLength := victimChainLength + 1;
      wastedVictimBlocks := wastedVictimBlocks + 1;
      return VictimWastedWork;
    }

    method ReleaseChain() returns (outcome: Outcome)
      modifies this
      ensures (Snapshot(), outcome) == Released(old(Snapshot()))
    {
      var orphaned := victimChainLength;
      victimChainLength := honestChainLength;
      return ReleasedOrphaned(orphaned);
    }
  }

  /** `EclipseAttacker`: filters what the victims hear. */
  class EclipseAttacker {
    const victimIds: set<int>
    const state: EclipseState
    const attackType: string

    constructor (victimNodeIds: seq<int>)
      ensures victimIds == set i | i in victimNodeIds
      ensures attackType == "eclipse"
      ensures fresh(state) && state.Snapshot() == Constructed(victimNodeIds)
    {
      victimIds := set i | i in victimNodeIds;
      attackType := "eclipse";
      state := new EclipseState();
      new;
      if victimNodeIds != [] {
        state.EclipseVictim(victimNodeIds[0]);
      }
    }

    /** Non-victims get every block; a victim gets only the attacker's blocks. */
    function ShouldPropagateTo(nodeId: int, blockFromAttacker: bool): (r: bool)
      ensures nodeId !in victimIds ==> r
      ensures nodeId in victimIds ==> (r <==> blockFromAttacker)
    {
      if nodeId !in victimIds then true else blockFromAttacker
    }

    method OnBlockFound(isVictimBlock: bool) returns (outcome: Outcome)
      modifies state
      ensures (state.Snapshot(), outcome) == Found(old(state.Snapshot()), isVictimBlock)
    {
      if isVictimBlock {
        outcome := state.OnVictimBlock();
      } else {
        outcome := state.OnHonestBlock();
      }
    }
  }
}
