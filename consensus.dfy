/**
 * What the stake- and space-weighted producers share: the block-found event
 * of a round and the once-only way a selected producer fires it
 * (`produce_block` in src/blocksimpy/consensus/pos.py and pospace.py).
 */
module Consensus {
  import opened Common

  /** A round's block-found event: fired at most once, with the producer that fired it. */
  class BlockFoundEvent {
    var triggered: bool
    var winner: Option<int>

    constructor ()
      ensures !triggered && winner == None
    {
      triggered := false;
      winner := None;
    }
  }

  /**
   * The selected producer fires the event with itself, unless the event
   * has already fired; a fired event keeps its first winner.
   */
  method ProduceBlock(producerId: int, event: BlockFoundEvent)
    modifies event
    ensures old(event.triggered) ==> event.triggered && event.winner == old(event.winner)
    ensures !old(event.triggered) ==> event.triggered && event.winner == Some(producerId)
  {
    if !event.triggered {
      event.triggered := true;
      event.winner := Some(producerId);
    }
  }
}
