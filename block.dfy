/**
 * A block: its id, transaction count, size in bytes, time since the previous
 * block and its creation time (src/blocksimpy/core/block.py).
 */
module Blocks {
  import opened Common
  import opened Formatting

  /** Bytes counted for each transaction of a block. */
  const TxSize: int := 256

  datatype Block = Block(id: int, tx: int, size: int, dt: real, timestamp: real)

  /** Size in bytes of a block holding `txCount` transactions. */
  function BlockSize(txCount: int): int
  {
    HeaderSize + txCount * TxSize
  }

  /**
   * The `Block` constructor. When no timestamp is given the source reads the
   * wall clock; that reading is the parameter `clock`.
   */
  function NewBlock(blockId: int, txCount: int, timeSinceLast: real, timestamp: Option<real>, clock: real): (b: Block)
    ensures b.id == blockId && b.tx == txCount && b.dt == timeSinceLast
    ensures b.size == BlockSize(txCount)
    ensures timestamp.Some? ==> b.timestamp == timestamp.value
    ensures timestamp.None? ==> b.timestamp == clock
  {
    Block(blockId, txCount, BlockSize(txCount), timeSinceLast,
          if timestamp.Some? then timestamp.value else clock)
  }

  /** A block without transactions is exactly one header long. */
  lemma EmptyBlockIsHeader()
    ensures BlockSize(0) == HeaderSize
  {
  }

  /** Every extra transaction makes the block strictly larger. */
  lemma SizeStrictlyIncreasing(a: int, b: int)
    requires a < b
    ensures BlockSize(a) < BlockSize(b)
  {
  }

  /** The size determines the transaction count: the byte count can be read back. */
  lemma SizeRoundTrip(txCount: int)
    ensures (BlockSize(txCount) - HeaderSize) / TxSize == txCount
  {
  }
}
