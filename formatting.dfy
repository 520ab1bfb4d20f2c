/** The two constants of src/blockchain_simulator/utils/formatting.py the model needs. */
module Formatting {
  /** Bytes of a block header. */
  const HeaderSize: int := 1024
  /** Seconds per year. */
  const Year: int := 365 * 24 * 3600
}
