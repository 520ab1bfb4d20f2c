/** End-of-run metrics and the network counters (src/blocksimpy/simulation/metrics.py). */
module Metrics {
  import opened Formatting

  /** Average block time: total time over blocks, 0 without blocks. */
  function AvgBlockTime(totalTime: real, blockCount: int): (r: real)
    ensures blockCount > 0 ==> r * blockCount as real == totalTime
    ensures blockCount <= 0 ==> r == 0.0
  {
    if blockCount > 0 then totalTime / blockCount as real else 0.0
  }

  /** Throughput: transactions over total time, 0 unless time is positive. */
  function TransactionsPerSecond(totalTx: int, totalTime: real): (r: real)
    ensures totalTime > 0.0 ==> r * totalTime == totalTx as real
    ensures totalTime <= 0.0 ==> r == 0.0
  {
    if totalTime > 0.0 then totalTx as real / totalTime else 0.0
  }

  /** The inputs for which `finalize` recomputes the inflation rate. */
  predicate InflationDefined(blockCount: int, totalTime: real, lastCoins: real, lastT: real)
  {
    blockCount > 0 && totalTime > 0.0 && lastCoins > 0.0 && totalTime - lastT > 0.0
  }

  /**
   * Annualised inflation in percent, from the coins issued since the last
   * report; `previous` is kept when any guard fails.
   */
  function InflationRate(previous: real, blockCount: int, totalTime: real, totalCoins: real, lastCoins: real, lastT: real): (r: real)
    ensures InflationDefined(blockCount, totalTime, lastCoins, lastT) ==>
      r * lastCoins * (totalTime - lastT) == (totalCoins - lastCoins) * Year as real * 100.0
    ensures !InflationDefined(blockCount, totalTime, lastCoins, lastT) ==> r == previous
  {
    if InflationDefined(blockCount, totalTime, lastCoins, lastT) then
      var coinsIssued := totalCoins - lastCoins;
      var period := totalTime - lastT;
      Scale(coinsIssued, lastCoins, period);
      (coinsIssued / lastCoins) * (Year as real / period) * 100.0
    else previous
  }

  lemma Scale(c: real, l: real, p: real)
    requires l > 0.0 && p > 0.0
    ensures (c / l) * (Year as real / p) * 100.0 * l * p == c * Year as real * 100.0
  {
    var y := Year as real;
    calc {
      (c / l) * (y / p) * 100.0 * l * p;
      ((c / l) * l) * ((y / p) * p) * 100.0;
      c * y * 100.0;
    }
  }

  /** The exported dictionary of `to_dict`. */
  datatype Report = Report(
    networkDataBytes: int,
    networkDataMb: real,
    ioRequests: int,
    simulatedTimeSeconds: real,
    totalBlocks: int,
    avgBlockTime: real,
    tps: real,
    inflationRatePercent: real,
    totalTransactions: int,
    totalCoinsIssued: real)

  class SimulationMetrics {
    var networkData: int
    var ioRequests: int
    var finalSimulatedTime: real
    var finalBlocks: int
    var avgBlockTime: real
    var transactionsPerSecond: real
    var inflationRate: real

    constructor ()
      ensures networkData == 0 && ioRequests == 0
      ensures finalSimulatedTime == 0.0 && finalBlocks == 0
      ensures avgBlockTime == 0.0 && transactionsPerSecond == 0.0 && inflationRate == 0.0
    {
      networkData, ioRequests := 0, 0;
      finalSimulatedTime, finalBlocks := 0.0, 0;
      avgBlockTime, transactionsPerSecond, inflationRate := 0.0, 0.0, 0.0;
    }

    /** Adds one propagation's bytes and I/O operations; nothing else changes. */
    method RecordNetworkIo(bytesSent: int, ioOps: int := 1)
      modifies this
      ensures networkData == old(networkData) + bytesSent
      ensures ioRequests == old(ioRequests) + ioOps
      ensures finalSimulatedTime == old(finalSimulatedTime) && finalBlocks == old(finalBlocks)
      ensures avgBlockTime == old(avgBlockTime) && transactionsPerSecond == old(transactionsPerSecond)
      ensures inflationRate == old(inflationRate)
    {
      networkData := networkData + bytesSent;
      ioRequests := ioRequests + ioOps;
    }

    /** Records the run's end and computes the derived rates; network counters are kept. */
    method Finalize(totalTime: real, blockCount: int, totalTx: int, totalCoins: real, lastCoins: real, lastT: real)
      modifies this
      ensures finalSimulatedTime == totalTime && finalBlocks == blockCount
      ensures avgBlockTime == AvgBlockTime(totalTime, blockCount)
      ensures transactionsPerSecond == TransactionsPerSecond(totalTx, totalTime)
      ensures inflationRate == InflationRate(old(inflationRate), blockCount, totalTime, totalCoins, lastCoins, lastT)
      ensures networkData == old(networkData) && ioRequests == old(ioRequests)
    {
      finalSimulatedTime := totalTime;
      finalBlocks := blockCount;
      avgBlockTime := if blockCount > 0 then totalTime / blockCount as real else 0.0;
      transactionsPerSecond := if totalTime > 0.0 then totalTx as real / totalTime else 0.0;
      if blockCount > 0 && totalTime > 0.0 && lastCoins > 0.0 {
        var coinsIssued := totalCoins - lastCoins;
        var period := totalTime - lastT;
        if period > 0.0 {
          inflationRate := (coinsIssued / lastCoins) * (Year as real / period) * 100.0;
        }
      }
    }

    /** The export dictionary: megabytes are bytes over 10^6, every other key a copy. */
    function ToDict(totalTx: int, totalCoins: real): (d: Report)
      reads this
      ensures d.networkDataMb * 1000000.0 == networkData as real
      ensures d.networkDataBytes == networkData && d.ioRequests == ioRequests
      ensures d.simulatedTimeSeconds == finalSimulatedTime && d.totalBlocks == finalBlocks
      ensures d.avgBlockTime == avgBlockTime && d.tps == transactionsPerSecond
      ensures d.inflationRatePercent == inflationRate
      ensures d.totalTransactions == totalTx && d.totalCoinsIssued == totalCoins
    {
      Report(networkData, networkData as real / 1000000.0, ioRequests, finalSimulatedTime, finalBlocks,
             avgBlockTime, transactionsPerSecond, inflationRate, totalTx, totalCoins)
    }
  }
}
