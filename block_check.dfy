/**
 * Block-count estimates and the configuration check that may rewrite the
 * block limit (src/blocksimpy/utils/block_check.py).
 */
module BlockCheck {
  import opened Common
  import opened ConfigLoader
  import opened Formatting

  /** `(a + b - 1) // b` is the ceiling of `a / b` for positive operands. */
  lemma CeilingDivision(a: int, b: int)
    requires a > 0 && b > 0
    ensures var r := (a + b - 1) / b;
      r >= 1 && r * b >= a && (r - 1) * b < a
  {
    var q, m := (a + b - 1) / b, (a + b - 1) % b;
    assert q * b + m == a + b - 1 && 0 <= m < b;
    assert (q - 1) * b == q * b - b;
  }

  /** Fewest blocks of `blockSize` transactions that hold `totalTransactions` transactions. */
  function CalculateExpectedBlocks(totalTransactions: int, blockSize: int): (r: int)
    ensures totalTransactions <= 0 || blockSize <= 0 ==> r == 0
    ensures totalTransactions > 0 && blockSize > 0 ==>
      r >= 1 && r * blockSize >= totalTransactions && (r - 1) * blockSize < totalTransactions
  {
    if totalTransactions <= 0 || blockSize <= 0 then 0
    else
      CeilingDivision(totalTransactions, blockSize);
      (totalTransactions + blockSize - 1) / blockSize
  }

  /** The source's own examples: 10000 transactions in blocks of 4096 need 3 blocks, 4096 need 1. */
  lemma ExpectedBlocksExamples()
    ensures CalculateExpectedBlocks(10000, 4096) == 3
    ensures CalculateExpectedBlocks(4096, 4096) == 1
  {
  }

  /** The estimate paired with the configured limit, which is passed through untouched. */
  function ValidateBlocksCount(totalTransactions: int, blockSize: int, actualBlocks: Option<int>): (r: (int, Option<int>))
    ensures r.1 == actualBlocks
    ensures totalTransactions > 0 && blockSize > 0 ==> r.0 * blockSize >= totalTransactions
    ensures totalTransactions <= 0 ==> r.0 == 0
  {
    (CalculateExpectedBlocks(totalTransactions, blockSize), actualBlocks)
  }

  /** The dictionary `validate_configuration` returns; `warning` stands for the message being present. */
  datatype Validation = Validation(
    expectedBlocks: int,
    totalTransactions: int,
    blocks: Option<int>,
    originalLimit: Option<int>,
    calculatedFromYears: Option<int>,
    autoAdjusted: bool,
    warning: bool)

  /** The years-to-blocks conversion divides by a zero block time. */
  datatype ValidationError = ZeroDivision

  /** Python truthiness of an optional block count. */
  predicate Nonzero(blocks: Option<int>)
  {
    blocks.Some? && blocks.value != 0
  }

  /** The computation of `validate_configuration` on the configuration entries it reads. */
  function Validate(wallets: int, txPerWallet: int, blockSize: int, blocks: Option<int>, years: Value, blocktime: real):
    (r: Result<Validation, ValidationError>)
    requires years.Null? || IsNumber(years)
    ensures r.Failure? <==> blocks.None? && Truthy(years) && blocktime == 0.0
    ensures r.Success? ==>
      var v := r.value;
      && v.totalTransactions == wallets * txPerWallet
      && v.expectedBlocks == CalculateExpectedBlocks(wallets * txPerWallet, blockSize)
      && (v.calculatedFromYears.Some? <==> blocks.None? && Truthy(years))
      && (v.calculatedFromYears.Some? ==>
            v.calculatedFromYears.value == Truncate(NumberOf(years) * Year as real / blocktime))
      && (blocks.Some? ==> v.blocks == blocks && v.originalLimit == blocks)
      && (blocks.None? && !Truthy(years) ==> v.blocks.None?)
      && (v.autoAdjusted <==>
            v.calculatedFromYears.Some? && v.totalTransactions > 0
            && v.calculatedFromYears.value > 3 * v.expectedBlocks)
      && (v.autoAdjusted ==> v.blocks == Some(v.expectedBlocks))
      && (v.calculatedFromYears.Some? && !v.autoAdjusted ==> v.blocks == v.calculatedFromYears)
      && (v.warning <==> Nonzero(v.blocks) && v.blocks.value < v.expectedBlocks)
  {
    var total := wallets * txPerWallet;
    var expected := CalculateExpectedBlocks(total, blockSize);
    if blocks.None? && Truthy(years) && blocktime == 0.0 then
      Failure(ZeroDivision)
    else
      var fromYears: Option<int> :=
        if blocks.None? && Truthy(years) then Some(Truncate(NumberOf(years) * Year as real / blocktime)) else None;
      var userSpecified := blocks.Some?;
      var limit := if fromYears.Some? then fromYears else blocks;
      var adjust := Nonzero(limit) && limit.value > expected * 3 && !userSpecified && total > 0;
      var final := if adjust then Some(expected) else limit;
      Success(Validation(
        expected, total, final,
        if adjust then limit else blocks,
        fromYears, adjust,
        Nonzero(final) && final.value < expected))
  }

  /** The configuration entries `validate_configuration` reads exist and have the types it uses. */
  predicate ValidationInputs(c: Sections)
  {
    && "transactions" in c && "mining" in c && "simulation" in c
    && "wallets" in c["transactions"] && c["transactions"]["wallets"].Int?
    && "transactions_per_wallet" in c["transactions"] && c["transactions"]["transactions_per_wallet"].Int?
    && "blocksize" in c["mining"] && c["mining"]["blocksize"].Int?
    && "blocks" in c["simulation"] && (c["simulation"]["blocks"].Null? || c["simulation"]["blocks"].Int?)
    && "years" in c["simulation"] && (c["simulation"]["years"].Null? || IsNumber(c["simulation"]["years"]))
    && (c["simulation"]["blocks"].Null? && Truthy(c["simulation"]["years"]) ==>
          "blocktime" in c["mining"] && IsNumber(c["mining"]["blocktime"]))
  }

  function BlocksEntry(c: Sections): Option<int>
    requires ValidationInputs(c)
  {
    if c["simulation"]["blocks"].Int? then Some(c["simulation"]["blocks"].i) else None
  }

  /** The block time, read only when the years conversion needs it. */
  function BlocktimeEntry(c: Sections): real
    requires ValidationInputs(c)
  {
    if BlocksEntry(c).None? && Truthy(c["simulation"]["years"]) then NumberOf(c["mining"]["blocktime"]) else 1.0
  }

  /**
   * `validate_configuration`: computes the estimate and, when the limit came
   * from `years`, writes the resulting limit back into `simulation.blocks`.
   */
  method ValidateConfiguration(config: Config) returns (r: Result<Validation, ValidationError>)
    requires ValidationInputs(config.sections)
    modifies config
    ensures var c := old(config.sections);
      r == Validate(c["transactions"]["wallets"].i, c["transactions"]["transactions_per_wallet"].i,
                    c["mining"]["blocksize"].i, BlocksEntry(c), c["simulation"]["years"], BlocktimeEntry(c))
    ensures var c := old(config.sections);
      config.sections ==
        if r.Success? && r.value.calculatedFromYears.Some? then
          c["simulation" := c["simulation"]["blocks" := Int(r.value.blocks.value)]]
        else c
  {
    var c: Sections := config.sections;
    var wallets := c["transactions"]["wallets"].i;
    var txPerWallet := c["transactions"]["transactions_per_wallet"].i;
    var totalTransactions := wallets * txPerWallet;
    var blockSize := c["mining"]["blocksize"].i;
    var expected := CalculateExpectedBlocks(totalTransactions, blockSize);

    var blocks := BlocksEntry(c);
    var originalLimit := blocks;
    var calculatedFromYears: Option<int> := None;
    var userSpecified := blocks.Some?;
    var years := c["simulation"]["years"];
    if blocks.None? && Truthy(years) {
      var blocktime := NumberOf(c["mining"]["blocktime"]);
      if blocktime == 0.0 {
        r := Failure(ZeroDivision);
        return;
      }
      var calculated := Truncate(NumberOf(years) * Year as real / blocktime);
      config.sections := config.sections["simulation" := config.sections["simulation"]["blocks" := Int(calculated)]];
      blocks := Some(calculated);
      calculatedFromYears := Some(calculated);
      userSpecified := false;
    }

    var autoAdjusted := false;
    if Nonzero(blocks) && blocks.value > expected * 3 && !userSpecified && totalTransactions > 0 {
      originalLimit := blocks;
      blocks := Some(expected);
      config.sections := config.sections["simulation" := config.sections["simulation"]["blocks" := Int(expected)]];
      assert config.sections == c["simulation" := c["simulation"]["blocks" := Int(expected)]] by {
        assert config.sections["simulation"] == c["simulation"]["blocks" := Int(expected)];
      }
      autoAdjusted := true;
    }

    var warning := Nonzero(blocks) && blocks.value < expected;
    r := Success(Validation(expected, totalTransactions, blocks, originalLimit, calculatedFromYears, autoAdjusted, warning));
  }

  /** A limit the user gave is never rewritten: the configuration comes back unchanged. */
  lemma UserLimitNeverChanged(wallets: int, txPerWallet: int, blockSize: int, limit: int, years: Value, blocktime: real)
    requires years.Null? || IsNumber(years)
    ensures var r := Validate(wallets, txPerWallet, blockSize, Some(limit), years, blocktime);
      r.Success? && r.value.blocks == Some(limit) && !r.value.autoAdjusted && r.value.calculatedFromYears.None?
  {
  }
}
