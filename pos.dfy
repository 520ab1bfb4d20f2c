/**
 * Stake-weighted validator selection (src/blocksimpy/consensus/pos.py).
 *
 * The two random draws are parameters: `pick`, the value `random.uniform`
 * returns, and `choice`, the index `random.choice` returns when every stake
 * is zero.
 */
module ProofOfStake {
  import opened Common

  datatype Validator = Validator(id: int, stake: real)

  /** A validator's selection weight is its stake. */
  function Weight(v: Validator): (w: real)
    ensures w == v.stake
  {
    v.stake
  }

  /** The stakes of the first `n` validators, summed front to back. */
  function Prefix(vs: seq<Validator>, n: nat): real
    requires n <= |vs|
  {
    if n == 0 then 0.0 else Prefix(vs, n - 1) + vs[n - 1].stake
  }

  function TotalStake(vs: seq<Validator>): real
  {
    Prefix(vs, |vs|)
  }

  predicate NonNegative(vs: seq<Validator>)
  {
    forall i :: 0 <= i < |vs| ==> vs[i].stake >= 0.0
  }

  /**
   * The scan from position `i`: the first validator whose cumulative stake
   * reaches `pick`, or the last one when none does.
   */
  function Covering(vs: seq<Validator>, pick: real, i: nat): (k: nat)
    requires i < |vs|
    ensures i <= k < |vs|
    ensures forall j :: i < j <= k ==> pick > Prefix(vs, j)
    ensures pick <= Prefix(vs, k + 1) || k == |vs| - 1
    decreases |vs| - i
  {
    if pick <= Prefix(vs, i + 1) || i == |vs| - 1 then i else Covering(vs, pick, i + 1)
  }

  /**
   * `select_validator`: with no stake at all the drawn validator (none
   * from an empty list, where the draw raises); otherwise the first
   * validator whose cumulative stake reaches the draw, the last as fallback.
   */
  function Select(vs: seq<Validator>, pick: real, choice: nat): (r: Option<Validator>)
    requires vs != [] ==> choice < |vs|
    ensures r.None? <==> vs == []
    ensures r.Some? ==> r.value in vs
    ensures |vs| == 1 ==> r == Some(vs[0])
  {
    if vs == [] then None
    else if TotalStake(vs) == 0.0 then Some(vs[choice])
    else Some(vs[Covering(vs, pick, 0)])
  }

  /** The loop of `select_validator`, proved to compute `Select`. */
  method SelectValidator(validators: seq<Validator>, pick: real, choice: nat) returns (selected: Option<Validator>)
    requires validators != [] ==> choice < |validators|
    ensures selected == Select(validators, pick, choice)
  {
    var totalStake := 0.0;
    for k := 0 to |validators|
      invariant totalStake == Prefix(validators, k)
    {
      totalStake := totalStake + validators[k].stake;
    }
    if totalStake == 0.0 {
      if validators == [] {
        return None;
      }
      return Some(validators[choice]);
    }
    var cumulative := 0.0;
    for k := 0 to |validators|
      invariant cumulative == Prefix(validators, k)
      invariant forall j :: 0 < j <= k ==> pick > Prefix(validators, j)
    {
      cumulative := cumulative + validators[k].stake;
      if pick <= cumulative {
        CoveringIsFirst(validators, pick, k);
        return Some(validators[k]);
      }
    }
    CoveringIsFirst(validators, pick, |validators| - 1);
    return Some(validators[|validators| - 1]);
  }

  /** `Covering` from the front is the only index with its two properties. */
  lemma CoveringIsFirst(vs: seq<Validator>, pick: real, k: nat)
    requires k < |vs|
    requires forall j :: 0 < j <= k ==> pick > Prefix(vs, j)
    requires pick <= Prefix(vs, k + 1) || k == |vs| - 1
    ensures Covering(vs, pick, 0) == k
  {
  }

  /** With non-negative stakes the cumulative stake never decreases. */
  lemma {:induction false} PrefixMonotone(vs: seq<Validator>, i: nat, j: nat)
    requires NonNegative(vs) && i <= j <= |vs|
    ensures Prefix(vs, i) <= Prefix(vs, j)
    decreases j
  {
    if i < j {
      PrefixMonotone(vs, i, j - 1);
    }
  }

  /**
   * For a draw no larger than the total stake the fallback is never needed:
   * the validator chosen is the first whose cumulative stake reaches the draw.
   */
  lemma SelectFirstReaching(vs: seq<Validator>, pick: real, choice: nat)
    requires vs != [] && choice < |vs|
    requires TotalStake(vs) != 0.0 && pick <= TotalStake(vs)
    ensures var k := Covering(vs, pick, 0);
      && Select(vs, pick, choice) == Some(vs[k])
      && pick <= Prefix(vs, k + 1)
      && forall j :: 0 < j <= k ==> Prefix(vs, j) < pick
  {
  }

  /**
   * With non-negative stakes, validator `k` is chosen exactly for the draws
   * in its own slice of the cumulative stake, a slice as wide as its stake:
   * the selection is proportional to stake.
   */
  lemma CoveringSlice(vs: seq<Validator>, pick: real, k: nat)
    requires NonNegative(vs) && k < |vs|
    requires 0.0 < pick <= TotalStake(vs)
    ensures Covering(vs, pick, 0) == k <==> Prefix(vs, k) < pick <= Prefix(vs, k + 1)
    ensures Prefix(vs, k + 1) - Prefix(vs, k) == vs[k].stake
  {
    var c := Covering(vs, pick, 0);
    if c < k {
      PrefixMonotone(vs, c + 1, k);
    }
  }
}
