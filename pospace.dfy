/**
 * Space-weighted farmer selection (src/blocksimpy/consensus/pospace.py).
 *
 * `random.choices` is modelled as CPython 3.9 and later implement it for
 * one pick: cumulative weights, a draw `u` from `random()` scaled by the
 * last of them, and `bisect_right` over all positions but the last. The
 * draw `u` is a parameter.
 */
module ProofOfSpace {
  import opened Common

  datatype Farmer = Farmer(id: int, space: real)

  /** A farmer's selection weight is its allocated space. */
  function Weight(f: Farmer): (w: real)
    ensures w == f.space
  {
    f.space
  }

  /** `[f.get_weight() for f in farmers]`. */
  function Weights(farmers: seq<Farmer>): (ws: seq<real>)
    ensures |ws| == |farmers|
    ensures forall i :: 0 <= i < |farmers| ==> ws[i] == Weight(farmers[i])
  {
    if farmers == [] then [] else Weights(farmers[..|farmers| - 1]) + [Weight(farmers[|farmers| - 1])]
  }

  /** `sum(ws)`, added front to back. */
  function Sum(ws: seq<real>): real
  {
    if ws == [] then 0.0 else Sum(ws[..|ws| - 1]) + ws[|ws| - 1]
  }

  /** `[w / total for w in ws]`. */
  function Probabilities(ws: seq<real>, total: real): (ps: seq<real>)
    requires total != 0.0
    ensures |ps| == |ws|
    ensures forall i :: 0 <= i < |ws| ==> Scaled(ps[i], total) == ws[i]
  {
    if ws == [] then [] else Probabilities(ws[..|ws| - 1], total) + [ws[|ws| - 1] / total]
  }

  /** `itertools.accumulate(ws)`: the running sums; the last one is the sum. */
  function Accumulate(ws: seq<real>): (cum: seq<real>)
    ensures |cum| == |ws|
    ensures ws != [] ==> cum[|ws| - 1] == Sum(ws)
  {
    if ws == [] then [] else Accumulate(ws[..|ws| - 1]) + [Sum(ws)]
  }

  /** Running sum `i` is the sum of the first `i + 1` weights. */
  lemma {:induction false} RunningSum(ws: seq<real>, i: nat)
    requires i < |ws|
    ensures Accumulate(ws)[i] == Sum(ws[..i + 1])
    decreases |ws|
  {
    if i < |ws| - 1 {
      var init := ws[..|ws| - 1];
      RunningSum(init, i);
      assert init[..i + 1] == ws[..i + 1];
    } else {
      assert ws[..i + 1] == ws;
    }
  }

  predicate Sorted(a: seq<real>)
  {
    forall i, j :: 0 <= i <= j < |a| ==> a[i] <= a[j]
  }

  /**
   * `bisect_right(a, x, lo, hi)`: a position in `lo..hi`; on a sorted
   * sequence, the first position in the range whose value exceeds `x`,
   * or `hi` when none does.
   */
  function Bisect(a: seq<real>, x: real, lo: nat, hi: nat): (r: nat)
    requires lo <= hi <= |a|
    ensures lo <= r <= hi
    ensures Sorted(a) ==> (forall i :: lo <= i < r ==> a[i] <= x) && (r < hi ==> x < a[r])
    decreases hi - lo
  {
    if lo < hi then
      var mid := (lo + hi) / 2;
      if x < a[mid] then Bisect(a, x, lo, mid) else Bisect(a, x, mid + 1, hi)
    else lo
  }

  /**
   * `u` scaled by `total`: the point `random() * total` that the bisection
   * looks up, and a probability turned back into its weight.
   */
  function Scaled(u: real, total: real): real
  {
    u * total
  }

  /**
   * `random.choices(range(n), weights=ws, k=1)[0]` for the draw `u`: no
   * position when there are no weights (the lookup of the last cumulative
   * weight raises) or their total is not positive (a ValueError).
   */
  function ChoicesIndex(ws: seq<real>, u: real): (r: Option<nat>)
    ensures r.Some? ==> r.value < |ws|
    ensures r.None? <==> ws == [] || Sum(ws) <= 0.0
  {
    if ws == [] then None
    else
      var total := Sum(ws);  // the last running sum
      if total <= 0.0 then None
      else Some(Bisect(Accumulate(ws), Scaled(u, total), 0, |ws| - 1))
  }

  /**
   * `select_farmer`: the first farmer when the total weight is zero (none
   * from an empty list, where the lookup raises); otherwise the farmer
   * `random.choices` picks with weights normalised by the total.
   */
  function SelectFarmer(farmers: seq<Farmer>, u: real): (r: Option<Farmer>)
    ensures r.None? <==> farmers == []
    ensures r.Some? ==> r.value in farmers
    ensures |farmers| == 1 ==> r == Some(farmers[0])
    ensures farmers != [] && Sum(Weights(farmers)) == 0.0 ==> r == Some(farmers[0])
  {
    var ws := Weights(farmers);
    var total := Sum(ws);
    if total == 0.0 then
      if farmers == [] then None else Some(farmers[0])
    else
      var ps := Probabilities(ws, total);
      ProbabilitiesSumToOne(ws, total);
      match ChoicesIndex(ps, u)
      case None => None
      case Some(i) => Some(farmers[i])
  }

  /** Dividing every weight by `total` divides their sum by `total`. */
  lemma {:induction false} SumProbabilities(ws: seq<real>, total: real)
    requires total != 0.0
    ensures Scaled(Sum(Probabilities(ws, total)), total) == Sum(ws)
    decreases |ws|
  {
    var ps := Probabilities(ws, total);
    if ws != [] {
      var init := ws[..|ws| - 1];
      assert ps[..|ps| - 1] == Probabilities(init, total);
      SumProbabilities(init, total);
      ScaleSum(Sum(ps), Sum(Probabilities(init, total)), ps[|ps| - 1], total, Sum(init), ws[|ws| - 1]);
    }
  }

  /** Scaling distributes over the last step of a sum. */
  lemma ScaleSum(s: real, head: real, last: real, total: real, s0: real, w: real)
    requires s == head + last && Scaled(head, total) == s0 && Scaled(last, total) == w
    ensures Scaled(s, total) == s0 + w
  {
    assert s * total == head * total + last * total;
  }

  /** Normalised by their own non-zero total, the weights sum to one. */
  lemma ProbabilitiesSumToOne(ws: seq<real>, total: real)
    requires total != 0.0 && total == Sum(ws)
    ensures Sum(Probabilities(ws, total)) == 1.0
  {
    SumProbabilities(ws, total);
    UnitScale(Sum(Probabilities(ws, total)), total);
  }

  /** The only factor that scales a non-zero total to itself is one. */
  lemma UnitScale(s: real, total: real)
    requires total != 0.0 && Scaled(s, total) == total
    ensures s == 1.0
  {
    assert (s - 1.0) * total == 0.0;
  }

  predicate NonNegative(ws: seq<real>)
  {
    forall i :: 0 <= i < |ws| ==> ws[i] >= 0.0
  }

  /** A non-negative weight is at most the sum it belongs to, and the sum is non-negative. */
  lemma {:induction false} WeightBelowSum(ws: seq<real>, i: nat)
    requires NonNegative(ws) && i < |ws|
    ensures 0.0 <= ws[i] <= Sum(ws)
    decreases |ws|
  {
    if i < |ws| - 1 {
      WeightBelowSum(ws[..|ws| - 1], i);
    } else if |ws| > 1 {
      SumNonNegative(ws[..|ws| - 1]);
    }
  }

  lemma {:induction false} SumNonNegative(ws: seq<real>)
    requires NonNegative(ws)
    ensures Sum(ws) >= 0.0
    decreases |ws|
  {
    if ws != [] {
      SumNonNegative(ws[..|ws| - 1]);
    }
  }

  /**
   * For non-negative weights with a positive total, every probability lies
   * in [0, 1] and together they sum to one.
   */
  lemma ProbabilitiesDistribution(ws: seq<real>)
    requires NonNegative(ws) && Sum(ws) > 0.0
    ensures var ps := Probabilities(ws, Sum(ws));
      && (forall i :: 0 <= i < |ps| ==> 0.0 <= ps[i] <= 1.0)
      && Sum(ps) == 1.0
  {
    var ps := Probabilities(ws, Sum(ws));
    forall i | 0 <= i < |ps|
      ensures 0.0 <= ps[i] <= 1.0
    {
      WeightBelowSum(ws, i);
      UnitFraction(ps[i], ws[i], Sum(ws));
    }
    ProbabilitiesSumToOne(ws, Sum(ws));
  }

  lemma UnitFraction(p: real, w: real, total: real)
    requires total > 0.0 && 0.0 <= w <= total && Scaled(p, total) == w
    ensures 0.0 <= p <= 1.0
  {
    assert p == w / total;
  }

  /** The running sums of non-negative weights never decrease. */
  lemma AccumulateSorted(ws: seq<real>)
    requires NonNegative(ws)
    ensures Sorted(Accumulate(ws))
  {
    var cum := Accumulate(ws);
    forall i, j | 0 <= i <= j < |cum|
      ensures cum[i] <= cum[j]
    {
      SumPrefixGrows(ws, i, j);
      RunningSum(ws, i);
      RunningSum(ws, j);
    }
  }

  lemma {:induction false} SumPrefixGrows(ws: seq<real>, i: nat, j: nat)
    requires NonNegative(ws) && i <= j < |ws|
    ensures Sum(ws[..i + 1]) <= Sum(ws[..j + 1])
    decreases j
  {
    if i < j {
      SumPrefixGrows(ws, i, j - 1);
      assert ws[..j + 1][..j] == ws[..j];
    }
  }

  /**
   * With non-negative weights, `random.choices` picks position `k` exactly
   * when the scaled draw falls in its slice of the running sums: at least
   * the sum before it and below the sum through it (the last position
   * also takes every larger draw).
   */
  lemma ChoicesSlice(ws: seq<real>, u: real, k: nat)
    requires NonNegative(ws) && Sum(ws) > 0.0 && k < |ws|
    ensures var x := Scaled(u, Sum(ws));
      ChoicesIndex(ws, u) == Some(k) <==>
        && (k == 0 || Sum(ws[..k]) <= x)
        && (k == |ws| - 1 || x < Sum(ws[..k + 1]))
  {
    ChoicesBisect(ws, u);
    AccumulateSlice(ws, Scaled(u, Sum(ws)), k);
  }

  /** Bisecting the running sums lands on `k` exactly for the points in `k`'s slice. */
  lemma AccumulateSlice(ws: seq<real>, x: real, k: nat)
    requires NonNegative(ws) && k < |ws|
    ensures Bisect(Accumulate(ws), x, 0, |ws| - 1) == k <==>
        && (k == 0 || Sum(ws[..k]) <= x)
        && (k == |ws| - 1 || x < Sum(ws[..k + 1]))
  {
    var cum := Accumulate(ws);
    AccumulateSorted(ws);
    BisectSlice(cum, x, k);
    assert (k == 0 || cum[k - 1] <= x) <==> (k == 0 || Sum(ws[..k]) <= x) by {
      if k > 0 {
        RunningSum(ws, k - 1);
        assert ws[..k - 1 + 1] == ws[..k];
      }
    }
    assert (k == |ws| - 1 || x < cum[k]) <==> (k == |ws| - 1 || x < Sum(ws[..k + 1])) by {
      RunningSum(ws, k);
    }
  }

  /** For a positive total, `random.choices` is the bisection of the running sums. */
  lemma ChoicesBisect(ws: seq<real>, u: real)
    requires ws != [] && Sum(ws) > 0.0
    ensures ChoicesIndex(ws, u) == Some(Bisect(Accumulate(ws), Scaled(u, Sum(ws)), 0, |ws| - 1))
  {
  }

  /**
   * With non-negative weights, index `k` is drawn exactly for the draws `u`
   * in its own slice of the unit interval, between the probabilities before
   * it and those up to it: the farmer is chosen in proportion to its space.
   */
  lemma ProbabilitySlice(ws: seq<real>, u: real, k: nat)
    requires NonNegative(ws) && Sum(ws) > 0.0 && k < |ws|
    ensures var ps := Probabilities(ws, Sum(ws));
      ChoicesIndex(ps, u) == Some(k) <==>
        && (k == 0 || Sum(ps[..k]) <= u)
        && (k == |ws| - 1 || u < Sum(ps[..k + 1]))
  {
    var ps := Probabilities(ws, Sum(ws));
    ProbabilitiesDistribution(ws);
    assert NonNegative(ps);
    ChoicesUnit(ps, u, k);
  }

  /** For probabilities summing to one, the draw itself is looked up in the running sums. */
  lemma ChoicesUnit(ps: seq<real>, u: real, k: nat)
    requires NonNegative(ps) && Sum(ps) == 1.0 && k < |ps|
    ensures ChoicesIndex(ps, u) == Some(k) <==>
      && (k == 0 || Sum(ps[..k]) <= u)
      && (k == |ps| - 1 || u < Sum(ps[..k + 1]))
  {
    assert Scaled(u, Sum(ps)) == u;
    ChoicesSlice(ps, u, k);
  }

  /** With a positive total, `select_farmer` returns the farmer `random.choices` picks. */
  lemma SelectFarmerChooses(farmers: seq<Farmer>, u: real)
    requires Sum(Weights(farmers)) > 0.0
    ensures var ps := Probabilities(Weights(farmers), Sum(Weights(farmers)));
      && ChoicesIndex(ps, u).Some?
      && SelectFarmer(farmers, u) == Some(farmers[ChoicesIndex(ps, u).value])
  {
    ProbabilitiesSumToOne(Weights(farmers), Sum(Weights(farmers)));
  }

  /**
   * On a sorted sequence, bisecting over all positions but the last lands
   * on `k` exactly when `x` lies in `k`'s slice.
   */
  lemma BisectSlice(a: seq<real>, x: real, k: nat)
    requires Sorted(a) && k < |a|
    ensures Bisect(a, x, 0, |a| - 1) == k <==> (k == 0 || a[k - 1] <= x) && (k == |a| - 1 || x < a[k])
  {
    var r := Bisect(a, x, 0, |a| - 1);
    if r < k {
      assert a[r] <= a[k - 1];
    }
  }
}
