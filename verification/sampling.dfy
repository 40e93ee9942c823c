/**
 * The weighted selection both samplers of the engine use: normalise the
 * weights so that they add up to one, draw a value in [0, 1), and walk the
 * candidates accumulating normalised weight until the running sum exceeds the
 * draw. The draw is a parameter (it stands for `Math.random()`), and the
 * weights are any non-negative reals.
 */
module Sampling {
  import opened Wrappers
  import opened InsertionSet

  /** Sampling without repeats ran out of draws before it had enough. */
  datatype SampleError = OutOfDraws

  /** The weights added up (`reduce((sum, w) => sum + w, 0)`). */
  function Sum(w: seq<real>): real {
    if w == [] then 0.0 else Sum(w[..|w| - 1]) + w[|w| - 1]
  }

  /** The cumulative weight of the candidates up to and including `j`. */
  function Through(w: seq<real>, j: nat): real
    requires j < |w|
  {
    Sum(w[..j + 1])
  }

  predicate NonNegative(w: seq<real>) {
    forall i :: 0 <= i < |w| ==> 0.0 <= w[i]
  }

  /** `weights.map(w => w / totalWeight)`. */
  function Normalize(w: seq<real>): (nw: seq<real>)
    requires w != [] ==> Sum(w) != 0.0
    ensures |nw| == |w|
    ensures NonNegative(w) && Sum(w) > 0.0 ==> NonNegative(nw)
  {
    seq(|w|, i requires 0 <= i < |w| => w[i] / Sum(w))
  }

  /** The candidate a draw `u` selects, scanning from position `j`: the first
      position from `j` on whose cumulative weight exceeds `u`. */
  function PickFrom(nw: seq<real>, u: real, j: nat): (k: Option<nat>)
    requires j <= |nw|
    ensures k.Some? ==> j <= k.value < |nw| && u < Through(nw, k.value)
    ensures forall i :: j <= i < |nw| && (k.None? || i < k.value) ==> Through(nw, i) <= u
    decreases |nw| - j
  {
    if j == |nw| then None
    else if u < Through(nw, j) then Some(j)
    else PickFrom(nw, u, j + 1)
  }

  /** The candidate a draw `u` selects: the first whose cumulative weight
      exceeds `u`, or none when no cumulative weight does. */
  function Pick(nw: seq<real>, u: real): (k: Option<nat>)
    ensures k.Some? ==> k.value < |nw| && u < Through(nw, k.value)
    ensures forall i :: 0 <= i < |nw| && (k.None? || i < k.value) ==> Through(nw, i) <= u
  {
    PickFrom(nw, u, 0)
  }

  /** The inner loop of both samplers: `cumulativeWeight += nw[j]` until the
      draw falls below it. */
  method PickIndex(nw: seq<real>, u: real) returns (k: Option<nat>)
    ensures k == Pick(nw, u)
  {
    var cumulativeWeight := 0.0;
    var j := 0;
    while j < |nw|
      invariant 0 <= j <= |nw|
      invariant cumulativeWeight == Sum(nw[..j])
      invariant PickFrom(nw, u, j) == Pick(nw, u)
    {
      assert nw[..j + 1][..j] == nw[..j];
      cumulativeWeight := cumulativeWeight + nw[j];
      if u < cumulativeWeight {
        return Some(j);
      }
      j := j + 1;
    }
    return None;
  }

  /** Independent draws in order, each contributing the candidate it selects,
      if any; the same candidate may come out more than once. */
  function SampleAll(cands: seq<nat>, nw: seq<real>, draws: seq<real>): (picked: seq<nat>)
    requires |nw| == |cands|
    ensures |picked| <= |draws|
    ensures forall x :: x in picked ==> x in cands
  {
    if draws == [] then []
    else
      var earlier := SampleAll(cands, nw, draws[..|draws| - 1]);
      match Pick(nw, draws[|draws| - 1])
      case Some(j) => earlier + [cands[j]]
      case None => earlier
  }

  /** The sampling loop of `getRandomReactions`: one draw per iteration,
      pushing the candidate it selects, if any. */
  method SampleLoop(cands: seq<nat>, nw: seq<real>, draws: seq<real>) returns (picked: seq<nat>)
    requires |nw| == |cands|
    ensures picked == SampleAll(cands, nw, draws)
  {
    picked := [];
    var i := 0;
    while i < |draws|
      invariant 0 <= i <= |draws|
      invariant picked == SampleAll(cands, nw, draws[..i])
    {
      assert draws[..i + 1][..i] == draws[..i];
      var k := PickIndex(nw, draws[i]);
      if k.Some? {
        picked := picked + [cands[k.value]];
      }
      i := i + 1;
    }
    assert draws[..i] == draws;
  }

  /** The rank weights of `getNonFreeInitialChemicals`: `rankWeight(i, m)`
      for each of the `m` positions. */
  function RankWeights(m: nat, rankWeight: (nat, nat) -> real): (w: seq<real>)
    requires forall i: nat, n: nat :: 0.0 < rankWeight(i, n)
    ensures |w| == m && (m > 0 ==> Sum(w) > 0.0)
  {
    var w := seq(m, i requires 0 <= i < m => rankWeight(i, m));
    if m > 0 then PositiveTotal(w); w else w
  }

  /** Sampling without repeats: having picked `picked` with draws `0` to
      `used - 1`, keep drawing (`draw(used)`, `draw(used + 1)`, …) and append
      each selected candidate not picked yet, until `num` are picked. Only the
      draws below `fuel` are available; running out of them is an error. */
  function DrawDistinct(cands: seq<nat>, nw: seq<real>, draw: nat -> real, num: nat, fuel: nat,
                        used: nat, picked: seq<nat>): (r: Result<seq<nat>, SampleError>)
    requires |nw| == |cands|
    ensures r.Ok? ==> picked <= r.value && |r.value| == (if |picked| < num then num else |picked|)
    ensures r.Ok? ==> forall c :: c in r.value ==> c in picked || c in cands
    ensures r.Ok? && Distinct(picked) ==> Distinct(r.value)
    ensures r.Err? ==> |picked| < num
    decreases fuel - used
  {
    if |picked| >= num then Ok(picked)
    else if used >= fuel then Err(OutOfDraws)
    else
      var next := match Pick(nw, draw(used))
        case Some(k) => if cands[k] in picked then picked else picked + [cands[k]]
        case None => picked;
      DrawDistinct(cands, nw, draw, num, fuel, used + 1, next)
  }

  /** The sampling loop of `getNonFreeInitialChemicals`: one draw per
      iteration, pushing the candidate it selects unless already picked,
      until `num` are picked or the `fuel` draws are used up. */
  method DistinctLoop(cands: seq<nat>, nw: seq<real>, draw: nat -> real, num: nat, fuel: nat)
    returns (r: Result<seq<nat>, SampleError>)
    requires |nw| == |cands|
    ensures r == DrawDistinct(cands, nw, draw, num, fuel, 0, [])
  {
    var picked: seq<nat> := [];
    var used: nat := 0;
    while |picked| < num
      invariant used <= fuel
      invariant DrawDistinct(cands, nw, draw, num, fuel, 0, []) == DrawDistinct(cands, nw, draw, num, fuel, used, picked)
      decreases fuel - used
    {
      if used == fuel {
        return Err(OutOfDraws);
      }
      var k := PickIndex(nw, draw(used));
      used := used + 1;
      if k.Some? {
        var selected := cands[k.value];
        if selected !in picked {
          picked := picked + [selected];
        }
      }
    }
    return Ok(picked);
  }

  /** Prefix sums of non-negative weights never decrease. */
  lemma {:induction false} PrefixSumsGrow(w: seq<real>, i: nat, j: nat)
    requires NonNegative(w)
    requires i <= j <= |w|
    ensures Sum(w[..i]) <= Sum(w[..j])
    decreases j - i
  {
    if i < j {
      PrefixSumsGrow(w, i, j - 1);
      assert w[..j][..j - 1] == w[..j - 1];
    }
  }

  /** Scanning from `i`, a draw that every cumulative weight before `j`
      stays at or below, and that lies below the cumulative weight through
      `j`, selects `j`. */
  lemma {:induction false} PickFromReaches(nw: seq<real>, u: real, i: nat, j: nat)
    requires NonNegative(nw)
    requires i <= j < |nw|
    requires Sum(nw[..j]) <= u < Through(nw, j)
    ensures PickFrom(nw, u, i) == Some(j)
    decreases j - i
  {
    if i < j {
      PrefixSumsGrow(nw, i + 1, j);
      PickFromReaches(nw, u, i + 1, j);
    }
  }

  /** With non-negative weights, a non-negative draw selects candidate `j`
      exactly when it lies in [cumulative weight before `j`, cumulative weight
      through `j`): an interval whose length is the weight of `j`. */
  lemma PickInterval(nw: seq<real>, u: real, j: nat)
    requires NonNegative(nw)
    requires 0.0 <= u
    requires j < |nw|
    ensures Pick(nw, u) == Some(j) <==> Sum(nw[..j]) <= u < Through(nw, j)
    ensures Through(nw, j) - Sum(nw[..j]) == nw[j]
  {
    assert nw[..j + 1][..j] == nw[..j];
    if Pick(nw, u) == Some(j) && j > 0 {
      assert Through(nw, j - 1) <= u;
      assert nw[..j - 1 + 1] == nw[..j];
    }
    if Sum(nw[..j]) <= u < Through(nw, j) {
      PickFromReaches(nw, u, 0, j);
    }
  }

  /** A draw below the total weight always selects some candidate. */
  lemma PickSucceeds(nw: seq<real>, u: real)
    requires 0.0 <= u < Sum(nw)
    ensures Pick(nw, u).Some?
  {
    assert nw != [];
    assert nw[..|nw| - 1 + 1] == nw;
    assert Through(nw, |nw| - 1) == Sum(nw);
  }

  /** Normalising divides every cumulative weight by the total. */
  lemma {:induction false} NormalizedPrefix(w: seq<real>, k: nat)
    requires Sum(w) != 0.0
    requires k <= |w|
    ensures Sum(Normalize(w)[..k]) == Sum(w[..k]) / Sum(w)
  {
    if k > 0 {
      NormalizedPrefix(w, k - 1);
      var nw := Normalize(w);
      assert nw[..k][..k - 1] == nw[..k - 1];
      assert w[..k][..k - 1] == w[..k - 1];
      var t := Sum(w);
      assert Sum(w[..k - 1]) / t + w[k - 1] / t == (Sum(w[..k - 1]) + w[k - 1]) / t;
    }
  }

  /** Normalised weights add up to one. */
  lemma NormalizedSumsToOne(w: seq<real>)
    requires Sum(w) != 0.0
    ensures |Normalize(w)| == |w|
    ensures Sum(Normalize(w)) == 1.0
  {
    NormalizedPrefix(w, |w|);
    var nw := Normalize(w);
    assert nw[..|w|] == nw;
    assert w[..|w|] == w;
    assert Sum(nw) == Sum(w) / Sum(w);
  }

  /** A heavier candidate gets a larger share of the draws: its normalised
      weight, the length of the interval of draws selecting it, is larger. */
  lemma HeavierIsLikelier(w: seq<real>, i: nat, j: nat)
    requires Sum(w) > 0.0
    requires i < |w| && j < |w|
    requires w[i] < w[j]
    ensures Normalize(w)[i] < Normalize(w)[j]
  {
    DivMonotone(w[i], w[j], Sum(w));
  }

  /** Dividing by a positive number keeps a strict order. */
  lemma DivMonotone(x: real, y: real, t: real)
    requires 0.0 < t && x < y
    ensures x / t < y / t
  {
    var inv := 1.0 / t;
    assert inv > 0.0;
    assert x / t == x * inv && y / t == y * inv;
    assert (y - x) * inv > 0.0;
  }

  /** Positive weights have a positive total once there is one candidate. */
  lemma {:induction false} PositiveTotal(w: seq<real>)
    requires w != []
    requires forall i :: 0 <= i < |w| ==> 0.0 < w[i]
    ensures Sum(w) > 0.0
  {
    if |w| > 1 {
      PositiveTotal(w[..|w| - 1]);
    }
  }

  /** When the normalised weights add up to one and every draw lies in
      [0, 1), every draw selects a candidate: the sample has one entry per draw. */
  lemma {:induction false} SampleAllFull(cands: seq<nat>, nw: seq<real>, draws: seq<real>)
    requires |nw| == |cands|
    requires Sum(nw) == 1.0
    requires forall i :: 0 <= i < |draws| ==> 0.0 <= draws[i] < 1.0
    ensures |SampleAll(cands, nw, draws)| == |draws|
  {
    if draws != [] {
      SampleAllFull(cands, nw, draws[..|draws| - 1]);
      PickSucceeds(nw, draws[|draws| - 1]);
    }
  }
}
