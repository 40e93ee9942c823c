/**
 * `performRandomReactions` as a function of its draws: each batch samples
 * the frontier, performs the sample in order without refreshing the
 * frontier, and refreshes it once at the end. Within a batch the frontier
 * only shrinks, so the reactions a batch performs are exactly the sampled
 * ones that were in the frontier and not yet performed when it started.
 */
module Batch {
  import opened InsertionSet
  import opened Catalog
  import opened Frontier
  import opened Economy
  import opened Sampling

  /** Reactions are sampled and performed in batches of at most this many. */
  const BatchSize: nat := 50

  /** The three sets that performing reactions changes. */
  datatype Progress = Progress(discovered: seq<nat>, performed: seq<nat>, frontier: seq<nat>)

  /** `performReaction(r, false)` on the three sets: a reaction outside the
      frontier or already performed changes nothing; otherwise its products
      are discovered and it moves from the frontier to the performed set. */
  function PerformStep(reactions: seq<Reaction>, p: Progress, r: nat): (q: Progress)
    requires AllBelow(p.frontier, |reactions|)
    ensures AllBelow(q.frontier, |reactions|)
  {
    if r !in p.frontier || r in p.performed then p
    else
      DeleteBelow(p.frontier, r, |reactions|);
      assert r < |reactions| by {
        var k :| 0 <= k < |p.frontier| && p.frontier[k] == r;
      }
      Progress(AddAll(p.discovered, reactions[r].products), Add(p.performed, r), Delete(p.frontier, r))
  }

  /** Performing the reactions `ids` one after another, without refreshing. */
  function PerformAll(reactions: seq<Reaction>, p: Progress, ids: seq<nat>): (q: Progress)
    requires AllBelow(p.frontier, |reactions|)
    ensures AllBelow(q.frontier, |reactions|)
  {
    if ids == [] then p
    else PerformStep(reactions, PerformAll(reactions, p, ids[..|ids| - 1]), ids[|ids| - 1])
  }

  /** The reactions of `ids` that were in `frontier` and not in `performed`,
      each once, in the order of their first occurrence. */
  function Performed(ids: seq<nat>, frontier: seq<nat>, performed: seq<nat>): (rs: seq<nat>)
    ensures forall x :: x in rs <==> x in ids && x in frontier && x !in performed
    ensures Distinct(rs)
    ensures |rs| <= |ids|
  {
    if ids == [] then []
    else
      var earlier := Performed(ids[..|ids| - 1], frontier, performed);
      var x := ids[|ids| - 1];
      assert ids == ids[..|ids| - 1] + [x];
      if x in frontier && x !in performed then Add(earlier, x) else earlier
  }

  /** The products of the reactions `rs`, one list after another. */
  function ProductsOf(reactions: seq<Reaction>, rs: seq<nat>): seq<nat>
    requires AllBelow(rs, |reactions|)
  {
    if rs == [] then []
    else
      ProductsOf(reactions, rs[..|rs| - 1]) + reactions[rs[|rs| - 1]].products
  }

  /** The products of `a + b` are those of `a`, then those of `b`. */
  lemma {:induction false} ProductsOfConcat(reactions: seq<Reaction>, a: seq<nat>, b: seq<nat>)
    requires AllBelow(a, |reactions|) && AllBelow(b, |reactions|)
    ensures AllBelow(a + b, |reactions|)
    ensures ProductsOf(reactions, a + b) == ProductsOf(reactions, a) + ProductsOf(reactions, b)
  {
    if b == [] {
      assert a + b == a;
    } else {
      var front := b[..|b| - 1];
      ProductsOfConcat(reactions, a, front);
      assert (a + b)[..|a + b| - 1] == a + front;
      assert (a + b)[|a + b| - 1] == b[|b| - 1];
    }
  }

  /** A batch in closed form: the reactions it performs are `Performed(ids, …)`;
      they are appended to the performed set and removed from the frontier, and
      their products are discovered in order. */
  lemma {:induction false} PerformAllClosedForm(reactions: seq<Reaction>, p: Progress, ids: seq<nat>)
    requires AllBelow(p.frontier, |reactions|)
    ensures var rs := Performed(ids, p.frontier, p.performed);
      && AllBelow(rs, |reactions|)
      && PerformAll(reactions, p, ids)
           == Progress(AddAll(p.discovered, ProductsOf(reactions, rs)), p.performed + rs, Minus(p.frontier, rs))
  {
    var rs := Performed(ids, p.frontier, p.performed);
    forall i | 0 <= i < |rs| ensures rs[i] < |reactions| {
      assert rs[i] in rs;
      var k :| 0 <= k < |p.frontier| && p.frontier[k] == rs[i];
    }
    if ids == [] {
      MinusNothing(p.frontier);
      assert p.performed + [] == p.performed;
    } else {
      var front := ids[..|ids| - 1];
      var x := ids[|ids| - 1];
      var earlier := Performed(front, p.frontier, p.performed);
      PerformAllClosedForm(reactions, p, front);
      var q := PerformAll(reactions, p, front);
      assert q == Progress(AddAll(p.discovered, ProductsOf(reactions, earlier)), p.performed + earlier,
                           Minus(p.frontier, earlier));
      if x in p.frontier && x !in p.performed && x !in earlier {
        assert rs == earlier + [x];
        assert x in q.frontier && x !in q.performed;
        assert rs[..|rs| - 1] == earlier;
        AddAllConcat(p.discovered, ProductsOf(reactions, earlier), reactions[x].products);
        DeleteMinus(p.frontier, earlier, x);
        AppendOne(p.performed, earlier, x);
      } else {
        assert rs == earlier;
        assert x !in q.frontier || x in q.performed;
      }
    }
  }

  lemma AppendOne(a: seq<nat>, b: seq<nat>, x: nat)
    ensures (a + b) + [x] == a + (b + [x])
  {
  }

  /** The total reactant cost `getRandomReactions` weights a reaction by: the
      charge for its reactants plus one per reactant occurrence. */
  function ReactantTotal(costs: seq<nat>, free: seq<nat>, reactants: seq<nat>): nat
    requires AllBelow(reactants, |costs|)
  {
    ReactantCharge(costs, free, reactants) + |reactants|
  }

  /** The weight `getRandomReactions` gives reaction `r`: `costWeight` of its
      total reactant cost. */
  function ChargeWeight(reactions: seq<Reaction>, costs: seq<nat>, free: seq<nat>, r: nat,
                        costWeight: nat -> real): real
    requires ReactionsBelow(reactions, |costs|) && r < |reactions|
  {
    costWeight(ReactantTotal(costs, free, reactions[r].reactants))
  }

  /** The weights of the reactions `ids`, in order. */
  function ChargeWeights(reactions: seq<Reaction>, costs: seq<nat>, free: seq<nat>, ids: seq<nat>,
                         costWeight: nat -> real): seq<real>
    requires ReactionsBelow(reactions, |costs|) && AllBelow(ids, |reactions|)
  {
    seq(|ids|, i requires 0 <= i < |ids| => ChargeWeight(reactions, costs, free, ids[i], costWeight))
  }

  /** The reaction ids `getRandomReactions` samples from `frontier` for the
      given draws: one weighted pick per draw, repeats allowed, none at all
      when the weights add up to zero (then every normalised weight is NaN and
      no draw selects anything). */
  function FrontierSample(reactions: seq<Reaction>, costs: seq<nat>, free: seq<nat>, frontier: seq<nat>,
                          costWeight: nat -> real, draws: seq<real>): (ids: seq<nat>)
    requires ReactionsBelow(reactions, |costs|) && AllBelow(frontier, |reactions|)
    ensures |ids| <= |draws|
    ensures forall r :: r in ids ==> r in frontier
    ensures AllBelow(ids, |reactions|)
  {
    var w := ChargeWeights(reactions, costs, free, frontier, costWeight);
    if Sum(w) == 0.0 then []
    else
      var ids := SampleAll(frontier, Normalize(w), draws);
      assert forall i :: 0 <= i < |ids| ==> ids[i] in ids;
      assert forall i :: 0 <= i < |ids| ==> ids[i] in frontier;
      assert forall r :: r in frontier ==> r < |reactions| by {
        forall r | r in frontier ensures r < |reactions| {
          var k :| 0 <= k < |frontier| && frontier[k] == r;
        }
      }
      ids
  }

  /** When the frontier is not empty, every reaction in it has a reactant,
      the power function is positive on positive totals and every draw lies
      in [0, 1), no draw falls through: one reaction per draw. */
  lemma FrontierSampleFull(reactions: seq<Reaction>, costs: seq<nat>, free: seq<nat>, frontier: seq<nat>,
                           costWeight: nat -> real, draws: seq<real>)
    requires ReactionsBelow(reactions, |costs|) && AllBelow(frontier, |reactions|)
    requires frontier != []
    requires forall i :: 0 <= i < |frontier| ==> reactions[frontier[i]].reactants != []
    requires forall x: nat :: 0 < x ==> 0.0 < costWeight(x)
    requires forall i :: 0 <= i < |draws| ==> 0.0 <= draws[i] < 1.0
    ensures |FrontierSample(reactions, costs, free, frontier, costWeight, draws)| == |draws|
  {
    var w := ChargeWeights(reactions, costs, free, frontier, costWeight);
    assert forall i :: 0 <= i < |w| ==> 0.0 < w[i];
    PositiveTotal(w);
    NormalizedSumsToOne(w);
    SampleAllFull(frontier, Normalize(w), draws);
  }

  /** The `num` draws of a batch that starts at draw `used`. */
  function BatchDraws(draw: nat -> real, used: nat, num: nat): (draws: seq<real>)
    ensures |draws| == num
  {
    seq(num, k requires 0 <= k < num => draw(used + k))
  }
}
