/**
 * The money side of performing a reaction. Every product not yet discovered
 * pays four times its star tier; every reactant occurrence that is not free
 * costs its tier plus one. The engine reports the discovery reward and the
 * net amount (reward minus reactant cost).
 */
module Economy {
  import opened InsertionSet
  import opened Catalog

  /** Reward per star of a newly discovered product. */
  const RewardPerStar: nat := 4

  /** The star tiers of `ids`, added up. */
  function SumStars(costs: seq<nat>, ids: seq<nat>): nat
    requires AllBelow(ids, |costs|)
  {
    if ids == [] then 0
    else SumStars(costs, ids[..|ids| - 1]) + costs[ids[|ids| - 1]]
  }

  /** The reward accumulated by the product loop of `performReaction`: each
      product pays `4 * tier` when it is not yet discovered at its turn; the
      products before it in the list have been discovered by then. */
  function DiscoveryReward(costs: seq<nat>, discovered: seq<nat>, products: seq<nat>): (reward: nat)
    requires AllBelow(products, |costs|)
    ensures reward <= RewardPerStar * SumStars(costs, products)
    ensures (forall p :: p in products ==> p in discovered) ==> reward == 0
  {
    if products == [] then 0
    else
      var front := products[..|products| - 1];
      var p := products[|products| - 1];
      DiscoveryReward(costs, discovered, front)
        + (if p in AddAll(discovered, front) then 0 else RewardPerStar * costs[p])
  }

  /** The product loop of `performReaction`, on the discovered set it
      updates: each product not yet discovered is added and pays four times
      its tier. */
  method DiscoverAll(costs: seq<nat>, discovered: seq<nat>, products: seq<nat>) returns (after: seq<nat>, reward: nat)
    requires AllBelow(products, |costs|)
    ensures after == AddAll(discovered, products)
    ensures reward == DiscoveryReward(costs, discovered, products)
  {
    reward := 0;
    after := discovered;
    var i := 0;
    while i < |products|
      invariant 0 <= i <= |products|
      invariant after == AddAll(discovered, products[..i])
      invariant reward == DiscoveryReward(costs, discovered, products[..i])
    {
      var cId := products[i];
      assert products[..i + 1][..i] == products[..i];
      if cId !in after {
        reward := reward + costs[cId] * RewardPerStar;
        after := Add(after, cId);
      }
      i := i + 1;
    }
    assert products[..i] == products;
  }

  /** The cost shown for a chemical and charged when it is used as a
      reactant: nothing when it is free, its tier plus one otherwise. */
  function EffectiveCost(costs: seq<nat>, free: seq<nat>, c: nat): (cost: nat)
    requires c < |costs|
    ensures cost == 0 <==> c in free
  {
    if c in free then 0 else costs[c] + 1
  }

  /** What the reactant loop of `performReaction` deducts: the effective cost
      of every reactant occurrence. */
  function ReactantCharge(costs: seq<nat>, free: seq<nat>, reactants: seq<nat>): (charge: nat)
    requires AllBelow(reactants, |costs|)
    ensures charge <= SumStars(costs, reactants) + |reactants|
    ensures (forall c :: c in reactants ==> c in free) ==> charge == 0
    ensures (forall c :: c in reactants ==> c !in free) ==> charge == SumStars(costs, reactants) + |reactants|
  {
    if reactants == [] then 0
    else ReactantCharge(costs, free, reactants[..|reactants| - 1])
           + EffectiveCost(costs, free, reactants[|reactants| - 1])
  }

  /** The ids a product list adds to the discovered set are chemicals. */
  lemma {:induction false} FreshInRange(costs: seq<nat>, discovered: seq<nat>, products: seq<nat>)
    requires AllBelow(products, |costs|)
    ensures AllBelow(Fresh(discovered, products), |costs|)
  {
    if products == [] {
      assert Fresh(discovered, products) == [];
    } else {
      var front := products[..|products| - 1];
      FreshStep(discovered, products);
      assert AllBelow(front, |costs|);
      FreshInRange(costs, discovered, front);
    }
  }

  /** The discovery reward pays for each product that was not yet discovered
      exactly once, however often it is listed: it is four times the tiers of
      the ids the products add to the discovered set (which FreshMembers
      characterises as the listed products not discovered before, each once). */
  lemma {:induction false} RewardCountsNewProductsOnce(costs: seq<nat>, discovered: seq<nat>, products: seq<nat>)
    requires AllBelow(products, |costs|)
    ensures AllBelow(Fresh(discovered, products), |costs|)
    ensures DiscoveryReward(costs, discovered, products) == RewardPerStar * SumStars(costs, Fresh(discovered, products))
  {
    FreshInRange(costs, discovered, products);
    if products == [] {
      assert Fresh(discovered, products) == [];
    } else {
      var front := products[..|products| - 1];
      var p := products[|products| - 1];
      FreshStep(discovered, products);
      assert AllBelow(front, |costs|);
      FreshInRange(costs, discovered, front);
      RewardCountsNewProductsOnce(costs, discovered, front);
      var addedFront := Fresh(discovered, front);
      if p !in AddAll(discovered, front) {
        var added := addedFront + [p];
        assert added[..|addedFront|] == addedFront;
        assert SumStars(costs, added) == SumStars(costs, addedFront) + costs[p];
      }
    }
  }

  /** Two chemicals of tier 0 (ids 0 and 1, both discovered, neither free)
      reacting into a new chemical of tier 1 (id 2): the reward is 4 and the
      charge 2, so the net amount is 2. */
  lemma TwoReactantsExample()
    ensures DiscoveryReward([0, 0, 1], [0, 1], [2]) == 4
    ensures ReactantCharge([0, 0, 1], [], [0, 1]) == 2
  {
    assert [2][..0] == [];
    assert [0, 1][..1] == [0] && [0][..0] == [];
  }
}
