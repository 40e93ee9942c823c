/**
 * The `ChemicalGraph` engine of src/ChemicalGraph.ts: the immutable catalog
 * of chemicals and reactions, and four insertion-ordered id sets that make up
 * the game state (discovered chemicals, performed reactions, the frontier of
 * possible reactions, chemicals made free).
 *
 * JavaScript `Set<number>`s are sequences of distinct ids in insertion order
 * (see module InsertionSet): the order decides which reaction a random draw
 * selects and what `serialize` writes. `Math.random()` is an injected draw,
 * `Math.pow(totalCost, costInfluence)` and `Math.exp(-index / length)` are
 * injected weight functions.
 */
module Graph {
  import opened Wrappers
  import opened InsertionSet
  import opened Catalog
  import opened Popularity
  import opened Frontier
  import opened Economy
  import opened Sampling
  import opened Batch

  /** `performRandomReactions` refuses to run for fewer reactions than this. */
  const MinRandomReactions: int := 100
  /** Reactions are sampled and performed in batches of at most this many. */

  datatype ChemicalDetails = ChemicalDetails(
    id: nat,
    name: string,
    cost: nat,
    stars: nat,
    isNew: bool,
    en: string)

  datatype ReactionDetails = ReactionDetails(
    id: nat,
    reactants: seq<ChemicalDetails>,
    products: seq<ChemicalDetails>)

  /** The object `serialize` turns into JSON: each set as an array in
      insertion order. */
  datatype Snapshot = Snapshot(
    discoveredChemicals: seq<nat>,
    performedReactions: seq<nat>,
    possibleReactions: seq<nat>,
    freeChemicals: seq<nat>)

  /** The integer entries of `getDiscoveredStats`: chemicals discovered beyond
      the initial ones, reactions performed, reactions possible. */
  datatype DiscoveredStats = DiscoveredStats(
    numDiscoveredChemicals: int,
    numDiscoveredReactions: nat,
    numPossible: nat)

  /** The shop sampler's draws ran out before it had chosen enough chemicals. */

  /** `reaction.reactants.reduce((sum, reactant) => sum + reactant.cost + 1, 0)`:
      the total cost a random reaction is weighted by. */
  function TotalCost(reactants: seq<ChemicalDetails>): (t: nat)
    ensures t >= |reactants|
  {
    if reactants == [] then 0
    else TotalCost(reactants[..|reactants| - 1]) + reactants[|reactants| - 1].cost + 1
  }

  /** `costWeight` applied to the total cost of each reaction. */
  function CostWeights(rs: seq<ReactionDetails>, costWeight: nat -> real): seq<real> {
    seq(|rs|, i requires 0 <= i < |rs| => costWeight(TotalCost(rs[i].reactants)))
  }

  /** The display costs of `ds`, added up. */
  function DisplayedCost(ds: seq<ChemicalDetails>): nat {
    if ds == [] then 0 else DisplayedCost(ds[..|ds| - 1]) + ds[|ds| - 1].cost
  }

  /** The ids of a list of chemical details. */
  function Ids(ds: seq<ChemicalDetails>): seq<nat> {
    seq(|ds|, i requires 0 <= i < |ds| => ds[i].id)
  }

  /** Weights computed from equal totals are equal. */
  lemma SameTotalsSameWeights(reactions: seq<Reaction>, costs: seq<nat>, free: seq<nat>,
                              ds: seq<ReactionDetails>, ids: seq<nat>, costWeight: nat -> real)
    requires ReactionsBelow(reactions, |costs|) && AllBelow(ids, |reactions|) && |ds| == |ids|
    requires forall i :: 0 <= i < |ids| ==>
               TotalCost(ds[i].reactants) == ReactantTotal(costs, free, reactions[ids[i]].reactants)
    ensures CostWeights(ds, costWeight) == ChargeWeights(reactions, costs, free, ids, costWeight)
  {
  }

  /** The ids of a list of reaction details. */
  function ReactionIds(rs: seq<ReactionDetails>): seq<nat> {
    seq(|rs|, i requires 0 <= i < |rs| => rs[i].id)
  }

  lemma ReactionIdsStep(rs: seq<ReactionDetails>, i: nat)
    requires i < |rs|
    ensures ReactionIds(rs[..i + 1]) == ReactionIds(rs[..i]) + [rs[i].id]
  {
    assert forall k :: 0 <= k < i ==> rs[..i + 1][k] == rs[..i][k];
  }

  /** The ids the batch loop of `performRandomReactions` hands to
      `performReaction`: those of the first `num` sampled reactions, or of all
      of them when there are fewer. */
  function BatchIds(sampled: seq<ReactionDetails>, num: nat): (ids: seq<nat>)
    ensures |ids| <= num
  {
    ReactionIds(if num <= |sampled| then sampled[..num] else sampled)
  }

  class ChemicalGraph {
    const names: seq<string>
    const costs: seq<nat>
    const initial: seq<nat>
    const english: seq<string>
    const reactions: seq<Reaction>
    const sortedInitial: seq<nat>

    var discoveredChemicals: seq<nat>
    var performedReactions: seq<nat>
    var possibleReactions: seq<nat>
    var freeChemicals: seq<nat>

    /** The catalog is well formed and the popularity ranking lists initial
        chemicals (the constructor states which ones, and in which order). */
    predicate CatalogValid() {
      && WellFormed(names, costs, initial, english, reactions)
      && forall c :: c in sortedInitial ==> c in initial
    }

    /** The catalog invariant, and the four sets hold each id once. */
    predicate Valid()
      reads this
    {
      && CatalogValid()
      && Distinct(discoveredChemicals)
      && Distinct(performedReactions)
      && Distinct(possibleReactions)
      && Distinct(freeChemicals)
    }

    /** The frontier holds reaction ids only. */
    predicate FrontierInRange()
      reads this
    {
      AllBelow(possibleReactions, |reactions|)
    }

    ghost predicate FrontierSound()
      reads this
    {
      Sound(reactions, discoveredChemicals, performedReactions, possibleReactions)
    }

    ghost predicate FrontierComplete()
      reads this
    {
      Complete(reactions, discoveredChemicals, performedReactions, possibleReactions)
    }

    /** The frontier is exactly the set of reactions that can be performed now. */
    ghost predicate FrontierExact()
      reads this
    {
      FrontierSound() && FrontierComplete()
    }

    /** Builds the engine from the game data: ranks the initial chemicals by
        popularity and starts a new game. */
    constructor (data: ChemistryData)
      requires WellFormedData(data)
      ensures names == data.chemicals.names && costs == data.chemicals.costs
      ensures initial == data.chemicals.initial && english == data.chemicals.english
      ensures reactions == data.reactions
      ensures sortedInitial == PopularityRanking(reactions, initial, |costs|)
      ensures Valid() && FrontierInRange() && FrontierExact()
      ensures discoveredChemicals == FromArray(initial)
      ensures performedReactions == [] && freeChemicals == []
      ensures possibleReactions == Refreshed(reactions, discoveredChemicals, [], [])
    {
      names := data.chemicals.names;
      costs := data.chemicals.costs;
      initial := data.chemicals.initial;
      english := data.chemicals.english;
      reactions := data.reactions;
      var reactantCounts := CountInitialReactants(data.reactions, data.chemicals.initial);
      var reactantIds := SortByCount(reactantCounts, AscendingKeys(reactantCounts, |data.chemicals.costs|));
      sortedInitial := if |reactantIds| <= RankingSize then reactantIds else reactantIds[..RankingSize];
      discoveredChemicals, performedReactions, possibleReactions, freeChemicals := [], [], [], [];
      new;
      Reset();
    }

    /** Starts a new game: only the initial chemicals are discovered, nothing
        is performed or free, and the frontier is rebuilt from scratch. */
    method Reset()
      requires CatalogValid()
      modifies this
      ensures Valid() && FrontierInRange() && FrontierExact()
      ensures discoveredChemicals == FromArray(initial)
      ensures performedReactions == [] && freeChemicals == []
      ensures possibleReactions == Refreshed(reactions, discoveredChemicals, [], [])
    {
      discoveredChemicals := [];
      performedReactions := [];
      possibleReactions := [];
      freeChemicals := [];
      var i := 0;
      while i < |initial|
        invariant 0 <= i <= |initial|
        invariant discoveredChemicals == AddAll([], initial[..i])
        invariant performedReactions == [] && possibleReactions == [] && freeChemicals == []
      {
        assert initial[..i + 1][..i] == initial[..i];
        discoveredChemicals := Add(discoveredChemicals, initial[i]);
        i := i + 1;
      }
      assert initial[..i] == initial;
      UpdatePossibleReactions();
    }

    /** The reactant loop of `updatePossibleReactions`: whether every
        reactant has been discovered, stopping at the first that has not. */
    method ReactantsDiscovered(reactants: seq<nat>) returns (poss: bool)
      ensures poss <==> forall c :: c in reactants ==> c in discoveredChemicals
    {
      poss := true;
      var j := 0;
      while j < |reactants|
        invariant 0 <= j <= |reactants|
        invariant forall i :: 0 <= i < j ==> reactants[i] in discoveredChemicals
      {
        if reactants[j] !in discoveredChemicals {
          poss := false;
          break;
        }
        j := j + 1;
      }
    }

    /** Adds to the frontier, in id order, every reaction not in it that has
        not been performed and whose reactants are all discovered. */
    method UpdatePossibleReactions()
      requires Valid()
      modifies this`possibleReactions
      ensures Valid()
      ensures possibleReactions == Refreshed(reactions, discoveredChemicals, performedReactions, old(possibleReactions))
      ensures old(FrontierInRange()) ==> FrontierInRange()
    {
      ghost var frontier := possibleReactions;
      ghost var discovered := discoveredChemicals;
      ghost var performed := performedReactions;
      var rId := 0;
      while rId < |reactions|
        invariant 0 <= rId <= |reactions|
        invariant possibleReactions == frontier + Scan(reactions, discovered, performed, frontier, rId)
        invariant Distinct(possibleReactions)
      {
        ghost var added := Scan(reactions, discovered, performed, frontier, rId);
        ghost var next := Scan(reactions, discovered, performed, frontier, rId + 1);
        assert rId !in added by {
          assert forall i :: 0 <= i < |added| ==> added[i] < rId;
        }
        assert rId in possibleReactions <==> rId in frontier;
        if rId !in possibleReactions && rId !in performedReactions {
          var poss := ReactantsDiscovered(reactions[rId].reactants);
          if poss {
            assert next == added + [rId];
            possibleReactions := Add(possibleReactions, rId);
          } else {
            assert next == added;
          }
        } else {
          assert next == added;
        }
        assert possibleReactions == frontier + next;
        rId := rId + 1;
      }
    }

    /** The reactant loop of `performReaction`: every reactant occurrence
        that is not free costs its tier plus one. */
    method ChargeReactants(reactants: seq<nat>) returns (charge: nat)
      requires CatalogValid() && AllBelow(reactants, |costs|)
      ensures charge == ReactantCharge(costs, freeChemicals, reactants)
    {
      charge := 0;
      var j := 0;
      while j < |reactants|
        invariant 0 <= j <= |reactants|
        invariant AllBelow(reactants[..j], |costs|)
        invariant charge == ReactantCharge(costs, freeChemicals, reactants[..j])
      {
        var cId := reactants[j];
        assert reactants[..j + 1][..j] == reactants[..j];
        if cId !in freeChemicals {
          charge := charge + (costs[cId] + 1);
        }
        j := j + 1;
      }
      assert reactants[..j] == reactants;
    }

    /** Performs reaction `rId` if it is in the frontier and not yet performed:
        its products are discovered, it moves from the frontier to the
        performed set, and the frontier is refreshed if asked. Returns the net
        money (discovery reward minus the reactants' cost) and the reward;
        anything else returns zero for both and changes nothing. */
    method PerformReaction(rId: nat, updatePossible: bool) returns (net: int, reward: int)
      requires Valid()
      requires rId in possibleReactions ==> rId < |reactions|
      modifies this`discoveredChemicals, this`performedReactions, this`possibleReactions
      ensures Valid()
      ensures freeChemicals == old(freeChemicals)
      ensures old(rId !in possibleReactions || rId in performedReactions) ==>
                net == 0 && reward == 0 && unchanged(this)
      ensures old(rId in possibleReactions && rId !in performedReactions) ==>
                && discoveredChemicals == AddAll(old(discoveredChemicals), reactions[rId].products)
                && performedReactions == old(performedReactions) + [rId]
                && possibleReactions == (if updatePossible
                     then Refreshed(reactions, discoveredChemicals, performedReactions, Delete(old(possibleReactions), rId))
                     else Delete(old(possibleReactions), rId))
                && reward == DiscoveryReward(costs, old(discoveredChemicals), reactions[rId].products)
                && net == reward - ReactantCharge(costs, freeChemicals, reactions[rId].reactants)
      ensures old(discoveredChemicals) <= discoveredChemicals
      ensures old(performedReactions) <= performedReactions
      ensures old(FrontierInRange()) ==> FrontierInRange()
      ensures old(FrontierSound()) ==> FrontierSound()
      ensures updatePossible && old(FrontierSound()) && old(rId in possibleReactions && rId !in performedReactions) ==>
                FrontierExact()
    {
      ghost var wasSound := FrontierSound();
      ghost var wasInRange := FrontierInRange();
      if rId !in possibleReactions {
        return 0, 0;
      }
      if rId in performedReactions {
        return 0, 0;
      }
      var reaction := reactions[rId];
      var discovered, productReward := DiscoverAll(costs, discoveredChemicals, reaction.products);
      discoveredChemicals := discovered;
      var cost: int := productReward;
      if wasSound {
        PerformKeepsSound(reactions, old(discoveredChemicals), old(performedReactions), old(possibleReactions),
                          rId, reaction.products);
      }
      if wasInRange {
        DeleteBelow(possibleReactions, rId, |reactions|);
      }
      possibleReactions := Delete(possibleReactions, rId);
      performedReactions := Add(performedReactions, rId);
      if updatePossible {
        UpdatePossibleReactions();
      }
      var costProducts := cost;
      var charge := ChargeReactants(reaction.reactants);
      cost := cost - charge;
      net, reward := cost, costProducts;
    }

    /** The weights `getRandomReactions` gives the reactions `ids`:
        `costWeight` applied to the total cost of each one's displayed
        reactants, which is the weight the frontier sampler uses. */
    function ReactionWeights(ids: seq<nat>, costWeight: nat -> real): (w: seq<real>)
      reads this
      requires CatalogValid() && AllBelow(ids, |reactions|)
      ensures w == ChargeWeights(reactions, costs, freeChemicals, ids, costWeight)
    {
      WeightsAreCharges(ids, costWeight);
      CostWeights(ReactionsOf(ids), costWeight)
    }

    /** The sampler's weight of a reaction, computed from the displayed
        details of its reactants, is `costWeight` of the charge for them plus
        one per reactant occurrence. */
    lemma WeightsAreCharges(ids: seq<nat>, costWeight: nat -> real)
      requires CatalogValid() && AllBelow(ids, |reactions|)
      ensures CostWeights(ReactionsOf(ids), costWeight) == ChargeWeights(reactions, costs, freeChemicals, ids, costWeight)
    {
      var ds := ReactionsOf(ids);
      forall i | 0 <= i < |ids|
        ensures TotalCost(ds[i].reactants) == ReactantTotal(costs, freeChemicals, reactions[ids[i]].reactants)
      {
        var rs := reactions[ids[i]].reactants;
        ChargeIsDisplayedCost(rs);
        assert ds[i].reactants == DetailsOf(rs);
      }
      SameTotalsSameWeights(reactions, costs, freeChemicals, ds, ids, costWeight);
    }

    /** The details of the reactions `ids`, in order. */
    function ReactionsOf(ids: seq<nat>): (ds: seq<ReactionDetails>)
      reads this
      requires CatalogValid() && AllBelow(ids, |reactions|)
      ensures |ds| == |ids| && forall i :: 0 <= i < |ids| ==> ds[i] == GetReactionDetails(ids[i])
      ensures ReactionIds(ds) == ids
    {
      if ids == [] then [] else ReactionsOf(ids[..|ids| - 1]) + [GetReactionDetails(ids[|ids| - 1])]
    }

    /** `getRandomReactions(n)`, with the `n` draws of `Math.random()` given as
        `draws` and `Math.pow(_, costInfluence)` as `costWeight`: the details
        of the frontier sample for those draws. */
    method GetRandomReactions(n: nat, costWeight: nat -> real, draws: seq<real>) returns (picked: seq<ReactionDetails>)
      requires Valid() && FrontierInRange()
      requires |draws| == n
      ensures ReactionIds(picked) == FrontierSample(reactions, costs, freeChemicals, possibleReactions, costWeight, draws)
      ensures picked == ReactionsOf(ReactionIds(picked))
      ensures |picked| <= n
      ensures forall i :: 0 <= i < |picked| ==> picked[i].id in possibleReactions
    {
      var reactionIds := possibleReactions;
      var weights := ReactionWeights(reactionIds, costWeight);
      var totalWeight := Sum(weights);
      var sampledIds: seq<nat> := [];
      if totalWeight != 0.0 {
        var normalizedWeights := Normalize(weights);
        sampledIds := SampleLoop(reactionIds, normalizedWeights, draws);
      }
      assert sampledIds == FrontierSample(reactions, costs, freeChemicals, possibleReactions, costWeight, draws);
      picked := ReactionsOf(sampledIds);
      assert forall i :: 0 <= i < |picked| ==> picked[i].id == sampledIds[i] && sampledIds[i] in sampledIds;
    }

    /** The batch loop of `performRandomReactions`: performs the first `num`
        sampled reactions in order, deferring the frontier refresh. The
        reactions it performs are exactly the distinct sampled ones that were
        in the frontier and not yet performed when it started: they are
        appended to the performed set, leave the frontier, and their products
        are discovered. False when the sample holds fewer than `num` reactions
        (after performing all of them), where the source reads the id of a
        missing entry. */
    method PerformBatch(sampled: seq<ReactionDetails>, num: nat) returns (ok: bool)
      requires Valid() && FrontierInRange()
      modifies this`discoveredChemicals, this`performedReactions, this`possibleReactions
      ensures Valid() && FrontierInRange()
      ensures ok <==> num <= |sampled|
      ensures freeChemicals == old(freeChemicals)
      ensures var rs := Performed(BatchIds(sampled, num), old(possibleReactions), old(performedReactions));
        && |rs| <= num
        && AllBelow(rs, |reactions|)
        && performedReactions == old(performedReactions) + rs
        && possibleReactions == Minus(old(possibleReactions), rs)
        && discoveredChemicals == AddAll(old(discoveredChemicals), ProductsOf(reactions, rs))
      ensures old(FrontierSound()) ==> FrontierSound()
    {
      ghost var start := Progress(discoveredChemicals, performedReactions, possibleReactions);
      var i := 0;
      while i < num
        invariant 0 <= i <= num && i <= |sampled|
        invariant Valid() && FrontierInRange()
        invariant Progress(discoveredChemicals, performedReactions, possibleReactions)
                    == PerformAll(reactions, start, ReactionIds(sampled[..i]))
        invariant old(FrontierSound()) ==> FrontierSound()
      {
        if i >= |sampled| {
          assert sampled[..i] == sampled;
          ok := false;
          break;
        }
        ghost var before := Progress(discoveredChemicals, performedReactions, possibleReactions);
        var _, _ := PerformReaction(sampled[i].id, false);
        ReactionIdsStep(sampled, i);
        assert Progress(discoveredChemicals, performedReactions, possibleReactions)
                 == PerformStep(reactions, before, sampled[i].id);
        i := i + 1;
      }
      if i == num {
        ok := true;
      }
      PerformAllClosedForm(reactions, start, BatchIds(sampled, num));
    }

    /** One batch of `performRandomReactions` once sampled: performs the
        sample in order without refreshing the frontier (as `PerformBatch`
        states), then refreshes it once. False when the sample is shorter
        than `num` (the source then throws, before the refresh). */
    method RunBatch(sampled: seq<ReactionDetails>, num: nat) returns (ok: bool)
      requires Valid() && FrontierInRange()
      modifies this`discoveredChemicals, this`performedReactions, this`possibleReactions
      ensures Valid() && FrontierInRange()
      ensures ok <==> num <= |sampled|
      ensures freeChemicals == old(freeChemicals)
      ensures var rs := Performed(BatchIds(sampled, num), old(possibleReactions), old(performedReactions));
        && |rs| <= num
        && AllBelow(rs, |reactions|)
        && performedReactions == old(performedReactions) + rs
        && possibleReactions == (if ok then Refreshed(reactions, discoveredChemicals, performedReactions,
                                                      Minus(old(possibleReactions), rs))
                                 else Minus(old(possibleReactions), rs))
        && discoveredChemicals == AddAll(old(discoveredChemicals), ProductsOf(reactions, rs))
      ensures old(FrontierSound()) ==> FrontierSound()
      ensures ok ==> FrontierComplete()
    {
      ok := PerformBatch(sampled, num);
      if ok {
        UpdatePossibleReactions();
      }
    }

    /** `performRandomReactions(n)`: below 100 it does nothing; otherwise it
        samples and performs batches of at most 50 reactions (`RunBatch`, with
        the sample `GetRandomReactions` draws), refreshing the frontier after
        each batch and subtracting the batch's size from `n`. The `i`-th draw
        of the run is `draw(i)`. Over the whole run at most `n` reactions are
        performed, each once, appended in order, and the chemicals discovered
        are exactly the products of the newly performed reactions. Returns
        false where the source would read the id of a missing sample and
        throw (the sampler returned fewer reactions than the batch size); the
        batches before stay performed. */
    method PerformRandomReactions(n: int, costWeight: nat -> real, draw: nat -> real) returns (completed: bool)
      requires Valid() && FrontierInRange()
      modifies this`discoveredChemicals, this`performedReactions, this`possibleReactions
      ensures Valid() && FrontierInRange()
      ensures freeChemicals == old(freeChemicals)
      ensures n < MinRandomReactions ==> completed && unchanged(this)
      ensures old(performedReactions) <= performedReactions
      ensures |performedReactions| <= |old(performedReactions)| + (if n < MinRandomReactions then 0 else n)
      ensures var added := performedReactions[|old(performedReactions)|..];
        && AllBelow(added, |reactions|)
        && discoveredChemicals == AddAll(old(discoveredChemicals), ProductsOf(reactions, added))
      ensures old(FrontierSound()) ==> FrontierSound()
      ensures completed && n >= MinRandomReactions ==> FrontierComplete()
    {
      if n < MinRandomReactions {
        assert performedReactions[|old(performedReactions)|..] == [];
        return true;
      }
      var remaining := n;
      var used: nat := 0;
      while remaining > 0
        invariant Valid() && FrontierInRange()
        invariant freeChemicals == old(freeChemicals)
        invariant 0 <= remaining <= n
        invariant old(performedReactions) <= performedReactions
        invariant |performedReactions| <= |old(performedReactions)| + (n - remaining)
        invariant AllBelow(performedReactions[|old(performedReactions)|..], |reactions|)
        invariant discoveredChemicals
                    == AddAll(old(discoveredChemicals),
                              ProductsOf(reactions, performedReactions[|old(performedReactions)|..]))
        invariant old(FrontierSound()) ==> FrontierSound()
        invariant remaining < n ==> FrontierComplete()
        decreases remaining
      {
        var num: nat := if remaining < BatchSize then remaining else BatchSize;
        var batch := BatchDraws(draw, used, num);
        used := used + num;
        var sampled := GetRandomReactions(num, costWeight, batch);
        ghost var added := performedReactions[|old(performedReactions)|..];
        ghost var rs := Performed(BatchIds(sampled, num), possibleReactions, performedReactions);
        ghost var performed := performedReactions;
        var ok := RunBatch(sampled, num);
        SuffixAppend(old(performedReactions), performed, rs);
        ProductsOfConcat(reactions, added, rs);
        AddAllConcat(old(discoveredChemicals), ProductsOf(reactions, added), ProductsOf(reactions, rs));
        if !ok {
          return false;
        }
        remaining := remaining - |sampled|;
      }
      return true;
    }

    /** The chemical ids `getNonFreeInitialChemicals(num)` samples: weighted
        sampling without repeats from the popular initial chemicals that are
        not free, earlier ranks weighted more (`rankWeight(index, length)`
        stands for `Math.exp(-index / length)`), draw `k` being `draw(k)`. The
        source loops until it has `num` chemicals, which never happens when
        fewer than `num` are available, so only the first `fuel` draws are
        used and running out of them is an error. */
    function ShopSample(num: nat, rankWeight: (nat, nat) -> real, draw: nat -> real, fuel: nat)
      : (s: Result<seq<nat>, SampleError>)
      reads this
      requires CatalogValid()
      requires forall i: nat, m: nat :: 0.0 < rankWeight(i, m)
      ensures s.Ok? ==> |s.value| == num && Distinct(s.value)
      ensures s.Ok? ==> forall c :: c in s.value ==> c in sortedInitial && c !in freeChemicals
      ensures s.Ok? ==> AllBelow(s.value, |costs|)
      ensures num > |Minus(sortedInitial, freeChemicals)| ==> s.Err?
    {
      var cands := Minus(sortedInitial, freeChemicals);
      var s := DrawDistinct(cands, Normalize(RankWeights(|cands|, rankWeight)), draw, num, fuel, 0, []);
      if s.Ok? then
        DistinctWithin(s.value, cands);
        assert forall i :: 0 <= i < |s.value| ==> s.value[i] in s.value;
        assert forall c :: c in initial ==> c < |costs| by {
          forall c | c in initial ensures c < |costs| {
            var k :| 0 <= k < |initial| && initial[k] == c;
          }
        }
        s
      else s
    }

    /** `getNonFreeInitialChemicals(num)` with the sampling loop of
        `ShopSample`: the details of the sampled chemicals, or the error when
        the draws run out. */
    method GetNonFreeInitialChemicals(num: nat, rankWeight: (nat, nat) -> real, draw: nat -> real, fuel: nat)
      returns (r: Result<seq<ChemicalDetails>, SampleError>)
      requires Valid()
      requires forall i: nat, m: nat :: 0.0 < rankWeight(i, m)
      ensures var s := ShopSample(num, rankWeight, draw, fuel);
        && (r.Ok? <==> s.Ok?)
        && (r.Ok? ==> r.value == DetailsOf(s.value))
    {
      var initialChemicals := Minus(sortedInitial, freeChemicals);
      var m := |initialChemicals|;
      var weights := RankWeights(m, rankWeight);
      var normalizedWeights := Normalize(weights);
      var sample := DistinctLoop(initialChemicals, normalizedWeights, draw, num, fuel);
      assert sample == ShopSample(num, rankWeight, draw, fuel);
      if sample.Err? {
        return Err(sample.error);
      }
      return Ok(DetailsOf(sample.value));
    }

    /** Marks chemical `cId` as free. */
    method MakeChemicalFree(cId: nat)
      requires Valid()
      modifies this`freeChemicals
      ensures Valid()
      ensures freeChemicals == Add(old(freeChemicals), cId)
      ensures cId < |costs| ==> GetChemicalDetails(cId).cost == 0
    {
      freeChemicals := Add(freeChemicals, cId);
    }

    /** The details of chemical `cId`: free chemicals cost nothing, others
        their tier plus one; new means not yet discovered. */
    function GetChemicalDetails(cId: nat): (d: ChemicalDetails)
      reads this
      requires CatalogValid() && cId < |costs|
      ensures d.id == cId && d.name == names[cId] && d.stars == costs[cId] && d.en == english[cId]
      ensures d.cost == EffectiveCost(costs, freeChemicals, cId)
      ensures d.cost == 0 <==> cId in freeChemicals
      ensures d.isNew <==> cId !in discoveredChemicals
    {
      ChemicalDetails(cId, names[cId], if cId in freeChemicals then 0 else costs[cId] + 1,
                      costs[cId], cId !in discoveredChemicals, english[cId])
    }

    /** The details of a list of chemicals, in order. */
    function DetailsOf(ids: seq<nat>): (ds: seq<ChemicalDetails>)
      reads this
      requires CatalogValid() && AllBelow(ids, |costs|)
      ensures |ds| == |ids| && forall i :: 0 <= i < |ids| ==> ds[i] == GetChemicalDetails(ids[i])
      ensures Ids(ds) == ids
    {
      if ids == [] then [] else DetailsOf(ids[..|ids| - 1]) + [GetChemicalDetails(ids[|ids| - 1])]
    }

    /** The details of reaction `rId`: its reactants' and products' details. */
    function GetReactionDetails(rId: nat): (d: ReactionDetails)
      reads this
      requires CatalogValid() && rId < |reactions|
      ensures d.id == rId
      ensures Ids(d.reactants) == reactions[rId].reactants
      ensures Ids(d.products) == reactions[rId].products
    {
      ReactionDetails(rId, DetailsOf(reactions[rId].reactants), DetailsOf(reactions[rId].products))
    }

    /** What the player sees is what performing costs: the reactants' display
        costs add up to the charge `performReaction` deducts, and the total
        cost the sampler weights by adds one more per reactant occurrence. */
    lemma {:induction false} ChargeIsDisplayedCost(ids: seq<nat>)
      requires CatalogValid() && AllBelow(ids, |costs|)
      ensures DisplayedCost(DetailsOf(ids)) == ReactantCharge(costs, freeChemicals, ids)
      ensures TotalCost(DetailsOf(ids)) == ReactantCharge(costs, freeChemicals, ids) + |ids|
    {
      if ids != [] {
        var front := ids[..|ids| - 1];
        assert AllBelow(front, |costs|);
        ChargeIsDisplayedCost(front);
        assert DetailsOf(ids)[..|ids| - 1] == DetailsOf(front);
        assert DetailsOf(ids)[|ids| - 1] == GetChemicalDetails(ids[|ids| - 1]);
      }
    }

    /** The integer entries of `getDiscoveredStats`: the discovered count
        beyond the initial ones, the performed count and the frontier size. */
    function GetDiscoveredStats(): (s: DiscoveredStats)
      reads this
      requires Valid()
      ensures s.numDiscoveredReactions == |Elems(performedReactions)|
      ensures s.numPossible == |Elems(possibleReactions)|
    {
      ElemsCard(performedReactions);
      ElemsCard(possibleReactions);
      DiscoveredStats(|discoveredChemicals| - |initial|, |performedReactions|, |possibleReactions|)
    }

    /** When the initial chemicals are distinct and all discovered (as after
        `reset`, and discovering only adds), the first statistic counts the
        chemicals discovered beyond them. */
    lemma NewChemicalsCount()
      requires Valid() && Distinct(initial)
      requires forall c :: c in initial ==> c in discoveredChemicals
      ensures GetDiscoveredStats().numDiscoveredChemicals == |Elems(discoveredChemicals) - Elems(initial)|
    {
      ElemsMinusCard(discoveredChemicals, initial);
    }

    /** The number of performed reactions. */
    function GetNumPerformedActions(): (k: nat)
      reads this
      requires Valid()
      ensures k == |Elems(performedReactions)|
    {
      ElemsCard(performedReactions);
      |performedReactions|
    }

    /** `serialize`: each set as an array in insertion order. Reading the
        arrays back as sets restores every set, order included. */
    function Serialize(): (s: Snapshot)
      reads this
      requires Valid()
      ensures FromArray(s.discoveredChemicals) == discoveredChemicals
      ensures FromArray(s.performedReactions) == performedReactions
      ensures FromArray(s.possibleReactions) == possibleReactions
      ensures FromArray(s.freeChemicals) == freeChemicals
    {
      FromArrayRoundTrip(discoveredChemicals);
      FromArrayRoundTrip(performedReactions);
      FromArrayRoundTrip(possibleReactions);
      FromArrayRoundTrip(freeChemicals);
      Snapshot(discoveredChemicals, performedReactions, possibleReactions, freeChemicals)
    }

    /** `deserialize`: a freshly constructed engine whose four sets are
        replaced by the snapshot's arrays read as sets; the frontier is taken
        as stored, not recomputed. */
    static method Deserialize(data: ChemistryData, snapshot: Snapshot) returns (g: ChemicalGraph)
      requires WellFormedData(data)
      ensures fresh(g) && g.Valid()
      ensures g.names == data.chemicals.names && g.costs == data.chemicals.costs
      ensures g.initial == data.chemicals.initial && g.english == data.chemicals.english
      ensures g.reactions == data.reactions
      ensures g.sortedInitial == PopularityRanking(data.reactions, data.chemicals.initial, |data.chemicals.costs|)
      ensures g.discoveredChemicals == FromArray(snapshot.discoveredChemicals)
      ensures g.performedReactions == FromArray(snapshot.performedReactions)
      ensures g.possibleReactions == FromArray(snapshot.possibleReactions)
      ensures g.freeChemicals == FromArray(snapshot.freeChemicals)
    {
      g := new ChemicalGraph(data);
      g.discoveredChemicals := FromArray(snapshot.discoveredChemicals);
      g.performedReactions := FromArray(snapshot.performedReactions);
      g.possibleReactions := FromArray(snapshot.possibleReactions);
      g.freeChemicals := FromArray(snapshot.freeChemicals);
    }
  }

  /** Saving a game and loading it back restores the four sets exactly,
      order included (the frontier as saved, without a refresh). */
  method SaveAndLoad(data: ChemistryData, g: ChemicalGraph) returns (h: ChemicalGraph)
    requires WellFormedData(data) && g.Valid()
    ensures h.discoveredChemicals == g.discoveredChemicals
    ensures h.performedReactions == g.performedReactions
    ensures h.possibleReactions == g.possibleReactions
    ensures h.freeChemicals == g.freeChemicals
  {
    var snapshot := g.Serialize();
    h := ChemicalGraph.Deserialize(data, snapshot);
  }
}
