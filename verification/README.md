# ChemicalGraph, modelled in Dafny

This project models the game engine of the organic-chemistry discovery game
(`src/ChemicalGraph.ts`). The engine holds an immutable catalog and four sets
of ids that make up the game state:

- The catalog: per-chemical names, star tiers ("costs"), the initial
  chemicals and English names, plus the reactions. Each reaction is a list of
  reactant ids and a list of product ids.
- `discoveredChemicals`: the chemicals discovered so far.
- `performedReactions`: the reactions already performed.
- `possibleReactions`: the frontier of reactions that can be performed now.
- `freeChemicals`: the chemicals the player has bought, which then cost
  nothing.

Performing a reaction discovers its products and pays four times the tier of
each new product. It charges tier + 1 for every reactant occurrence that is
not free, moves the reaction from the frontier to the performed set, and
optionally refreshes the frontier. Two weighted samplers use a cumulative-sum
walk over normalised weights:

- a sampler of frontier reactions, weighted by a power of their total
  reactant cost;
- a "shop" sampler of popular, non-free initial chemicals, weighted by rank.

The popularity ranking is computed once, by the constructor.

Files, one module each:

- `wrappers.dfy`: `Option` and `Result`.
- `insertion_set.dfy` (`InsertionSet`): JavaScript `Set<number>` as a
  sequence of distinct ids in insertion order. The order matters: samplers
  pick by position, and `serialize` writes the members in that order.
- `catalog.dfy` (`Catalog`): the game data (`ChemistryData` of
  `src/preload.ts`) and its well-formedness.
- `popularity.dfy` (`Popularity`): the constructor's reactant counting and
  the stable sort that builds `sortedInitial`.
- `frontier.dfy` (`Frontier`): what `updatePossibleReactions` adds. It also
  defines when the frontier is sound (everything in it can be performed) and
  complete (everything that can be performed is in it).
- `economy.dfy` (`Economy`): the discovery reward and the reactant charge.
- `sampling.dfy` (`Sampling`): normalisation, the cumulative-weight pick,
  and sampling with and without repeats as functions of the draws.
- `batch.dfy` (`Batch`): one batch of `performRandomReactions` as a function
  of the frontier and the draws: which reactions are sampled, and what
  performing them in order does to the three sets, in closed form.
- `graph.dfy` (`Graph`): the `ChemicalGraph` class. Its four sets are
  mutable fields and its catalog is constant fields. `updatePossibleReactions`,
  `performReaction` and the rest are methods with their loops.

The model follows the code in these places:

- Popularity ties are broken by ascending chemical id. `for..in` lists an
  object's integer keys in ascending order and `Array.prototype.sort` is
  stable.
- The sampler weights a reaction by its total cost, which is "display cost +
  1" summed over the reactants (`src/ChemicalGraph.ts:159`). A non-free
  reactant of tier t therefore contributes t + 2. `ChargeIsDisplayedCost`
  states this relation.
- The constructor calls `reset` before it computes the ranking. The model
  computes the ranking first. `reset` neither reads nor writes
  `sortedInitial`, so the resulting state is the same.

## Model

| member | source | states |
|---|---|---|
| `InsertionSet.Add` | src/ChemicalGraph.ts:76 | `Set.add`: the members become the old ones plus `x`, the old order is kept as a prefix, and repeats stay impossible |
| `InsertionSet.Delete` | src/ChemicalGraph.ts:205 | `Set.delete`: removes exactly `x`, keeps the rest, and shortens a set holding `x` by one |
| `InsertionSet.AddAll` | src/ChemicalGraph.ts:75-77 | adding ids one after another: the members are the union, and the old set is a prefix |
| `InsertionSet.FromArray` | src/ChemicalGraph.ts:115-118 | `new Set(array)`: distinct, with exactly the array's members |
| `InsertionSet.Minus` | src/ChemicalGraph.ts:257 | the filter removing free chemicals keeps exactly the members not in the other set, still distinct |
| `InsertionSet.FreshMembers` | src/ChemicalGraph.ts:196-204 | adding a list appends exactly the listed ids not yet present, each once |
| `InsertionSet.FromArrayRoundTrip` | src/ChemicalGraph.ts:103-120 | reading an `Array.from` of a set back with `new Set` gives the same set, order included |
| `InsertionSet.ElemsCard` | src/ChemicalGraph.ts:67 | a set's `size` is its length: the number of distinct members |
| `InsertionSet.DistinctWithin` | src/ChemicalGraph.ts:266-279 | distinct picks from a candidate list are at most as many as the candidates |
| `InsertionSet.ElemsMinusCard` | src/ChemicalGraph.ts:244-245 | the size difference of two nested sets counts the members of one that are not in the other |
| `Popularity.CountReactants` | src/ChemicalGraph.ts:46-53 | counting one reaction's reactants adds each initial chemical's occurrences to its count, and creates entries only for initial chemicals that occur |
| `Popularity.CountInitialReactants` | src/ChemicalGraph.ts:44-54 | the table holds exactly the initial chemicals occurring as reactants, each with its total number of occurrences over all reactions |
| `Popularity.AscendingKeys` | src/ChemicalGraph.ts:57-60 | `for..in` lists exactly the table's keys, in strictly ascending order |
| `Popularity.Insert` | src/ChemicalGraph.ts:61 | one insertion step of the stable sort adds exactly one entry and loses none (a multiset equation) |
| `Popularity.SortByCount` | src/ChemicalGraph.ts:61 | the sort is a permutation of its input |
| `Popularity.ConsRanked` | src/ChemicalGraph.ts:61 | an id ranked above the head of a ranked list can go in front |
| `Popularity.InsertRanked` | src/ChemicalGraph.ts:61 | the stable insertion of an id smaller than all others keeps the list ranked (count descending, ties by ascending id) |
| `Popularity.SortRanked` | src/ChemicalGraph.ts:58-61 | sorting the ascending keys by descending count ranks them by count, ties by ascending id |
| `Popularity.SortedCandidates` | src/ChemicalGraph.ts:44-61 | the sorted list holds exactly the initial chemicals used as reactants, each ranking above the next |
| `Popularity.PopularityRanking` | src/ChemicalGraph.ts:56-63 | at most 50 entries, each an initial chemical in the catalog that occurs as a reactant |
| `Popularity.RankingProperties` | src/ChemicalGraph.ts:43-63 | `sortedInitial` has at most 50 distinct entries, all of them initial chemicals used as reactants, most frequent first with ties by id. Any candidate left out means the list is full and every entry ranks above it |
| `Frontier.Scan` | src/ChemicalGraph.ts:82-99 | the scan up to `k` adds only reaction ids below `k` |
| `Frontier.ScanMembers` | src/ChemicalGraph.ts:82-99 | the scan adds exactly the reactions not already in the frontier, not performed, and with all reactants discovered |
| `Frontier.ScanIncreasing` | src/ChemicalGraph.ts:82 | the scan adds reactions in increasing id order |
| `Frontier.Refreshed` | src/ChemicalGraph.ts:81-100 | the refreshed frontier extends the old one. Its members are the old ones plus every performable reaction, so it is complete. It stays sound, distinct and made of reaction ids when the old one was |
| `Frontier.PerformKeepsSound` | src/ChemicalGraph.ts:194-206 | discovering the products and moving the performed reaction out of a sound frontier leaves it sound |
| `Frontier.DeleteBelow` | src/ChemicalGraph.ts:205 | removing a reaction keeps the frontier made of reaction ids |
| `Frontier.EligibleStaysEligible` | src/ChemicalGraph.ts:83-85 | a performable reaction stays performable while chemicals are only discovered, which is why the scan may skip frontier members |
| `Economy.DiscoverAll` | src/ChemicalGraph.ts:195-204 | the product loop adds the products to the discovered set in order and earns the discovery reward |
| `Economy.EffectiveCost` | src/ChemicalGraph.ts:140 | a chemical's cost is zero exactly when it is free |
| `Economy.RewardCountsNewProductsOnce` | src/ChemicalGraph.ts:196-204 | the reward is four times the summed tiers of the products not discovered before, each counted once however often it is listed |
| `Economy.DiscoveryReward` | src/ChemicalGraph.ts:196-204 | the reward is at most four times the products' summed tiers, and nothing when every product is already discovered |
| `Economy.ReactantCharge` | src/ChemicalGraph.ts:213-218 | the charge is nothing when every reactant is free, and tier + 1 for every occurrence when none is |
| `Economy.TwoReactantsExample` | src/ChemicalGraph.ts:195-219 | two tier-0 reactants making a new tier-1 product: the reward is 4 and the charge is 2 |
| `Sampling.PickFrom` | src/ChemicalGraph.ts:172-178 | the scan from `j` selects a position whose cumulative weight exceeds the draw, and every earlier position's cumulative weight does not |
| `Sampling.Pick` | src/ChemicalGraph.ts:171-178 | the pick is the first position whose cumulative weight exceeds the draw, or none when there is no such position |
| `Sampling.PickIndex` | src/ChemicalGraph.ts:171-177 | the inner loop with its running sum and `break` returns the pick |
| `Sampling.SampleAll` | src/ChemicalGraph.ts:168-179 | a sample has at most one reaction per draw, and every sampled id is a candidate |
| `Sampling.SampleLoop` | src/ChemicalGraph.ts:168-179 | the draw loop pushes exactly the picks of the draws, in order |
| `Sampling.PrefixSumsGrow` | src/ChemicalGraph.ts:173 | with non-negative weights, the running sum never decreases |
| `Sampling.PickFromReaches` | src/ChemicalGraph.ts:172-177 | a draw in a position's cumulative interval is selected at that position |
| `Sampling.PickInterval` | src/ChemicalGraph.ts:171-177 | a draw selects a position exactly when it lies in that position's cumulative interval, and the interval's length is the position's normalised weight |
| `Sampling.PickSucceeds` | src/ChemicalGraph.ts:172-177 | a draw below the total selects some candidate |
| `Sampling.NormalizedPrefix` | src/ChemicalGraph.ts:165 | each normalised running sum is the raw running sum divided by the total |
| `Sampling.NormalizedSumsToOne` | src/ChemicalGraph.ts:164-165 | the normalised weights add up to one |
| `Sampling.Normalize` | src/ChemicalGraph.ts:165 | dividing by the total keeps one weight per candidate, and non-negative weights with a positive total stay non-negative |
| `Sampling.HeavierIsLikelier` | src/ChemicalGraph.ts:157-165 | a heavier candidate gets a larger normalised weight, and so a longer interval of draws |
| `Sampling.PositiveTotal` | src/ChemicalGraph.ts:164 | positive weights have a positive total |
| `Sampling.SampleAllFull` | src/ChemicalGraph.ts:168-179 | when the weights sum to one and every draw is in [0, 1), the sample has one entry per draw |
| `Sampling.RankWeights` | src/ChemicalGraph.ts:260-261 | one rank weight per candidate, with a positive total whenever there is a candidate |
| `Sampling.DrawDistinct` | src/ChemicalGraph.ts:265-279 | sampling without repeats extends what was picked to exactly `num` entries, all candidates, still distinct, or fails only while fewer than `num` are picked |
| `Sampling.DistinctLoop` | src/ChemicalGraph.ts:266-279 | the `while` loop with `includes` returns exactly the sample without repeats of its draws, or the error when the draws run out |
| `Batch.PerformStep` | src/ChemicalGraph.ts:184-206 | `performReaction(r, false)` on the three sets keeps the frontier made of reaction ids |
| `Batch.PerformAll` | src/ChemicalGraph.ts:232-235 | performing a list in order keeps the frontier made of reaction ids |
| `Batch.Performed` | src/ChemicalGraph.ts:232-235 | the reactions a batch performs are exactly the listed ones in the frontier and not yet performed, each once, at most one per listed id |
| `Batch.ProductsOfConcat` | src/ChemicalGraph.ts:196-204 | the products of two lists of reactions are those of the first, then those of the second |
| `Batch.PerformAllClosedForm` | src/ChemicalGraph.ts:232-235 | performing a list in order appends exactly `Performed` to the performed set, removes it from the frontier and discovers its products in order |
| `Batch.FrontierSample` | src/ChemicalGraph.ts:152-182 | the sample of a list of draws has at most one reaction per draw, all from the frontier, so all reaction ids |
| `Batch.FrontierSampleFull` | src/ChemicalGraph.ts:157-179 | with a non-empty frontier of reactions with reactants, a positive power function and draws in [0, 1), every draw yields a reaction |
| `Graph.ChemicalGraph.constructor` | src/ChemicalGraph.ts:33-64 | the catalog is stored, `sortedInitial` is the popularity ranking, and the game starts as after `reset` with an exact frontier |
| `Graph.ChemicalGraph.Reset` | src/ChemicalGraph.ts:70-79 | only the initial chemicals are discovered (as `new Set` would read them), nothing is performed or free, and the frontier is rebuilt from empty so that it is exactly the performable reactions |
| `Graph.ChemicalGraph.ReactantsDiscovered` | src/ChemicalGraph.ts:89-95 | the reactant loop with `break` answers true exactly when every reactant has been discovered |
| `Graph.ChemicalGraph.UpdatePossibleReactions` | src/ChemicalGraph.ts:81-100 | the new frontier is the refreshed old one (see `Frontier.Refreshed`), nothing else changes, and the sets stay distinct |
| `Graph.ChemicalGraph.ChargeReactants` | src/ChemicalGraph.ts:213-218 | the reactant loop deducts the effective cost of every reactant occurrence |
| `Graph.ChemicalGraph.PerformReaction` | src/ChemicalGraph.ts:184-220 | For a reaction outside the frontier or already performed, both amounts are zero and nothing changes. Otherwise the products are discovered and the reaction moves from the frontier to the performed set, with an optional refresh. The reward is the discovery reward and the net amount is the reward minus the reactant charge. The sets only grow, a sound frontier stays sound, and it becomes exact after a refresh |
| `Graph.TotalCost` | src/ChemicalGraph.ts:159 | the total cost of a reaction is at least one per reactant occurrence |
| `Graph.BatchIds` | src/ChemicalGraph.ts:230-234 | the batch loop hands at most `num` ids to `performReaction` |
| `Graph.ChemicalGraph.ReactionWeights` | src/ChemicalGraph.ts:157-161 | the weights computed from the reactions' displayed details are the frontier sampler's weights: the power function of each reaction's reactant charge plus one per occurrence |
| `Graph.ChemicalGraph.WeightsAreCharges` | src/ChemicalGraph.ts:157-161 | the total cost summed over displayed reactant details equals the reactant charge plus one per occurrence, so both give the same weights |
| `Graph.ChemicalGraph.ReactionsOf` | src/ChemicalGraph.ts:181 | maps each sampled id to its reaction details, in order, keeping the ids |
| `Graph.ChemicalGraph.GetRandomReactions` | src/ChemicalGraph.ts:152-182 | the result is the details of exactly the frontier sample of the given draws (`Batch.FrontierSample`), at most `n` of them, all frontier reactions |
| `Graph.ChemicalGraph.PerformBatch` | src/ChemicalGraph.ts:232-235 | succeeds exactly when the sample holds `num`. The reactions performed are exactly `Batch.Performed` of the batch's ids: appended to the performed set, removed from the frontier, their products discovered in order, at most `num` of them. Free chemicals are untouched and soundness is kept |
| `Graph.ChemicalGraph.RunBatch` | src/ChemicalGraph.ts:232-236 | the same closed form as `PerformBatch`, then on success the frontier is the refreshed one, so it is complete, and sound when it was sound |
| `Graph.ChemicalGraph.PerformRandomReactions` | src/ChemicalGraph.ts:222-240 | below 100 nothing changes. Otherwise at most `n` reactions are performed, appended to the performed set, and the discovered set grows by exactly their products in order. Free chemicals are untouched, the frontier stays sound if it was, and a completed run leaves it complete |
| `Graph.ChemicalGraph.ShopSample` | src/ChemicalGraph.ts:255-279 | the sample without repeats (`Sampling.DrawDistinct`) of the non-free popular chemicals under rank weights for the given draws: exactly `num` distinct chemicals, each popular and not free, or an error, which is certain when more are asked for than exist |
| `Graph.ChemicalGraph.GetNonFreeInitialChemicals` | src/ChemicalGraph.ts:255-282 | the result is the details, in order, of exactly the chemicals `ShopSample` draws, and an error exactly when it fails |
| `Graph.ChemicalGraph.MakeChemicalFree` | src/ChemicalGraph.ts:284-286 | the chemical joins the free set and then costs nothing |
| `Graph.ChemicalGraph.GetChemicalDetails` | src/ChemicalGraph.ts:135-144 | the details carry the catalog entries. Cost is zero exactly when the chemical is free and tier + 1 otherwise, and `new` is set exactly when it is undiscovered |
| `Graph.ChemicalGraph.DetailsOf` | src/ChemicalGraph.ts:147-148 | maps each id to its chemical details, in order, keeping the ids |
| `Graph.ChemicalGraph.GetReactionDetails` | src/ChemicalGraph.ts:146-150 | the details carry the reaction id and list its reactants and products in catalog order |
| `Graph.ChemicalGraph.ChargeIsDisplayedCost` | src/ChemicalGraph.ts:158-159 | the displayed reactant costs add up to the charge that performing deducts. The sampler's total cost adds one more per reactant |
| `Graph.ChemicalGraph.GetDiscoveredStats` | src/ChemicalGraph.ts:242-253 | the reaction counts are the sizes of the performed set and the frontier |
| `Graph.ChemicalGraph.NewChemicalsCount` | src/ChemicalGraph.ts:244-245 | with distinct initial chemicals that are all discovered, the first statistic counts the chemicals discovered beyond them |
| `Graph.ChemicalGraph.GetNumPerformedActions` | src/ChemicalGraph.ts:66-68 | the number of distinct performed reactions |
| `Graph.ChemicalGraph.Serialize` | src/ChemicalGraph.ts:103-110 | each array read back as a set restores that set, order included |
| `Graph.ChemicalGraph.Deserialize` | src/ChemicalGraph.ts:112-120 | a fresh engine on the same catalog, with the popularity ranking, whose four sets are the snapshot's arrays read as sets |
| `Graph.SaveAndLoad` | src/ChemicalGraph.ts:103-120 | serialising and deserialising restores all four sets exactly |

## Left out

- `saveState` and `loadState` (`src/ChemicalGraph.ts:122-133`) are left out. They only move the serialised text through the browser's `localStorage`.
- JSON text is left out. `Serialize` returns the object that `JSON.stringify` would write, and `Deserialize` takes that object rather than a string.
- `Graph.ChemicalGraph.Deserialize` does not check that the stored ids are in range, because the source does not check them either. The model stores them as read.
- Randomness, `Math.pow` and `Math.exp` are parameters. `Math.random()` becomes a sequence of draws, or a function from the draw number to the draw. The weight functions are not modelled further, except for positivity where a lemma needs it.
- Reals stand for floating point, so rounding is not modelled. This includes a normalised total that only nearly reaches one.
- The percentages of `getDiscoveredStats` (`src/ChemicalGraph.ts:248-249`) are left out. They are `Math.round` of a float division, and `Graph.ChemicalGraph.GetDiscoveredStats` models the three integer entries.
- A total weight of zero is special-cased. In the source it makes every normalised weight NaN, so no comparison succeeds and nothing is picked. The model picks nothing explicitly.
- `Graph.ChemicalGraph.PerformRandomReactions` returns false where the source throws a TypeError. That happens when a sample is shorter than its batch, for example with an empty frontier. Batches already performed stay performed.
- `Graph.ChemicalGraph.PerformRandomReactions`: in the source, `n` is any number. The model takes an integer.
- `Graph.ChemicalGraph.PerformRandomReactions` does not model the `console.log` message.
- `Graph.ChemicalGraph.GetNonFreeInitialChemicals` takes a bound (`fuel`) on the number of draws and returns an error when the draws run out. The source keeps drawing forever when fewer than `num` candidates exist.
- `Graph.ChemicalGraph.GetChemicalDetails` and `Graph.ChemicalGraph.GetReactionDetails` require ids inside the catalog. In the source, an out-of-range id yields `undefined` fields or throws.
- `Graph.ChemicalGraph.PerformReaction` requires a frontier member to be a reaction id. In the source, reading an unknown reaction throws.
- `Graph.ChemicalGraph.GetRandomReactions`, `Graph.ChemicalGraph.PerformBatch`, `Graph.ChemicalGraph.RunBatch` and `Graph.ChemicalGraph.PerformRandomReactions` require the frontier to hold reaction ids only (`FrontierInRange`). In the source, an unknown id in the frontier makes `getReactionDetails` throw a TypeError (`src/ChemicalGraph.ts:147`). Every operation that builds the frontier keeps this property; only a loaded snapshot can break it.
- `Graph.ChemicalGraph.constructor` and `Graph.ChemicalGraph.Deserialize` require well-formed game data (`WellFormedData`: catalog lists of equal length, every id in range). The source does not check this. An out-of-range product id, for example, gives a NaN reward (`src/ChemicalGraph.ts:201`).
- The user-interface files are not part of this model: `GameScreen`, `ChemicalVisualizer`, `LoadingScreen`, `SoundManager`, `main` and the RDKit wrapper. The same goes for the data download in `preload`.
- `REACTION_IDS_START` (`src/ChemicalGraph.ts:3`) is left out because nothing uses it.
- `Graph.ChemicalGraph.PerformRandomReactions` does not give the reactions of a whole run as one function of the draws. Each batch samples a frontier refreshed after the one before. The run states the bound, the order and the discovered products. Each batch is stated exactly: `Graph.ChemicalGraph.GetRandomReactions` gives its sample for its draws (`Batch.BatchDraws`), and `Graph.ChemicalGraph.RunBatch` gives what performing it does.
- `Graph.ChemicalGraph.GetNonFreeInitialChemicals` does not state that earlier ranks are likelier as a probability. That property is stated for the shared pick by `Sampling.PickInterval` and `Sampling.HeavierIsLikelier`.
