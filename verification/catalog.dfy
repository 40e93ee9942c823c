/**
 * The immutable game data the engine is built from (`ChemistryData` in
 * src/preload.ts): parallel per-chemical arrays indexed by chemical id, and
 * the reactions indexed by reaction id, each a pair of reactant ids and
 * product ids.
 */
module Catalog {

  /** `[reactantIds, productIds]`. */
  datatype Reaction = Reaction(reactants: seq<nat>, products: seq<nat>)

  /** The per-chemical arrays: structure name, star tier ("cost"), the ids
      discovered from the start, and the English display name. */
  datatype ChemicalData = ChemicalData(
    names: seq<string>,
    costs: seq<nat>,
    initial: seq<nat>,
    english: seq<string>)

  datatype ChemistryData = ChemistryData(chemicals: ChemicalData, reactions: seq<Reaction>)

  /** Every id of `ids` is below `bound`. */
  predicate AllBelow(ids: seq<nat>, bound: nat) {
    forall i :: 0 <= i < |ids| ==> ids[i] < bound
  }

  /** Every reactant and product id of every reaction is below `bound`. */
  predicate ReactionsBelow(reactions: seq<Reaction>, bound: nat) {
    forall r :: 0 <= r < |reactions| ==>
      AllBelow(reactions[r].reactants, bound) && AllBelow(reactions[r].products, bound)
  }

  /** The arrays line up and every id the data mentions names a chemical. */
  predicate WellFormed(names: seq<string>, costs: seq<nat>, initial: seq<nat>,
                       english: seq<string>, reactions: seq<Reaction>)
  {
    && |names| == |costs| == |english|
    && AllBelow(initial, |costs|)
    && ReactionsBelow(reactions, |costs|)
  }

  predicate WellFormedData(data: ChemistryData) {
    WellFormed(data.chemicals.names, data.chemicals.costs, data.chemicals.initial,
               data.chemicals.english, data.reactions)
  }
}
