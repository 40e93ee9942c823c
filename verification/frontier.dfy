/**
 * The frontier of possible reactions. Its intended meaning is the set of
 * reactions that exist, have not been performed, and whose reactants have all
 * been discovered. The engine keeps it as a cache that is only ever extended
 * by `updatePossibleReactions` and shrunk by performing a reaction.
 */
module Frontier {
  import opened InsertionSet
  import opened Catalog

  /** Reaction `r` can be performed now. */
  predicate Eligible(reactions: seq<Reaction>, discovered: seq<nat>, performed: seq<nat>, r: nat) {
    && r < |reactions|
    && r !in performed
    && forall c :: c in reactions[r].reactants ==> c in discovered
  }

  /** Every member of the frontier can be performed. */
  predicate Sound(reactions: seq<Reaction>, discovered: seq<nat>, performed: seq<nat>, frontier: seq<nat>) {
    forall r :: r in frontier ==> Eligible(reactions, discovered, performed, r)
  }

  /** Every reaction that can be performed is in the frontier. */
  ghost predicate Complete(reactions: seq<Reaction>, discovered: seq<nat>, performed: seq<nat>, frontier: seq<nat>) {
    forall r :: Eligible(reactions, discovered, performed, r) ==> r in frontier
  }

  /** The reactions below `k` that the scan of `updatePossibleReactions` adds
      to `frontier`, in id order: those not in it already that can be performed. */
  function Scan(reactions: seq<Reaction>, discovered: seq<nat>, performed: seq<nat>, frontier: seq<nat>, k: nat): (s: seq<nat>)
    requires k <= |reactions|
    ensures AllBelow(s, k)
  {
    if k == 0 then []
    else
      Scan(reactions, discovered, performed, frontier, k - 1)
        + (if k - 1 !in frontier && Eligible(reactions, discovered, performed, k - 1) then [k - 1] else [])
  }

  /** The scan below `k` adds exactly the performable reactions below `k` not
      already in the frontier. */
  lemma {:induction false} ScanMembers(reactions: seq<Reaction>, discovered: seq<nat>, performed: seq<nat>, frontier: seq<nat>, k: nat)
    requires k <= |reactions|
    ensures forall r: nat :: r in Scan(reactions, discovered, performed, frontier, k) <==>
              r < k && r !in frontier && Eligible(reactions, discovered, performed, r)
  {
    if k > 0 {
      ScanMembers(reactions, discovered, performed, frontier, k - 1);
    }
  }

  predicate Increasing(s: seq<nat>) {
    forall i, j :: 0 <= i < j < |s| ==> s[i] < s[j]
  }

  /** The scan adds reactions in strictly increasing id order. */
  lemma {:induction false} ScanIncreasing(reactions: seq<Reaction>, discovered: seq<nat>, performed: seq<nat>, frontier: seq<nat>, k: nat)
    requires k <= |reactions|
    ensures Increasing(Scan(reactions, discovered, performed, frontier, k))
  {
    if k > 0 {
      ScanIncreasing(reactions, discovered, performed, frontier, k - 1);
      var below := Scan(reactions, discovered, performed, frontier, k - 1);
      var s := Scan(reactions, discovered, performed, frontier, k);
      assert AllBelow(below, k - 1);
      if k - 1 !in frontier && Eligible(reactions, discovered, performed, k - 1) {
        assert s == below + [k - 1];
      } else {
        assert s == below;
      }
      assert Increasing(s) by {
        forall i, j | 0 <= i < j < |s| ensures s[i] < s[j] {
          assert s[i] == below[i];
          if j < |below| {
            assert s[j] == below[j];
            assert below[i] < below[j];
          } else {
            assert s[j] == k - 1;
            assert below[i] < k - 1;
          }
        }
      }
    }
  }

  /** The frontier after `updatePossibleReactions`: the old one, nothing
      removed, followed by every performable reaction it lacked. */
  function Refreshed(reactions: seq<Reaction>, discovered: seq<nat>, performed: seq<nat>, frontier: seq<nat>): (r: seq<nat>)
    ensures frontier <= r
    ensures forall x :: x in r <==> x in frontier || Eligible(reactions, discovered, performed, x)
    ensures Complete(reactions, discovered, performed, r)
    ensures Sound(reactions, discovered, performed, frontier) ==> Sound(reactions, discovered, performed, r)
    ensures Distinct(frontier) ==> Distinct(r)
    ensures AllBelow(frontier, |reactions|) ==> AllBelow(r, |reactions|)
  {
    var added := Scan(reactions, discovered, performed, frontier, |reactions|);
    ScanMembers(reactions, discovered, performed, frontier, |reactions|);
    ScanIncreasing(reactions, discovered, performed, frontier, |reactions|);
    assert forall i :: 0 <= i < |added| ==> added[i] in added;
    assert Distinct(frontier) ==> Distinct(frontier + added) by {
      if Distinct(frontier) {
        forall i, j | 0 <= i < j < |frontier + added| ensures (frontier + added)[i] != (frontier + added)[j] {
          if j >= |frontier| {
            assert (frontier + added)[j] == added[j - |frontier|];
            if i >= |frontier| {
              assert (frontier + added)[i] == added[i - |frontier|];
            } else {
              assert added[j - |frontier|] in added;
              assert (frontier + added)[i] == frontier[i] && frontier[i] in frontier;
            }
          }
        }
      }
    }
    frontier + added
  }

  /** Performing a reaction of a sound frontier (its products discovered, the
      reaction recorded as performed and removed from the frontier) leaves the
      frontier sound: discovering only adds, and no other reaction was performed. */
  lemma PerformKeepsSound(reactions: seq<Reaction>, discovered: seq<nat>, performed: seq<nat>,
                          frontier: seq<nat>, r: nat, products: seq<nat>)
    requires Sound(reactions, discovered, performed, frontier)
    ensures Sound(reactions, AddAll(discovered, products), Add(performed, r), Delete(frontier, r))
  {
    var discovered' := AddAll(discovered, products);
    forall x | x in Delete(frontier, r)
      ensures Eligible(reactions, discovered', Add(performed, r), x)
    {
      assert Eligible(reactions, discovered, performed, x);
    }
  }

  /** Removing a reaction from a frontier of reaction ids leaves reaction ids. */
  lemma DeleteBelow(frontier: seq<nat>, r: nat, bound: nat)
    requires AllBelow(frontier, bound)
    ensures AllBelow(Delete(frontier, r), bound)
  {
    var rest := Delete(frontier, r);
    forall i | 0 <= i < |rest| ensures rest[i] < bound {
      assert rest[i] in rest;
      var k :| 0 <= k < |frontier| && frontier[k] == rest[i];
    }
  }

  /** Discovering more and performing nothing new keeps every eligible
      reaction eligible: why the scan may skip the reactions already in the
      frontier. */
  lemma EligibleStaysEligible(reactions: seq<Reaction>, discovered: seq<nat>, performed: seq<nat>,
                              discovered': seq<nat>, r: nat)
    requires Eligible(reactions, discovered, performed, r)
    requires forall c :: c in discovered ==> c in discovered'
    ensures Eligible(reactions, discovered', performed, r)
  {
  }
}
