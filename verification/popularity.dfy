/**
 * The popularity ranking computed once by the ChemicalGraph constructor: the
 * initial chemicals that occur as reactants, counted over every reactant
 * occurrence of every reaction, most frequent first, at most 50 of them.
 *
 * The counts live in a plain object keyed by chemical id; `for..in` lists the
 * integer keys of such an object in ascending order, and `Array.prototype.sort`
 * is stable, so equal counts keep ascending id order.
 */
module Popularity {
  import opened InsertionSet
  import opened Catalog

  /** `slice(0, 50)`. */
  const RankingSize: nat := 50

  /** How many times chemical `c` occurs as a reactant over `reactions`. */
  function Occurrences(reactions: seq<Reaction>, c: nat): nat {
    if reactions == [] then 0
    else Occurrences(reactions[..|reactions| - 1], c) + multiset(reactions[|reactions| - 1].reactants)[c]
  }

  /** The `reactantCounts` table: every initial chemical that occurs as a
      reactant, with its number of occurrences. */
  function ReactantCounts(reactions: seq<Reaction>, initial: seq<nat>): map<nat, nat> {
    map c | c in initial && Occurrences(reactions, c) > 0 :: Occurrences(reactions, c)
  }

  /** The count an id has in `counts`: zero when it has no entry yet. */
  function CountOf(counts: map<nat, nat>, c: nat): nat {
    if c in counts then counts[c] else 0
  }

  /** The inner counting loop of the constructor: every occurrence in
      `reactants` of an initial chemical adds one to its entry, creating it
      at zero first. */
  method CountReactants(counts: map<nat, nat>, initial: seq<nat>, reactants: seq<nat>) returns (after: map<nat, nat>)
    requires forall c :: c in counts ==> c in initial
    ensures forall c :: c in after <==> c in counts || (c in initial && multiset(reactants)[c] > 0)
    ensures forall c :: c in initial ==> CountOf(after, c) == CountOf(counts, c) + multiset(reactants)[c]
  {
    after := counts;
    var j := 0;
    while j < |reactants|
      invariant 0 <= j <= |reactants|
      invariant forall c :: c in after <==> c in counts || (c in initial && multiset(reactants[..j])[c] > 0)
      invariant forall c :: c in initial ==> CountOf(after, c) == CountOf(counts, c) + multiset(reactants[..j])[c]
    {
      var cId := reactants[j];
      if cId in initial {
        if cId !in after {
          after := after[cId := 0];
        }
        after := after[cId := after[cId] + 1];
      }
      assert reactants[..j + 1] == reactants[..j] + [cId];
      j := j + 1;
    }
    assert reactants[..j] == reactants;
  }

  /** The counting loops of the constructor. */
  method CountInitialReactants(reactions: seq<Reaction>, initial: seq<nat>) returns (counts: map<nat, nat>)
    ensures forall c :: c in counts <==> c in initial && Occurrences(reactions, c) > 0
    ensures forall c :: c in counts ==> counts[c] == Occurrences(reactions, c)
    ensures counts == ReactantCounts(reactions, initial)
  {
    counts := map[];
    var rId := 0;
    while rId < |reactions|
      invariant 0 <= rId <= |reactions|
      invariant forall c :: c in counts <==> c in initial && Occurrences(reactions[..rId], c) > 0
      invariant forall c :: c in initial ==> CountOf(counts, c) == Occurrences(reactions[..rId], c)
    {
      counts := CountReactants(counts, initial, reactions[rId].reactants);
      assert reactions[..rId + 1][..rId] == reactions[..rId];
      rId := rId + 1;
    }
    assert reactions[..rId] == reactions;
  }

  /** The keys of `counts` below `bound`, ascending: the order `for..in`
      visits them. */
  function AscendingKeys(counts: map<nat, nat>, bound: nat): (ks: seq<nat>)
    ensures forall c :: c in ks <==> c < bound && c in counts
    ensures forall i, j :: 0 <= i < j < |ks| ==> ks[i] < ks[j]
  {
    if bound == 0 then []
    else
      var below := AscendingKeys(counts, bound - 1);
      assert forall i :: 0 <= i < |below| ==> below[i] in below;
      below + (if bound - 1 in counts then [bound - 1] else [])
  }

  /** `a` is ranked above `b`: a larger count, or an equal count and a smaller id. */
  predicate Before(counts: map<nat, nat>, a: nat, b: nat)
    requires a in counts && b in counts
  {
    counts[a] > counts[b] || (counts[a] == counts[b] && a < b)
  }

  /** Every entry is ranked above every later one. */
  predicate Ranked(counts: map<nat, nat>, s: seq<nat>)
    requires forall x :: x in s ==> x in counts
  {
    forall i, j :: 0 <= i < j < |s| ==> Before(counts, s[i], s[j])
  }

  /** One step of a stable sort by descending count: `c`, which came before
      every entry of `s`, goes in front of the first entry whose count is not
      larger than its own. */
  function Insert(counts: map<nat, nat>, c: nat, s: seq<nat>): (r: seq<nat>)
    requires c in counts && forall x :: x in s ==> x in counts
    ensures multiset(r) == multiset(s) + multiset{c}
    ensures forall x :: x in r <==> x in s || x == c
  {
    if s == [] || counts[s[0]] <= counts[c] then [c] + s
    else
      assert s == [s[0]] + s[1..];
      [s[0]] + Insert(counts, c, s[1..])
  }

  /** `sort((a, b) => b[1] - a[1])`, a stable sort by descending count. */
  function SortByCount(counts: map<nat, nat>, xs: seq<nat>): (s: seq<nat>)
    requires forall x :: x in xs ==> x in counts
    ensures multiset(s) == multiset(xs)
    ensures forall x :: x in s <==> x in xs
  {
    if xs == [] then []
    else
      assert xs == [xs[0]] + xs[1..];
      Insert(counts, xs[0], SortByCount(counts, xs[1..]))
  }

  /** The `sortedInitial` field. */
  function PopularityRanking(reactions: seq<Reaction>, initial: seq<nat>, bound: nat): (r: seq<nat>)
    ensures |r| <= RankingSize
    ensures forall c :: c in r ==> c < bound && c in initial && Occurrences(reactions, c) > 0
  {
    var counts := ReactantCounts(reactions, initial);
    var sorted := SortByCount(counts, AscendingKeys(counts, bound));
    assert forall c :: c in sorted ==> c in counts && c < bound;
    if |sorted| <= RankingSize then sorted
    else
      assert forall c :: c in sorted[..RankingSize] ==> c in sorted;
      sorted[..RankingSize]
  }

  lemma BeforeTransitive(counts: map<nat, nat>, a: nat, b: nat, c: nat)
    requires a in counts && b in counts && c in counts
    requires Before(counts, a, b) && Before(counts, b, c)
    ensures Before(counts, a, c)
  {
  }

  /** Putting `c` in front of a ranked sequence keeps it ranked when `c`
      ranks above its first entry. */
  lemma ConsRanked(counts: map<nat, nat>, c: nat, s: seq<nat>)
    requires c in counts && forall x :: x in s ==> x in counts
    requires Ranked(counts, s)
    requires s != [] ==> Before(counts, c, s[0])
    ensures Ranked(counts, [c] + s)
  {
    var r := [c] + s;
    forall i, j | 0 <= i < j < |r| ensures Before(counts, r[i], r[j]) {
      if i == 0 {
        assert r[j] == s[j - 1];
        assert s[0] in s;
        if j > 1 {
          BeforeTransitive(counts, c, s[0], s[j - 1]);
        }
      } else {
        assert r[i] == s[i - 1] && r[j] == s[j - 1];
      }
    }
  }

  /** The stable insertion step keeps the entries ranked when the inserted id
      is smaller than all of them. */
  lemma {:induction false} InsertRanked(counts: map<nat, nat>, c: nat, s: seq<nat>)
    requires c in counts && forall x :: x in s ==> x in counts
    requires Ranked(counts, s)
    requires forall x :: x in s ==> c < x
    ensures Ranked(counts, Insert(counts, c, s))
  {
    if s == [] || counts[s[0]] <= counts[c] {
      if s != [] {
        assert s[0] in s;
      }
      ConsRanked(counts, c, s);
    } else {
      var tail := s[1..];
      assert Ranked(counts, tail) by {
        forall i, j | 0 <= i < j < |tail| ensures Before(counts, tail[i], tail[j]) {
          assert tail[i] == s[i + 1] && tail[j] == s[j + 1];
        }
      }
      assert forall x :: x in tail ==> x in s;
      InsertRanked(counts, c, tail);
      var rest := Insert(counts, c, tail);
      assert rest != [] && rest[0] in rest;
      assert Before(counts, s[0], rest[0]) by {
        var x := rest[0];
        assert x in multiset(rest);
        if x != c {
          assert x in multiset(tail);
          var k :| 0 <= k < |tail| && tail[k] == x;
          assert s[k + 1] == x;
        }
      }
      ConsRanked(counts, s[0], rest);
    }
  }

  /** Stably sorting ascending ids by descending count ranks them by count,
      ties by ascending id. */
  lemma {:induction false} SortRanked(counts: map<nat, nat>, xs: seq<nat>)
    requires forall x :: x in xs ==> x in counts
    requires forall i, j :: 0 <= i < j < |xs| ==> xs[i] < xs[j]
    ensures Ranked(counts, SortByCount(counts, xs))
  {
    if xs != [] {
      var tail := xs[1..];
      SortRanked(counts, tail);
      var rest := SortByCount(counts, tail);
      forall x | x in rest ensures xs[0] < x {
        assert x in multiset(rest);
        assert x in multiset(tail);
        var k :| 0 <= k < |tail| && tail[k] == x;
        assert xs[k + 1] == x;
      }
      assert forall x :: x in rest ==> x in multiset(rest);
      InsertRanked(counts, xs[0], rest);
    }
  }

  /** `a` ranks above `b` in the popularity order: it occurs more often as a
      reactant, or as often and has the smaller id. */
  predicate RanksAbove(reactions: seq<Reaction>, a: nat, b: nat) {
    Occurrences(reactions, a) > Occurrences(reactions, b)
    || (Occurrences(reactions, a) == Occurrences(reactions, b) && a < b)
  }

  /** Sorting all the counted chemicals ranks every one of them. */
  lemma SortedCandidates(reactions: seq<Reaction>, initial: seq<nat>, bound: nat)
    requires forall c :: c in initial ==> c < bound
    ensures var counts := ReactantCounts(reactions, initial);
      var sorted := SortByCount(counts, AscendingKeys(counts, bound));
      && (forall x :: x in sorted <==> x in initial && Occurrences(reactions, x) > 0)
      && (forall i, j :: 0 <= i < j < |sorted| ==> RanksAbove(reactions, sorted[i], sorted[j]))
  {
    var counts := ReactantCounts(reactions, initial);
    var keys := AscendingKeys(counts, bound);
    SortRanked(counts, keys);
  }

  /** The ranking lists distinct initial chemicals that occur as reactants,
      most frequent first with ties by ascending id, at most 50 of them; a
      candidate left out means the list is full and every listed chemical
      ranks above it. */
  lemma RankingProperties(reactions: seq<Reaction>, initial: seq<nat>, bound: nat)
    requires forall c :: c in initial ==> c < bound
    ensures var r := PopularityRanking(reactions, initial, bound);
      && |r| <= RankingSize
      && Distinct(r)
      && (forall c :: c in r ==> c in initial && Occurrences(reactions, c) > 0)
      && (forall i, j :: 0 <= i < j < |r| ==> RanksAbove(reactions, r[i], r[j]))
      && (forall c :: c in initial && Occurrences(reactions, c) > 0 && c !in r ==>
            |r| == RankingSize && forall d :: d in r ==> RanksAbove(reactions, d, c))
  {
    var counts := ReactantCounts(reactions, initial);
    var sorted := SortByCount(counts, AscendingKeys(counts, bound));
    var r := PopularityRanking(reactions, initial, bound);
    SortedCandidates(reactions, initial, bound);
    var n := if |sorted| <= RankingSize then |sorted| else RankingSize;
    assert r == sorted[..n];
    assert forall i :: 0 <= i < |r| ==> r[i] == sorted[i];
    assert forall c :: c in r ==> c in sorted;
    forall c | c in initial && Occurrences(reactions, c) > 0 && c !in r
      ensures |r| == RankingSize
      ensures forall d :: d in r ==> RanksAbove(reactions, d, c)
    {
      assert c in sorted;
      var k :| 0 <= k < |sorted| && sorted[k] == c;
      assert k >= |r|;
      forall d | d in r ensures RanksAbove(reactions, d, c) {
        var i :| 0 <= i < |r| && r[i] == d;
      }
    }
  }
}
