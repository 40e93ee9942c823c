/**
 * The `Set<number>` values of the engine. A JavaScript Set has no repeated
 * members and iterates (and so `Array.from` lists) its members in insertion
 * order; both matter here, because the samplers pick candidates by position and
 * the snapshot lists the members in that order. A set value is therefore a
 * sequence of distinct ids, oldest first.
 */
module InsertionSet {

  /** No id occurs twice. */
  predicate Distinct(s: seq<nat>) {
    forall i, j :: 0 <= i < j < |s| ==> s[i] != s[j]
  }

  /** The members of `s`, order forgotten. */
  function Elems(s: seq<nat>): set<nat> {
    set x | x in s
  }

  /** `s.add(x)`: appends x unless it is already a member. */
  function Add(s: seq<nat>, x: nat): (r: seq<nat>)
    ensures forall y :: y in r <==> y in s || y == x
    ensures s <= r && |r| <= |s| + 1
    ensures x in s ==> r == s
    ensures Distinct(s) ==> Distinct(r)
  {
    if x in s then s else s + [x]
  }

  /** `s.delete(x)`: removes x and keeps the others in their order. */
  function Delete(s: seq<nat>, x: nat): (r: seq<nat>)
    ensures forall y :: y in r <==> y in s && y != x
    ensures x !in s ==> r == s
    ensures Distinct(s) ==> Distinct(r)
    ensures Distinct(s) && x in s ==> |r| == |s| - 1
  {
    if s == [] then []
    else
      var rest := Delete(s[1..], x);
      ConsDistinct(s);
      (if s[0] == x then [] else [s[0]]) + rest
  }

  /** `for (const x of xs) s.add(x)`: adds the ids of `xs` one after another. */
  function AddAll(s: seq<nat>, xs: seq<nat>): (r: seq<nat>)
    ensures forall y :: y in r <==> y in s || y in xs
    ensures s <= r
    ensures Distinct(s) ==> Distinct(r)
  {
    if xs == [] then s else Add(AddAll(s, xs[..|xs| - 1]), xs[|xs| - 1])
  }

  /** `new Set(xs)`: the members of `xs`, each at its first occurrence. */
  function FromArray(xs: seq<nat>): (r: seq<nat>)
    ensures Distinct(r)
    ensures forall y :: y in r <==> y in xs
  {
    AddAll([], xs)
  }

  /** The ids that adding `xs` to `s` appends, in order of first appearance. */
  function Fresh(s: seq<nat>, xs: seq<nat>): seq<nat> {
    AddAll(s, xs)[|s|..]
  }

  /** `s.filter(x => !t.has(x))`. */
  function Minus(s: seq<nat>, t: seq<nat>): (r: seq<nat>)
    ensures forall y :: y in r <==> y in s && y !in t
    ensures Distinct(s) ==> Distinct(r)
  {
    if s == [] then []
    else
      var rest := Minus(s[1..], t);
      ConsDistinct(s);
      (if s[0] in t then [] else [s[0]]) + rest
  }

  /** A sequence without repetitions is its first id followed by a tail
      without repetitions that does not contain it. */
  lemma ConsDistinct(s: seq<nat>)
    requires s != []
    ensures Distinct(s) <==> s[0] !in s[1..] && Distinct(s[1..])
  {
    if s[0] !in s[1..] && Distinct(s[1..]) {
      forall i, j | 0 <= i < j < |s| ensures s[i] != s[j] {
        if i > 0 {
          assert s[i] == s[1..][i - 1] && s[j] == s[1..][j - 1];
        } else {
          assert s[j] == s[1..][j - 1];
        }
      }
    }
    if Distinct(s) {
      forall i, j | 0 <= i < j < |s[1..]| ensures s[1..][i] != s[1..][j] {
        assert s[1..][i] == s[i + 1] && s[1..][j] == s[j + 1];
      }
    }
  }

  /** Adding the members of `xs` to a set of ids appends exactly the ids of
      `xs` not already present, each once. */
  lemma FreshMembers(s: seq<nat>, xs: seq<nat>)
    requires Distinct(s)
    ensures AddAll(s, xs) == s + Fresh(s, xs)
    ensures Distinct(Fresh(s, xs))
    ensures forall y :: y in Fresh(s, xs) <==> y in xs && y !in s
  {
    var r := AddAll(s, xs);
    var f := Fresh(s, xs);
    assert r == s + f;
    forall y
      ensures y in f <==> y in xs && y !in s
    {
      if y in f {
        var k :| 0 <= k < |f| && f[k] == y;
        assert r[|s| + k] == y;
        forall i | 0 <= i < |s| ensures s[i] != y {
          assert r[i] == s[i];
        }
      }
      if y in xs && y !in s {
        var k :| 0 <= k < |r| && r[k] == y;
        assert k >= |s|;
        assert f[k - |s|] == y;
      }
    }
    forall i, j | 0 <= i < j < |f| ensures f[i] != f[j] {
      assert f[i] == r[|s| + i] && f[j] == r[|s| + j];
    }
  }

  /** Adding one more id appends it to the fresh ids exactly when it is new. */
  lemma FreshStep(s: seq<nat>, xs: seq<nat>)
    requires xs != []
    ensures var front := xs[..|xs| - 1];
      var x := xs[|xs| - 1];
      Fresh(s, xs) == if x in AddAll(s, front) then Fresh(s, front) else Fresh(s, front) + [x]
  {
    var before := AddAll(s, xs[..|xs| - 1]);
    assert s <= before;
  }

  /** Adding ids that are all new and distinct appends them unchanged. */
  lemma {:induction false} AddAllOfDistinct(s: seq<nat>, xs: seq<nat>)
    requires Distinct(s + xs)
    ensures AddAll(s, xs) == s + xs
  {
    if xs != [] {
      var front := xs[..|xs| - 1];
      var last := xs[|xs| - 1];
      assert s + xs == (s + front) + [last];
      assert Distinct(s + front) by {
        forall i, j | 0 <= i < j < |s + front| ensures (s + front)[i] != (s + front)[j] {
          assert (s + front)[i] == (s + xs)[i] && (s + front)[j] == (s + xs)[j];
        }
      }
      AddAllOfDistinct(s, front);
      assert last !in s + front by {
        forall k | 0 <= k < |s + front| ensures (s + front)[k] != last {
          assert (s + front)[k] == (s + xs)[k] && last == (s + xs)[|s + xs| - 1];
        }
      }
    }
  }

  /** `new Set(Array.from(s))` rebuilds `s` exactly, order included. */
  lemma FromArrayRoundTrip(xs: seq<nat>)
    requires Distinct(xs)
    ensures FromArray(xs) == xs
  {
    assert [] + xs == xs;
    AddAllOfDistinct([], xs);
  }

  /** A sequence has at least as many positions as distinct members, and
      exactly as many when no member repeats. */
  lemma {:induction false} ElemsCard(s: seq<nat>)
    ensures |Elems(s)| <= |s|
    ensures Distinct(s) ==> |Elems(s)| == |s|
  {
    if s != [] {
      var front := s[..|s| - 1];
      var last := s[|s| - 1];
      ElemsCard(front);
      assert s == front + [last];
      assert Elems(s) == Elems(front) + {last};
      if Distinct(s) {
        assert Distinct(front) by {
          forall i, j | 0 <= i < j < |front| ensures front[i] != front[j] {
            assert front[i] == s[i] && front[j] == s[j];
          }
        }
        assert last !in Elems(front) by {
          forall k | 0 <= k < |front| ensures front[k] != last {
            assert front[k] == s[k];
          }
        }
      }
    }
  }

  /** Distinct ids drawn from `t` are no more than the positions of `t`. */
  lemma DistinctWithin(s: seq<nat>, t: seq<nat>)
    requires Distinct(s)
    requires forall x :: x in s ==> x in t
    ensures |s| <= |t|
  {
    ElemsCard(s);
    ElemsCard(t);
    assert Elems(t) == Elems(s) + (Elems(t) - Elems(s));
  }

  /** Removing the elements of a contained distinct sequence from the
      elements of a distinct one leaves as many as the lengths differ by. */
  lemma ElemsMinusCard(s: seq<nat>, t: seq<nat>)
    requires Distinct(s) && Distinct(t)
    requires forall x :: x in t ==> x in s
    ensures |Elems(s) - Elems(t)| == |s| - |t|
  {
    ElemsCard(s);
    ElemsCard(t);
    assert Elems(s) == (Elems(s) - Elems(t)) + Elems(t);
  }

  /** Adding two lists one after the other adds their concatenation. */
  lemma {:induction false} AddAllConcat(s: seq<nat>, a: seq<nat>, b: seq<nat>)
    ensures AddAll(AddAll(s, a), b) == AddAll(s, a + b)
  {
    if b == [] {
      assert a + b == a;
    } else {
      var front := b[..|b| - 1];
      AddAllConcat(s, a, front);
      assert (a + b)[..|a + b| - 1] == a + front;
      assert (a + b)[|a + b| - 1] == b[|b| - 1];
    }
  }

  /** Filtering out nothing keeps everything. */
  lemma {:induction false} MinusNothing(s: seq<nat>)
    ensures Minus(s, []) == s
  {
    if s != [] {
      MinusNothing(s[1..]);
      assert s == [s[0]] + s[1..];
    }
  }

  /** Deleting one more id from a filtered set filters it out too. */
  lemma {:induction false} DeleteMinus(s: seq<nat>, t: seq<nat>, x: nat)
    ensures Delete(Minus(s, t), x) == Minus(s, t + [x])
  {
    if s != [] {
      DeleteMinus(s[1..], t, x);
      var rest := Minus(s[1..], t);
      assert Minus(s, t + [x]) == (if s[0] in t + [x] then [] else [s[0]]) + Delete(rest, x);
      if s[0] in t {
        assert Minus(s, t) == rest;
      } else {
        var m := [s[0]] + rest;
        assert Minus(s, t) == m;
        assert m[0] == s[0] && m[1..] == rest;
        assert Delete(m, x) == (if s[0] == x then [] else [s[0]]) + Delete(rest, x);
      }
    }
  }

  /** What follows a prefix `a` of `b + rs` is what follows it in `b`, then `rs`. */
  lemma SuffixAppend<T>(a: seq<T>, b: seq<T>, rs: seq<T>)
    requires a <= b
    ensures (b + rs)[|a|..] == b[|a|..] + rs
  {
  }
}
