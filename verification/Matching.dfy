/**
 Bipartite matchings: what a maximum matching is, and why a matching that comes with a closed set
 of owned vertices is one. A graph maps every left vertex to its right neighbours; a matching maps
 right vertices to the left vertices that own them.
 */
module Matching {
  import opened Collections

  ghost predicate Injective<X, Y>(m: map<Y, X>) {
    forall c, d :: c in m && d in m && m[c] == m[d] ==> c == d
  }

  ghost predicate AlongEdges<X, Y>(m: map<Y, X>, g: map<X, set<Y>>) {
    forall c :: c in m ==> m[c] in g && c in g[m[c]]
  }

  ghost predicate IsMatching<X, Y>(m: map<Y, X>, g: map<X, set<Y>>) {
    AlongEdges(m, g) && Injective(m)
  }

  ghost predicate HasMatchingOfSize<X(!new), Y(!new)>(g: map<X, set<Y>>, k: nat) {
    exists m: map<Y, X> :: IsMatching(m, g) && |m| == k
  }

  ghost function LargestUpTo<X(!new), Y(!new)>(g: map<X, set<Y>>, k: nat): nat {
    if k == 0 || HasMatchingOfSize(g, k) then k else LargestUpTo(g, k - 1)
  }

  /** The size of a largest matching; it mentions no order and no algorithm. */
  ghost function MaxMatching<X(!new), Y(!new)>(g: map<X, set<Y>>): nat {
    LargestUpTo(g, |g|)
  }

  lemma SplitSize<T>(a: set<T>, b: set<T>)
    ensures |a| == |a * b| + |a - b|
  {
    assert a == a * b + (a - b);
  }

  ghost function Image<X, Y>(m: map<Y, X>, keys: set<Y>): set<X>
    requires keys <= m.Keys
  {
    set c | c in keys :: m[c]
  }

  lemma {:induction false} InjectiveImageSize<X, Y>(m: map<Y, X>, keys: set<Y>)
    requires Injective(m) && keys <= m.Keys
    ensures |Image(m, keys)| == |keys|
  {
    if keys == {} {
      assert Image(m, keys) == {};
    } else {
      var c :| c in keys;
      InjectiveImageSize(m, keys - {c});
      assert Image(m, keys) == Image(m, keys - {c}) + {m[c]};
    }
  }

  lemma ValuesSize<X, Y>(m: map<Y, X>)
    requires Injective(m)
    ensures |m.Values| == |m|
  {
    InjectiveImageSize(m, m.Keys);
    assert Image(m, m.Keys) == m.Values;
  }

  lemma {:induction false} LargestUpToIsAttained<X(!new), Y(!new)>(g: map<X, set<Y>>, k: nat)
    ensures HasMatchingOfSize(g, LargestUpTo(g, k))
    ensures forall j: nat :: LargestUpTo(g, k) < j <= k ==> !HasMatchingOfSize(g, j)
  {
    if k == 0 {
      var none: map<Y, X> := map[];
      assert IsMatching(none, g) && |none| == 0;
    } else if !HasMatchingOfSize(g, k) {
      LargestUpToIsAttained(g, k - 1);
    }
  }

  /** MaxMatching is what its name says: attained, and an upper bound for every matching. */
  lemma MaxMatchingIsMaximum<X(!new), Y(!new)>(g: map<X, set<Y>>)
    ensures HasMatchingOfSize(g, MaxMatching(g))
    ensures forall m: map<Y, X> :: IsMatching(m, g) ==> |m| <= MaxMatching(g)
  {
    LargestUpToIsAttained(g, |g|);
    forall m: map<Y, X> | IsMatching(m, g) ensures |m| <= MaxMatching(g) {
      ValuesSize(m);
      SubsetSize(m.Values, g.Keys);
      assert HasMatchingOfSize(g, |m|);
    }
  }

  /** Every vertex in done is owned, and every edge of its owner leads into seen. */
  ghost predicate Explored<X, Y>(m: map<Y, X>, g: map<X, set<Y>>, done: set<Y>, seen: set<Y>) {
    forall c :: c in done ==> c in m && m[c] in g && g[m[c]] <= seen
  }

  /** A set of owned vertices that no edge of their owners leaves. */
  ghost predicate Closed<X, Y>(m: map<Y, X>, g: map<X, set<Y>>, frozen: set<Y>) {
    Explored(m, g, frozen, frozen)
  }

  /** The evidence the failed searches leave behind. */
  ghost predicate Certificate<X, Y>(m: map<Y, X>, g: map<X, set<Y>>, frozen: set<Y>) {
    && IsMatching(m, g)
    && Closed(m, g, frozen)
    && (forall e :: e in g && e !in m.Values ==> g[e] <= frozen)
  }

  /** Outside the frozen vertices, an edge's left end owns a vertex that is not frozen either. */
  lemma OwnedOutside<X, Y>(m: map<Y, X>, g: map<X, set<Y>>, frozen: set<Y>, e: X, c: Y)
    requires Certificate(m, g, frozen)
    requires e in g && c in g[e] && c !in frozen
    ensures e in Image(m, m.Keys - frozen)
  {
    var d :| d in m && m[d] == e;
    assert d in m.Keys - frozen;
  }

  /** The vertex cover argument: frozen vertices plus the owners outside them cover every edge. */
  lemma CertificateBounds<X, Y>(m: map<Y, X>, g: map<X, set<Y>>, frozen: set<Y>, other: map<Y, X>)
    requires Certificate(m, g, frozen) && IsMatching(other, g)
    ensures |other| <= |m|
  {
    forall e | e in Image(other, other.Keys - frozen) ensures e in Image(m, m.Keys - frozen) {
      var c :| c in other.Keys - frozen && other[c] == e;
      OwnedOutside(m, g, frozen, e, c);
    }
    SubsetSize(Image(other, other.Keys - frozen), Image(m, m.Keys - frozen));
    InjectiveImageSize(other, other.Keys - frozen);
    InjectiveImageSize(m, m.Keys - frozen);
    SplitSize(other.Keys, frozen);
    SplitSize(m.Keys, frozen);
    SubsetSize(other.Keys * frozen, frozen);
    assert m.Keys * frozen == frozen;
  }

  /** No matching is larger. */
  ghost predicate IsLargest<X(!new), Y(!new)>(m: map<Y, X>, g: map<X, set<Y>>) {
    IsMatching(m, g) && forall other: map<Y, X> :: IsMatching(other, g) ==> |other| <= |m|
  }

  /** A matching with a certificate is maximum. */
  lemma CertificateIsMaximum<X(!new), Y(!new)>(m: map<Y, X>, g: map<X, set<Y>>, frozen: set<Y>)
    requires Certificate(m, g, frozen)
    ensures IsLargest(m, g)
  {
    forall other: map<Y, X> | IsMatching(other, g) ensures |other| <= |m| {
      CertificateBounds(m, g, frozen, other);
    }
  }

  /** The reference number is the size of a largest matching, and each owner counts once. */
  lemma LargestHasMaximumSize<X(!new), Y(!new)>(m: map<Y, X>, g: map<X, set<Y>>)
    requires IsLargest(m, g)
    ensures |m| == MaxMatching(g) && |m.Values| == |m|
  {
    MaxMatchingIsMaximum(g);
    var best: map<Y, X> :| IsMatching(best, g) && |best| == MaxMatching(g);
    ValuesSize(m);
  }

  /** Exactly one more vertex is owned, and e is now among the owners. */
  ghost predicate Grown<X, Y>(before: map<Y, X>, after: map<Y, X>, e: X) {
    before.Keys <= after.Keys && |after| == |before| + 1 && after.Values == before.Values + {e}
  }

  /** Only e may own two vertices, and then one of them is in seen. */
  ghost predicate NearlyInjective<X, Y>(m: map<Y, X>, seen: set<Y>, e: X) {
    forall c, d :: c in m && d in m && c != d && m[c] == m[d] ==> m[c] == e && (c in seen || d in seen)
  }

  ghost predicate Unchanged<X, Y>(before: map<Y, X>, after: map<Y, X>, keys: set<Y>) {
    forall c :: c in keys ==> c in before && c in after && after[c] == before[c]
  }

  /** e owns a vertex outside seen. */
  ghost predicate OwnsOutside<X, Y>(m: map<Y, X>, seen: set<Y>, e: X) {
    exists c :: c in m && c !in seen && m[c] == e
  }

  /** Before its search starts, whatever e owns has been seen. */
  ghost predicate OwnsOnlyWithin<X, Y>(m: map<Y, X>, seen: set<Y>, e: X) {
    forall c :: c in m && m[c] == e ==> c in seen
  }

  /**
   What a successful augmenting search for e does to the owner map. While the recursion unwinds, e
   may own two vertices; one of them had been seen before its search began.
   */
  ghost predicate Augmented<X, Y>(before: map<Y, X>, after: map<Y, X>, g: map<X, set<Y>>, seen: set<Y>, e: X) {
    && Grown(before, after, e)
    && AlongEdges(after, g)
    && Unchanged(before, after, seen)
    && OwnsOutside(after, seen, e)
    && NearlyInjective(after, seen, e)
  }

  /** Overwriting c loses no value when another key holds the old one. */
  lemma UpdateValues<X, Y>(m: map<Y, X>, c: Y, e: X, spare: Y)
    requires c in m ==> spare in m && spare != c && m[spare] == m[c]
    ensures m[c := e].Values == m.Values + {e}
  {
    var after := m[c := e];
    assert after[c] == e;
    forall v | v in m.Values ensures v in after.Values {
      var d :| d in m && m[d] == v;
      assert after[if d == c then spare else d] == v;
    }
  }

  lemma InsertGrows<X, Y>(before: map<Y, X>, c: Y, e: X)
    requires c !in before
    ensures Grown(before, before[c := e], e)
  {
    assert before[c := e].Keys == before.Keys + {c};
    UpdateValues(before, c, e, c);
  }

  /** The search ends at a vertex nobody owns. */
  lemma UnownedFound<X, Y>(before: map<Y, X>, g: map<X, set<Y>>, seen: set<Y>, c: Y, e: X)
    requires IsMatching(before, g) && c !in before && e in g && c in g[e]
    requires seen <= before.Keys && OwnsOnlyWithin(before, seen, e)
    ensures Augmented(before, before[c := e], g, seen, e)
  {
    var after := before[c := e];
    InsertGrows(before, c, e);
    assert OwnsOutside(after, seen, e) by {
      assert after[c] == e;
    }
  }

  /** The previous owner found another vertex, so c passes to e and injectivity is restored. */
  lemma OwnerMoved<X, Y>(before: map<Y, X>, after: map<Y, X>, g: map<X, set<Y>>, seen: set<Y>, seenNow: set<Y>, c: Y,
                         e: X)
    requires IsMatching(before, g) && c in before && c !in seen && e in g && c in g[e]
    requires seen <= seenNow && c in seenNow && seenNow <= before.Keys
    requires OwnsOnlyWithin(before, seen, e)
    requires Augmented(before, after, g, seenNow, before[c])
    ensures Augmented(before, after[c := e], g, seen, e)
  {
    var moved := after[c := e];
    assert Grown(before, moved, e) by {
      var found :| found in after && found !in seenNow && after[found] == before[c];
      assert moved.Keys == after.Keys;
      UpdateValues(after, c, e, found);
      assert before[c] in before.Values;
    }
    assert OwnsOutside(moved, seen, e) by {
      assert moved[c] == e;
    }
    assert NearlyInjective(moved, seen, e) by {
      forall x, y | x in moved && y in moved && x != y && moved[x] == moved[y]
        ensures moved[x] == e && (x in seen || y in seen)
      {
        OnlyEDoubled(before, after, seen, seenNow, c, e, x, y);
      }
    }
  }

  lemma OnlyEDoubled<X, Y>(before: map<Y, X>, after: map<Y, X>, seen: set<Y>, seenNow: set<Y>, c: Y, e: X, x: Y, y: Y)
    requires Injective(before) && c in before && c !in seen && seen <= seenNow && c in seenNow
    requires OwnsOnlyWithin(before, seen, e) && Unchanged(before, after, seenNow)
    requires NearlyInjective(after, seenNow, before[c]) && Grown(before, after, before[c])
    requires x in after && y in after && x != y && after[c := e][x] == after[c := e][y]
    ensures after[c := e][x] == e && (x in seen || y in seen)
  {
    if x != c && y != c {
      // both would own before[c], and the one already seen would be c itself
      assert false;
    } else {
      var z := if x == c then y else x;
      assert after[z] == e;
      assert e in after.Values;
      var own :| own in before && before[own] == e;
      assert own in seen;
      assert z == own;
    }
  }

  /** A candidate of e that is free, or whose owner found another vertex, can be given to e. */
  lemma CandidateTaken<X, Y>(before: map<Y, X>, after: map<Y, X>, g: map<X, set<Y>>, seen: set<Y>, seenNow: set<Y>,
                             c: Y, e: X)
    requires IsMatching(before, g) && c !in seen && e in g && c in g[e]
    requires seen <= before.Keys && seen + {c} <= seenNow <= before.Keys + {c} && OwnsOnlyWithin(before, seen, e)
    requires if c !in before then after == before else Augmented(before, after, g, seenNow, before[c])
    ensures Augmented(before, after[c := e], g, seen, e)
  {
    if c in before {
      OwnerMoved(before, after, g, seen, seenNow, c, e);
    } else {
      UnownedFound(before, g, seen, c, e);
    }
  }

  /** A search that enters a closed set cannot leave it, so a success never touches the set. */
  lemma FrozenUntouched<X, Y>(before: map<Y, X>, after: map<Y, X>, g: map<X, set<Y>>, c: Y, e: X, frozen: set<Y>)
    requires Closed(before, g, frozen) && e in g && c in g[e]
    requires Unchanged(before, after, frozen)
    requires c in before && before[c] in g ==> !(g[before[c]] <= frozen)
    ensures Unchanged(before, after[c := e], frozen)
    ensures !(g[e] <= frozen)
  {
  }

  /** With nothing seen beforehand, an augmented matching is a matching again. */
  lemma AugmentedMatching<X, Y>(before: map<Y, X>, after: map<Y, X>, g: map<X, set<Y>>, e: X)
    requires Augmented(before, after, g, {}, e)
    ensures IsMatching(after, g)
  {
  }

  /** The searches still to come do not disturb what is known about an earlier vertex. */
  ghost predicate Settled<X, Y>(m: map<Y, X>, g: map<X, set<Y>>, frozen: set<Y>, e: X) {
    e in m.Values || (e in g && g[e] <= frozen)
  }

  lemma AfterSearch<X, Y>(before: map<Y, X>, after: map<Y, X>, g: map<X, set<Y>>, e: X, ok: bool, frozen: set<Y>,
                          seen: set<Y>)
    requires Closed(before, g, frozen) && e in g && IsMatching(before, g)
    requires ok ==> Augmented(before, after, g, {}, e) && Unchanged(before, after, frozen)
    requires !ok ==> after == before && Explored(before, g, seen, seen) && g[e] <= seen
    ensures var now := if ok then frozen else frozen + seen;
            && IsMatching(after, g) && Closed(after, g, now)
            && before.Values <= after.Values <= before.Values + {e}
            && frozen <= now && Settled(after, g, now, e)
  {
    if ok {
      AugmentedMatching(before, after, g, e);
    }
  }

  // ----- graphs that fall apart -----

  /** h is the part of g whose right vertices are side; no other edge of g ends in side. */
  ghost predicate IsPart<X, Y>(h: map<X, set<Y>>, g: map<X, set<Y>>, side: set<Y>) {
    && h.Keys <= g.Keys
    && forall e :: e in g ==> if e in h then h[e] == g[e] <= side else g[e] !! side
  }

  ghost function On<X, Y>(m: map<Y, X>, side: set<Y>): map<Y, X> {
    map c | c in m && c in side :: m[c]
  }

  lemma OnIsMatching<X, Y>(m: map<Y, X>, h: map<X, set<Y>>, g: map<X, set<Y>>, side: set<Y>)
    requires IsPart(h, g, side) && IsMatching(m, g)
    ensures IsMatching(On(m, side), h)
    ensures On(m, side).Keys == m.Keys * side
  {
  }

  /** A matching of the part may replace what a matching of the whole does there. */
  lemma SwapIn<X, Y>(m: map<Y, X>, better: map<Y, X>, h: map<X, set<Y>>, g: map<X, set<Y>>, side: set<Y>)
    requires IsPart(h, g, side) && IsMatching(m, g) && IsMatching(better, h)
    ensures IsMatching((m - side) + better, g)
    ensures |(m - side) + better| == |m| - |On(m, side)| + |better|
  {
    assert better.Keys <= side;
    SwapSize(m, better, side);
  }

  lemma SwapSize<X, Y>(m: map<Y, X>, better: map<Y, X>, side: set<Y>)
    requires better.Keys <= side
    ensures |(m - side) + better| == |m| - |On(m, side)| + |better|
  {
    assert ((m - side) + better).Keys == (m.Keys - side) + better.Keys;
    SplitSize(m.Keys, side);
    assert On(m, side).Keys == m.Keys * side;
  }

  /** A largest matching is largest in every part: a better one of the part could replace its share. */
  lemma LargestInEveryPart<X(!new), Y(!new)>(m: map<Y, X>, h: map<X, set<Y>>, g: map<X, set<Y>>, side: set<Y>)
    requires IsPart(h, g, side) && IsMatching(m, g) && |m| == MaxMatching(g)
    ensures |On(m, side)| == MaxMatching(h)
  {
    MaxMatchingIsMaximum(g);
    MaxMatchingIsMaximum(h);
    var better: map<Y, X> :| IsMatching(better, h) && |better| == MaxMatching(h);
    SwapIn(m, better, h, g, side);
    OnIsMatching(m, h, g, side);
  }
}
