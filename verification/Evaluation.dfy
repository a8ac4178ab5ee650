/**
 Instance-level scoring: the augmenting-path search over a mutable owner map, the scores read off
 it, and the per-weakness groups. Sorting by textual form is an arbitrary order here, so what is
 proved holds whatever the order is.
 */
module Evaluation {
  import opened Wrappers
  import opened Collections
  import opened Matching

  /** A finding instance: the eleven fields that the evaluator compares. */
  datatype Item = Item(
    cwe: string,
    sourceFile: string, sourceLine: Option<int>, sourceMethod: Option<string>, sourceIdentity: Option<string>,
    sinkFile: string, sinkLine: int, sinkMethod: Option<string>, sinkIdentity: Option<string>,
    sourceQualified: Option<string>, sinkQualified: Option<string>)

  /** An absent optional field of the expectation accepts anything. */
  predicate Accepts<T(==)>(wanted: Option<T>, found: Option<T>) {
    wanted.None? || found == wanted
  }

  predicate Compatible(e: Item, o: Item) {
    && o.cwe == e.cwe && o.sinkLine == e.sinkLine
    && o.sourceFile == e.sourceFile && o.sinkFile == e.sinkFile
    && Accepts(e.sourceLine, o.sourceLine)
    && Accepts(e.sourceMethod, o.sourceMethod)
    && Accepts(e.sourceIdentity, o.sourceIdentity)
    && Accepts(e.sinkMethod, o.sinkMethod)
    && Accepts(e.sinkIdentity, o.sinkIdentity)
    && Accepts(e.sourceQualified, o.sourceQualified)
    && Accepts(e.sinkQualified, o.sinkQualified)
  }

  /** The compatibility graph of a case. */
  ghost function Graph(expected: set<Item>, observed: set<Item>): map<Item, set<Item>> {
    map e | e in expected :: set o | o in observed && Compatible(e, o)
  }

  /** The items of order that e is compatible with, in order. */
  function Candidates(e: Item, order: seq<Item>): (r: seq<Item>)
    ensures forall o :: o in r <==> o in order && Compatible(e, o)
  {
    if order == [] then []
    else (if Compatible(e, order[0]) then [order[0]] else []) + Candidates(e, order[1..])
  }

  class Matcher {
    ghost const g: map<Item, set<Item>>
    ghost const O: set<Item>
    const edges: map<Item, seq<Item>>
    var owner: map<Item, Item>
    var seen: set<Item>

    constructor (expectedOrder: seq<Item>, observedOrder: seq<Item>)
      ensures g == Graph(Elements(expectedOrder), Elements(observedOrder))
      ensures EdgesExact() && owner == map[]
    {
      edges := map e | e in expectedOrder :: Candidates(e, observedOrder);
      O := Elements(observedOrder);
      g := Graph(Elements(expectedOrder), Elements(observedOrder));
      owner, seen := map[], {};
    }

    ghost predicate EdgesExact() {
      edges.Keys == g.Keys && forall e :: e in g ==> Elements(edges[e]) == g[e] <= O
    }

    /**
     One augmenting-path search. It either augments the matching by exactly one pair, or changes
     nothing and leaves a closed trail. A set that was closed before is never changed by a success,
     and an item whose edges all lead into it cannot succeed.
     */
    method Assign(e: Item, ghost frozen: set<Item>) returns (ok: bool)
      requires EdgesExact() && IsMatching(owner, g) && e in g
      requires seen <= owner.Keys && OwnsOnlyWithin(owner, seen, e)
      requires Closed(owner, g, frozen)
      modifies this`owner, this`seen
      ensures old(seen) <= seen
      ensures ok ==> Augmented(old(owner), owner, g, old(seen), e)
      ensures ok ==> Unchanged(old(owner), owner, frozen)
      ensures !ok ==> owner == old(owner) && seen <= owner.Keys
      ensures !ok ==> Explored(owner, g, seen - old(seen), seen) && g[e] <= seen
      ensures g[e] <= frozen ==> !ok
      decreases O - seen
    {
      var candidates := edges[e];
      assert Elements(candidates) == g[e];
      var i := 0;
      while i < |candidates|
        invariant 0 <= i <= |candidates|
        invariant owner == old(owner)
        invariant old(seen) <= seen <= owner.Keys
        invariant Explored(owner, g, seen - old(seen), seen)
        invariant forall k :: 0 <= k < i ==> candidates[k] in seen
      {
        var candidate := candidates[i];
        i := i + 1;
        assert candidate in g[e];
        if candidate in seen {
          continue;
        }
        seen := seen + {candidate};
        ghost var seenNow := seen;
        ok := candidate !in owner;
        if !ok {
          ok := Assign(owner[candidate], frozen);
        }
        if ok {
          CandidateTaken(old(owner), owner, g, old(seen), seenNow, candidate, e);
          FrozenUntouched(old(owner), owner, g, candidate, e, frozen);
          owner := owner[candidate := e];
          return true;
        }
      }
      return false;
    }

    /**
     One search per expected item, in the given order. The searches that failed leave a certificate,
     so the matching is a largest one whatever the order.
     */
    method MatchAll(expectedOrder: seq<Item>) returns (ghost frozen: set<Item>)
      requires EdgesExact() && owner == map[]
      requires Distinct(expectedOrder) && Elements(expectedOrder) == g.Keys
      modifies this`owner, this`seen
      ensures Certificate(owner, g, frozen)
      ensures |owner.Values| == |owner| == MaxMatching(g)
    {
      frozen := {};
      var i := 0;
      MatchedNone(g, expectedOrder);
      while i < |expectedOrder|
        invariant 0 <= i <= |expectedOrder|
        invariant MatchedSoFar(g, expectedOrder)(i, owner, frozen)
      {
        var e := expectedOrder[i];
        MatchedParts(g, expectedOrder, i, owner, frozen);
        seen := {};
        label before:
        var ok := Assign(e, frozen);
        MatchedMore(g, expectedOrder, i, old@before(owner), owner, ok, frozen, seen);
        if !ok {
          frozen := frozen + seen;
        }
        i := i + 1;
      }
      MatchedAll(g, expectedOrder, owner, frozen);
      CertificateIsMaximum(owner, g, frozen);
      LargestHasMaximumSize(owner, g);
    }
  }

  /** What the searches for the first i expectations have left. */
  ghost function MatchedSoFar(g: map<Item, set<Item>>, order: seq<Item>): (nat, map<Item, Item>, set<Item>) -> bool {
    (i: nat, m: map<Item, Item>, frozen: set<Item>) =>
      && i <= |order| && IsMatching(m, g) && Closed(m, g, frozen)
      && m.Values <= Elements(order[..i])
      && forall k :: 0 <= k < i ==> Settled(m, g, frozen, order[k])
  }

  lemma MatchedParts(g: map<Item, set<Item>>, order: seq<Item>, i: nat, m: map<Item, Item>, frozen: set<Item>)
    requires MatchedSoFar(g, order)(i, m, frozen) && i < |order| && Distinct(order) && Elements(order) == g.Keys
    ensures IsMatching(m, g) && Closed(m, g, frozen) && order[i] in g && order[i] !in m.Values
  {
    TakeOneMore(order, i);
  }

  lemma MatchedMore(g: map<Item, set<Item>>, order: seq<Item>, i: nat, before: map<Item, Item>,
                    after: map<Item, Item>, ok: bool, frozen: set<Item>, seen: set<Item>)
    requires MatchedSoFar(g, order)(i, before, frozen) && i < |order| && Distinct(order) && Elements(order) == g.Keys
    requires ok ==> Augmented(before, after, g, {}, order[i]) && Unchanged(before, after, frozen)
    requires !ok ==> after == before && Explored(before, g, seen, seen) && g[order[i]] <= seen
    ensures MatchedSoFar(g, order)(i + 1, after, if ok then frozen else frozen + seen)
  {
    TakeOneMore(order, i);
    AfterSearch(before, after, g, order[i], ok, frozen, seen);
    var now := if ok then frozen else frozen + seen;
    forall k | 0 <= k < i + 1 ensures Settled(after, g, now, order[k]) {
      assert k < i ==> Settled(before, g, frozen, order[k]);
    }
    assert after.Values <= Elements(order[..i + 1]);
  }

  lemma MatchedNone(g: map<Item, set<Item>>, order: seq<Item>)
    ensures MatchedSoFar(g, order)(0, map[], {})
  {
    var m: map<Item, Item> := map[];
    assert IsMatching(m, g) && Closed(m, g, {}) && m.Values == {};
  }

  lemma MatchedAll(g: map<Item, set<Item>>, order: seq<Item>, m: map<Item, Item>, frozen: set<Item>)
    requires MatchedSoFar(g, order)(|order|, m, frozen) && Elements(order) == g.Keys
    ensures Certificate(m, g, frozen)
  {
    forall e | e in g && e !in m.Values ensures g[e] <= frozen {
      assert e in Elements(order);
      var k :| 0 <= k < |order| && order[k] == e;
      assert Settled(m, g, frozen, order[k]);
    }
  }

  // ----- scores of one case -----

  /** A case: the expected instances, and what the detector reported unless it raised. */
  datatype Case = Case(expected: seq<Item>, reported: Option<seq<Item>>)

  datatype Scores = Scores(tp: int, fp: int, fn: int, duplicates: int, failed: int) {
    function Plus(other: Scores): Scores {
      Scores(tp + other.tp, fp + other.fp, fn + other.fn, duplicates + other.duplicates, failed + other.failed)
    }
  }

  datatype Counts = Counts(tp: int, fp: int, fn: int) {
    function Plus(other: Counts): Counts {
      Counts(tp + other.tp, fp + other.fp, fn + other.fn)
    }
  }

  /** Findings of a detector that raised count as none. */
  function Reports(c: Case): seq<Item> {
    if c.reported.Some? then c.reported.value else []
  }

  /** The counts a largest matching between two sets of instances gives. */
  ghost function BestCounts(expected: set<Item>, observed: set<Item>): Counts {
    var tp := MaxMatching(Graph(expected, observed));
    Counts(tp, |observed| - tp, |expected| - tp)
  }

  ghost function CaseScores(c: Case): Scores {
    var observed := Elements(Reports(c));
    var best := BestCounts(Elements(c.expected), observed);
    Scores(best.tp, best.fp, best.fn, |Reports(c)| - |observed|, if c.reported.None? then 1 else 0)
  }

  // ----- what the scores mean -----

  function Or<T>(wanted: Option<T>, found: Option<T>): Option<T> {
    if wanted.Some? then wanted else found
  }

  /** An expectation with its blanks filled in from a report. */
  function FilledFrom(e: Item, o: Item): Item {
    Item(e.cwe,
         e.sourceFile, Or(e.sourceLine, o.sourceLine), Or(e.sourceMethod, o.sourceMethod),
         Or(e.sourceIdentity, o.sourceIdentity),
         e.sinkFile, e.sinkLine, Or(e.sinkMethod, o.sinkMethod), Or(e.sinkIdentity, o.sinkIdentity),
         Or(e.sourceQualified, o.sourceQualified), Or(e.sinkQualified, o.sinkQualified))
  }

  /** Reports paired with different expectations that they are once the blanks are filled in. */
  ghost predicate Pairs(m: map<Item, Item>, expected: set<Item>, observed: set<Item>) {
    && m.Keys <= observed && m.Values <= expected
    && (forall o :: o in m ==> FilledFrom(m[o], o) == o)
    && forall o, p :: o in m && p in m && m[o] == m[p] ==> o == p
  }

  ghost predicate MostPairs(n: int, expected: set<Item>, observed: set<Item>) {
    && (exists m :: Pairs(m, expected, observed) && |m| == n)
    && forall m :: Pairs(m, expected, observed) ==> |m| <= n
  }

  /** The counts are those of as many pairs as there can be, and of what is left on either side. */
  ghost predicate CountsPairs(n: Counts, expected: set<Item>, observed: set<Item>) {
    MostPairs(n.tp, expected, observed) && n.fp == |observed| - n.tp && n.fn == |expected| - n.tp
  }

  lemma PairsAreMatchings(m: map<Item, Item>, expected: set<Item>, observed: set<Item>)
    ensures Pairs(m, expected, observed) <==> IsMatching(m, Graph(expected, observed))
  {
    forall o | o in m ensures FilledFrom(m[o], o) == o <==> Compatible(m[o], o) {
    }
    if Pairs(m, expected, observed) {
      assert forall o :: o in m ==> m[o] in m.Values;
    }
  }

  lemma BestCountsPairs(expected: set<Item>, observed: set<Item>)
    ensures CountsPairs(BestCounts(expected, observed), expected, observed)
  {
    var g := Graph(expected, observed);
    MaxMatchingIsMaximum(g);
    var best: map<Item, Item> :| IsMatching(best, g) && |best| == MaxMatching(g);
    PairsAreMatchings(best, expected, observed);
    forall m | Pairs(m, expected, observed) ensures |m| <= MaxMatching(g) {
      PairsAreMatchings(m, expected, observed);
    }
  }

  predicate Precise(e: Item) {
    && e.sourceLine.Some? && e.sourceMethod.Some? && e.sourceIdentity.Some? && e.sinkMethod.Some?
    && e.sinkIdentity.Some? && e.sourceQualified.Some? && e.sinkQualified.Some?
  }

  lemma PreciseMost(n: int, expected: set<Item>, observed: set<Item>)
    requires MostPairs(n, expected, observed) && forall e :: e in expected ==> Precise(e)
    ensures n == |expected * observed|
  {
    var both := expected * observed;
    var same := map o | o in both :: o;
    assert Pairs(same, expected, observed) && same.Keys == both && |same| == |same.Keys|;
    var most :| Pairs(most, expected, observed) && |most| == n;
    forall o | o in most ensures o in both {
      assert most[o] in most.Values && most[o] == o;
    }
    SubsetSize(most.Keys, both);
    assert |most| == |most.Keys|;
  }

  /** Without blanks the scores compare two sets. */
  lemma PreciseCounts(n: Counts, expected: set<Item>, observed: set<Item>)
    requires CountsPairs(n, expected, observed) && forall e :: e in expected ==> Precise(e)
    ensures n == Counts(|expected * observed|, |observed - expected|, |expected - observed|)
  {
    PreciseMost(n.tp, expected, observed);
    SplitSize(observed, expected);
    SplitSize(expected, observed);
    assert expected * observed == observed * expected;
  }

  lemma PairIsFilled(m: map<Item, Item>, e: Item, o: Item)
    requires Pairs(m, {e}, {o})
    ensures |m| <= 1 && (|m| == 1 ==> FilledFrom(e, o) == o)
  {
    assert |m| == |m.Keys|;
    SubsetSize(m.Keys, {o});
    if o in m {
      assert m[o] in m.Values;
    } else {
      assert m.Keys == {};
    }
  }

  lemma OnePair(n: int, e: Item, o: Item)
    requires MostPairs(n, {e}, {o})
    ensures n == if FilledFrom(e, o) == o then 1 else 0
  {
    var most :| Pairs(most, {e}, {o}) && |most| == n;
    PairIsFilled(most, e, o);
    if FilledFrom(e, o) == o {
      assert Pairs(map[o := e], {e}, {o});
    }
  }

  /** A report counts for an expectation exactly if it is the expectation with its blanks filled in. */
  lemma OneReport(e: Item, o: Item)
    ensures CaseScores(Case([e], Some([o]))) ==
            if FilledFrom(e, o) == o then Scores(1, 0, 0, 0, 0) else Scores(0, 1, 1, 0, 0)
  {
    var c := Case([e], Some([o]));
    assert Elements(c.expected) == {e} && Elements(Reports(c)) == {o};
    BestCountsPairs({e}, {o});
    OnePair(BestCounts({e}, {o}).tp, e, o);
  }

  /** Scoring an expectation against this one report finds it. */
  ghost function FoundBy(o: Item): Item -> bool {
    (e: Item) => CaseScores(Case([e], Some([o]))).tp == 1
  }

  /** Leaving a field blank is as good as filling it in from the report. */
  ghost predicate BlanksAreFilled(found: Item -> bool, e: Item, o: Item) {
    && (e.sourceLine.None? ==> found(e) == found(e.(sourceLine := o.sourceLine)))
    && (e.sourceMethod.None? ==> found(e) == found(e.(sourceMethod := o.sourceMethod)))
    && (e.sourceIdentity.None? ==> found(e) == found(e.(sourceIdentity := o.sourceIdentity)))
    && (e.sinkMethod.None? ==> found(e) == found(e.(sinkMethod := o.sinkMethod)))
    && (e.sinkIdentity.None? ==> found(e) == found(e.(sinkIdentity := o.sinkIdentity)))
    && (e.sourceQualified.None? ==> found(e) == found(e.(sourceQualified := o.sourceQualified)))
    && (e.sinkQualified.None? ==> found(e) == found(e.(sinkQualified := o.sinkQualified)))
  }

  lemma FillingIsBlank(found: Item -> bool, e: Item, o: Item)
    requires forall x :: found(x) <==> FilledFrom(x, o) == o
    ensures BlanksAreFilled(found, e, o) && (Precise(e) ==> (found(e) <==> e == o))
  {
  }

  /** A blank matches what any filling of it from the report would, and without blanks only the same matches. */
  lemma BlanksMatchAnything(e: Item, o: Item)
    ensures BlanksAreFilled(FoundBy(o), e, o) && (Precise(e) ==> (FoundBy(o)(e) <==> e == o))
  {
    forall x ensures FoundBy(o)(x) <==> FilledFrom(x, o) == o { OneReport(x, o); }
    FillingIsBlank(FoundBy(o), e, o);
  }

  /** What the row of a case says, without a graph. */
  ghost function Tells(c: Case): Scores -> bool {
    (s: Scores) =>
      && CountsPairs(Counts(s.tp, s.fp, s.fn), Elements(c.expected), Elements(Reports(c)))
      && s.duplicates == |Reports(c)| - |Elements(Reports(c))| && s.failed == (if c.reported.None? then 1 else 0)
      && ((forall e :: e in c.expected ==> Precise(e)) ==>
            && s.tp == |Elements(c.expected) * Elements(Reports(c))|
            && s.fp == |Elements(Reports(c)) - Elements(c.expected)|
            && s.fn == |Elements(c.expected) - Elements(Reports(c))|)
  }

  lemma CaseScoresTell(c: Case)
    ensures Tells(c)(CaseScores(c))
  {
    BestCountsPairs(Elements(c.expected), Elements(Reports(c)));
    if forall e :: e in c.expected ==> Precise(e) {
      PreciseCounts(BestCounts(Elements(c.expected), Elements(Reports(c))), Elements(c.expected),
                    Elements(Reports(c)));
    }
  }

  function OfCwe(items: set<Item>, cwe: string): set<Item> {
    set i | i in items && i.cwe == cwe
  }

  ghost function ClassCounts(c: Case, cwe: string): Counts {
    BestCounts(OfCwe(Elements(c.expected), cwe), OfCwe(Elements(Reports(c)), cwe))
  }

  function Classes(c: Case): set<string> {
    set i | i in c.expected + Reports(c) :: i.cwe
  }

  /** Edges never join two weakness classes. */
  lemma ClassIsPart(E: set<Item>, O: set<Item>, cwe: string)
    ensures IsPart(Graph(OfCwe(E, cwe), OfCwe(O, cwe)), Graph(E, O), OfCwe(O, cwe))
  {
  }

  /**
   The scores of a case are those of a largest matching, and so are the shares of every weakness
   class that the matched items split into.
   */
  method EvaluateCase(c: Case) returns (scores: Scores, matchedExpected: set<Item>, matchedObserved: set<Item>)
    ensures scores == CaseScores(c) && Tells(c)(scores)
    ensures matchedExpected <= Elements(c.expected) && matchedObserved <= Elements(Reports(c))
    ensures forall cwe :: ClassCounts(c, cwe) == SplitCounts(c, matchedExpected, matchedObserved, cwe)
  {
    var expected, observed := Elements(c.expected), Elements(Reports(c));
    var expectedOrder := Enumerate(expected);
    var observedOrder := Enumerate(observed);
    var matcher := new Matcher(expectedOrder, observedOrder);
    ghost var frozen := matcher.MatchAll(expectedOrder);
    matchedExpected, matchedObserved := matcher.owner.Values, matcher.owner.Keys;
    ClassShares(matcher.owner, c);
    scores := Scores(|matchedExpected|, |observed - matchedObserved|, |expected - matchedExpected|,
                     |Reports(c)| - |observed|, if c.reported.None? then 1 else 0);
    MatchedWithin(matcher.owner, expected, observed);
    CaseScoresTell(c);
  }

  /** The counts of one class as the source computes them, from the matched items of that class. */
  function SplitCounts(c: Case, matchedExpected: set<Item>, matchedObserved: set<Item>, cwe: string): Counts {
    Counts(|OfCwe(matchedExpected, cwe)|,
           |OfCwe(Elements(Reports(c)) - matchedObserved, cwe)|,
           |OfCwe(Elements(c.expected) - matchedExpected, cwe)|)
  }

  lemma ClassShares(m: map<Item, Item>, c: Case)
    requires IsMatching(m, Graph(Elements(c.expected), Elements(Reports(c))))
    requires |m| == MaxMatching(Graph(Elements(c.expected), Elements(Reports(c))))
    ensures forall cwe :: ClassCounts(c, cwe) == SplitCounts(c, m.Values, m.Keys, cwe)
  {
    forall cwe {
      ClassShare(m, c, cwe);
    }
  }

  lemma ClassShare(m: map<Item, Item>, c: Case, cwe: string)
    requires IsMatching(m, Graph(Elements(c.expected), Elements(Reports(c))))
    requires |m| == MaxMatching(Graph(Elements(c.expected), Elements(Reports(c))))
    ensures SplitCounts(c, m.Values, m.Keys, cwe) == ClassCounts(c, cwe)
  {
    var E, O := Elements(c.expected), Elements(Reports(c));
    ShareSizes(m, E, O, cwe);
    Complement(O, m.Keys, cwe);
    Complement(E, m.Values, cwe);
  }

  /** The part of a largest matching in one class is as large as a largest matching of the class. */
  lemma ShareSizes(m: map<Item, Item>, E: set<Item>, O: set<Item>, cwe: string)
    requires IsMatching(m, Graph(E, O)) && |m| == MaxMatching(Graph(E, O))
    ensures m.Keys <= O && m.Values <= E
    ensures |OfCwe(m.Values, cwe)| == |OfCwe(m.Keys, cwe)| == MaxMatching(Graph(OfCwe(E, cwe), OfCwe(O, cwe)))
  {
    var g, h, side := Graph(E, O), Graph(OfCwe(E, cwe), OfCwe(O, cwe)), OfCwe(O, cwe);
    ClassIsPart(E, O, cwe);
    LargestInEveryPart(m, h, g, side);
    OnIsMatching(m, h, g, side);
    ValuesSize(On(m, side));
    OwnersOfClass(m, E, O, cwe);
    KeysOfClass(m, O, cwe);
  }

  lemma KeysOfClass(m: map<Item, Item>, O: set<Item>, cwe: string)
    requires m.Keys <= O
    ensures m.Keys * OfCwe(O, cwe) == OfCwe(m.Keys, cwe)
  {
  }

  lemma OwnersOfClass(m: map<Item, Item>, E: set<Item>, O: set<Item>, cwe: string)
    requires AlongEdges(m, Graph(E, O))
    ensures On(m, OfCwe(O, cwe)).Values == OfCwe(m.Values, cwe)
  {
    forall e | e in OfCwe(m.Values, cwe) ensures e in On(m, OfCwe(O, cwe)).Values {
      var o :| o in m && m[o] == e;
      assert On(m, OfCwe(O, cwe))[o] == e;
    }
  }

  lemma Complement(all: set<Item>, matched: set<Item>, cwe: string)
    requires matched <= all
    ensures |OfCwe(all - matched, cwe)| == |OfCwe(all, cwe)| - |OfCwe(matched, cwe)|
  {
    SplitSize(OfCwe(all, cwe), OfCwe(matched, cwe));
    assert OfCwe(all, cwe) * OfCwe(matched, cwe) == OfCwe(matched, cwe);
    assert OfCwe(all, cwe) - OfCwe(matched, cwe) == OfCwe(all - matched, cwe);
  }

  // ----- the corpus -----

  datatype Report = Report(totals: Scores, byCwe: map<string, Counts>, rows: seq<Scores>)

  ghost predicate Valid(cases: seq<Case>) {
    cases != [] && forall i :: 0 <= i < |cases| ==> Distinct(cases[i].expected)
  }

  ghost function TotalScores(cases: seq<Case>): Scores {
    if cases == [] then Scores(0, 0, 0, 0, 0)
    else TotalScores(cases[..|cases| - 1]).Plus(CaseScores(cases[|cases| - 1]))
  }

  ghost function ClassTotals(cases: seq<Case>, cwe: string): (t: Counts) {
    if cases == [] then Counts(0, 0, 0)
    else ClassTotals(cases[..|cases| - 1], cwe).Plus(ClassCounts(cases[|cases| - 1], cwe))
  }

  ghost function AllClasses(cases: seq<Case>): set<string> {
    if cases == [] then {} else AllClasses(cases[..|cases| - 1]) + Classes(cases[|cases| - 1])
  }

  /** A class no instance of the case belongs to contributes nothing. */
  lemma AbsentClass(c: Case, cwe: string)
    requires cwe !in Classes(c)
    ensures ClassCounts(c, cwe) == Counts(0, 0, 0)
  {
    assert OfCwe(Elements(c.expected), cwe) == {} by {
      forall i | i in c.expected ensures i.cwe != cwe {
        assert i in c.expected + Reports(c);
      }
    }
    assert OfCwe(Elements(Reports(c)), cwe) == {} by {
      forall i | i in Reports(c) ensures i.cwe != cwe {
        assert i in c.expected + Reports(c);
      }
    }
  }

  lemma {:induction false} AbsentEverywhere(cases: seq<Case>, cwe: string)
    requires cwe !in AllClasses(cases)
    ensures ClassTotals(cases, cwe) == Counts(0, 0, 0)
  {
    if cases != [] {
      var n := |cases| - 1;
      AbsentEverywhere(cases[..n], cwe);
      AbsentClass(cases[n], cwe);
    }
  }

  ghost function TotalsOf(cases: seq<Case>): string -> Counts {
    cwe => ClassTotals(cases, cwe)
  }

  ghost predicate Tabulates(groups: map<string, Counts>, classes: set<string>, counts: string -> Counts) {
    groups.Keys == classes && forall cwe :: cwe in classes ==> groups[cwe] == counts(cwe)
  }

  lemma TabulateOne(groups: map<string, Counts>, classes: set<string>, f: string -> Counts, g: string -> Counts,
                    cwe: string)
    requires Tabulates(groups, classes, f)
    requires forall other :: other in classes && other != cwe ==> g(other) == f(other)
    ensures Tabulates(groups[cwe := g(cwe)], classes + {cwe}, g)
  {
  }

  /** The groups after some cases: one entry for every class seen, with the sums of its shares. */
  ghost predicate GroupsOf(groups: map<string, Counts>, cases: seq<Case>) {
    Tabulates(groups, AllClasses(cases), TotalsOf(cases))
  }

  /** The totals while the last case is being added: the classes in done already include it. */
  ghost function TotalsDuring(earlier: seq<Case>, c: Case, done: set<string>): string -> Counts {
    cwe => if cwe in done then ClassTotals(earlier + [c], cwe) else ClassTotals(earlier, cwe)
  }

  ghost predicate GroupsDuring(groups: map<string, Counts>, earlier: seq<Case>, c: Case, done: set<string>) {
    Tabulates(groups, AllClasses(earlier) + done, TotalsDuring(earlier, c, done))
  }

  function Entry(groups: map<string, Counts>, cwe: string): Counts {
    if cwe in groups then groups[cwe] else Counts(0, 0, 0)
  }

  lemma OneMoreTotal(earlier: seq<Case>, c: Case, cwe: string)
    ensures ClassTotals(earlier + [c], cwe) == ClassTotals(earlier, cwe).Plus(ClassCounts(c, cwe))
  {
    assert (earlier + [c])[..|earlier|] == earlier;
  }

  lemma OneMoreClass(groups: map<string, Counts>, earlier: seq<Case>, c: Case, done: set<string>, cwe: string,
                     entry: Counts)
    requires GroupsDuring(groups, earlier, c, done)
    requires entry == ClassTotals(earlier + [c], cwe)
    ensures GroupsDuring(groups[cwe := entry], earlier, c, done + {cwe})
  {
    var f, g := TotalsDuring(earlier, c, done), TotalsDuring(earlier, c, done + {cwe});
    TabulateOne(groups, AllClasses(earlier) + done, f, g, cwe);
    assert AllClasses(earlier) + done + {cwe} == AllClasses(earlier) + (done + {cwe});
  }

  lemma NewEntry(groups: map<string, Counts>, earlier: seq<Case>, c: Case, done: set<string>, cwe: string)
    requires GroupsDuring(groups, earlier, c, done) && cwe !in done
    ensures Entry(groups, cwe).Plus(ClassCounts(c, cwe)) == ClassTotals(earlier + [c], cwe)
  {
    OneMoreTotal(earlier, c, cwe);
    if cwe !in groups {
      AbsentEverywhere(earlier, cwe);
    }
  }

  lemma AllClassesDone(groups: map<string, Counts>, earlier: seq<Case>, c: Case)
    requires GroupsDuring(groups, earlier, c, Classes(c))
    ensures GroupsOf(groups, earlier + [c])
  {
    assert (earlier + [c])[..|earlier|] == earlier;
    forall cwe | cwe in groups && cwe !in Classes(c) ensures groups[cwe] == ClassTotals(earlier + [c], cwe) {
      OneMoreTotal(earlier, c, cwe);
      AbsentClass(c, cwe);
    }
  }

  /** Adds one case to the groups, class by class. */
  method AddToGroups(groups: map<string, Counts>, ghost earlier: seq<Case>, c: Case, matchedExpected: set<Item>,
                     matchedObserved: set<Item>)
    returns (r: map<string, Counts>)
    requires GroupsOf(groups, earlier)
    requires forall cwe :: ClassCounts(c, cwe) == SplitCounts(c, matchedExpected, matchedObserved, cwe)
    ensures GroupsOf(r, earlier + [c])
  {
    var classes := Enumerate(Classes(c));
    r := groups;
    var i := 0;
    while i < |classes|
      invariant 0 <= i <= |classes|
      invariant GroupsDuring(r, earlier, c, Elements(classes[..i]))
    {
      var cwe := classes[i];
      TakeOneMore(classes, i);
      NewEntry(r, earlier, c, Elements(classes[..i]), cwe);
      var entry := Entry(r, cwe).Plus(SplitCounts(c, matchedExpected, matchedObserved, cwe));
      OneMoreClass(r, earlier, c, Elements(classes[..i]), cwe, entry);
      r := r[cwe := entry];
      i := i + 1;
    }
    assert classes[..i] == classes;
    AllClassesDone(r, earlier, c);
  }

  /** One case: its row, and the groups with the case added. */
  method ScoreCase(groups: map<string, Counts>, ghost earlier: seq<Case>, c: Case)
    returns (scores: Scores, r: map<string, Counts>)
    requires GroupsOf(groups, earlier)
    ensures scores == CaseScores(c) && GroupsOf(r, earlier + [c])
  {
    var matchedExpected, matchedObserved;
    scores, matchedExpected, matchedObserved := EvaluateCase(c);
    r := AddToGroups(groups, earlier, c, matchedExpected, matchedObserved);
  }

  /** The corpus check: some case, and no two equal expectations inside one. */
  method Validate(cases: seq<Case>) returns (ok: bool)
    ensures ok <==> Valid(cases)
  {
    if cases == [] {
      return false;
    }
    var j := 0;
    while j < |cases|
      invariant 0 <= j <= |cases|
      invariant forall k :: 0 <= k < j ==> Distinct(cases[k].expected)
    {
      DistinctBySize(cases[j].expected);
      if |cases[j].expected| != |Elements(cases[j].expected)| {
        return false;
      }
      j := j + 1;
    }
    return true;
  }

  /**
   Scores a corpus. A corpus without cases, or with two equal expectations in one case, is refused;
   otherwise every number is the one a largest matching gives.
   */
  method EvaluateInstances(cases: seq<Case>) returns (r: Option<Report>)
    ensures r.Some? <==> Valid(cases)
    ensures r.Some? ==> r.value.totals == TotalScores(cases) && GroupsOf(r.value.byCwe, cases)
    ensures r.Some? ==> RowsOf(r.value.rows, cases) && Telling(r.value, cases)
  {
    var ok := Validate(cases);
    if !ok {
      return None;
    }
    var totals, groups, rows := Scores(0, 0, 0, 0, 0), map[], [];
    var i := 0;
    NothingReported(cases);
    while i < |cases|
      invariant 0 <= i <= |cases|
      invariant Reported(cases, i)(Report(totals, groups, rows))
    {
      var scores;
      ghost var before := Report(totals, groups, rows);
      ReportedParts(cases, i, before);
      scores, groups := ScoreCase(groups, cases[..i], cases[i]);
      OneMoreReport(cases, i, before, groups);
      totals := totals.Plus(scores);
      rows := rows + [scores];
      i := i + 1;
    }
    assert cases[..i] == cases;
    ReportedParts(cases, i, Report(totals, groups, rows));
    ReportTells(Report(totals, groups, rows), cases);
    return Some(Report(totals, groups, rows));
  }

  ghost function Total<T>(items: seq<T>, number: T -> int): int {
    if items == [] then 0 else Total(items[..|items| - 1], number) + number(items[|items| - 1])
  }

  /** Totals add up the rows, number by number. */
  ghost predicate AddsUp(totals: Scores, rows: seq<Scores>) {
    && totals.tp == Total(rows, (s: Scores) => s.tp) && totals.fp == Total(rows, (s: Scores) => s.fp)
    && totals.fn == Total(rows, (s: Scores) => s.fn)
    && totals.duplicates == Total(rows, (s: Scores) => s.duplicates)
    && totals.failed == Total(rows, (s: Scores) => s.failed)
  }

  ghost predicate CaseByCase(shares: seq<Counts>, cases: seq<Case>, cwe: string) {
    && |shares| == |cases|
    && forall k :: 0 <= k < |cases| ==>
         CountsPairs(shares[k], OfCwe(Elements(cases[k].expected), cwe), OfCwe(Elements(Reports(cases[k])), cwe))
  }

  ghost predicate SumsTo(shares: seq<Counts>, n: Counts) {
    && n.tp == Total(shares, (s: Counts) => s.tp) && n.fp == Total(shares, (s: Counts) => s.fp)
    && n.fn == Total(shares, (s: Counts) => s.fn)
  }

  lemma TotalMore<T>(items: seq<T>, x: T, number: T -> int)
    ensures Total(items + [x], number) == Total(items, number) + number(x)
  {
    assert (items + [x])[..|items|] == items;
  }

  lemma SumsMore(shares: seq<Counts>, n: Counts, x: Counts)
    requires SumsTo(shares, n)
    ensures SumsTo(shares + [x], n.Plus(x))
  {
    TotalMore(shares, x, (s: Counts) => s.tp);
    TotalMore(shares, x, (s: Counts) => s.fp);
    TotalMore(shares, x, (s: Counts) => s.fn);
  }

  /** An entry of the groups adds up what each case has of the class. */
  ghost predicate GroupAddsUp(n: Counts, cases: seq<Case>, cwe: string) {
    exists shares :: CaseByCase(shares, cases, cwe) && SumsTo(shares, n)
  }

  /** What a report says, without a graph. */
  ghost predicate Telling(r: Report, cases: seq<Case>) {
    && |r.rows| == |cases| && AddsUp(r.totals, r.rows)
    && (forall k :: 0 <= k < |cases| ==> Tells(cases[k])(r.rows[k]))
    && forall cwe :: cwe in r.byCwe ==> GroupAddsUp(r.byCwe[cwe], cases, cwe)
  }

  lemma {:induction false} TotalsAddUp(cases: seq<Case>, rows: seq<Scores>)
    requires RowsOf(rows, cases)
    ensures AddsUp(TotalScores(cases), rows)
  {
    if cases != [] {
      var n := |cases| - 1;
      TotalsAddUp(cases[..n], rows[..n]);
    }
  }

  lemma {:induction false} ClassAddsUp(cases: seq<Case>, cwe: string) returns (shares: seq<Counts>)
    ensures CaseByCase(shares, cases, cwe)
    ensures SumsTo(shares, ClassTotals(cases, cwe))
  {
    if cases == [] {
      shares := [];
    } else {
      var n := |cases| - 1;
      var earlier := ClassAddsUp(cases[..n], cwe);
      var share := ClassCounts(cases[n], cwe);
      SumsMore(earlier, ClassTotals(cases[..n], cwe), share);
      shares := earlier + [share];
      OneMoreCase(earlier, cases[..n], cases[n], cwe, share, shares, cases);
    }
  }

  lemma OneMoreCase(earlier: seq<Counts>, before: seq<Case>, c: Case, cwe: string, share: Counts, shares: seq<Counts>,
                    cases: seq<Case>)
    requires CaseByCase(earlier, before, cwe) && share == ClassCounts(c, cwe)
    requires shares == earlier + [share] && cases == before + [c]
    ensures CaseByCase(shares, cases, cwe)
  {
    BestCountsPairs(OfCwe(Elements(c.expected), cwe), OfCwe(Elements(Reports(c)), cwe));
  }

  lemma ReportTells(r: Report, cases: seq<Case>)
    requires r.totals == TotalScores(cases) && GroupsOf(r.byCwe, cases) && RowsOf(r.rows, cases)
    ensures Telling(r, cases)
  {
    TotalsAddUp(cases, r.rows);
    forall k | 0 <= k < |cases| ensures Tells(cases[k])(r.rows[k]) { CaseScoresTell(cases[k]); }
    forall cwe | cwe in r.byCwe ensures GroupAddsUp(r.byCwe[cwe], cases, cwe) {
      var shares := ClassAddsUp(cases, cwe);
    }
  }

  /** The report on the first i cases. */
  ghost function Reported(cases: seq<Case>, i: nat): Report -> bool
    requires i <= |cases|
  {
    (r: Report) => r.totals == TotalScores(cases[..i]) && GroupsOf(r.byCwe, cases[..i]) && RowsOf(r.rows, cases[..i])
  }

  lemma NothingReported(cases: seq<Case>)
    ensures Reported(cases, 0)(Report(Scores(0, 0, 0, 0, 0), map[], []))
  {
    assert cases[..0] == [];
    assert GroupsOf(map[], []) && RowsOf([], []);
  }

  lemma ReportedParts(cases: seq<Case>, i: nat, r: Report)
    requires i <= |cases| && Reported(cases, i)(r)
    ensures r.totals == TotalScores(cases[..i]) && GroupsOf(r.byCwe, cases[..i]) && RowsOf(r.rows, cases[..i])
  {
  }

  lemma OneMoreReport(cases: seq<Case>, i: nat, r: Report, groups: map<string, Counts>)
    requires i < |cases| && Reported(cases, i)(r) && GroupsOf(groups, cases[..i] + [cases[i]])
    ensures Reported(cases, i + 1)(Report(r.totals.Plus(CaseScores(cases[i])), groups, r.rows + [CaseScores(cases[i])]))
  {
    assert cases[..i + 1] == cases[..i] + [cases[i]];
    OneMoreScore(cases[..i], cases[i], r.rows);
  }

  ghost predicate RowsOf(rows: seq<Scores>, cases: seq<Case>) {
    |rows| == |cases| && forall k :: 0 <= k < |cases| ==> rows[k] == CaseScores(cases[k])
  }

  lemma OneMoreScore(earlier: seq<Case>, c: Case, rows: seq<Scores>)
    requires RowsOf(rows, earlier)
    ensures TotalScores(earlier + [c]) == TotalScores(earlier).Plus(CaseScores(c))
    ensures RowsOf(rows + [CaseScores(c)], earlier + [c])
  {
    assert (earlier + [c])[..|earlier|] == earlier;
  }

  // ----- conservation -----

  /** Every expectation is found or missed, and every report is right, wrong or a duplicate. */
  lemma ScoresConserve(c: Case)
    ensures var s := CaseScores(c);
            && 0 <= s.tp && 0 <= s.fp && 0 <= s.fn && 0 <= s.duplicates
            && s.tp + s.fn == |Elements(c.expected)|
            && s.tp + s.fp + s.duplicates == |Reports(c)|
  {
    var g := Graph(Elements(c.expected), Elements(Reports(c)));
    MaxMatchingIsMaximum(g);
    var best: map<Item, Item> :| IsMatching(best, g) && |best| == MaxMatching(g);
    ValuesSize(best);
    SubsetSize(best.Keys, Elements(Reports(c)));
    SubsetSize(best.Values, Elements(c.expected));
    DistinctBySize(Reports(c));
  }

  ghost function Pick(classes: set<string>): string
    requires classes != {}
  {
    var cwe :| cwe in classes; cwe
  }

  ghost function SumOver(classes: set<string>, share: string -> Counts): Counts {
    if classes == {} then Counts(0, 0, 0)
    else share(Pick(classes)).Plus(SumOver(classes - {Pick(classes)}, share))
  }

  lemma RegroupCounts(a: Counts, b: Counts, c: Counts, d: Counts)
    ensures a.Plus(b).Plus(c.Plus(d)) == a.Plus(c).Plus(b.Plus(d))
  {
  }

  lemma PeelSum(classes: set<string>, share: string -> Counts)
    requires classes != {}
    ensures SumOver(classes, share) == share(Pick(classes)).Plus(SumOver(classes - {Pick(classes)}, share))
  {
  }

  lemma {:induction false} SumOverAdds(classes: set<string>, f: string -> Counts, g: string -> Counts,
                                       h: string -> Counts)
    requires forall cwe :: h(cwe) == f(cwe).Plus(g(cwe))
    ensures SumOver(classes, h) == SumOver(classes, f).Plus(SumOver(classes, g))
  {
    if classes != {} {
      var cwe := Pick(classes);
      var rest := classes - {cwe};
      SumOverAdds(rest, f, g, h);
      PeelSum(classes, f);
      PeelSum(classes, g);
      PeelSum(classes, h);
      RegroupCounts(f(cwe), g(cwe), SumOver(rest, f), SumOver(rest, g));
    }
  }

  lemma {:induction false} SumOverZero(classes: set<string>, f: string -> Counts)
    requires forall cwe :: f(cwe) == Counts(0, 0, 0)
    ensures SumOver(classes, f) == Counts(0, 0, 0)
  {
    if classes != {} {
      SumOverZero(classes - {Pick(classes)}, f);
    }
  }

  ghost function SharesOf(c: Case): string -> Counts {
    cwe => ClassCounts(c, cwe)
  }

  ghost function Within(items: set<Item>, classes: set<string>): set<Item> {
    set i | i in items && i.cwe in classes
  }

  /** Sizes by class add up, whatever the items are. */
  lemma {:induction false} SharesAddUp(right: set<Item>, wrong: set<Item>, missed: set<Item>, classes: set<string>,
                                       share: string -> Counts)
    requires forall cwe :: share(cwe) == Counts(|OfCwe(right, cwe)|, |OfCwe(wrong, cwe)|, |OfCwe(missed, cwe)|)
    ensures SumOver(classes, share) == Counts(|Within(right, classes)|, |Within(wrong, classes)|,
                                              |Within(missed, classes)|)
  {
    if classes == {} {
      assert Within(right, {}) == {} && Within(wrong, {}) == {} && Within(missed, {}) == {};
    } else {
      var cwe := Pick(classes);
      SharesAddUp(right, wrong, missed, classes - {cwe}, share);
      PeelClass(right, classes, cwe);
      PeelClass(wrong, classes, cwe);
      PeelClass(missed, classes, cwe);
    }
  }

  lemma PeelClass(items: set<Item>, classes: set<string>, cwe: string)
    requires cwe in classes
    ensures |Within(items, classes)| == |OfCwe(items, cwe)| + |Within(items, classes - {cwe})|
  {
    assert Within(items, classes) == OfCwe(items, cwe) + Within(items, classes - {cwe});
  }

  lemma AllWithin(c: Case, classes: set<string>, items: set<Item>)
    requires Classes(c) <= classes && items <= Elements(c.expected) + Elements(Reports(c))
    ensures Within(items, classes) == items
  {
    forall i: Item | i in items ensures i.cwe in classes {
      assert i in c.expected + Reports(c);
    }
  }

  lemma SumOfShares(m: map<Item, Item>, classes: set<string>, c: Case)
    requires IsMatching(m, Graph(Elements(c.expected), Elements(Reports(c))))
    requires |m| == MaxMatching(Graph(Elements(c.expected), Elements(Reports(c))))
    ensures SumOver(classes, SharesOf(c)) ==
            Counts(|Within(m.Values, classes)|,
                   |Within(Elements(Reports(c)) - m.Keys, classes)|,
                   |Within(Elements(c.expected) - m.Values, classes)|)
  {
    forall cwe
      ensures SharesOf(c)(cwe) == SplitCounts(c, m.Values, m.Keys, cwe)
    {
      ClassShare(m, c, cwe);
    }
    SharesAddUp(m.Values, Elements(Reports(c)) - m.Keys, Elements(c.expected) - m.Values, classes, SharesOf(c));
  }

  lemma CaseSumsUp(classes: set<string>, c: Case)
    requires Classes(c) <= classes
    ensures var s := CaseScores(c); SumOver(classes, SharesOf(c)) == Counts(s.tp, s.fp, s.fn)
  {
    var E, O := Elements(c.expected), Elements(Reports(c));
    var g := Graph(E, O);
    MaxMatchingIsMaximum(g);
    var m: map<Item, Item> :| IsMatching(m, g) && |m| == MaxMatching(g);
    SumOfShares(m, classes, c);
    MatchedWithin(m, E, O);
    AllWithin(c, classes, m.Values);
    AllWithin(c, classes, O - m.Keys);
    AllWithin(c, classes, E - m.Values);
  }

  lemma MatchedWithin(m: map<Item, Item>, E: set<Item>, O: set<Item>)
    requires IsMatching(m, Graph(E, O))
    ensures m.Keys <= O && m.Values <= E && |m.Values| == |m|
    ensures |O - m.Keys| == |O| - |m| && |E - m.Values| == |E| - |m|
  {
    ValuesSize(m);
    SplitSize(O, m.Keys);
    SplitSize(E, m.Values);
    assert O * m.Keys == m.Keys && E * m.Values == m.Values;
  }

  /** The per-weakness groups of a report add up to its totals. */
  lemma {:induction false} GroupsAddUp(classes: set<string>, cases: seq<Case>)
    requires AllClasses(cases) <= classes
    ensures var t := TotalScores(cases); SumOver(classes, TotalsOf(cases)) == Counts(t.tp, t.fp, t.fn)
  {
    if cases == [] {
      SumOverZero(classes, TotalsOf(cases));
    } else {
      var earlier, c := cases[..|cases| - 1], cases[|cases| - 1];
      LastClasses(cases, earlier, c);
      GroupsAddUp(classes, earlier);
      GroupsAddCase(classes, cases, earlier, c);
    }
  }

  lemma LastClasses(cases: seq<Case>, earlier: seq<Case>, c: Case)
    requires cases == earlier + [c]
    ensures AllClasses(cases) == AllClasses(earlier) + Classes(c)
  {
    assert cases[..|earlier|] == earlier;
  }

  lemma GroupsAddCase(classes: set<string>, cases: seq<Case>, earlier: seq<Case>, c: Case)
    requires cases == earlier + [c] && Classes(c) <= classes
    requires var t := TotalScores(earlier); SumOver(classes, TotalsOf(earlier)) == Counts(t.tp, t.fp, t.fn)
    ensures var t := TotalScores(cases); SumOver(classes, TotalsOf(cases)) == Counts(t.tp, t.fp, t.fn)
  {
    CaseSumsUp(classes, c);
    TotalsGrow(cases, earlier, c);
    SumsAdd(classes, TotalScores(earlier), CaseScores(c), TotalsOf(earlier), SharesOf(c), TotalsOf(cases));
  }

  lemma TotalsGrow(cases: seq<Case>, earlier: seq<Case>, c: Case)
    requires cases == earlier + [c]
    ensures TotalScores(cases) == TotalScores(earlier).Plus(CaseScores(c))
    ensures forall cwe :: TotalsOf(cases)(cwe) == TotalsOf(earlier)(cwe).Plus(SharesOf(c)(cwe))
  {
    assert cases[..|earlier|] == earlier;
  }

  lemma SumsAdd(classes: set<string>, before: Scores, one: Scores, f: string -> Counts, g: string -> Counts,
                h: string -> Counts)
    requires SumOver(classes, f) == Counts(before.tp, before.fp, before.fn)
             && SumOver(classes, g) == Counts(one.tp, one.fp, one.fn)
    requires forall cwe :: h(cwe) == f(cwe).Plus(g(cwe))
    ensures var t := before.Plus(one); SumOver(classes, h) == Counts(t.tp, t.fp, t.fn)
  {
    SumOverAdds(classes, f, g, h);
  }
}
